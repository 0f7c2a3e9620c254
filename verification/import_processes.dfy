/** The import-process service: pagination by slicing, the multi-criteria filter of the process
    list, the `DD/MM/YYYY` date parser it relies on, the distinct-value lists for the filter menus,
    and the lookup-and-merge update. The process list, which the service builds from mock data, is a
    parameter. */
module ImportProcesses {
  import opened Wrappers
  import opened Text
  import Seqs
  import JsSlice

  /** The service's process record, with the optional fields the operations read or merge. */
  datatype Process = Process(
    id: string, client: string, product: string, origin: string, status: string, date: string,
    ncm: Option<string>, description: Option<string>, supplier: Option<string>)

  // ---------------------------------------------------------------------------------------------
  // Pagination

  /** `getPaginatedProcesses(processes, page, pageSize)`. */
  function Page<T>(processes: seq<T>, page: int, pageSize: int): (r: seq<T>)
    ensures |r| <= |processes|
    ensures 1 <= page && 1 <= pageSize && page * pageSize <= |processes| ==>
              r == processes[(page - 1) * pageSize..page * pageSize]
  {
    var startIndex := (page - 1) * pageSize;
    assert startIndex + pageSize == page * pageSize;
    assert 1 <= page && 1 <= pageSize ==> startIndex >= 0 by {
      if 1 <= page && 1 <= pageSize {
        ProductNonNegative(page - 1, pageSize);
      }
    }
    JsSlice.Slice(processes, startIndex, startIndex + pageSize)
  }

  /** For positive page numbers and sizes, a page is the window `[(page-1)*size, page*size)` clipped
      to the list, so it holds at most `pageSize` processes. */
  lemma PageWindow<T>(processes: seq<T>, page: int, pageSize: int)
    requires page >= 1 && pageSize >= 1
    ensures var lo := (page - 1) * pageSize;
            var hi := page * pageSize;
            Page(processes, page, pageSize) ==
              if lo >= |processes| then [] else processes[lo..if hi <= |processes| then hi else |processes|]
    ensures |Page(processes, page, pageSize)| <= pageSize
  {
    var lo := (page - 1) * pageSize;
    assert lo >= 0 by { ProductNonNegative(page - 1, pageSize); }
    assert lo + pageSize == page * pageSize;
  }

  lemma ProductNonNegative(a: int, b: int)
    requires a >= 0 && b >= 0
    ensures a * b >= 0
  {
  }

  /** The concatenation of pages `1..k`. */
  function FirstPages<T>(processes: seq<T>, k: nat, pageSize: int): seq<T> {
    if k == 0 then [] else FirstPages(processes, k - 1, pageSize) + Page(processes, k, pageSize)
  }

  /** Consecutive pages are disjoint, in order, and together cover the list: the first `k` pages
      are exactly the first `k * pageSize` processes (or all of them). */
  lemma {:induction false} PagesCover<T>(processes: seq<T>, k: nat, pageSize: int)
    requires pageSize >= 1
    ensures FirstPages(processes, k, pageSize) == processes[..Clip(k * pageSize, |processes|)]
  {
    if k > 0 {
      PagesCover(processes, k - 1, pageSize);
      var n := |processes|;
      var lo, hi := (k - 1) * pageSize, k * pageSize;
      NextMultiple(k - 1, pageSize);
      PageWindow(processes, k, pageSize);
      var prefix := processes[..Clip(lo, n)];
      assert FirstPages(processes, k, pageSize) == prefix + Page(processes, k, pageSize);
      if lo < n {
        assert Page(processes, k, pageSize) == processes[lo..Clip(hi, n)];
        assert prefix + processes[lo..Clip(hi, n)] == processes[..Clip(hi, n)];
      } else {
        assert Page(processes, k, pageSize) == [];
        assert Clip(hi, n) == n == Clip(lo, n);
      }
    }
  }

  /** `min(i, n)`. */
  function Clip(i: int, n: nat): (r: nat)
    requires i >= 0
    ensures r <= n && r <= i && (r == i || r == n)
  {
    if i <= n then i else n
  }

  lemma NextMultiple(a: nat, b: int)
    requires b >= 1
    ensures (a + 1) * b == a * b + b && a * b >= 0
  {
    ProductNonNegative(a, b);
  }

  /** Enough pages show every process. */
  lemma AllPagesShowAll<T>(processes: seq<T>, pageSize: int)
    requires pageSize >= 1
    ensures var pages := (|processes| + pageSize - 1) / pageSize;
            FirstPages(processes, pages, pageSize) == processes
  {
    var pages := (|processes| + pageSize - 1) / pageSize;
    PagesCover(processes, pages, pageSize);
    CeilingCovers(|processes|, pageSize);
    assert Clip(pages * pageSize, |processes|) == |processes|;
  }

  lemma CeilingCovers(n: nat, d: int)
    requires d >= 1
    ensures ((n + d - 1) / d) * d >= n
  {
    var q := (n + d - 1) / d;
    assert q * d + (n + d - 1) % d == n + d - 1;
  }

  // ---------------------------------------------------------------------------------------------
  // Dates

  /** JavaScript `Number(s)` on a date component, restricted to digit strings: a string of ASCII
      digits (the empty string reads as 0) gives its value; other strings are treated as
      unparsable, as is a missing component (`None`, standing for `NaN`). */
  function NumberOf(s: Option<string>): (r: Option<int>)
    ensures r.Some? <==> s.Some? && AllDigits(s.value)
    ensures r.Some? ==> r.value >= 0
  {
    if s.Some? && AllDigits(s.value) then Some(ParseNat(s.value) as int) else None
  }

  /** Days from 1970-01-01 to the proleptic Gregorian date `y-m-d`, for `1 <= m <= 12`. */
  function DaysFromCivil(y: int, m: int, d: int): int
    requires 1 <= m <= 12
  {
    var y' := if m <= 2 then y - 1 else y;
    var era := y' / 400;
    var yoe := y' - era * 400;
    var mp := if m > 2 then m - 3 else m + 9;
    var doy := (153 * mp + 2) / 5 + d - 1;
    var doe := yoe * 365 + yoe / 4 - yoe / 100 + doy;
    era * 146097 + doe - 719468
  }

  lemma DaysFromCivilAnchors()
    ensures DaysFromCivil(1970, 1, 1) == 0
    ensures DaysFromCivil(2000, 3, 1) == 11017
    ensures DaysFromCivil(2025, 5, 15) == 20223
  {
  }

  const MsPerDay: int := 86400000

  /** `new Date(year, monthIndex, day)` as local-time milliseconds: two-digit years mean 19xx, and
      out-of-range months and days roll over into the next year or month. */
  function MakeDate(year: int, monthIndex: int, day: int): (r: int)
    ensures 0 <= monthIndex < 12 && year >= 100 ==> r == (DaysFromCivil(year, monthIndex + 1, 1) + day - 1) * MsPerDay
  {
    var y := if 0 <= year <= 99 then 1900 + year else year;
    var ym := y + monthIndex / 12;
    var mn := monthIndex % 12;
    (DaysFromCivil(ym, mn + 1, 1) + day - 1) * MsPerDay
  }

  /** `parseDate`: `DD/MM/YYYY` split on `/`, each part through `Number`, into a local date;
      `None` is the invalid date a `NaN` component produces. */
  function ParseDate(date: string): (r: Option<int>)
    ensures var parts := Split(date, '/');
            r.Some? <==> |parts| >= 3 && AllDigits(parts[0]) && AllDigits(parts[1]) && AllDigits(parts[2])
  {
    DateOfParts(Split(date, '/'))
  }

  /** `[day, month, year] = parts.map(Number)` then `new Date(year, month - 1, day)`. */
  function DateOfParts(parts: seq<string>): (r: Option<int>)
    ensures r.Some? <==> |parts| >= 3 && AllDigits(parts[0]) && AllDigits(parts[1]) && AllDigits(parts[2])
  {
    var day := NumberOf(if |parts| > 0 then Some(parts[0]) else None);
    var month := NumberOf(if |parts| > 1 then Some(parts[1]) else None);
    var year := NumberOf(if |parts| > 2 then Some(parts[2]) else None);
    if day.Some? && month.Some? && year.Some? then Some(MakeDate(year.value, month.value - 1, day.value)) else None
  }

  /** Three separator-free components joined by `/` split back into those components. */
  lemma SplitSlashed(dd: string, mm: string, yyyy: string)
    requires '/' !in dd && '/' !in mm && '/' !in yyyy
    ensures Split(dd + "/" + mm + "/" + yyyy, '/') == [dd, mm, yyyy]
  {
    var tail := mm + "/" + yyyy;
    assert dd + "/" + mm + "/" + yyyy == dd + ['/'] + tail;
    SplitAtSeparator(dd, '/', tail);
    assert tail == mm + ['/'] + yyyy;
    SplitAtSeparator(mm, '/', yyyy);
    SplitNoSeparator(yyyy, '/');
  }

  /** Three digit strings are read as `new Date(year, month - 1, day)`. */
  lemma DateOfDigits(dd: string, mm: string, yyyy: string)
    requires AllDigits(dd) && AllDigits(mm) && AllDigits(yyyy)
    ensures DateOfParts([dd, mm, yyyy]) == Some(MakeDate(ParseNat(yyyy), ParseNat(mm) - 1, ParseNat(dd)))
  {
    var parts := [dd, mm, yyyy];
    assert parts[0] == dd && parts[1] == mm && parts[2] == yyyy;
    assert NumberOf(Some(dd)) == Some(ParseNat(dd) as int);
    assert NumberOf(Some(mm)) == Some(ParseNat(mm) as int);
    assert NumberOf(Some(yyyy)) == Some(ParseNat(yyyy) as int);
  }

  /** A well-formed `DD/MM/YYYY` date parses to `new Date(YYYY, MM - 1, DD)`, which for a month
      in range and a year of at least 100 is local midnight of that day. */
  lemma ParseDateOfSlashed(dd: string, mm: string, yyyy: string)
    requires AllDigits(dd) && AllDigits(mm) && AllDigits(yyyy)
    ensures ParseDate(dd + "/" + mm + "/" + yyyy) == Some(MakeDate(ParseNat(yyyy), ParseNat(mm) - 1, ParseNat(dd)))
  {
    assert '/' !in dd && '/' !in mm && '/' !in yyyy by {
      assert !IsDigit('/');
    }
    SplitSlashed(dd, mm, yyyy);
    DateOfDigits(dd, mm, yyyy);
  }

  // ---------------------------------------------------------------------------------------------
  // Filtering

  /** The optional `{start, end}` range, bounds as local-time milliseconds. */
  datatype Range = Range(start: Option<int>, end: Option<int>)

  /** The criteria of `filterProcesses`; `renderedDate` is `filterDate` already rendered as the
      `pt-BR` `DD/MM/YYYY` string the code searches for. */
  datatype Criteria = Criteria(
    searchTerm: string, status: string, renderedDate: Option<string>, origin: string, client: string,
    range: Option<Range>)

  const NoCriteria: Criteria := Criteria("", "", None, "", "", None)

  predicate IncludesIgnoringCase(field: string, term: string) {
    Contains(Lower(field), Lower(term))
  }

  predicate MatchesSearch(p: Process, term: string) {
    term == ""
    || IncludesIgnoringCase(p.id, term) || IncludesIgnoringCase(p.client, term)
    || IncludesIgnoringCase(p.product, term) || IncludesIgnoringCase(p.origin, term)
    || (p.ncm.Some? && p.ncm.value != "" && IncludesIgnoringCase(p.ncm.value, term))
  }

  /** Comparisons with an invalid date are false. */
  predicate MatchesRange(p: Process, range: Option<Range>) {
    if range.None? || (range.value.start.None? && range.value.end.None?) then true
    else
      var d := ParseDate(p.date);
      d.Some?
      && (range.value.start.Some? ==> d.value >= range.value.start.value)
      && (range.value.end.Some? ==> d.value <= range.value.end.value)
  }

  predicate Matches(p: Process, c: Criteria) {
    && MatchesSearch(p, c.searchTerm)
    && (c.status == "" || p.status == c.status)
    && (c.renderedDate.None? || Contains(p.date, c.renderedDate.value))
    && (c.origin == "" || IncludesIgnoringCase(p.origin, c.origin))
    && (c.client == "" || IncludesIgnoringCase(p.client, c.client))
    && MatchesRange(p, c.range)
  }

  /** `filterProcesses`. */
  function FilterProcesses(processes: seq<Process>, c: Criteria): (r: seq<Process>)
    ensures Seqs.IsSubsequence(r, processes)
    ensures forall i :: 0 <= i < |r| ==> Matches(r[i], c)
    ensures forall i :: 0 <= i < |processes| && Matches(processes[i], c) ==> processes[i] in r
  {
    Seqs.Filter(processes, p => Matches(p, c))
  }

  /** With every criterion at its default, nothing is filtered out. */
  lemma DefaultsKeepAll(processes: seq<Process>)
    ensures FilterProcesses(processes, NoCriteria) == processes
  {
    Seqs.FilterKeepsAll(processes, p => Matches(p, NoCriteria));
  }

  /** A range keeps a process exactly when its parsed date is valid and lies between the given
      bounds, both inclusive. */
  lemma RangeInclusive(p: Process, start: int, end: int)
    ensures MatchesRange(p, Some(Range(Some(start), Some(end)))) <==>
              ParseDate(p.date).Some? && start <= ParseDate(p.date).value <= end
  {
  }

  /** Status matches by exact equality; origin and client by case-insensitive substring. */
  lemma SingleCriteria(p: Process, status: string, origin: string, client: string)
    ensures status != "" ==> (Matches(p, NoCriteria.(status := status)) <==> p.status == status)
    ensures origin != "" ==>
              (Matches(p, NoCriteria.(origin := origin)) <==> Contains(Lower(p.origin), Lower(origin)))
    ensures client != "" ==>
              (Matches(p, NoCriteria.(client := client)) <==> Contains(Lower(p.client), Lower(client)))
  {
  }

  // ---------------------------------------------------------------------------------------------
  // Distinct values and update

  /** `getDistinctStatuses`, `getDistinctOrigins` and `getDistinctClients`: the field's values in
      order of first occurrence. */
  function DistinctBy(processes: seq<Process>, field: Process -> string): (r: seq<string>)
    ensures Seqs.NoDuplicates(r)
    ensures forall i :: 0 <= i < |processes| ==> field(processes[i]) in r
    ensures forall i :: 0 <= i < |r| ==> exists j :: 0 <= j < |processes| && r[i] == field(processes[j])
    ensures Seqs.InFirstOccurrenceOrder(r, Seqs.Map(processes, field))
  {
    var values := Seqs.Map(processes, field);
    var r := Seqs.Distinct(values);
    Seqs.SubsequenceMembers(r, values);
    assert forall i :: 0 <= i < |r| ==> r[i] in values;
    r
  }

  function DistinctStatuses(processes: seq<Process>): (r: seq<string>)
    ensures Seqs.NoDuplicates(r)
    ensures forall x :: x in r <==> exists i :: 0 <= i < |processes| && processes[i].status == x
  {
    DistinctBy(processes, (p: Process) => p.status)
  }

  function DistinctOrigins(processes: seq<Process>): (r: seq<string>)
    ensures Seqs.NoDuplicates(r)
    ensures forall x :: x in r <==> exists i :: 0 <= i < |processes| && processes[i].origin == x
  {
    DistinctBy(processes, (p: Process) => p.origin)
  }

  function DistinctClients(processes: seq<Process>): (r: seq<string>)
    ensures Seqs.NoDuplicates(r)
    ensures forall x :: x in r <==> exists i :: 0 <= i < |processes| && processes[i].client == x
  {
    DistinctBy(processes, (p: Process) => p.client)
  }

  /** The fields a `Partial<Process>` sets; an absent field is `None`. */
  datatype ProcessUpdate = ProcessUpdate(
    id: Option<string>, client: Option<string>, product: Option<string>, origin: Option<string>,
    status: Option<string>, date: Option<string>, ncm: Option<string>, description: Option<string>,
    supplier: Option<string>)

  const NoUpdate: ProcessUpdate := ProcessUpdate(None, None, None, None, None, None, None, None, None)

  /** The identifying fields of `{ ...process, ...updates }`: id, client, product and origin. */
  function MergeNames(p: Process, u: ProcessUpdate): (r: Process)
    ensures u.id.Some? ==> r.id == u.id.value
    ensures u.id.None? ==> r.id == p.id
    ensures u.client.Some? ==> r.client == u.client.value
    ensures u.client.None? ==> r.client == p.client
    ensures u.product.Some? ==> r.product == u.product.value
    ensures u.product.None? ==> r.product == p.product
    ensures u.origin.Some? ==> r.origin == u.origin.value
    ensures u.origin.None? ==> r.origin == p.origin
    ensures r.status == p.status && r.date == p.date
    ensures r.ncm == p.ncm && r.description == p.description && r.supplier == p.supplier
  {
    p.(id := if u.id.Some? then u.id.value else p.id,
       client := if u.client.Some? then u.client.value else p.client,
       product := if u.product.Some? then u.product.value else p.product,
       origin := if u.origin.Some? then u.origin.value else p.origin)
  }

  /** The status and date of `{ ...process, ...updates }`. */
  function MergeState(p: Process, u: ProcessUpdate): (r: Process)
    ensures u.status.Some? ==> r.status == u.status.value
    ensures u.status.None? ==> r.status == p.status
    ensures u.date.Some? ==> r.date == u.date.value
    ensures u.date.None? ==> r.date == p.date
    ensures r.id == p.id && r.client == p.client && r.product == p.product && r.origin == p.origin
    ensures r.ncm == p.ncm && r.description == p.description && r.supplier == p.supplier
  {
    p.(status := if u.status.Some? then u.status.value else p.status,
       date := if u.date.Some? then u.date.value else p.date)
  }

  /** The optional fields of `{ ...process, ...updates }`: ncm, description and supplier. */
  function MergeDetails(p: Process, u: ProcessUpdate): (r: Process)
    ensures u.ncm.Some? ==> r.ncm == u.ncm
    ensures u.ncm.None? ==> r.ncm == p.ncm
    ensures u.description.Some? ==> r.description == u.description
    ensures u.description.None? ==> r.description == p.description
    ensures u.supplier.Some? ==> r.supplier == u.supplier
    ensures u.supplier.None? ==> r.supplier == p.supplier
    ensures r.id == p.id && r.client == p.client && r.product == p.product && r.origin == p.origin
    ensures r.status == p.status && r.date == p.date
  {
    p.(ncm := if u.ncm.Some? then u.ncm else p.ncm,
       description := if u.description.Some? then u.description else p.description,
       supplier := if u.supplier.Some? then u.supplier else p.supplier)
  }

  /** `{ ...process, ...updates }`: every field the update sets replaces the process's, every other
      field is kept. */
  function Merge(p: Process, u: ProcessUpdate): (r: Process)
    ensures u.status.Some? ==> r.status == u.status.value
    ensures u.status.None? ==> r.status == p.status
    ensures u.id.Some? ==> r.id == u.id.value
    ensures u.id.None? ==> r.id == p.id
    ensures u.client.Some? ==> r.client == u.client.value
    ensures u.client.None? ==> r.client == p.client
    ensures u.product.Some? ==> r.product == u.product.value
    ensures u.product.None? ==> r.product == p.product
    ensures u.origin.Some? ==> r.origin == u.origin.value
    ensures u.origin.None? ==> r.origin == p.origin
    ensures u.date.Some? ==> r.date == u.date.value
    ensures u.date.None? ==> r.date == p.date
    ensures u.ncm.Some? ==> r.ncm == u.ncm
    ensures u.ncm.None? ==> r.ncm == p.ncm
    ensures u.description.Some? ==> r.description == u.description
    ensures u.description.None? ==> r.description == p.description
    ensures u.supplier.Some? ==> r.supplier == u.supplier
    ensures u.supplier.None? ==> r.supplier == p.supplier
  {
    MergeDetails(MergeState(MergeNames(p, u), u), u)
  }

  /** An update that sets nothing leaves the process as it was. */
  lemma MergeNothing(p: Process)
    ensures Merge(p, NoUpdate) == p
  {
  }

  /** Applying the same update twice is applying it once. */
  lemma MergeIdempotent(p: Process, u: ProcessUpdate)
    ensures Merge(Merge(p, u), u) == Merge(p, u)
  {
  }

  /** `findIndex(p => p.id === id)`. */
  function FindIndex(processes: seq<Process>, id: string): (r: Option<nat>)
    ensures r.None? <==> forall i :: 0 <= i < |processes| ==> processes[i].id != id
    ensures r.Some? ==> r.value < |processes| && processes[r.value].id == id
                        && forall i :: 0 <= i < r.value ==> processes[i].id != id
    decreases |processes|
  {
    if processes == [] then None
    else if processes[0].id == id then Some(0)
    else match FindIndex(processes[1..], id)
      case None => None
      case Some(i) => Some(i + 1)
  }

  /** `updateProcess`: `undefined` when no process has the id, else the first one merged with the
      updates. */
  function UpdateProcess(processes: seq<Process>, id: string, updates: ProcessUpdate): (r: Option<Process>)
    ensures r.None? <==> forall i :: 0 <= i < |processes| ==> processes[i].id != id
    ensures r.Some? ==> exists i :: 0 <= i < |processes| && processes[i].id == id
                          && (forall j :: 0 <= j < i ==> processes[j].id != id)
                          && r.value == Merge(processes[i], updates)
  {
    match FindIndex(processes, id)
    case None => None
    case Some(i) => Some(Merge(processes[i], updates))
  }
}
