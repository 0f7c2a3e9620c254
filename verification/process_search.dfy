/** The search and filter functions over the advanced process list. Each keeps the processes that
    satisfy one criterion, in their original order, and returns the list unchanged when the
    criterion is empty. */
module ProcessSearch {
  import opened Wrappers
  import opened Text
  import Seqs

  /** The advanced list's process record; optional fields are `undefined` when absent. */
  datatype Process = Process(
    id: string, client: string, product: string, origin: string, status: string, date: string,
    value: string, category: string,
    trackingNumber: Option<string>, blNumber: Option<string>, shippingStatus: Option<string>,
    priority: Option<string>, integration: Option<string>, trackingStage: Option<string>)

  /** `field?.toLowerCase().includes(term) || false`. */
  predicate OptionalIncludes(field: Option<string>, term: string) {
    field.Some? && Contains(Lower(field.value), term)
  }

  predicate MatchesText(p: Process, term: string) {
    var t := Lower(term);
    Contains(Lower(p.id), t) || Contains(Lower(p.client), t) || Contains(Lower(p.product), t)
    || OptionalIncludes(p.trackingNumber, t) || OptionalIncludes(p.blNumber, t)
  }

  /** `applyTextSearch`. */
  function ApplyTextSearch(processes: seq<Process>, searchTerm: string): (r: seq<Process>)
    ensures searchTerm == "" ==> r == processes
    ensures Seqs.IsSubsequence(r, processes)
    ensures searchTerm != "" ==> forall i :: 0 <= i < |r| ==> MatchesText(r[i], searchTerm)
    ensures searchTerm != "" ==> forall i :: 0 <= i < |processes| && MatchesText(processes[i], searchTerm) ==> processes[i] in r
  {
    Seqs.SubsequenceReflexive(processes);
    if searchTerm == "" then processes else Seqs.Filter(processes, p => MatchesText(p, searchTerm))
  }

  const StatusMap: map<string, string> := map[
    "em-andamento" := "Em andamento",
    "liberado" := "Liberado",
    "aguardando" := "Aguardando documentos",
    "analise" := "Em an\U{00E1}lise",
    "documentacao" := "Documenta\U{00E7}\U{00E3}o completa"
  ]

  /** `process.status === statusMap[key]`: an unknown key looks up `undefined`, which equals no status. */
  predicate StatusSelected(p: Process, key: string) {
    key in StatusMap && p.status == StatusMap[key]
  }

  predicate MatchesStatus(p: Process, statusValues: seq<string>) {
    exists i :: 0 <= i < |statusValues| && StatusSelected(p, statusValues[i])
  }

  /** `applyStatusFilter`. */
  function ApplyStatusFilter(processes: seq<Process>, statusValues: seq<string>): (r: seq<Process>)
    ensures statusValues == [] ==> r == processes
    ensures Seqs.IsSubsequence(r, processes)
    ensures statusValues != [] ==> forall i :: 0 <= i < |r| ==> MatchesStatus(r[i], statusValues)
    ensures statusValues != [] ==> forall i :: 0 <= i < |processes| && MatchesStatus(processes[i], statusValues) ==> processes[i] in r
  {
    Seqs.SubsequenceReflexive(processes);
    if statusValues == [] then processes else Seqs.Filter(processes, p => MatchesStatus(p, statusValues))
  }

  const OriginMap: map<string, string> := map[
    "china" := "China",
    "eua" := "Estados Unidos",
    "alemanha" := "Alemanha",
    "india" := "\U{00CD}ndia",
    "japao" := "Jap\U{00E3}o",
    "coreia-do-sul" := "Coreia do Sul",
    "taiwan" := "Taiwan"
  ]

  predicate MatchesOrigin(p: Process, origin: string) {
    origin in OriginMap && p.origin == OriginMap[origin]
  }

  /** `applyOriginFilter`. */
  function ApplyOriginFilter(processes: seq<Process>, origin: string): (r: seq<Process>)
    ensures origin == "" ==> r == processes
    ensures Seqs.IsSubsequence(r, processes)
    ensures origin != "" ==> forall i :: 0 <= i < |r| ==> MatchesOrigin(r[i], origin)
    ensures origin != "" ==> forall i :: 0 <= i < |processes| && MatchesOrigin(processes[i], origin) ==> processes[i] in r
  {
    Seqs.SubsequenceReflexive(processes);
    if origin == "" then processes else Seqs.Filter(processes, p => MatchesOrigin(p, origin))
  }

  /** `parts[i]` rendered in a template literal: a missing part renders as `undefined`. */
  function PartOrUndefined(parts: seq<string>, i: nat): string {
    if i < |parts| then parts[i] else "undefined"
  }

  /** `DD/MM/YYYY` rewritten as `YYYY-MM-DD` through `split('/')`. */
  function Sortable(date: string): (r: string)
    ensures '/' !in date ==> r == "undefined-undefined-" + date
  {
    var parts := Split(date, '/');
    assert '/' !in date ==> parts == [date] by {
      if '/' !in date {
        SplitNoSeparator(date, '/');
      }
    }
    PartOrUndefined(parts, 2) + "-" + PartOrUndefined(parts, 1) + "-" + PartOrUndefined(parts, 0)
  }

  /** A well-formed `DD/MM/YYYY` date becomes `YYYY-MM-DD`. */
  lemma SortableOfSlashedDate(d: string, m: string, y: string)
    requires '/' !in d && '/' !in m && '/' !in y
    ensures Sortable(d + "/" + m + "/" + y) == y + "-" + m + "-" + d
  {
    SplitAtSeparator(d, '/', m + "/" + y);
    assert d + "/" + m + "/" + y == d + ['/'] + (m + "/" + y);
    SplitAtSeparator(m, '/', y);
    SplitNoSeparator(y, '/');
  }

  predicate OnOrAfter(p: Process, start: string) {
    !LexLess(Sortable(p.date), start)
  }

  predicate OnOrBefore(p: Process, end: string) {
    LexLessEq(Sortable(p.date), end)
  }

  /** `applyDateFilters`: both bounds inclusive, an empty or missing bound ignored. */
  function ApplyDateFilters(processes: seq<Process>, startDate: Option<string>, endDate: Option<string>): (r: seq<Process>)
    ensures forall i :: 0 <= i < |r| ==>
              (startDate.Some? && startDate.value != "" ==> OnOrAfter(r[i], startDate.value))
              && (endDate.Some? && endDate.value != "" ==> OnOrBefore(r[i], endDate.value))
    ensures Seqs.IsSubsequence(r, processes)
    ensures (startDate.None? || startDate.value == "") && (endDate.None? || endDate.value == "") ==> r == processes
  {
    var afterStart := if startDate.Some? && startDate.value != "" then Seqs.Filter(processes, p => OnOrAfter(p, startDate.value)) else processes;
    var r := if endDate.Some? && endDate.value != "" then Seqs.Filter(afterStart, p => OnOrBefore(p, endDate.value)) else afterStart;
    Seqs.SubsequenceReflexive(processes);
    Seqs.SubsequenceReflexive(afterStart);
    Seqs.SubsequenceTransitive(r, afterStart, processes);
    Seqs.SubsequenceMembers(r, afterStart);
    assert forall i :: 0 <= i < |r| ==> r[i] in afterStart;
    r
  }

  /** A process survives the date filters exactly when its date lies within both given bounds. */
  lemma DateFiltersKeepExactly(processes: seq<Process>, start: string, end: string, p: Process)
    requires p in processes
    ensures p in ApplyDateFilters(processes, Some(start), Some(end)) <==>
              (start == "" || OnOrAfter(p, start)) && (end == "" || OnOrBefore(p, end))
  {
    var afterStart := if start != "" then Seqs.Filter(processes, q => OnOrAfter(q, start)) else processes;
    if start != "" && OnOrAfter(p, start) {
      var i :| 0 <= i < |processes| && processes[i] == p;
    }
    if (start == "" || OnOrAfter(p, start)) && end != "" && OnOrBefore(p, end) {
      var i :| 0 <= i < |afterStart| && afterStart[i] == p;
    }
  }

  /** `applyCategoryFilter` and the other exact-match filters. */
  function ApplyCategoryFilter(processes: seq<Process>, category: Option<string>): (r: seq<Process>)
    ensures category.None? || category.value == "" ==> r == processes
    ensures Seqs.IsSubsequence(r, processes)
    ensures category.Some? && category.value != "" ==> forall i :: 0 <= i < |r| ==> r[i].category == category.value
    ensures category.Some? && category.value != "" ==>
              forall i :: 0 <= i < |processes| && processes[i].category == category.value ==> processes[i] in r
  {
    Seqs.SubsequenceReflexive(processes);
    if category.None? || category.value == "" then processes else Seqs.Filter(processes, (p: Process) => p.category == category.value)
  }

  /** `process.field === value` for an optional field: an absent field equals no string. */
  function ApplyOptionalFieldFilter(processes: seq<Process>, field: Process -> Option<string>, value: Option<string>): (r: seq<Process>)
    ensures value.None? || value.value == "" ==> r == processes
    ensures Seqs.IsSubsequence(r, processes)
    ensures value.Some? && value.value != "" ==> forall i :: 0 <= i < |r| ==> field(r[i]) == Some(value.value)
    ensures value.Some? && value.value != "" ==>
              forall i :: 0 <= i < |processes| && field(processes[i]) == Some(value.value) ==> processes[i] in r
  {
    Seqs.SubsequenceReflexive(processes);
    if value.None? || value.value == "" then processes else Seqs.Filter(processes, p => field(p) == Some(value.value))
  }

  function ApplyShippingStatusFilter(processes: seq<Process>, shippingStatus: Option<string>): seq<Process> {
    ApplyOptionalFieldFilter(processes, (p: Process) => p.shippingStatus, shippingStatus)
  }

  function ApplyPriorityFilter(processes: seq<Process>, priority: Option<string>): seq<Process> {
    ApplyOptionalFieldFilter(processes, (p: Process) => p.priority, priority)
  }

  function ApplyIntegrationFilter(processes: seq<Process>, integration: Option<string>): seq<Process> {
    ApplyOptionalFieldFilter(processes, (p: Process) => p.integration, integration)
  }

  function ApplyTrackingStageFilter(processes: seq<Process>, trackingStage: Option<string>): seq<Process> {
    ApplyOptionalFieldFilter(processes, (p: Process) => p.trackingStage, trackingStage)
  }

  /** Text search keeps a process exactly when the lower-cased term occurs in one of its searchable
      fields, and keeps the order. */
  lemma TextSearchKeepsExactly(processes: seq<Process>, term: string, p: Process)
    requires term != "" && p in processes
    ensures p in ApplyTextSearch(processes, term) <==> MatchesText(p, term)
  {
  }

  /** A status filter keeps a process exactly when some selected key maps to its status, so unknown
      keys select nothing. */
  lemma StatusFilterKeepsExactly(processes: seq<Process>, statusValues: seq<string>, p: Process)
    requires statusValues != [] && p in processes
    ensures p in ApplyStatusFilter(processes, statusValues) <==>
              exists i :: 0 <= i < |statusValues| && statusValues[i] in StatusMap && p.status == StatusMap[statusValues[i]]
  {
  }

  /** An origin key outside the map keeps nothing. */
  lemma UnknownOriginKeepsNothing(processes: seq<Process>, origin: string)
    requires origin != "" && origin !in OriginMap
    ensures ApplyOriginFilter(processes, origin) == []
  {
    Seqs.FilterNone(processes, p => MatchesOrigin(p, origin));
  }

  /** Each filter is idempotent. */
  lemma FiltersIdempotent(processes: seq<Process>, term: string, statusValues: seq<string>, origin: string, category: Option<string>)
    ensures ApplyTextSearch(ApplyTextSearch(processes, term), term) == ApplyTextSearch(processes, term)
    ensures ApplyStatusFilter(ApplyStatusFilter(processes, statusValues), statusValues) == ApplyStatusFilter(processes, statusValues)
    ensures ApplyOriginFilter(ApplyOriginFilter(processes, origin), origin) == ApplyOriginFilter(processes, origin)
    ensures ApplyCategoryFilter(ApplyCategoryFilter(processes, category), category) == ApplyCategoryFilter(processes, category)
  {
    Seqs.FilterIdempotent(processes, p => MatchesText(p, term));
    Seqs.FilterIdempotent(processes, p => MatchesStatus(p, statusValues));
    Seqs.FilterIdempotent(processes, p => MatchesOrigin(p, origin));
    if category.Some? {
      Seqs.FilterIdempotent(processes, (p: Process) => p.category == category.value);
    }
  }

  lemma OptionalFieldFilterIdempotent(processes: seq<Process>, field: Process -> Option<string>, value: Option<string>)
    ensures ApplyOptionalFieldFilter(ApplyOptionalFieldFilter(processes, field, value), field, value)
            == ApplyOptionalFieldFilter(processes, field, value)
  {
    if value.Some? {
      Seqs.FilterIdempotent(processes, p => field(p) == Some(value.value));
    }
  }

  lemma DateFiltersIdempotent(processes: seq<Process>, startDate: Option<string>, endDate: Option<string>)
    ensures ApplyDateFilters(ApplyDateFilters(processes, startDate, endDate), startDate, endDate)
            == ApplyDateFilters(processes, startDate, endDate)
  {
    var r := ApplyDateFilters(processes, startDate, endDate);
    var hasStart := startDate.Some? && startDate.value != "";
    var hasEnd := endDate.Some? && endDate.value != "";
    if hasStart {
      Seqs.FilterKeepsAll(r, p => OnOrAfter(p, startDate.value));
    }
    if hasEnd {
      var afterStart := if hasStart then Seqs.Filter(r, p => OnOrAfter(p, startDate.value)) else r;
      Seqs.FilterKeepsAll(afterStart, p => OnOrBefore(p, endDate.value));
    }
  }
}
