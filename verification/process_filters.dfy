/** The process-filter hook: `applyFilters` runs the text search and then each filter of the list in
    turn. Every step is a predicate filter, so the whole pipeline is one filter by the conjunction of
    the steps' predicates, and the order of the filter list does not matter. */
module ProcessFilters {
  import opened Wrappers
  import opened ProcessSearch
  import Seqs

  /** A filter's `value`: a string, an array (of strings), or anything else. */
  datatype FilterValue = Str(s: string) | Strings(items: seq<string>) | OtherValue

  datatype Filter = Filter(id: string, value: FilterValue)

  /** One step of the `forEach`: the filter named by `id`, applied only for the value shape it
      expects; unknown ids and other shapes leave the results alone. */
  function Step(results: seq<Process>, f: Filter): (r: seq<Process>)
    ensures Seqs.IsSubsequence(r, results)
    ensures forall i :: 0 <= i < |r| ==> Keeps(f, r[i])
  {
    Seqs.SubsequenceReflexive(results);
    if f.id == "status" && f.value.Strings? && |f.value.items| > 0 then ApplyStatusFilter(results, f.value.items)
    else if f.id == "origin" && f.value.Str? then ApplyOriginFilter(results, f.value.s)
    else if f.id == "date" && f.value.Str? then ApplyDateFilters(results, Some(f.value.s), None)
    else if f.id == "date_end" && f.value.Str? then ApplyDateFilters(results, None, Some(f.value.s))
    else if f.id == "category" && f.value.Str? then ApplyCategoryFilter(results, Some(f.value.s))
    else if f.id == "shipping_status" && f.value.Str? then ApplyShippingStatusFilter(results, Some(f.value.s))
    else if f.id == "priority" && f.value.Str? then ApplyPriorityFilter(results, Some(f.value.s))
    else if f.id == "integration" && f.value.Str? then ApplyIntegrationFilter(results, Some(f.value.s))
    else if f.id == "tracking_stage" && f.value.Str? then ApplyTrackingStageFilter(results, Some(f.value.s))
    else results
  }

  /** The predicate a step filters by (always true for a step that does nothing). */
  predicate Keeps(f: Filter, p: Process) {
    if f.id == "status" && f.value.Strings? && |f.value.items| > 0 then MatchesStatus(p, f.value.items)
    else if f.value.Str? && f.value.s != "" then
      var s := f.value.s;
      if f.id == "origin" then MatchesOrigin(p, s)
      else if f.id == "date" then OnOrAfter(p, s)
      else if f.id == "date_end" then OnOrBefore(p, s)
      else if f.id == "category" then p.category == s
      else if f.id == "shipping_status" then p.shippingStatus == Some(s)
      else if f.id == "priority" then p.priority == Some(s)
      else if f.id == "integration" then p.integration == Some(s)
      else if f.id == "tracking_stage" then p.trackingStage == Some(s)
      else true
    else true
  }

  /** Each step is the filter by its predicate. */
  lemma StepIsFilter(results: seq<Process>, f: Filter)
    ensures Step(results, f) == Seqs.Filter(results, p => Keeps(f, p))
  {
    if !(f.id == "status" && f.value.Strings? && |f.value.items| > 0) {
      if f.value.Str? && f.value.s != "" {
        var s := f.value.s;
        if f.id == "origin" {
          Seqs.FilterExtensional(results, p => Keeps(f, p), p => MatchesOrigin(p, s));
        } else if f.id == "date" {
          Seqs.FilterExtensional(results, p => Keeps(f, p), p => OnOrAfter(p, s));
        } else if f.id == "date_end" {
          Seqs.FilterExtensional(results, p => Keeps(f, p), p => OnOrBefore(p, s));
        } else if f.id == "category" {
          Seqs.FilterExtensional(results, p => Keeps(f, p), (p: Process) => p.category == s);
        } else if f.id == "shipping_status" {
          var field := (q: Process) => q.shippingStatus;
          Seqs.FilterExtensional(results, p => Keeps(f, p), p => field(p) == Some(s));
        } else if f.id == "priority" {
          var field := (q: Process) => q.priority;
          Seqs.FilterExtensional(results, p => Keeps(f, p), p => field(p) == Some(s));
        } else if f.id == "integration" {
          var field := (q: Process) => q.integration;
          Seqs.FilterExtensional(results, p => Keeps(f, p), p => field(p) == Some(s));
        } else if f.id == "tracking_stage" {
          var field := (q: Process) => q.trackingStage;
          Seqs.FilterExtensional(results, p => Keeps(f, p), p => field(p) == Some(s));
        } else {
          Seqs.FilterKeepsAll(results, p => Keeps(f, p));
        }
      } else {
        Seqs.FilterKeepsAll(results, p => Keeps(f, p));
      }
    } else {
      Seqs.FilterExtensional(results, p => Keeps(f, p), p => MatchesStatus(p, f.value.items));
    }
  }

  /** The `forEach` over the filter list: every process left passes every filter, in order. */
  function Fold(results: seq<Process>, filters: seq<Filter>): (r: seq<Process>)
    ensures Seqs.IsSubsequence(r, results)
    ensures forall i :: 0 <= i < |r| ==> KeepsAll(filters, r[i])
    decreases |filters|
  {
    if filters == [] then
      Seqs.SubsequenceReflexive(results);
      results
    else
      var stepped := Step(results, filters[0]);
      var r := Fold(stepped, filters[1..]);
      Seqs.SubsequenceTransitive(r, stepped, results);
      Seqs.SubsequenceKeeps(r, stepped, p => Keeps(filters[0], p));
      assert forall i :: 0 <= i < |r| ==> KeepsAll(filters, r[i]) by {
        forall i | 0 <= i < |r| ensures KeepsAll(filters, r[i]) {
          KeepsAllCons(filters, r[i]);
        }
      }
      r
  }

  /** `applyFilters(searchTerm, filters)` over the hook's `processes`: the processes that match the
      search term (when there is one) and every filter, in their original order. */
  function ApplyFilters(processes: seq<Process>, searchTerm: string, filters: seq<Filter>): (r: seq<Process>)
    ensures Seqs.IsSubsequence(r, processes)
    ensures forall i :: 0 <= i < |r| ==> Selected(searchTerm, filters, r[i])
  {
    var searched := if searchTerm != "" then ApplyTextSearch(processes, searchTerm) else processes;
    var r := Fold(searched, filters);
    Seqs.SubsequenceReflexive(processes);
    Seqs.SubsequenceTransitive(r, searched, processes);
    Seqs.SubsequenceKeeps(r, searched, p => searchTerm == "" || MatchesText(p, searchTerm));
    r
  }

  predicate KeepsAll(filters: seq<Filter>, p: Process) {
    forall i :: 0 <= i < |filters| ==> Keeps(filters[i], p)
  }

  predicate Selected(searchTerm: string, filters: seq<Filter>, p: Process) {
    (searchTerm == "" || MatchesText(p, searchTerm)) && KeepsAll(filters, p)
  }

  lemma KeepsAllCons(filters: seq<Filter>, p: Process)
    requires filters != []
    ensures KeepsAll(filters, p) == (Keeps(filters[0], p) && KeepsAll(filters[1..], p))
  {
    assert forall i :: 1 <= i < |filters| ==> filters[i] == filters[1..][i - 1];
  }

  lemma {:induction false} FoldIsFilter(results: seq<Process>, filters: seq<Filter>)
    ensures Fold(results, filters) == Seqs.Filter(results, p => KeepsAll(filters, p))
    decreases |filters|
  {
    if filters == [] {
      Seqs.FilterKeepsAll(results, p => KeepsAll(filters, p));
    } else {
      var f, rest := filters[0], filters[1..];
      StepIsFilter(results, f);
      FoldIsFilter(Step(results, f), rest);
      forall p ensures KeepsAll(filters, p) == (Keeps(f, p) && KeepsAll(rest, p)) {
        KeepsAllCons(filters, p);
      }
      Seqs.FilterFuse(results, p => Keeps(f, p), p => KeepsAll(rest, p), p => KeepsAll(filters, p));
    }
  }

  /** The pipeline is a single filter: a process is kept exactly when it matches the search term
      (if any) and every filter's predicate. */
  lemma ApplyFiltersIsFilter(processes: seq<Process>, searchTerm: string, filters: seq<Filter>)
    ensures ApplyFilters(processes, searchTerm, filters) == Seqs.Filter(processes, p => Selected(searchTerm, filters, p))
  {
    if searchTerm != "" {
      FoldIsFilter(ApplyTextSearch(processes, searchTerm), filters);
      Seqs.FilterFuse(processes, p => MatchesText(p, searchTerm), p => KeepsAll(filters, p), p => Selected(searchTerm, filters, p));
    } else {
      FoldIsFilter(processes, filters);
      Seqs.FilterExtensional(processes, p => KeepsAll(filters, p), p => Selected(searchTerm, filters, p));
    }
  }

  /** Two filter lists with the same members give the same result, whatever their order. */
  lemma FilterOrderIrrelevant(processes: seq<Process>, searchTerm: string, fs1: seq<Filter>, fs2: seq<Filter>)
    requires forall f :: f in fs1 <==> f in fs2
    ensures ApplyFilters(processes, searchTerm, fs1) == ApplyFilters(processes, searchTerm, fs2)
  {
    ApplyFiltersIsFilter(processes, searchTerm, fs1);
    ApplyFiltersIsFilter(processes, searchTerm, fs2);
    forall p ensures Selected(searchTerm, fs1, p) == Selected(searchTerm, fs2, p) {
      if KeepsAll(fs1, p) {
        forall i | 0 <= i < |fs2| ensures Keeps(fs2[i], p) {
          assert fs2[i] in fs1;
        }
      }
      if KeepsAll(fs2, p) {
        forall i | 0 <= i < |fs1| ensures Keeps(fs1[i], p) {
          assert fs1[i] in fs2;
        }
      }
    }
    Seqs.FilterExtensional(processes, p => Selected(searchTerm, fs1, p), p => Selected(searchTerm, fs2, p));
  }

  /** A filter with an unknown id, or a value of the wrong shape, changes nothing. */
  lemma IgnoredFilter(processes: seq<Process>, searchTerm: string, filters: seq<Filter>, f: Filter)
    requires f.id !in {"status", "origin", "date", "date_end", "category", "shipping_status", "priority", "integration", "tracking_stage"}
             || (f.id == "status" && !(f.value.Strings? && |f.value.items| > 0))
             || (f.id != "status" && !f.value.Str?)
    ensures ApplyFilters(processes, searchTerm, [f] + filters) == ApplyFilters(processes, searchTerm, filters)
  {
    var searched := if searchTerm != "" then ApplyTextSearch(processes, searchTerm) else processes;
    StepIsFilter(searched, f);
    Seqs.FilterKeepsAll(searched, p => Keeps(f, p));
    assert ([f] + filters)[1..] == filters;
  }

  /** The hook's state. */
  datatype HookState = HookState(filteredProcesses: seq<Process>, isSearching: bool, searchTerm: string, filters: seq<Filter>)

  /** The initial state: every process shown, no search running, no term and no filters. */
  function Init(processes: seq<Process>): (s: HookState)
    ensures s.filteredProcesses == ApplyFilters(processes, s.searchTerm, s.filters)
    ensures !s.isSearching && s.searchTerm == "" && s.filters == []
  {
    HookState(processes, false, "", [])
  }

  /** Before any search the shown list is the whole list. */
  lemma InitShowsAll(processes: seq<Process>)
    ensures Init(processes).filteredProcesses == processes
    ensures ApplyFilters(processes, "", []) == processes
  {
  }
}
