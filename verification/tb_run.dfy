/** Setting up the rules and running the extractor batch by batch (timebased.go, extract_timebased.go). */
module TimebasedRun {
  import opened Common
  import opened TimebasedHeap
  import opened TimebasedSpec
  import opened TimebasedPruning
  import opened TimebasedExtract

  // ----- set-up

  /** A rule with its index key and keys completed; None when it names neither. */
  function Resolved(rule: Rule): Option<Rule> {
    if rule.indexKeys != [] then Some(rule.(indexKey := Join(rule.indexKeys)))
    else if rule.indexKey != "" then Some(rule.(indexKeys := [rule.indexKey]))
    else None
  }

  function OnKey(rule: Rule, tableKey: string): bool {
    Resolved(rule).Some? && Resolved(rule).value.indexKey == tableKey
  }

  /** The filters to create: resolved rules with a known operation, in order. */
  function Usable(rules: seq<Rule>): seq<Rule> {
    if rules == [] then [] else
    var n := |rules| - 1;
    match Resolved(rules[n])
    case None => Usable(rules[..n])
    case Some(rule) => if rule.operation.Unknown? then Usable(rules[..n]) else Usable(rules[..n]) + [rule]
  }

  // ----- which filters there are

  /** The rule names its index fields, or its index key, and a known operation. */
  predicate IsUsable(rule: Rule) { (rule.indexKeys != [] || rule.indexKey != "") && !rule.operation.Unknown? }

  /** The filter of a rule: its index key is that of its index fields joined by commas, or names the only index field,
      and all else is as configured. */
  predicate IsFilterOf(rule: Rule, made: Rule) {
    && made == rule.(indexKey := made.indexKey, indexKeys := made.indexKeys)
    && made.indexKeys == (if rule.indexKeys != [] then rule.indexKeys else [rule.indexKey])
    && made.indexKey == if rule.indexKeys != [] then JoinWith(rule.indexKeys, ",") else rule.indexKey
  }

  function UsableOf(rules: seq<Rule>): seq<Rule> {
    if rules == [] then [] else
    var n := |rules| - 1;
    UsableOf(rules[..n]) + (if IsUsable(rules[n]) then [rules[n]] else [])
  }

  /** The filters are those of the usable rules, one for each, in order. */
  lemma {:induction false} FiltersOfRules(rules: seq<Rule>)
    ensures |Usable(rules)| == |UsableOf(rules)|
    ensures forall i :: 0 <= i < |UsableOf(rules)| ==> IsFilterOf(UsableOf(rules)[i], Usable(rules)[i])
  {
    if rules != [] {
      FiltersOfRules(rules[..|rules|-1]);
    }
  }

  /** The history a table must keep; None when no rule uses it. Rules with an unknown operation count too. */
  function HistoryFor(rules: seq<Rule>, tableKey: string): Option<int> {
    if rules == [] then None else
    var n := |rules| - 1;
    var before := HistoryFor(rules[..n], tableKey);
    if !OnKey(rules[n], tableKey) then before
    else if before.None? || rules[n].timeInterval > before.value then Some(rules[n].timeInterval) else before
  }

  /** That history covers the window of every rule on the key, and is the window of one of them. */
  lemma {:induction false} HistoryIsLargestWindow(rules: seq<Rule>, tableKey: string)
    ensures HistoryFor(rules, tableKey).None? <==> forall i :: 0 <= i < |rules| ==> !OnKey(rules[i], tableKey)
    ensures forall i :: 0 <= i < |rules| && OnKey(rules[i], tableKey) ==>
      HistoryFor(rules, tableKey).Some? && rules[i].timeInterval <= HistoryFor(rules, tableKey).value
    ensures HistoryFor(rules, tableKey).Some? ==>
      exists i :: 0 <= i < |rules| && OnKey(rules[i], tableKey)
        && rules[i].timeInterval == HistoryFor(rules, tableKey).value
  {
    if rules != [] {
      var n := |rules| - 1;
      HistoryIsLargestWindow(rules[..n], tableKey);
      forall i | 0 <= i < n ensures rules[..n][i] == rules[i] {
      }
      if HistoryFor(rules[..n], tableKey).Some? {
        var i :| 0 <= i < n && OnKey(rules[..n][i], tableKey)
          && rules[..n][i].timeInterval == HistoryFor(rules[..n], tableKey).value;
        assert OnKey(rules[i], tableKey);
      }
    }
  }

  /** Every filter finds its table, with enough history. */
  lemma {:induction false} UsableCovered(rules: seq<Rule>, j: nat)
    requires j < |Usable(rules)|
    ensures var rule := Usable(rules)[j];
      && !rule.operation.Unknown?
      && HistoryFor(rules, rule.indexKey).Some? && rule.timeInterval <= HistoryFor(rules, rule.indexKey).value
  {
    var n := |rules| - 1;
    if j < |Usable(rules[..n])| {
      UsableCovered(rules[..n], j);
    }
  }

  /** The tables hold, for each index key in use, an empty table with the largest window. */
  ghost predicate TablesFor(rules: seq<Rule>, tables: Tables)
    reads tables.Values
  {
    && Separate(tables)
    && (forall k :: k in tables <==> HistoryFor(rules, k).Some?)
    && (forall k :: k in tables ==>
      Some(tables[k].maxTimeInterval) == HistoryFor(rules, k) && tables[k].dataTableMap == map[])
  }

  ghost predicate FiltersFor(rules: seq<Rule>, tables: Tables, filters: seq<FilterStruct>)
    reads filters
  {
    && |filters| == |Usable(rules)|
    && (forall i, j :: 0 <= i < j < |filters| ==> filters[i] != filters[j])
    && (forall i :: 0 <= i < |filters| ==> filters[i].rule == Usable(rules)[i] && filters[i].results == map[])
    && (forall i :: 0 <= i < |filters| ==>
      filters[i].rule.indexKey in tables && filters[i].table == tables[filters[i].rule.indexKey])
  }

  method CreateIndexKeysAndFilters(rules: seq<Rule>) returns (tables: Tables, filters: seq<FilterStruct>)
    ensures TablesFor(rules, tables) && fresh(tables.Values)
    ensures FiltersFor(rules, tables, filters) && (forall f :: f in filters ==> fresh(f))
  {
    tables, filters := map[], [];
    for i := 0 to |rules|
      invariant TablesFor(rules[..i], tables) && fresh(tables.Values)
      invariant FiltersFor(rules[..i], tables, filters) && (forall f :: f in filters ==> fresh(f))
    {
      assert rules[..i+1][..i] == rules[..i];
      var resolved := Resolved(rules[i]);
      if resolved.None? {
        continue;
      }
      var filterRule := resolved.value;
      tables := Provide(rules[..i+1], tables, filterRule);
      filters := WithFilter(rules[..i+1], tables, filters, filterRule);
    }
    assert rules[..|rules|] == rules;
  }

  /** Adds the filter of the last rule, unless its operation is unknown. */
  method WithFilter(
    ghost rules: seq<Rule>, tables: Tables, filters: seq<FilterStruct>, rule: Rule)
    returns (filters': seq<FilterStruct>)
    requires rules != [] && Resolved(rules[|rules|-1]) == Some(rule) && FiltersFor(rules[..|rules|-1], tables, filters)
    requires rule.indexKey in tables
    ensures FiltersFor(rules, tables, filters')
    ensures forall f :: f in filters' ==> f in filters || fresh(f)
  {
    if rule.operation.Unknown? {
      return filters;
    }
    var f := new FilterStruct(rule, tables[rule.indexKey]);
    filters' := filters + [f];
  }

  /** Finds or creates the table of the last rule, and raises its history to the rule's window. */
  method Provide(ghost rules: seq<Rule>, tables: Tables, rule: Rule) returns (tables': Tables)
    requires rules != [] && Resolved(rules[|rules|-1]) == Some(rule) && TablesFor(rules[..|rules|-1], tables)
    modifies tables.Values
    ensures TablesFor(rules, tables') && rule.indexKey in tables'
    ensures forall k :: k in tables ==> k in tables' && tables'[k] == tables[k]
    ensures fresh(tables'.Values - tables.Values)
  {
    tables' := tables;
    if rule.indexKey !in tables {
      var table := new IndexKeyTable(rule.timeInterval);
      tables' := tables[rule.indexKey := table];
    } else if rule.timeInterval > tables[rule.indexKey].maxTimeInterval {
      tables[rule.indexKey].maxTimeInterval := rule.timeInterval;
    }
  }

  // ----- one run

  /** The records of all filters, in the order of the rules. */
  function AllRecords(filters: seq<FilterStruct>, outputs: seq<seq<FilterResult>>): seq<GenericMap>
    requires |outputs| == |filters|
  {
    if filters == [] then [] else
    var n := |filters| - 1;
    AllRecords(filters[..n], outputs[..n]) + Records(filters[n].rule, outputs[n])
  }

  lemma ChosenAreResults(rule: Rule, results: Results, out: seq<FilterResult>, m: nat)
    requires Chosen(rule, results, out) && m < |out|
    ensures out[m].values in results && results[out[m].values] == out[m]
  {
  }

  /** The records returned, filter by filter, tell the results that each filter put out. */
  ghost predicate ReportsTell(filters: seq<FilterStruct>, outputs: seq<seq<FilterResult>>, recs: seq<GenericMap>) {
    |outputs| == |filters| &&
    if filters == [] then recs == [] else
    var n := |filters| - 1;
    && |outputs[n]| <= |recs|
    && AllTell(filters[n].rule, outputs[n], recs[|recs| - |outputs[n]|..])
    && ReportsTell(filters[..n], outputs[..n], recs[..|recs| - |outputs[n]|])
  }

  lemma {:induction false} AllRecordsTell(filters: seq<FilterStruct>, outputs: seq<seq<FilterResult>>)
    requires |outputs| == |filters|
    ensures ReportsTell(filters, outputs, AllRecords(filters, outputs))
  {
    if filters != [] {
      var n := |filters| - 1;
      AllRecordsTell(filters[..n], outputs[..n]);
      RecordsTell(filters[n].rule, outputs[n]);
      var before, last := AllRecords(filters[..n], outputs[..n]), Records(filters[n].rule, outputs[n]);
      assert (before + last)[|before|..] == last && (before + last)[..|before|] == before;
    }
  }

  lemma TableExtends(lib: FilterLib, tableKey: string, interval: int, h: seq<Batch>, b: Batch)
    ensures TableAfter(lib, tableKey, interval, true, h + [b])
         == Pruned(WithEntries(lib, tableKey, TableAfter(lib, tableKey, interval, true, h), b.entries, b.now),
           b.now - interval)
  {
    assert Earlier(h + [b]) == h;
  }

  lemma RunExtends(lib: FilterLib, rule: Rule, tableKey: string, interval: int, h: seq<Batch>, b: Batch)
    requires rule.indexKey == tableKey
    ensures var filled := WithEntries(lib, tableKey, TableAfter(lib, tableKey, interval, true, h), b.entries, b.now);
      ResultsAfter(lib, rule, interval, true, h + [b])
      == Recalculated(lib, rule, filled, filled.Keys, ResultsAfter(lib, rule, interval, true, h), b.now)
  {
    assert Earlier(h + [b]) == h;
  }

  class Timebased {
    const lib: FilterLib
    const rules: seq<Rule>
    const filters: seq<FilterStruct>
    const indexKeyStructs: Tables
    ghost var history: seq<Batch>

    /** How filters and tables are connected; this never changes. */
    ghost predicate Connected() {
      && Separate(indexKeyStructs)
      && (forall i, j :: 0 <= i < j < |filters| ==> filters[i] != filters[j])
      && (forall k :: k in indexKeyStructs <==> HistoryFor(rules, k).Some?)
      && |filters| == |Usable(rules)|
      && (forall i :: 0 <= i < |filters| ==>
            && filters[i].rule == Usable(rules)[i]
            && filters[i].rule.indexKey in indexKeyStructs
              && filters[i].table == indexKeyStructs[filters[i].rule.indexKey])
    }

    ghost predicate Wired()
      reads indexKeyStructs.Values
    {
      Connected() && forall k :: k in indexKeyStructs ==> indexKeyStructs[k].maxTimeInterval == Interval(k)
    }

    /** The tables are those of a pruned run, and each filter holds the results of its rule over that run. */
    ghost predicate Valid()
      reads this, filters, indexKeyStructs.Values
    {
      ValidFor(history)
    }

    ghost predicate ValidFor(h: seq<Batch>)
      reads filters, indexKeyStructs.Values
    {
      Wired() && TablesAt(h) && FiltersAt(h)
    }

    ghost predicate TablesAt(h: seq<Batch>)
      reads indexKeyStructs.Values
    {
      forall k :: k in indexKeyStructs ==>
        indexKeyStructs[k].dataTableMap == TableAfter(lib, k, Interval(k), true, h)
    }

    /** The tables once batch b has been entered after history h. */
    ghost predicate FilledAt(h: seq<Batch>, b: Batch)
      reads indexKeyStructs.Values
    {
      forall k :: k in indexKeyStructs ==>
        indexKeyStructs[k].dataTableMap
          == WithEntries(lib, k, TableAfter(lib, k, Interval(k), true, h), b.entries, b.now)
    }

    ghost predicate ResultsAt(i: nat, h: seq<Batch>)
      requires i < |filters|
      reads filters[i]
    {
      filters[i].results == ResultsAfter(lib, filters[i].rule, Interval(filters[i].rule.indexKey), true, h)
    }

    ghost predicate FiltersAt(h: seq<Batch>)
      reads filters
    {
      forall i :: 0 <= i < |filters| ==> ResultsAt(i, h)
    }

    /** Filter i holds its results for history h followed by batch b, and out is an admissible selection of them. */
    ghost predicate Evaluated(i: nat, h: seq<Batch>, b: Batch, out: seq<FilterResult>)
      requires i < |filters|
      reads filters[i]
    {
      ResultsAt(i, h + [b]) && Chosen(filters[i].rule, filters[i].results, out)
    }

    ghost predicate AllEvaluated(h: seq<Batch>, b: Batch, outputs: seq<seq<FilterResult>>)
      reads filters
    {
      |outputs| == |filters| && forall i :: 0 <= i < |filters| ==> Evaluated(i, h, b, outputs[i])
    }

    /** The largest window of the rules on an index key. */
    ghost function Interval(k: string): int {
      HistoryFor(rules, k).GetOr(0)
    }

    constructor (lib: FilterLib, rules: seq<Rule>)
      ensures Valid() && this.lib == lib && this.rules == rules && history == []
      ensures fresh(indexKeyStructs.Values) && forall f :: f in filters ==> fresh(f)
    {
      var tables, fs := CreateIndexKeysAndFilters(rules);
      this.lib, this.rules, filters, indexKeyStructs, history := lib, rules, fs, tables, [];
    }

    method Extract(entries: seq<GenericMap>, now: int)
      returns (output: seq<GenericMap>, ghost outputs: seq<seq<FilterResult>>)
      requires Valid()
      modifies this`history, filters, indexKeyStructs.Values
      ensures Valid() && history == old(history) + [Batch(now, entries)]
      ensures AllEvaluated(old(history), Batch(now, entries), outputs) && output == AllRecords(filters, outputs)
      ensures AllBest(outputs) && ReportsTell(filters, outputs, output)
    {
      ghost var b := Batch(now, entries);
      output, outputs := RunBatch(entries, now);
      assert ValidFor(history + [b]);
      history := history + [b];
      AllRecordsTell(filters, outputs);
    }

    /** Whenever the results of a top-K filter are finite, its output is the best of them all. */
    ghost predicate AllBest(outputs: seq<seq<FilterResult>>)
      reads filters
    {
      |outputs| == |filters| &&
      forall i :: 0 <= i < |filters| ==> BestWhenFinite(filters[i].rule, filters[i].results, outputs[i])
    }

    lemma FiniteOutputs(b: Batch, outputs: seq<seq<FilterResult>>)
      requires AllEvaluated(history, b, outputs)
      ensures AllBest(outputs)
    {
      forall i | 0 <= i < |filters| ensures BestWhenFinite(filters[i].rule, filters[i].results, outputs[i]) {
        assert Evaluated(i, history, b, outputs[i]);
        ChosenFinite(filters[i].rule, filters[i].results, outputs[i]);
      }
    }

    method RunBatch(entries: seq<GenericMap>, now: int)
      returns (output: seq<GenericMap>, ghost outputs: seq<seq<FilterResult>>)
      requires Valid()
      modifies filters, indexKeyStructs.Values
      ensures ValidFor(history + [Batch(now, entries)])
      ensures AllEvaluated(history, Batch(now, entries), outputs) && output == AllRecords(filters, outputs)
      ensures AllBest(outputs)
    {
      output, outputs := Evaluate(entries, now);
      Prune(Batch(now, entries), now, outputs);
      FiniteOutputs(Batch(now, entries), outputs);
    }

    method Evaluate(entries: seq<GenericMap>, now: int)
      returns (output: seq<GenericMap>, ghost outputs: seq<seq<FilterResult>>)
      requires Valid()
      modifies filters, indexKeyStructs.Values
      ensures Wired() && FilledAt(history, Batch(now, entries))
      ensures AllEvaluated(history, Batch(now, entries), outputs) && output == AllRecords(filters, outputs)
    {
      Populate(entries, now);
      output, outputs := RunFilters(Batch(now, entries), now);
    }

    lemma EvaluatedFilters(h: seq<Batch>, b: Batch, outputs: seq<seq<FilterResult>>)
      requires AllEvaluated(h, b, outputs)
      ensures FiltersAt(h + [b])
    {
      forall i | 0 <= i < |filters| ensures ResultsAt(i, h + [b]) {
        assert Evaluated(i, h, b, outputs[i]);
      }
    }

    method Populate(entries: seq<GenericMap>, now: int)
      requires Wired() && TablesAt(history)
      modifies indexKeyStructs.Values
      ensures Wired() && FilledAt(history, Batch(now, entries))
    {
      for n := 0 to |entries|
        invariant Wired()
        invariant forall k :: k in indexKeyStructs ==>
          indexKeyStructs[k].dataTableMap
            == WithEntries(lib, k, old(indexKeyStructs[k].dataTableMap), entries[..n], now)
      {
        assert entries[..n+1][..n] == entries[..n];
        AddEntryToTables(lib, indexKeyStructs, entries[n], now);
      }
      assert entries[..|entries|] == entries;
    }

    method RunFilters(ghost b: Batch, now: int) returns (output: seq<GenericMap>, ghost outputs: seq<seq<FilterResult>>)
      requires Connected() && FilledAt(history, b) && b.now == now && FiltersAt(history)
      modifies filters
      ensures AllEvaluated(history, b, outputs) && output == AllRecords(filters, outputs)
    {
      output, outputs := [], [];
      for n := 0 to |filters|
        invariant |outputs| == n && output == AllRecords(filters[..n], outputs)
        invariant Half(n, b, outputs)
      {
        var genMap := RunNext(n, b, now, outputs);
        RecordsAppend(n, outputs, filters[n].output);
        output := output + genMap;
        outputs := outputs + [filters[n].output];
      }
      assert filters[..|filters|] == filters;
    }

    /** The first n filters are evaluated for batch b, the others still hold their previous results. */
    ghost predicate Half(n: nat, b: Batch, outputs: seq<seq<FilterResult>>)
      requires n == |outputs| <= |filters|
      reads this, filters
    {
      && (forall i :: 0 <= i < n ==> Evaluated(i, history, b, outputs[i]))
      && (forall i :: n <= i < |filters| ==> ResultsAt(i, history))
    }

    method RunNext(
      n: nat, ghost b: Batch, now: int, ghost outputs: seq<seq<FilterResult>>) returns (genMap: seq<GenericMap>)
      requires Connected() && FilledAt(history, b) && b.now == now
      requires n == |outputs| < |filters| && Half(n, b, outputs)
      modifies filters[n]
      ensures Half(n + 1, b, outputs + [filters[n].output])
      ensures genMap == Records(filters[n].rule, filters[n].output)
    {
      assert ResultsAt(n, history);
      genMap := RunFilter(n, b, now);
    }

    lemma RecordsAppend(n: nat, outputs: seq<seq<FilterResult>>, out: seq<FilterResult>)
      requires n == |outputs| < |filters|
      ensures AllRecords(filters[..n+1], outputs + [out])
        == AllRecords(filters[..n], outputs) + Records(filters[n].rule, out)
    {
      assert filters[..n+1][..n] == filters[..n] && (outputs + [out])[..n] == outputs;
    }

    method RunFilter(n: nat, ghost b: Batch, now: int) returns (genMap: seq<GenericMap>)
      requires Connected() && FilledAt(history, b) && b.now == now && n < |filters| && ResultsAt(n, history)
      modifies filters[n]
      ensures Evaluated(n, history, b, filters[n].output)
      ensures genMap == Records(filters[n].rule, filters[n].output)
    {
      var filter := filters[n];
      RunExtends(lib, filter.rule, filter.rule.indexKey, Interval(filter.rule.indexKey), history, b);
      filter.CalculateResults(lib, now);
      filter.ComputeTopkBotk();
      genMap := filter.CreateGenericMap();
    }

    method Prune(ghost b: Batch, now: int, ghost outputs: seq<seq<FilterResult>>)
      requires Wired() && FilledAt(history, b) && b.now == now && AllEvaluated(history, b, outputs)
      modifies indexKeyStructs.Values
      ensures Wired() && TablesAt(history + [b])
      ensures AllEvaluated(history, b, outputs) && FiltersAt(history + [b])
    {
      DeleteOldEntriesFromTables(indexKeyStructs, now);
      forall k | k in indexKeyStructs
        ensures indexKeyStructs[k].dataTableMap == TableAfter(lib, k, Interval(k), true, history + [b])
      {
        TableExtends(lib, k, Interval(k), history, b);
      }
      EvaluatedFilters(history, b, outputs);
    }

    /** Every result that a filter puts out for a batch is the operation over everything ever received under its index
        value, inside the window, if the clock never ran backwards. */
    lemma OutputsExact(h: seq<Batch>, b: Batch, outputs: seq<seq<FilterResult>>, i: nat, m: nat)
      requires Wired() && AllEvaluated(h, b, outputs) && NonDecreasing(h + [b])
      requires i < |filters| && m < |outputs[i]|
      ensures var (rule, r) := (filters[i].rule, outputs[i][m]);
        var all := Received(lib, rule.indexKey, h + [b], r.values);
        && all != []
        && (Outcome(lib, rule, all, b.now).Some? ==> r.operationResult == Outcome(lib, rule, all, b.now).value)
    {
      var rule, r := filters[i].rule, outputs[i][m];
      assert Evaluated(i, h, b, outputs[i]) && ResultsAt(i, h + [b]);
      ChosenAreResults(rule, filters[i].results, outputs[i], m);
      UsableCovered(rules, i);
      assert Final(h + [b]) == b;
      ResultsExact(lib, rule, Interval(rule.indexKey), h + [b], r.values);
    }

    /** In every reachable state, if the clock never ran backwards, each rule reports what an extractor that never
        deletes anything would report. */
    lemma ReportsAsIfNothingWereDeleted(i: nat)
      requires Valid() && NonDecreasing(history) && i < |filters|
      ensures filters[i].results
        == ResultsAfter(lib, filters[i].rule, Interval(filters[i].rule.indexKey), false, history)
    {
      UsableCovered(rules, i);
      PruningInvisible(lib, filters[i].rule, Interval(filters[i].rule.indexKey), history);
      assert ResultsAt(i, history);
    }

    /** In every reachable state a table holds exactly what was received under each index value within the largest
        window of its rules. */
    lemma TablesHoldTheLargestWindow(tableKey: string, k: string)
      requires Valid() && NonDecreasing(history) && history != [] && tableKey in indexKeyStructs
      ensures ListAt(indexKeyStructs[tableKey].dataTableMap, k)
           == Recent(Received(lib, tableKey, history, k), Final(history).now - Interval(tableKey))
    {
      TableHoldsRecent(lib, tableKey, Interval(tableKey), history, k);
    }
  }
}
