/** The time-based extractor: shared history tables, the filters of the rules, and one step per batch. */
module TimebasedExtract {
  import opened Common
  import opened Float64
  import opened TimebasedHeap
  import opened TimebasedSpec

  // ----- tables

  /** The loop of AddEntryToTables over the fields of one table key. */
  method IndexValueOf(lib: FilterLib, entry: GenericMap, tableKey: string) returns (r: Option<string>)
    ensures r == IndexValue(lib, entry, Split(tableKey))
  {
    var keys := Split(tableKey);
    var validValuesCount, b := 0, "";
    ghost var texts := Texts(lib, entry, keys);
    for i := 0 to |keys|
      invariant validValuesCount <= i && (validValuesCount == i <==> "" !in texts[..i])
      invariant validValuesCount == i ==> b == Join(texts[..i])
    {
      assert texts[..i+1] == texts[..i] + [texts[i]];
      JoinAppend(texts[..i], texts[i]);
      if i > 0 && validValuesCount == i {
        JoinNonEmpty(texts[..i]);
      }
      if |b| > 0 {
        b := b + ",";
      }
      if keys[i] in entry {
        var valStr := lib.toString(entry[keys[i]]);
        if |valStr| > 0 {
          b := b + valStr;
          validValuesCount := validValuesCount + 1;
        }
      }
    }
    assert texts[..|keys|] == texts;
    r := if |keys| == validValuesCount then Some(b) else None;
  }

  class IndexKeyTable {
    var maxTimeInterval: int
    var dataTableMap: DataTable

    constructor (interval: int)
      ensures maxTimeInterval == interval && dataTableMap == map[]
    {
      maxTimeInterval, dataTableMap := interval, map[];
    }

    method AddEntry(lib: FilterLib, tableKey: string, entry: GenericMap, now: int)
      modifies this`dataTableMap
      ensures dataTableMap == WithEntry(lib, tableKey, old(dataTableMap), entry, now)
    {
      var val := IndexValueOf(lib, entry, tableKey);
      if val.Some? {
        if val.value !in dataTableMap {
          dataTableMap := dataTableMap[val.value := []];
        }
        dataTableMap := dataTableMap[val.value := dataTableMap[val.value] + [TableEntry(now, entry)]];
      }
    }

    method DeleteOldEntries(now: int)
      modifies this`dataTableMap
      ensures dataTableMap == Pruned(old(dataTableMap), now - maxTimeInterval)
    {
      var oldestTime := now - maxTimeInterval;
      var todo := dataTableMap.Keys;
      ghost var before := dataTableMap;
      while todo != {}
        invariant dataTableMap.Keys == before.Keys && todo <= before.Keys
        invariant forall k :: k in before ==>
          dataTableMap[k] == if k in todo then before[k] else DropOld(before[k], oldestTime)
      {
        var key :| key in todo;
        var l := DeleteFromFront(dataTableMap[key], oldestTime);
        dataTableMap := dataTableMap[key := l];
        todo := todo - {key};
      }
    }
  }

  method DeleteFromFront(tableMap: seq<TableEntry>, oldestTime: int) returns (l: seq<TableEntry>)
    ensures l == DropOld(tableMap, oldestTime)
  {
    l := tableMap;
    while l != []
      invariant DropOld(l, oldestTime) == DropOld(tableMap, oldestTime)
      decreases |l|
    {
      if l[0].timeStamp < oldestTime {
        l := l[1..];
      } else {
        break;
      }
    }
  }

  type Tables = map<string, IndexKeyTable>

  ghost predicate Separate(tables: Tables) {
    forall j, k :: j in tables && k in tables && j != k ==> tables[j] != tables[k]
  }

  method AddEntryToTables(lib: FilterLib, tables: Tables, entry: GenericMap, now: int)
    requires Separate(tables)
    modifies tables.Values
    ensures forall k :: k in tables ==> tables[k].maxTimeInterval == old(tables[k].maxTimeInterval)
    ensures forall k :: k in tables ==>
      tables[k].dataTableMap == WithEntry(lib, k, old(tables[k].dataTableMap), entry, now)
  {
    var todo := tables.Keys;
    while todo != {}
      invariant todo <= tables.Keys
      invariant forall k :: k in tables ==> tables[k].maxTimeInterval == old(tables[k].maxTimeInterval)
      invariant forall k :: k in tables && k in todo ==> tables[k].dataTableMap == old(tables[k].dataTableMap)
      invariant forall k :: k in tables && k !in todo ==>
        tables[k].dataTableMap == WithEntry(lib, k, old(tables[k].dataTableMap), entry, now)
    {
      var tableKey :| tableKey in todo;
      tables[tableKey].AddEntry(lib, tableKey, entry, now);
      todo := todo - {tableKey};
    }
  }

  method DeleteOldEntriesFromTables(tables: Tables, now: int)
    requires Separate(tables)
    modifies tables.Values
    ensures forall k :: k in tables ==> tables[k].maxTimeInterval == old(tables[k].maxTimeInterval)
    ensures forall k :: k in tables ==>
      tables[k].dataTableMap == Pruned(old(tables[k].dataTableMap), now - tables[k].maxTimeInterval)
  {
    var todo := tables.Keys;
    while todo != {}
      invariant todo <= tables.Keys
      invariant forall k :: k in tables ==> tables[k].maxTimeInterval == old(tables[k].maxTimeInterval)
      invariant forall k :: k in tables && k in todo ==> tables[k].dataTableMap == old(tables[k].dataTableMap)
      invariant forall k :: k in tables && k !in todo ==>
        tables[k].dataTableMap == Pruned(old(tables[k].dataTableMap), now - tables[k].maxTimeInterval)
    {
      var tableKey :| tableKey in todo;
      tables[tableKey].DeleteOldEntries(now);
      todo := todo - {tableKey};
    }
  }

  // ----- filters

  function InitValue(op: Operation): real {
    match op
    case Max => -MAX_FLOAT64
    case Min => MAX_FLOAT64
    case _ => 0.0
  }

  /** The running value of CalculateValue before its final adjustments. */
  function Running(op: Operation, nums: seq<real>): real {
    match op
    case Sum => Total(nums)
    case Avg => Total(nums)
    case Max => Greatest(nums, InitValue(Operation.Max))
    case Min => Smallest(nums, InitValue(Operation.Min))
    case _ => 0.0
  }

  lemma RunningAppend(op: Operation, nums: seq<real>, v: real)
    ensures op.Sum? || op.Avg? ==> Running(op, nums + [v]) == Running(op, nums) + v
    ensures op.Max? ==> Running(op, nums + [v]) == if Running(op, nums) < v then v else Running(op, nums)
    ensures op.Min? ==> Running(op, nums + [v]) == if v < Running(op, nums) then v else Running(op, nums)
    ensures !op.Sum? && !op.Avg? && !op.Max? && !op.Min? ==> Running(op, nums + [v]) == Running(op, nums)
  {
    assert (nums + [v])[..|nums|] == nums;
  }

  /** What a top-K rule outputs, and what a rule without limit outputs: every result once. */
  ghost predicate Chosen(rule: Rule, results: Results, out: seq<FilterResult>) {
    if rule.topK > 0
    then Selects(rule.reversed, Admitted(rule.reversed, results, InitialBound(rule.reversed)), out, rule.topK)
    else Enumerates(results, out)
  }

  /** Of finite results a top-K rule outputs the best of all. */
  ghost predicate BestWhenFinite(rule: Rule, results: Results, out: seq<FilterResult>) {
    rule.topK > 0 && Finite(results) ==> Selects(rule.reversed, results, out, rule.topK)
  }

  lemma ChosenFinite(rule: Rule, results: Results, out: seq<FilterResult>)
    requires Chosen(rule, results, out)
    ensures BestWhenFinite(rule, results, out)
  {
    if Finite(results) {
      FiniteAdmitted(rule.reversed, results);
    }
  }

  predicate Enumerates(results: Results, out: seq<FilterResult>) {
    && (forall i :: 0 <= i < |out| ==> out[i].values in results && results[out[i].values] == out[i])
    && (forall i, j :: 0 <= i < j < |out| ==> out[i].values != out[j].values)
    && (forall k :: k in results ==> results[k] in out)
  }

  function OperationName(op: Operation): string {
    match op
    case Last => "last" case Diff => "diff" case Cnt => "count" case Avg => "avg"
    case Max => "max" case Min => "min" case Sum => "sum" case Unknown(name) => name
  }

  function WithIndexes(m: GenericMap, keys: seq<string>, values: seq<string>): GenericMap
    requires |keys| == |values|
  {
    if keys == [] then m else
    var n := |keys| - 1;
    WithIndexes(m, keys[..n], values[..n])[keys[n] := Str(values[n])]
  }

  /** One output record: the rule, the result, and the index fields when the key splits into as many values. */
  function Record(rule: Rule, r: FilterResult): GenericMap {
    var t := map["name" := Str(rule.name), "index_key" := Str(rule.indexKey),
      "operation" := Str(OperationName(rule.operation))]
      [rule.operationKey := Float(r.operationResult)];
    var values := Split(r.values);
    if |rule.indexKeys| == |values| then WithIndexes(t, rule.indexKeys, values) else t
  }

  function Records(rule: Rule, out: seq<FilterResult>): seq<GenericMap> {
    seq(|out|, i requires 0 <= i < |out| => Record(rule, out[i]))
  }

  // ----- what a record tells

  /** The text of an operation, as it is configured. */
  predicate IsNamed(op: Operation, text: string) {
    match op
    case Last => text == "last"
    case Diff => text == "diff"
    case Cnt => text == "count"
    case Avg => text == "avg"
    case Max => text == "max"
    case Min => text == "min"
    case Sum => text == "sum"
    case Unknown(name) => text == name
  }

  /** The texts that every record of a rule carries, unless another field takes the name. */
  predicate IsFixed(rule: Rule, field: string, text: string) {
    || (field == "name" && text == rule.name)
    || (field == "index_key" && text == rule.indexKey)
    || (field == "operation" && IsNamed(rule.operation, text))
  }

  /** An index field that the record carries: its index value splits into as many parts as there are index fields. */
  predicate IsWritten(rule: Rule, values: string, field: string) {
    field in rule.indexKeys && |Split(values)| == |rule.indexKeys|
  }

  /** The i-th index field, when no later one has the same name. */
  predicate IsLastIndex(rule: Rule, i: nat) {
    i < |rule.indexKeys| && forall j :: i < j < |rule.indexKeys| ==> rule.indexKeys[j] != rule.indexKeys[i]
  }

  /** What a record says of one result: each index field its part of the index value; the operation key the number, if
      and only if it is not such an index field; the fixed fields their texts, unless one of these takes their name; and
      no more. */
  ghost predicate Tells(rule: Rule, r: FilterResult, rec: GenericMap) {
    && (forall i: nat :: IsLastIndex(rule, i) && IsWritten(rule, r.values, rule.indexKeys[i]) ==>
          Lookup(rec, rule.indexKeys[i]) == Str(Split(r.values)[i]))
    && (Lookup(rec, rule.operationKey) == Float(r.operationResult) <==> !IsWritten(rule, r.values, rule.operationKey))
    && (forall field, text ::
          IsFixed(rule, field, text) && field != rule.operationKey && !IsWritten(rule, r.values, field) ==>
            Lookup(rec, field) == Str(text))
    && (forall field :: field in rec <==>
          field == rule.operationKey || IsWritten(rule, r.values, field) || exists text :: IsFixed(rule, field, text))
  }

  ghost predicate AllTell(rule: Rule, out: seq<FilterResult>, recs: seq<GenericMap>) {
    |recs| == |out| && forall i :: 0 <= i < |out| ==> Tells(rule, out[i], recs[i])
  }

  lemma {:induction false} IndexesWritten(m: GenericMap, keys: seq<string>, values: seq<string>)
    requires |keys| == |values|
    ensures var m' := WithIndexes(m, keys, values);
      && (forall i :: 0 <= i < |keys| && (forall j :: i < j < |keys| ==> keys[j] != keys[i]) ==>
            keys[i] in m' && m'[keys[i]] == Str(values[i]))
      && (forall k :: k !in keys ==> Lookup(m', k) == Lookup(m, k))
      && (forall k :: k in m' <==> k in m || k in keys)
      && (forall k :: k in keys ==> m'[k].Str?)
  {
    if keys != [] {
      var n := |keys| - 1;
      IndexesWritten(m, keys[..n], values[..n]);
      assert keys == keys[..n] + [keys[n]];
      var m' := WithIndexes(m, keys, values);
      forall i | 0 <= i < |keys| && (forall j :: i < j < |keys| ==> keys[j] != keys[i])
        ensures keys[i] in m' && m'[keys[i]] == Str(values[i])
      {
        if i < n {
          assert keys[..n][i] == keys[i] && forall j :: i < j < n ==> keys[..n][j] != keys[..n][i];
        }
      }
    }
  }

  lemma RecordTells(rule: Rule, r: FilterResult)
    ensures Tells(rule, r, Record(rule, r))
  {
    var fixed: GenericMap := map["name" := Str(rule.name), "index_key" := Str(rule.indexKey),
      "operation" := Str(OperationName(rule.operation))];
    FixedTell(rule, fixed);
    var t := fixed[rule.operationKey := Float(r.operationResult)];
    if |rule.indexKeys| == |Split(r.values)| {
      IndexesWritten(t, rule.indexKeys, Split(r.values));
    }
  }

  lemma FixedTell(rule: Rule, fixed: GenericMap)
    requires fixed == map["name" := Str(rule.name), "index_key" := Str(rule.indexKey),
      "operation" := Str(OperationName(rule.operation))]
    ensures forall field, text :: IsFixed(rule, field, text) ==> Lookup(fixed, field) == Str(text)
    ensures forall field :: field in fixed <==> exists text :: IsFixed(rule, field, text)
  {
    assert IsFixed(rule, "name", rule.name) && IsFixed(rule, "index_key", rule.indexKey);
    assert IsFixed(rule, "operation", OperationName(rule.operation));
  }

  lemma RecordsTell(rule: Rule, out: seq<FilterResult>)
    ensures AllTell(rule, out, Records(rule, out))
  {
    forall i | 0 <= i < |out| ensures Tells(rule, out[i], Records(rule, out)[i]) {
      RecordTells(rule, out[i]);
    }
  }

  lemma {:induction false} IndexesReadBack(m: GenericMap, keys: seq<string>, values: seq<string>, i: nat)
    requires |keys| == |values| && i < |keys|
    requires forall a, b :: 0 <= a < b < |keys| ==> keys[a] != keys[b]
    ensures keys[i] in WithIndexes(m, keys, values) && WithIndexes(m, keys, values)[keys[i]] == Str(values[i])
  {
    var n := |keys| - 1;
    if i < n {
      IndexesReadBack(m, keys[..n], values[..n], i);
    }
  }

  /** The record for a group names the index fields of every entry of that group, when no text holds a comma. */
  lemma RecordNamesGroup(lib: FilterLib, rule: Rule, entry: GenericMap, r: FilterResult, i: nat)
    requires i < |rule.indexKeys| && rule.indexKey == Join(rule.indexKeys)
    requires forall a, b :: 0 <= a < b < |rule.indexKeys| ==> rule.indexKeys[a] != rule.indexKeys[b]
    requires forall p :: p in rule.indexKeys ==> ',' !in p
    requires forall t :: t in Texts(lib, entry, rule.indexKeys) ==> ',' !in t
    requires IndexValue(lib, entry, Split(rule.indexKey)) == Some(r.values)
    ensures Lookup(Record(rule, r), rule.indexKeys[i]) == Str(Text(lib, entry, rule.indexKeys[i]))
  {
    SplitJoin(rule.indexKeys);
    var values := Texts(lib, entry, rule.indexKeys);
    SplitJoin(values);
    var t := map["name" := Str(rule.name), "index_key" := Str(rule.indexKey),
      "operation" := Str(OperationName(rule.operation))]
      [rule.operationKey := Float(r.operationResult)];
    IndexesReadBack(t, rule.indexKeys, values, i);
  }

  /** Entries share a group exactly when their index fields agree, when no text holds a comma. */
  lemma GroupsAreIndexValues(lib: FilterLib, keys: seq<string>, e1: GenericMap, e2: GenericMap)
    requires keys != []
    requires forall t :: t in Texts(lib, e1, keys) || t in Texts(lib, e2, keys) ==> ',' !in t
    requires IndexValue(lib, e1, keys).Some? && IndexValue(lib, e2, keys).Some?
    ensures IndexValue(lib, e1, keys) == IndexValue(lib, e2, keys) <==> Texts(lib, e1, keys) == Texts(lib, e2, keys)
  {
    SplitJoin(Texts(lib, e1, keys));
    SplitJoin(Texts(lib, e2, keys));
  }

  class FilterStruct {
    const rule: Rule
    const table: IndexKeyTable
    var results: Results
    var output: seq<FilterResult>

    constructor (rule: Rule, table: IndexKeyTable)
      ensures this.rule == rule && this.table == table && results == map[] && output == []
    {
      this.rule, this.table, results, output := rule, table, map[], [];
    }

    method CalculateResults(lib: FilterLib, now: int)
      modifies this`results
      ensures results == Recalculated(lib, rule, table.dataTableMap, table.dataTableMap.Keys, old(results), now)
    {
      var data := table.dataTableMap;
      var todo := data.Keys;
      ghost var before := results;
      ghost var visited: set<string> := {};
      NothingRecalculated(lib, rule, data, before, now);
      while todo != {}
        invariant todo <= data.Keys && visited == data.Keys - todo
        invariant results == Recalculated(lib, rule, data, visited, before, now)
      {
        var tableKey :| tableKey in todo;
        var value := Evaluate(lib, data[tableKey], now);
        RecalculatedStep(lib, rule, data, visited, before, now, tableKey);
        if value.Some? {
          results := results[tableKey := FilterResult(tableKey, value.value)];
        }
        visited := visited + {tableKey};
        todo := todo - {tableKey};
      }
      assert visited == data.Keys;
    }

    /** One iteration of CalculateResults: None is its continue. */
    method Evaluate(lib: FilterLib, l: seq<TableEntry>, now: int) returns (value: Option<real>)
      ensures value == Outcome(lib, rule, l, now)
    {
      var oldestValidTime := now - rule.timeInterval;
      if rule.operation.Last? {
        value := if l == [] then None else lib.toFloat(Lookup(l[|l|-1].entry, rule.operationKey));
      } else if rule.operation.Diff? {
        var v := Difference(lib, l, oldestValidTime);
        value := Some(v);
      } else {
        var v := CalculateValue(lib, l, oldestValidTime);
        value := Some(v);
      }
    }

    method Difference(lib: FilterLib, l: seq<TableEntry>, oldest: int) returns (v: real)
      ensures var nums := Numbers(lib, rule.operationKey, l, oldest);
        var last := if l == [] then None else lib.toFloat(Lookup(l[|l|-1].entry, rule.operationKey));
        v == if nums != [] && last.Some? then last.value - nums[0] else 0.0
    {
      v := 0.0;
      for i := 0 to |l|
        invariant Numbers(lib, rule.operationKey, l[..i], oldest)
          == [] || lib.toFloat(Lookup(l[|l|-1].entry, rule.operationKey)).None?
        invariant v == 0.0
      {
        assert l[..i+1][..i] == l[..i];
        if l[i].timeStamp < oldest {
          continue;
        }
        var first := lib.toFloat(Lookup(l[i].entry, rule.operationKey));
        if first.None? {
          continue;
        }
        var last := lib.toFloat(Lookup(l[|l|-1].entry, rule.operationKey));
        if last.None? {
          continue;
        }
        v := last.value - first.value;
        FirstNumber(lib, rule.operationKey, l, oldest, i);
        return;
      }
      assert l[..|l|] == l;
    }

    method CalculateValue(lib: FilterLib, l: seq<TableEntry>, oldest: int) returns (currentValue: real)
      requires !rule.operation.Last? && !rule.operation.Diff?
      ensures currentValue == Fold(rule.operation, Numbers(lib, rule.operationKey, l, oldest))
    {
      var op := rule.operation;
      currentValue := InitValue(op);
      var nItems := 0;
      for i := 0 to |l|
        invariant currentValue == Running(op, Numbers(lib, rule.operationKey, l[..i], oldest))
        invariant nItems == |Numbers(lib, rule.operationKey, l[..i], oldest)|
      {
        assert l[..i+1][..i] == l[..i];
        assert Numbers(lib, rule.operationKey, l[..i], oldest) + [] == Numbers(lib, rule.operationKey, l[..i], oldest);
        if l[i].timeStamp < oldest {
          continue;
        }
        var value := lib.toFloat(Lookup(l[i].entry, rule.operationKey));
        if value.Some? {
          RunningAppend(op, Numbers(lib, rule.operationKey, l[..i], oldest), value.value);
          nItems := nItems + 1;
          match op {
            case Sum => currentValue := currentValue + value.value;
            case Avg => currentValue := currentValue + value.value;
            case Max => currentValue := if currentValue < value.value then value.value else currentValue;
            case Min => currentValue := if value.value < currentValue then value.value else currentValue;
            case _ =>
          }
        }
      }
      assert l[..|l|] == l;
      if op.Avg? && nItems > 0 {
        currentValue := currentValue / nItems as real;
      }
      if op.Cnt? {
        currentValue := nItems as real;
      }
    }

    method ComputeTopkBotk()
      requires Keyed(results)
      modifies this`output
      ensures Chosen(rule, results, output) && BestWhenFinite(rule, results, output)
    {
      if rule.topK > 0 {
        output := ComputeK(rule.reversed, results, rule.topK);
      } else {
        output := AllResults(results);
      }
    }

    method CreateGenericMap() returns (out: seq<GenericMap>)
      ensures out == Records(rule, output) && AllTell(rule, output, out)
    {
      RecordsTell(rule, output);
      out := [];
      for i := 0 to |output|
        invariant out == Records(rule, output[..i])
      {
        out := out + [Record(rule, output[i])];
      }
      assert output[..|output|] == output;
    }
  }

  /** Converting the map of results to an array, in any order. */
  method AllResults(results: Results) returns (out: seq<FilterResult>)
    requires Keyed(results)
    ensures Enumerates(results, out)
  {
    out := [];
    var todo := results.Keys;
    while todo != {}
      invariant todo <= results.Keys
      invariant forall i :: 0 <= i < |out| ==>
        out[i].values in results && results[out[i].values] == out[i] && out[i].values !in todo
      invariant forall i, j :: 0 <= i < j < |out| ==> out[i].values != out[j].values
      invariant forall k :: k in results && k !in todo ==> results[k] in out
    {
      var key :| key in todo;
      out := out + [results[key]];
      todo := todo - {key};
    }
  }

  lemma NothingRecalculated(lib: FilterLib, rule: Rule, data: DataTable, results: Results, now: int)
    ensures Recalculated(lib, rule, data, {}, results, now) == results
  {
  }

  lemma RecalculatedStep(
    lib: FilterLib, rule: Rule, data: DataTable, visited: set<string>, results: Results, now: int, k: string)
    requires k in data && k !in visited
    ensures var r := Recalculated(lib, rule, data, visited, results, now);
      Recalculated(lib, rule, data, visited + {k}, results, now) ==
      match Outcome(lib, rule, data[k], now) case Some(v) => r[k := FilterResult(k, v)] case None => r
  {
  }

  /** The first convertible entry of the window carries the first number. */
  lemma FirstNumber(lib: FilterLib, key: string, l: seq<TableEntry>, oldest: int, i: nat)
    requires i < |l| && Numbers(lib, key, l[..i], oldest) == [] && l[i].timeStamp >= oldest
    requires lib.toFloat(Lookup(l[i].entry, key)).Some?
    ensures Numbers(lib, key, l, oldest) != []
      && Numbers(lib, key, l, oldest)[0] == lib.toFloat(Lookup(l[i].entry, key)).value
  {
    if i == |l| - 1 {
    } else {
      var n := |l| - 1;
      assert l[..n][..i] == l[..i];
      FirstNumber(lib, key, l[..n], oldest, i);
    }
  }
}
