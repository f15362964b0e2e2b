/** What the time-based rules compute: index values, history tables, windows and operations (tables.go, filters.go). */
module TimebasedSpec {
  import opened Common
  import opened Float64
  import opened TimebasedHeap

  datatype Operation = Last | Diff | Cnt | Avg | Max | Min | Sum | Unknown(name: string)

  datatype Rule = Rule(
    name: string, indexKey: string, indexKeys: seq<string>, operation: Operation, operationKey: string,
    topK: int, reversed: bool, timeInterval: int)

  datatype TableEntry = TableEntry(timeStamp: int, entry: GenericMap)
  type DataTable = map<string, seq<TableEntry>>
  type Results = map<string, FilterResult>

  /** The value conversions of pkg/utils. */
  datatype FilterLib = FilterLib(toString: Value -> string, toFloat: Value -> Option<real>)

  /** The input of one call of Extract, and the clock it read. */
  datatype Batch = Batch(now: int, entries: seq<GenericMap>)

  // ----- comma-separated keys

  function Split(s: string): (parts: seq<string>)
    ensures |parts| >= 1
  {
    if s == "" then [""] else
    var rest := Split(s[1..]);
    if s[0] == ',' then [""] + rest else [[s[0]] + rest[0]] + rest[1..]
  }

  function Join(parts: seq<string>): string { JoinWith(parts, ",") }

  /** Splitting a joined key gives the parts back, provided no part holds a comma. */
  lemma {:induction false} SplitJoin(parts: seq<string>)
    requires parts != [] && forall p :: p in parts ==> ',' !in p
    ensures Split(Join(parts)) == parts
  {
    if |parts| == 1 {
      SplitPlain(parts[0]);
    } else {
      SplitJoin(parts[1..]);
      SplitAtComma(parts[0], Join(parts[1..]));
      assert parts == [parts[0]] + parts[1..];
    }
  }

  lemma {:induction false} SplitPlain(p: string)
    requires ',' !in p
    ensures Split(p) == [p]
  {
    if p != "" {
      SplitPlain(p[1..]);
      assert p == [p[0]] + p[1..];
    }
  }

  lemma {:induction false} SplitAtComma(p: string, rest: string)
    requires ',' !in p
    ensures Split(p + "," + rest) == [p] + Split(rest)
  {
    var s := p + "," + rest;
    if p == "" {
      assert s[1..] == rest;
    } else {
      assert s[1..] == p[1..] + "," + rest;
      SplitAtComma(p[1..], rest);
      assert p == [p[0]] + p[1..];
    }
  }

  lemma {:induction false} JoinAppend(parts: seq<string>, p: string)
    ensures Join(parts + [p]) == if parts == [] then p else Join(parts) + "," + p
  {
    if |parts| == 1 {
      assert (parts + [p])[1..] == [p] && Join([p]) == p;
    } else if |parts| > 1 {
      JoinAppend(parts[1..], p);
      assert (parts + [p])[1..] == parts[1..] + [p];
      assert Join(parts + [p]) == parts[0] + "," + Join(parts[1..] + [p]);
    }
  }

  lemma JoinNonEmpty(parts: seq<string>)
    requires parts != [] && parts[0] != ""
    ensures Join(parts) != ""
  {
  }

  // ----- history tables

  /** The text of an index field; a missing field counts as empty. */
  function Text(lib: FilterLib, entry: GenericMap, key: string): string {
    if key in entry then lib.toString(entry[key]) else ""
  }

  function Texts(lib: FilterLib, entry: GenericMap, keys: seq<string>): (ts: seq<string>)
    ensures |ts| == |keys|
  {
    seq(|keys|, i requires 0 <= i < |keys| => Text(lib, entry, keys[i]))
  }

  /** The index value of an entry: defined when every index field has a text. */
  function IndexValue(lib: FilterLib, entry: GenericMap, keys: seq<string>): Option<string> {
    if "" in Texts(lib, entry, keys) then None else Some(Join(Texts(lib, entry, keys)))
  }

  /** An entry is indexed if and only if every index field is present with a text; the index value joins these texts. */
  lemma IndexMeans(lib: FilterLib, entry: GenericMap, keys: seq<string>, texts: seq<string>)
    requires |texts| == |keys|
    requires forall i :: 0 <= i < |keys| && keys[i] in entry ==> texts[i] == lib.toString(entry[keys[i]])
    ensures IndexValue(lib, entry, keys).Some?
      <==> forall i :: 0 <= i < |keys| ==> keys[i] in entry && lib.toString(entry[keys[i]]) != ""
    ensures IndexValue(lib, entry, keys).Some? ==> IndexValue(lib, entry, keys).value == JoinWith(texts, ",")
  {
    var ts := Texts(lib, entry, keys);
    if "" in ts {
      var i := IndexOf(ts, "");
      assert ts[i] == Text(lib, entry, keys[i]);
    } else {
      forall i | 0 <= i < |keys| ensures keys[i] in entry && ts[i] == texts[i] && ts[i] != "" {
        assert ts[i] in ts && ts[i] == Text(lib, entry, keys[i]);
      }
      assert ts == texts;
    }
  }

  function ListAt(data: DataTable, k: string): seq<TableEntry> { if k in data then data[k] else [] }

  function WithEntry(lib: FilterLib, tableKey: string, data: DataTable, entry: GenericMap, now: int): DataTable {
    match IndexValue(lib, entry, Split(tableKey))
    case None => data
    case Some(k) => data[k := ListAt(data, k) + [TableEntry(now, entry)]]
  }

  function WithEntries(
    lib: FilterLib, tableKey: string, data: DataTable, entries: seq<GenericMap>, now: int): DataTable {
    if entries == [] then data else
    var n := |entries| - 1;
    WithEntry(lib, tableKey, WithEntries(lib, tableKey, data, entries[..n], now), entries[n], now)
  }

  /** Deletion from the front, up to the first entry that is not too old. */
  function DropOld(l: seq<TableEntry>, oldest: int): seq<TableEntry> {
    if l != [] && l[0].timeStamp < oldest then DropOld(l[1..], oldest) else l
  }

  function Pruned(data: DataTable, oldest: int): DataTable {
    map k | k in data :: DropOld(data[k], oldest)
  }

  // ----- operations

  /** The numbers a rule works on: its operation key over the entries inside the window, oldest first. */
  function Numbers(lib: FilterLib, key: string, l: seq<TableEntry>, oldest: int): seq<real> {
    if l == [] then [] else
    var n := |l| - 1;
    Numbers(lib, key, l[..n], oldest) + (if l[n].timeStamp < oldest then [] else AsNumber(lib, key, l[n]))
  }

  function AsNumber(lib: FilterLib, key: string, e: TableEntry): seq<real> {
    match lib.toFloat(Lookup(e.entry, key)) case Some(v) => [v] case None => []
  }

  function Greatest(nums: seq<real>, least: real): real {
    if nums == [] then least else
    var g := Greatest(nums[..|nums|-1], least);
    if g < nums[|nums|-1] then nums[|nums|-1] else g
  }

  function Smallest(nums: seq<real>, greatest: real): real {
    if nums == [] then greatest else
    var g := Smallest(nums[..|nums|-1], greatest);
    if nums[|nums|-1] < g then nums[|nums|-1] else g
  }

  /** The result of folding the numbers of a window. */
  function Fold(op: Operation, nums: seq<real>): real {
    match op
    case Sum => Total(nums)
    case Avg => if nums == [] then 0.0 else Total(nums) / |nums| as real
    case Cnt => |nums| as real
    case Max => Greatest(nums, -MAX_FLOAT64)
    case Min => Smallest(nums, MAX_FLOAT64)
    case _ => 0.0
  }

  /** The maximum is an upper bound that is reached. */
  lemma {:induction false} GreatestIsMaximum(nums: seq<real>, least: real)
    requires forall i :: 0 <= i < |nums| ==> nums[i] >= least
    ensures forall i :: 0 <= i < |nums| ==> nums[i] <= Greatest(nums, least)
    ensures nums != [] ==> Greatest(nums, least) in nums
    ensures nums == [] ==> Greatest(nums, least) == least
    ensures Greatest(nums, least) >= least
  {
    if nums != [] {
      GreatestIsMaximum(nums[..|nums|-1], least);
    }
  }

  lemma {:induction false} SmallestIsMinimum(nums: seq<real>, greatest: real)
    requires forall i :: 0 <= i < |nums| ==> nums[i] <= greatest
    ensures forall i :: 0 <= i < |nums| ==> nums[i] >= Smallest(nums, greatest)
    ensures nums != [] ==> Smallest(nums, greatest) in nums
    ensures nums == [] ==> Smallest(nums, greatest) == greatest
    ensures Smallest(nums, greatest) <= greatest
  {
    if nums != [] {
      SmallestIsMinimum(nums[..|nums|-1], greatest);
    }
  }

  /** Over finite doubles the initial values do not show: a window with numbers has their maximum and minimum. */
  lemma WindowExtremes(nums: seq<real>)
    requires nums != [] && forall i :: 0 <= i < |nums| ==> IsFloat64(nums[i])
    ensures Fold(Max, nums) in nums && forall i :: 0 <= i < |nums| ==> nums[i] <= Fold(Max, nums)
    ensures Fold(Min, nums) in nums && forall i :: 0 <= i < |nums| ==> nums[i] >= Fold(Min, nums)
  {
    forall i | 0 <= i < |nums| ensures -MAX_FLOAT64 <= nums[i] <= MAX_FLOAT64 {
      LargestFiniteDouble(nums[i]);
    }
    GreatestIsMaximum(nums, -MAX_FLOAT64);
    SmallestIsMinimum(nums, MAX_FLOAT64);
  }

  /** The mean lies between the smallest and the greatest number. */
  lemma {:induction false} MeanIsBetween(nums: seq<real>, low: real, high: real)
    requires nums != [] && forall i :: 0 <= i < |nums| ==> low <= nums[i] <= high
    ensures low <= Fold(Avg, nums) <= high
  {
    TotalIsBetween(nums, low, high);
    QuotientIsBetween(Total(nums), |nums| as real, low, high);
  }

  lemma QuotientIsBetween(t: real, n: real, low: real, high: real)
    requires n > 0.0 && low * n <= t <= high * n
    ensures low <= t / n <= high
  {
  }

  lemma {:induction false} TotalIsBetween(nums: seq<real>, low: real, high: real)
    requires forall i :: 0 <= i < |nums| ==> low <= nums[i] <= high
    ensures low * |nums| as real <= Total(nums) <= high * |nums| as real
  {
    if nums != [] {
      TotalIsBetween(nums[..|nums|-1], low, high);
    }
  }

  /** What one evaluation of a rule yields for one list of its table; None leaves the previous result in place. */
  function Outcome(lib: FilterLib, rule: Rule, l: seq<TableEntry>, now: int): Option<real> {
    var nums := Numbers(lib, rule.operationKey, l, now - rule.timeInterval);
    match rule.operation
    case Last => if l == [] then None else lib.toFloat(Lookup(l[|l|-1].entry, rule.operationKey))
    case Diff =>
      if nums == [] || l == [] then Some(0.0) else
      var last := lib.toFloat(Lookup(l[|l|-1].entry, rule.operationKey));
      Some(if last.Some? then last.value - nums[0] else 0.0)
    case _ => Some(Fold(rule.operation, nums))
  }

  /** The results after re-evaluating a rule on the lists visited. */
  function Recalculated(
    lib: FilterLib, rule: Rule, data: DataTable, visited: set<string>, results: Results, now: int): (r: Results)
    ensures Keyed(results) ==> Keyed(r)
  {
    map k | k in results.Keys + visited && (k in results || Outcome(lib, rule, ListAt(data, k), now).Some?) ::
      if k in visited && Outcome(lib, rule, ListAt(data, k), now).Some?
      then FilterResult(k, Outcome(lib, rule, ListAt(data, k), now).value)
      else results[k]
  }

  // ----- runs

  function Final(history: seq<Batch>): Batch
    requires history != []
  {
    history[|history| - 1]
  }

  function Earlier(history: seq<Batch>): seq<Batch>
    requires history != []
  {
    history[..|history| - 1]
  }

  /** The table of one index key when the last batch has been entered, before any deletion for it. */
  function Filled(lib: FilterLib, tableKey: string, interval: int, prune: bool, history: seq<Batch>): DataTable
    requires history != []
    decreases |history|, 0
  {
    WithEntries(lib, tableKey, TableAfter(lib, tableKey, interval, prune, Earlier(history)), Final(history).entries,
      Final(history).now)
  }

  /** The table of one index key after a run; interval is the largest window of the rules that share it. */
  function TableAfter(lib: FilterLib, tableKey: string, interval: int, prune: bool, history: seq<Batch>): DataTable
    decreases |history|, 1
  {
    if history == [] then map[] else
    var filled := Filled(lib, tableKey, interval, prune, history);
    if prune then Pruned(filled, Final(history).now - interval) else filled
  }

  /** The results of one rule after a run. */
  function ResultsAfter(lib: FilterLib, rule: Rule, interval: int, prune: bool, history: seq<Batch>): (r: Results)
    ensures Keyed(r)
  {
    if history == [] then map[] else
    var filled := Filled(lib, rule.indexKey, interval, prune, history);
    Recalculated(lib, rule, filled, filled.Keys, ResultsAfter(lib, rule, interval, prune, Earlier(history)),
      Final(history).now)
  }

  /** All entries of a batch that carry a given index value, in order of arrival. */
  function Matching(lib: FilterLib, tableKey: string, entries: seq<GenericMap>, now: int, k: string): seq<TableEntry> {
    if entries == [] then [] else
    var n := |entries| - 1;
    Matching(lib, tableKey, entries[..n], now, k)
    + (if IndexValue(lib, entries[n], Split(tableKey)) == Some(k) then [TableEntry(now, entries[n])] else [])
  }

  /** Everything ever received with a given index value. */
  function Received(lib: FilterLib, tableKey: string, history: seq<Batch>, k: string): seq<TableEntry> {
    if history == [] then [] else
    Received(lib, tableKey, Earlier(history), k)
      + Matching(lib, tableKey, Final(history).entries, Final(history).now, k)
  }

  predicate NonDecreasing(history: seq<Batch>) {
    forall i, j :: 0 <= i < j < |history| ==> history[i].now <= history[j].now
  }

  /** The entries that are not older than a given time. */
  function Recent(l: seq<TableEntry>, oldest: int): seq<TableEntry> {
    if l == [] then [] else
    var n := |l| - 1;
    Recent(l[..n], oldest) + (if l[n].timeStamp < oldest then [] else [l[n]])
  }
}
