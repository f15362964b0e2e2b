/** Aggregation of flow logs by label values: groups in a timed cache, and their reports (aggregate.go). */
module Aggregation {
  import opened Common
  import opened Float64
  import opened TimedCaches
  import opened AggregateValues
  import opened AggregateLabels
  import Spec = TimebasedSpec

  // ----- groups

  /** What GetMetrics reports of a group. */
  datatype Metric = Metric(
    id: Identity, totalValue: real, totalCount: nat, recentRawValues: seq<real>, recentOpValue: real, recentCount: nat)

  /** The history of a group: the labels of the flow log it began with, the inputs already reported in chunks, those
      since the last report, and the metrics returned. */
  datatype Group = Group(id: Identity, chunks: seq<seq<Input>>, pending: seq<Input>, metrics: seq<Metric>) {
    function All(): seq<Input> { Concat(chunks) + pending }

    function Extended(x: Input): Group { this.(pending := pending + [x]) }

    /** A metric is returned and a new period begins. */
    function Closed(m: Metric): Group { Group(id, chunks + [pending], [], metrics + [m]) }
  }

  function NewGroup(id: Identity): Group { Group(id, [], [], []) }

  datatype GroupState = GroupState(
    normalizedValues: seq<string>, labels: Labels, recentRawValues: seq<real>, recentOpValue: real, recentCount: nat,
    totalValue: real, totalCount: nat)

  /** The state of a group that has received given inputs. */
  function StateOf(op: Operation, g: Group): GroupState {
    GroupState(g.id.values, g.id.labels, RawValuesOf(op, g.pending), OpValue(op, g.pending), |g.pending|,
               OpValue(op, g.All()), |g.All()|)
  }

  /** The update of one group by one flow log. */
  method Update(op: Operation, s: GroupState, x: Input, ghost g: Group) returns (s': GroupState)
    requires s == StateOf(op, g)
    ensures s' == StateOf(op, g.Extended(x))
  {
    ValueStep(op, g.All(), x);
    ValueStep(op, g.pending, x);
    assert Concat(g.chunks) + (g.pending + [x]) == g.All() + [x];
    s' := s;
    if op.Count? {
      s' := s'.(totalValue := (s.totalCount + 1) as real, recentOpValue := (s.recentCount + 1) as real);
    } else if x.Some? {
      s' := s'.(totalValue := NextValue(op, s.totalValue, s.totalCount, x),
        recentOpValue := NextValue(op, s.recentOpValue, s.recentCount, x));
      if op.RawValues? {
        s' := s'.(recentRawValues := s.recentRawValues + [x.value]);
      }
    }
    s' := s'.(totalCount := s.totalCount + 1, recentCount := s.recentCount + 1);
  }

  // ----- reports

  function MetricOf(op: Operation, g: Group): Metric {
    Metric(g.id, OpValue(op, g.All()), |g.All()|, RawValuesOf(op, g.pending), OpValue(op, g.pending), |g.pending|)
  }

  function FixedFields(def: Definition, m: Metric): GenericMap {
    map[
      "name" := Str(def.name),
      "operation_type" := Str(def.operation.Name()),
      "operation_key" := Str(def.operationKey),
      "by" := Str(JoinWith(def.groupByKeys, ",")),
      "aggregate" := Str(JoinWith(m.id.values, ",")),
      "total_value" := Float(m.totalValue),
      "total_count" := Int(m.totalCount),
      "recent_raw_values" := Floats(m.recentRawValues),
      "recent_op_value" := Float(m.recentOpValue),
      "recent_count" := Int(m.recentCount)]
  }

  /** The fields of the labels; reading a missing label yields the empty text. */
  function LabelFields(labels: Labels, keys: seq<string>): GenericMap {
    map k | k in keys :: LabelField(labels, k)
  }

  function LabelField(labels: Labels, k: string): Value { Str(if k in labels then labels[k] else "") }

  lemma OneMoreLabel(entry: GenericMap, labels: Labels, keys: seq<string>, k: string)
    ensures entry + LabelFields(labels, keys + [k]) == (entry + LabelFields(labels, keys))[k := LabelField(labels, k)]
  {
  }

  /** The output record of a metric: the joined label values under the joined keys prevail over the fixed fields, and
      each label prevails over both. */
  function Record(def: Definition, m: Metric): GenericMap {
    FixedFields(def, m)[JoinWith(def.groupByKeys, "_") := Str(JoinWith(m.id.values, ","))]
      + LabelFields(m.id.labels, def.groupByKeys)
  }

  /** A numeric field of a record is the one of the metric if and only if no group-by key, and not their join, has its
      name: grouping by the fields total and value loses the total value. */
  lemma NumberReported(def: Definition, m: Metric, field: string)
    requires field in ["total_value", "total_count", "recent_raw_values", "recent_op_value", "recent_count"]
    ensures field in FixedFields(def, m) && field in Record(def, m)
    ensures Record(def, m)[field] == FixedFields(def, m)[field]
       <==> field !in def.groupByKeys && field != JoinWith(def.groupByKeys, "_")
  {
  }

  /** The text of an operation, as it is configured. */
  predicate IsNamed(op: Operation, text: string) {
    match op
    case Sum => text == "sum"
    case Avg => text == "avg"
    case Max => text == "max"
    case Min => text == "min"
    case Count => text == "count"
    case RawValues => text == "raw_values"
  }

  /** What a report says of a group: the rule, the totals over everything the group received, and the recent values over
      what it received since the last report. */
  predicate IsReported(def: Definition, g: Group, field: string, value: Value) {
    var op := def.operation;
    || (field == "name" && value == Str(def.name))
    || (field == "operation_type" && value.Str? && IsNamed(op, value.s))
    || (field == "operation_key" && value == Str(def.operationKey))
    || (field == "by" && value == Str(JoinWith(def.groupByKeys, ",")))
    || (field == "aggregate" && value == Str(JoinWith(g.id.values, ",")))
    || (field == "total_value" && value == Float(OpValue(op, g.All())))
    || (field == "total_count" && value == Int(|g.All()|))
    || (field == "recent_raw_values" && value == Floats(RawValuesOf(op, g.pending)))
    || (field == "recent_op_value" && value == Float(OpValue(op, g.pending)))
    || (field == "recent_count" && value == Int(|g.pending|))
  }

  /** A record: a label under each group-by key, the joined label values under the joined keys unless that is one of
      them, and what is reported of the group unless a label or the joined values take the name. */
  ghost predicate RecordTells(def: Definition, g: Group, rec: GenericMap) {
    var joined := JoinWith(def.groupByKeys, "_");
    && (forall k :: k in def.groupByKeys && k in g.id.labels ==> Lookup(rec, k) == Str(g.id.labels[k]))
    && (joined !in def.groupByKeys ==> Lookup(rec, joined) == Str(JoinWith(g.id.values, ",")))
    && (forall field, value :: IsReported(def, g, field, value) && field !in def.groupByKeys && field != joined ==>
          Lookup(rec, field) == value)
  }

  lemma RecordIsTold(def: Definition, g: Group)
    ensures RecordTells(def, g, Record(def, MetricOf(def.operation, g)))
  {
    var m := MetricOf(def.operation, g);
    forall field, value | IsReported(def, g, field, value) ensures Lookup(FixedFields(def, m), field) == value {
      FixedIsReported(def, g, field, value);
    }
    forall k ensures Lookup(Record(def, m), k) ==
      if k in def.groupByKeys then LabelField(g.id.labels, k)
      else if k == JoinWith(def.groupByKeys, "_") then Str(JoinWith(g.id.values, ","))
      else Lookup(FixedFields(def, m), k)
    {
      RecordReads(def, m, k);
    }
  }

  lemma RecordReads(def: Definition, m: Metric, k: string)
    ensures Lookup(Record(def, m), k) ==
      if k in def.groupByKeys then LabelField(m.id.labels, k)
      else if k == JoinWith(def.groupByKeys, "_") then Str(JoinWith(m.id.values, ","))
      else Lookup(FixedFields(def, m), k)
  {
  }

  lemma FixedIsReported(def: Definition, g: Group, field: string, value: Value)
    requires IsReported(def, g, field, value)
    ensures Lookup(FixedFields(def, MetricOf(def.operation, g)), field) == value
  {
  }

  /** Reporting a group resets its recent fields. */
  method Report(def: Definition, s: GroupState, ghost g: Group) returns (newEntry: GenericMap, s': GroupState)
    requires s == StateOf(def.operation, g)
    ensures newEntry == Record(def, MetricOf(def.operation, g)) && RecordTells(def, g, newEntry)
    ensures s' == StateOf(def.operation, g.Closed(MetricOf(def.operation, g)))
  {
    var m := Metric(Identity(s.normalizedValues, s.labels), s.totalValue, s.totalCount, s.recentRawValues,
                    s.recentOpValue, s.recentCount);
    newEntry := RecordFrom(def, m);
    s' := s.(recentCount := 0, recentOpValue := InitValue(def.operation));
    if def.operation.RawValues? {
      s' := s'.(recentRawValues := []);
    }
    ClosedAll(g, m);
    RecordIsTold(def, g);
  }

  method RecordFrom(def: Definition, m: Metric) returns (newEntry: GenericMap)
    ensures newEntry == Record(def, m)
  {
    newEntry := FixedFields(def, m);
    newEntry := newEntry[JoinWith(def.groupByKeys, "_") := Str(JoinWith(m.id.values, ","))];
    newEntry := AddLabels(newEntry, m.id.labels, def.groupByKeys);
  }

  method AddLabels(entry: GenericMap, labels: Labels, keys: seq<string>) returns (newEntry: GenericMap)
    ensures newEntry == entry + LabelFields(labels, keys)
  {
    newEntry := entry;
    for i := 0 to |keys|
      invariant newEntry == entry + LabelFields(labels, keys[..i])
    {
      assert keys[..i+1] == keys[..i] + [keys[i]];
      OneMoreLabel(entry, labels, keys[..i], keys[i]);
      newEntry := newEntry[keys[i] := LabelField(labels, keys[i])];
    }
    assert keys[..|keys|] == keys;
  }

  lemma ClosedAll(g: Group, m: Metric)
    ensures g.Closed(m).All() == g.All()
  {
    assert (g.chunks + [g.pending])[..|g.chunks|] == g.chunks;
  }

  // ----- which group receives a flow log

  /** What the groups received, by the hash of their label values. */
  type View = map<nat, Group>

  function KeyOf(lib: AggLib, id: Identity): nat { HashOf(lib.fnv, id.values) }

  function GroupAt(lib: AggLib, view: View, id: Identity): Group {
    if KeyOf(lib, id) in view then view[KeyOf(lib, id)] else NewGroup(id)
  }

  /** One flow log entered: into the group of its hash, which begins with it if it is new. */
  function Fed(lib: AggLib, def: Definition, view: View, entry: GenericMap): View {
    match IdentityOf(lib, def, entry)
    case None => view
    case Some(id) => view[KeyOf(lib, id) := GroupAt(lib, view, id).Extended(InputOf(lib, def, entry))]
  }

  function FedAll(lib: AggLib, def: Definition, view: View, entries: seq<GenericMap>): View {
    if entries == [] then view else Fed(lib, def, FedAll(lib, def, view, entries[..|entries|-1]), entries[|entries|-1])
  }

  predicate HasHash(lib: AggLib, def: Definition, entry: GenericMap, h: nat) {
    var id := IdentityOf(lib, def, entry);
    id.Some? && KeyOf(lib, id.value) == h
  }

  predicate HasValues(lib: AggLib, def: Definition, entry: GenericMap, values: seq<string>) {
    var id := IdentityOf(lib, def, entry);
    id.Some? && id.value.values == values
  }

  /** What the flow logs of one hash contribute, in order of arrival. */
  function InputsFor(lib: AggLib, def: Definition, entries: seq<GenericMap>, h: nat): seq<Input> {
    if entries == [] then [] else
    var n := |entries| - 1;
    InputsFor(lib, def, entries[..n], h)
      + (if HasHash(lib, def, entries[n], h) then [InputOf(lib, def, entries[n])] else [])
  }

  /** What the flow logs with given label values contribute, in order of arrival. */
  function InputsWith(lib: AggLib, def: Definition, entries: seq<GenericMap>, values: seq<string>): seq<Input> {
    if entries == [] then [] else
    var n := |entries| - 1;
    InputsWith(lib, def, entries[..n], values)
      + (if HasValues(lib, def, entries[n], values) then [InputOf(lib, def, entries[n])] else [])
  }

  /** The identity of the first flow log of a hash. */
  function FirstFor(lib: AggLib, def: Definition, entries: seq<GenericMap>, h: nat): Option<Identity> {
    if entries == [] then None else
    var n := |entries| - 1;
    var first := FirstFor(lib, def, entries[..n], h);
    if first.Some? then first
    else if HasHash(lib, def, entries[n], h) then IdentityOf(lib, def, entries[n])
    else None
  }

  function At(view: View, h: nat): Option<Group> { if h in view then Some(view[h]) else None }

  /** What becomes of a group that receives more inputs, the first from a flow log of given labels. */
  function Grown(g: Option<Group>, first: Option<Identity>, more: seq<Input>): Option<Group> {
    match (g, first)
    case (Some(group), _) => Some(group.(pending := group.pending + more))
    case (None, Some(id)) => Some(Group(id, [], more, []))
    case (None, None) => None
  }

  /** A group receives exactly the flow logs of its hash; it exists once it has received one, and keeps the labels of
      the first. */
  lemma {:induction false} FedAt(lib: AggLib, def: Definition, view: View, entries: seq<GenericMap>, h: nat)
    ensures var (first, more) := (FirstFor(lib, def, entries, h), InputsFor(lib, def, entries, h));
      && At(FedAll(lib, def, view, entries), h) == Grown(At(view, h), first, more)
      && (first.Some? <==> more != [])
  {
    if entries == [] {
      if h in view {
        assert view[h].pending + [] == view[h].pending;
      }
    } else {
      var n := |entries| - 1;
      FedAt(lib, def, view, entries[..n], h);
      FedStep(lib, def, FedAll(lib, def, view, entries[..n]), entries[n], h);
      var before, more := FirstFor(lib, def, entries[..n], h), InputsFor(lib, def, entries[..n], h);
      if HasHash(lib, def, entries[n], h) {
        GrownStep(At(view, h), before, more, IdentityOf(lib, def, entries[n]).value, InputOf(lib, def, entries[n]));
      } else {
        assert more + [] == more;
      }
    }
  }

  lemma FedStep(lib: AggLib, def: Definition, view: View, entry: GenericMap, h: nat)
    ensures At(Fed(lib, def, view, entry), h) ==
            if HasHash(lib, def, entry, h)
            then Some(GroupAt(lib, view, IdentityOf(lib, def, entry).value).Extended(InputOf(lib, def, entry)))
            else At(view, h)
  {
  }

  lemma GrownStep(g: Option<Group>, first: Option<Identity>, more: seq<Input>, id: Identity, x: Input)
    requires first.None? ==> more == []
    ensures Grown(g, if first.Some? then first else Some(id), more + [x]) ==
            Some((if Grown(g, first, more).Some? then Grown(g, first, more).value else NewGroup(id)).Extended(x))
  {
    if g.Some? {
      assert g.value.pending + more + [x] == g.value.pending + (more + [x]);
    }
  }

  /** The numbers under the operation key of the flow logs of one hash that have one which parses. */
  function ParsedNumbers(lib: AggLib, def: Definition, entries: seq<GenericMap>, h: nat): seq<real> {
    if entries == [] then [] else
    var n := |entries| - 1;
    var e := entries[n];
    ParsedNumbers(lib, def, entries[..n], h)
      + (if HasHash(lib, def, e, h) && def.operationKey != "" && def.operationKey in e then
           match lib.parseFloat(lib.toString(e[def.operationKey])) case Some(v) => [v] case None => []
         else [])
  }

  function FlowLogsOf(lib: AggLib, def: Definition, entries: seq<GenericMap>, h: nat): seq<GenericMap> {
    if entries == [] then [] else
    var n := |entries| - 1;
    FlowLogsOf(lib, def, entries[..n], h) + (if HasHash(lib, def, entries[n], h) then [entries[n]] else [])
  }

  /** The inputs of a group carry exactly the numbers of its flow logs, one input for each flow log. */
  lemma {:induction false} InputsAreNumbers(lib: AggLib, def: Definition, entries: seq<GenericMap>, h: nat)
    ensures Numbers(InputsFor(lib, def, entries, h)) == ParsedNumbers(lib, def, entries, h)
    ensures |InputsFor(lib, def, entries, h)| == |FlowLogsOf(lib, def, entries, h)|
  {
    if entries != [] {
      var n := |entries| - 1;
      InputsAreNumbers(lib, def, entries[..n], h);
      var before := InputsFor(lib, def, entries[..n], h);
      if HasHash(lib, def, entries[n], h) {
        NumbersAppend(before, InputOf(lib, def, entries[n]));
      } else {
        assert before + [] == before;
      }
    }
  }

  /** The total of a group that began with some flow logs: their number for count, for the other operations the sum, the
      maximum from zero or the minimum of their numbers. */
  lemma TotalOfFlowLogs(lib: AggLib, def: Definition, entries: seq<GenericMap>, h: nat)
    requires h in FedAll(lib, def, map[], entries)
    ensures var (op, nums) := (def.operation, ParsedNumbers(lib, def, entries, h));
      var total := OpValue(op, FedAll(lib, def, map[], entries)[h].All());
      && (op.Count? ==> total == |FlowLogsOf(lib, def, entries, h)| as real)
      && (op.Sum? ==> total == Total(nums))
      && (op.Max? ==> IsExtreme([0.0] + nums, total, true))
      && (op.Min? ==> IsExtreme([MAX_FLOAT64] + nums, total, false))
  {
    FedAt(lib, def, map[], entries, h);
    var inputs := InputsFor(lib, def, entries, h);
    var g := FedAll(lib, def, map[], entries)[h];
    assert At(FedAll(lib, def, map[], entries), h) == Some(g);
    assert g.All() == inputs by {
      assert g.chunks == [] && Concat([]) + inputs == inputs;
    }
    InputsAreNumbers(lib, def, entries, h);
    ValueMeaning(def.operation, inputs);
    ExtremesOf(Numbers(inputs));
  }

  predicate IsExtreme(nums: seq<real>, v: real, greatest: bool) {
    v in nums && forall i :: 0 <= i < |nums| ==> if greatest then v >= nums[i] else v <= nums[i]
  }

  lemma {:induction false} ExtremesOf(nums: seq<real>)
    ensures IsExtreme([0.0] + nums, Spec.Greatest(nums, 0.0), true)
    ensures IsExtreme([MAX_FLOAT64] + nums, Spec.Smallest(nums, MAX_FLOAT64), false)
  {
    if nums != [] {
      var n := |nums| - 1;
      ExtremesOf(nums[..n]);
      assert [0.0] + nums == [0.0] + nums[..n] + [nums[n]];
      assert [MAX_FLOAT64] + nums == [MAX_FLOAT64] + nums[..n] + [nums[n]];
    }
  }

  /** Two flow logs of one definition share a group if and only if their hashes agree. */
  lemma SharedGroup(lib: AggLib, def: Definition, a: GenericMap, b: GenericMap)
    requires IdentityOf(lib, def, a).Some? && IdentityOf(lib, def, b).Some?
    ensures var (ia, ib) := (IdentityOf(lib, def, a).value, IdentityOf(lib, def, b).value);
      var (xa, xb) := (InputOf(lib, def, a), InputOf(lib, def, b));
      FedAll(lib, def, map[], [a, b]) ==
        if HashOf(lib.fnv, ia.values) == HashOf(lib.fnv, ib.values)
        then map[KeyOf(lib, ia) := Group(ia, [], [xa, xb], [])]
        else map[KeyOf(lib, ia) := Group(ia, [], [xa], []), KeyOf(lib, ib) := Group(ib, [], [xb], [])]
  {
    var ia, ib := IdentityOf(lib, def, a).value, IdentityOf(lib, def, b).value;
    var xa, xb := InputOf(lib, def, a), InputOf(lib, def, b);
    var start: View, first: View := map[], map[KeyOf(lib, ia) := Group(ia, [], [xa], [])];
    FedOne(lib, def, start, a, ia);
    FedOne(lib, def, first, b, ib);
    assert Group(ia, [], [xa], []).Extended(xb) == Group(ia, [], [xa, xb], []);
    assert [a, b][..1] == [a] && [a][..0] == [];
    assert FedAll(lib, def, start, []) == start;
    assert FedAll(lib, def, start, [a]) == first;
    assert FedAll(lib, def, start, [a, b]) == Fed(lib, def, first, b);
  }

  lemma FedOne(lib: AggLib, def: Definition, view: View, entry: GenericMap, id: Identity)
    requires IdentityOf(lib, def, entry) == Some(id)
    ensures var (h, x) := (KeyOf(lib, id), InputOf(lib, def, entry));
      Fed(lib, def, view, entry) == view[h := if h in view then view[h].Extended(x) else Group(id, [], [x], [])]
  {
    assert [] + [InputOf(lib, def, entry)] == [InputOf(lib, def, entry)];
  }

  /** Entering a flow log: the group is found or begun, then updated. */
  lemma FedInto(lib: AggLib, def: Definition, view: View, entry: GenericMap, id: Identity)
    requires IdentityOf(lib, def, entry) == Some(id)
    ensures var (h, g) := (KeyOf(lib, id), GroupAt(lib, view, id));
      Fed(lib, def, view, entry) == view[h := g][h := g.Extended(InputOf(lib, def, entry))]
  {
  }

  // ----- groups and label values

  /** Flow logs of equal hash have equal label values. */
  predicate Separated(lib: AggLib, def: Definition, entries: seq<GenericMap>) {
    forall i, j :: 0 <= i < |entries| && 0 <= j < |entries| ==> Apart(lib, def, entries[i], entries[j])
  }

  predicate Apart(lib: AggLib, def: Definition, a: GenericMap, b: GenericMap) {
    var (ia, ib) := (IdentityOf(lib, def, a), IdentityOf(lib, def, b));
    ia.Some? && ib.Some? && KeyOf(lib, ia.value) == KeyOf(lib, ib.value) ==> ia.value.values == ib.value.values
  }

  /** The group that receives a flow log receives exactly the flow logs with the same label values. */
  predicate OwnGroup(lib: AggLib, def: Definition, entries: seq<GenericMap>, entry: GenericMap) {
    match IdentityOf(lib, def, entry)
    case None => true
    case Some(id) => InputsFor(lib, def, entries, KeyOf(lib, id)) == InputsWith(lib, def, entries, id.values)
  }

  /** Every group is that of one tuple of label values if and only if no two different tuples collide. */
  lemma GroupsAreLabelTuples(lib: AggLib, def: Definition, entries: seq<GenericMap>)
    ensures Separated(lib, def, entries) <==> forall i :: 0 <= i < |entries| ==> OwnGroup(lib, def, entries, entries[i])
  {
    forall i | 0 <= i < |entries|
      ensures OwnGroup(lib, def, entries, entries[i])
         <==> forall j :: 0 <= j < |entries| ==> Apart(lib, def, entries[i], entries[j])
    {
      if IdentityOf(lib, def, entries[i]).Some? {
        CompareInputs(lib, def, entries, entries[i]);
      }
    }
  }

  lemma {:induction false} CompareInputs(lib: AggLib, def: Definition, entries: seq<GenericMap>, e: GenericMap)
    requires IdentityOf(lib, def, e).Some?
    ensures var id := IdentityOf(lib, def, e).value;
      var (all, own) := (InputsFor(lib, def, entries, KeyOf(lib, id)), InputsWith(lib, def, entries, id.values));
      && |own| <= |all|
      && (all == own <==> |own| == |all|)
      && (all == own <==> forall j :: 0 <= j < |entries| ==> Apart(lib, def, e, entries[j]))
  {
    if entries != [] {
      var n := |entries| - 1;
      CompareInputs(lib, def, entries[..n], e);
      assert (forall j :: 0 <= j < |entries| ==> Apart(lib, def, e, entries[j]))
        <==> (forall j :: 0 <= j < n ==> Apart(lib, def, e, entries[..n][j])) && Apart(lib, def, e, entries[n]);
    }
  }

  predicate NoSeparator(lib: AggLib, def: Definition, entry: GenericMap) {
    var id := IdentityOf(lib, def, entry);
    id.Some? ==> forall v :: v in id.value.values ==> '|' !in v
  }

  /** The hash does not identify two different texts. */
  predicate TextsApart(lib: AggLib, def: Definition, a: GenericMap, b: GenericMap) {
    var (ia, ib) := (IdentityOf(lib, def, a), IdentityOf(lib, def, b));
    ia.Some? && ib.Some? && KeyOf(lib, ia.value) == KeyOf(lib, ib.value) ==>
      CacheText(ia.value.values) == CacheText(ib.value.values)
  }

  /** When no label value holds the separator, the groups are those of the label tuples if and only if the hash has no
      collision on the texts fed to it. */
  lemma PlainLabels(lib: AggLib, def: Definition, entries: seq<GenericMap>)
    requires forall i :: 0 <= i < |entries| ==> NoSeparator(lib, def, entries[i])
    ensures Separated(lib, def, entries)
       <==> forall i, j :: 0 <= i < |entries| && 0 <= j < |entries| ==> TextsApart(lib, def, entries[i], entries[j])
  {
    forall i, j | 0 <= i < |entries| && 0 <= j < |entries|
      ensures Apart(lib, def, entries[i], entries[j]) <==> TextsApart(lib, def, entries[i], entries[j])
    {
      PlainPair(lib, def, entries[i], entries[j]);
    }
  }

  lemma PlainPair(lib: AggLib, def: Definition, a: GenericMap, b: GenericMap)
    requires NoSeparator(lib, def, a) && NoSeparator(lib, def, b)
    ensures Apart(lib, def, a, b) <==> TextsApart(lib, def, a, b)
  {
    var (ia, ib) := (IdentityOf(lib, def, a), IdentityOf(lib, def, b));
    if ia.Some? && ib.Some? {
      TextsDiffer(ia.value.values, ib.value.values);
    }
  }

  /** With the separator in a label two different label tuples share one group, whatever the hash function. */
  lemma SeparatorMerges(lib: AggLib, def: Definition)
    requires def.groupByKeys == ["x", "y"] && lib.toString(Str("a|b")) == "a|b" && lib.toString(Str("b|c")) == "b|c"
    requires lib.toString(Str("a")) == "a" && lib.toString(Str("c")) == "c"
    ensures var (e, f) := (map["x" := Str("a|b"), "y" := Str("c")], map["x" := Str("a"), "y" := Str("b|c")]);
      var fed := FedAll(lib, def, map[], [e, f]);
      && IdentityOf(lib, def, e) == Some(Identity(["a|b", "c"], map["x" := "a|b", "y" := "c"]))
      && IdentityOf(lib, def, f) == Some(Identity(["a", "b|c"], map["x" := "a", "y" := "b|c"]))
      && (forall h :: h in fed <==> h == HashOf(lib.fnv, ["a|b", "c"]))
      && fed[HashOf(lib.fnv, ["a|b", "c"])].All() == [InputOf(lib, def, e), InputOf(lib, def, f)]
  {
    var e: GenericMap, f: GenericMap :=
      map["x" := Str("a|b"), "y" := Str("c")], map["x" := Str("a"), "y" := Str("b|c")];
    TwoLabels(lib, def, e, "a|b", "c");
    TwoLabels(lib, def, f, "a", "b|c");
    SeparatorCollides(lib.fnv);
    SharedGroup(lib, def, e, f);
  }

  lemma TwoLabels(lib: AggLib, def: Definition, e: GenericMap, x: string, y: string)
    requires def.groupByKeys == ["x", "y"] && e == map["x" := Str(x), "y" := Str(y)]
    requires lib.toString(Str(x)) == x && lib.toString(Str(y)) == y
    ensures IdentityOf(lib, def, e) == Some(Identity([x, y], map["x" := x, "y" := y]))
  {
    var keys := def.groupByKeys;
    assert SortedKeys(keys) == keys by {
      KeysSorted(keys);
      assert TextBefore(keys[0], keys[1]);
      SortedIsUnique(SortedKeys(keys), keys);
    }
    var labels := LabelsOf(lib, keys, e);
    assert labels == map["x" := x, "y" := y];
    assert ValuesAt(labels, keys) == [labels[keys[0]], labels[keys[1]]];
  }

  // ----- the reports of all groups

  /** Every pending period closed by a report, except those still to be reported. */
  function Closed(op: Operation, view: View, todo: set<nat>): View {
    map h | h in view :: if h in todo then view[h] else view[h].Closed(MetricOf(op, view[h]))
  }

  lemma ClosedStep(op: Operation, view: View, todo: set<nat>, h: nat)
    requires h in view && h in todo
    ensures Closed(op, view, todo)[h] == view[h]
    ensures Closed(op, view, todo - {h}) == Closed(op, view, todo)[h := view[h].Closed(MetricOf(op, view[h]))]
  {
  }

  /** The records of groups, in a given order. */
  function RecordsOf(def: Definition, view: View, order: seq<nat>): seq<GenericMap>
    requires forall h :: h in order ==> h in view
  {
    seq(|order|, i requires 0 <= i < |order| => Record(def, MetricOf(def.operation, view[order[i]])))
  }

  /** Part way through a report: the records are those of the groups done, each once. */
  predicate Reporting(def: Definition, view: View, todo: set<nat>, order: seq<nat>, records: seq<GenericMap>) {
    && NoDup(order) && Elems(order) == view.Keys - todo
    && (forall h :: h in order ==> h in view)
    && records == RecordsOf(def, view, order)
  }

  /** The records tell of the groups, in a given order. */
  ghost predicate RecordsTell(def: Definition, view: View, order: seq<nat>, records: seq<GenericMap>) {
    |records| == |order| && forall i :: 0 <= i < |order| ==>
      order[i] in view && RecordTells(def, view[order[i]], records[i])
  }

  lemma RecordsAreTold(def: Definition, view: View, order: seq<nat>)
    requires forall h :: h in order ==> h in view
    ensures RecordsTell(def, view, order, RecordsOf(def, view, order))
  {
    forall i | 0 <= i < |order|
      ensures order[i] in view && RecordTells(def, view[order[i]], RecordsOf(def, view, order)[i])
    {
      RecordIsTold(def, view[order[i]]);
    }
  }

  lemma ReportStarts(def: Definition, view: View)
    ensures Closed(def.operation, view, view.Keys) == view
    ensures Reporting(def, view, view.Keys, [], [])
  {
  }

  lemma ReportingStep(def: Definition, view: View, todo: set<nat>, order: seq<nat>, records: seq<GenericMap>, h: nat)
    requires Reporting(def, view, todo, order, records) && h in todo && h in view
    ensures Reporting(def, view, todo - {h}, order + [h], records + [Record(def, MetricOf(def.operation, view[h]))])
  {
    assert h !in Elems(order);
    assert Elems(order + [h]) == Elems(order) + {h};
    assert forall x :: x in order + [h] ==> x in order || x == h;
  }

  /** The recent part of a metric. */
  datatype Recent = Recent(id: Identity, rawValues: seq<real>, opValue: real, count: nat)

  function RecentOf(m: Metric): Recent { Recent(m.id, m.recentRawValues, m.recentOpValue, m.recentCount) }

  function RecentFor(op: Operation, id: Identity, chunk: seq<Input>): Recent {
    Recent(id, RawValuesOf(op, chunk), OpValue(op, chunk), |chunk|)
  }

  function Recents(ms: seq<Metric>): seq<Recent> {
    seq(|ms|, i requires 0 <= i < |ms| => RecentOf(ms[i]))
  }

  function RecentsFor(op: Operation, id: Identity, chunks: seq<seq<Input>>): seq<Recent> {
    seq(|chunks|, i requires 0 <= i < |chunks| => RecentFor(op, id, chunks[i]))
  }

  /** The metrics returned of a group carry the recent values of its chunks, one for each. */
  predicate Recorded(op: Operation, g: Group) { Recents(g.metrics) == RecentsFor(op, g.id, g.chunks) }

  lemma ClosedRecorded(op: Operation, g: Group)
    requires Recorded(op, g)
    ensures Recorded(op, g.Closed(MetricOf(op, g)))
  {
    var m := MetricOf(op, g);
    assert Recents(g.metrics + [m]) == Recents(g.metrics) + [RecentOf(m)];
    assert RecentsFor(op, g.id, g.chunks + [g.pending]) == RecentsFor(op, g.id, g.chunks) + [RecentOf(m)];
  }

  function SumOfReports(ms: seq<Metric>): real {
    if ms == [] then 0.0 else SumOfReports(ms[..|ms|-1]) + ms[|ms|-1].recentOpValue
  }

  function RawOfReports(ms: seq<Metric>): seq<real> {
    if ms == [] then [] else RawOfReports(ms[..|ms|-1]) + ms[|ms|-1].recentRawValues
  }

  lemma {:induction false} SumOfRecorded(op: Operation, ms: seq<Metric>, id: Identity, chunks: seq<seq<Input>>)
    requires Recents(ms) == RecentsFor(op, id, chunks)
    ensures SumOfReports(ms) == Reported(op, chunks)
    ensures op.RawValues? ==> RawOfReports(ms) == ReportedRaw(chunks)
  {
    if ms != [] {
      var n := |ms| - 1;
      assert |Recents(ms)| == |RecentsFor(op, id, chunks)|;
      assert Recents(ms[..n]) == Recents(ms)[..n]
        && RecentsFor(op, id, chunks[..n]) == RecentsFor(op, id, chunks)[..n];
      SumOfRecorded(op, ms[..n], id, chunks[..n]);
      assert Recents(ms)[n] == RecentsFor(op, id, chunks)[n];
      ValueMeaning(op, chunks[n]);
    }
  }

  /** The states of all groups, given their histories. */
  function StatesOf(op: Operation, view: View): map<nat, GroupState> { map h | h in view :: StateOf(op, view[h]) }

  /** A history is recorded, and found under the hash of its own label values. */
  predicate Fits(lib: AggLib, op: Operation, h: nat, g: Group) { KeyOf(lib, g.id) == h && Recorded(op, g) }

  /** The groups have the states of their histories. */
  predicate Kept(lib: AggLib, op: Operation, groups: map<nat, GroupState>, view: View) {
    groups == StatesOf(op, view) && forall h :: h in view ==> Fits(lib, op, h, view[h])
  }

  lemma KeptAt(lib: AggLib, op: Operation, groups: map<nat, GroupState>, view: View, h: nat)
    requires Kept(lib, op, groups, view) && (h in groups || h in view)
    ensures h in groups && h in view && groups[h] == StateOf(op, view[h]) && Fits(lib, op, h, view[h])
  {
    assert h in view;
  }

  lemma NewFits(lib: AggLib, op: Operation, id: Identity)
    ensures StateOf(op, NewGroup(id)) == GroupState(id.values, id.labels, [], InitValue(op), 0, InitValue(op), 0)
    ensures Fits(lib, op, KeyOf(lib, id), NewGroup(id))
  {
    assert NewGroup(id).All() == [];
    assert Recents([]) == RecentsFor(op, id, []);
  }

  lemma ClosedFits(lib: AggLib, op: Operation, view: View, h: nat)
    requires h in view && Fits(lib, op, h, view[h])
    ensures Fits(lib, op, h, view[h].Closed(MetricOf(op, view[h])))
  {
    ClosedRecorded(op, view[h]);
  }

  lemma PutKeeps(
    lib: AggLib, op: Operation, groups: map<nat, GroupState>, view: View, h: nat, s: GroupState, g: Group)
    requires Kept(lib, op, groups, view) && s == StateOf(op, g) && Fits(lib, op, h, g)
    ensures Kept(lib, op, groups[h := s], view[h := g])
  {
    StatesPut(op, view, h, g);
  }

  lemma StatesPut(op: Operation, view: View, h: nat, g: Group)
    ensures StatesOf(op, view[h := g]) == StatesOf(op, view)[h := StateOf(op, g)]
  {
  }

  lemma DropKeeps(lib: AggLib, op: Operation, groups: map<nat, GroupState>, view: View, expired: set<nat>)
    requires Kept(lib, op, groups, view)
    ensures Kept(lib, op, groups - expired, view - expired)
  {
  }

  // ----- the aggregate

  /** The times of last update after some flow logs: now for every group that received one. */
  function Touched(lib: AggLib, def: Definition, times: map<nat, int>, entries: seq<GenericMap>, now: int):
    map<nat, int>
  {
    if entries == [] then times else
    var n := |entries| - 1;
    var before := Touched(lib, def, times, entries[..n], now);
    match IdentityOf(lib, def, entries[n])
    case None => before
    case Some(id) => before[KeyOf(lib, id) := now]
  }

  lemma {:induction false} TouchedAt(
    lib: AggLib, def: Definition, times: map<nat, int>, entries: seq<GenericMap>, now: int, h: nat)
    ensures var times' := Touched(lib, def, times, entries, now);
      && (InputsFor(lib, def, entries, h) != [] ==> h in times' && times'[h] == now)
      && (InputsFor(lib, def, entries, h) == [] ==>
          (h in times' <==> h in times) && (h in times ==> times'[h] == times[h]))
  {
    if entries != [] {
      TouchedAt(lib, def, times, entries[..|entries|-1], now, h);
    }
  }

  class Aggregate {
    const lib: AggLib
    const definition: Definition
    const cache: TimedCache<GroupState>
    const expiryTime: int
    /** The histories of the living groups. */
    ghost var inputs: View

    ghost predicate Valid()
      reads this, cache
    {
      && cache.Valid() && cache.maxEntries == 0 && cache.fnv == lib.fnv
      && Kept(lib, definition.operation, SourcesOf(cache.cacheMap), inputs)
    }

    /** The state of a living group. */
    function State(h: nat): GroupState
      requires h in cache.cacheMap
      reads cache
    {
      cache.cacheMap[h].source
    }

    ghost function LastUpdates(): map<nat, int>
      reads cache
    {
      TimesOf(cache.cacheMap)
    }

    constructor (lib: AggLib, definition: Definition, ghost start: int)
      ensures Valid() && fresh(cache) && this.lib == lib && this.definition == definition
      ensures cache.latest == start && inputs == map[] && LastUpdates() == map[]
      ensures expiryTime == if definition.expiryTime == 0 then 2 * 60 * 1_000_000_000 else definition.expiryTime
    {
      this.lib, this.definition, inputs := lib, definition, map[];
      cache := new TimedCache(0, lib.fnv, start);
      expiryTime := if definition.expiryTime == 0 then DEFAULT_EXPIRY_TIME else definition.expiryTime;
    }

    lemma StateHere(h: nat)
      requires Valid() && (h in cache.cacheMap || h in inputs)
      ensures h in inputs && h in cache.cacheMap && State(h) == StateOf(definition.operation, inputs[h])
      ensures Fits(lib, definition.operation, h, inputs[h])
    {
      KeptAt(lib, definition.operation, SourcesOf(cache.cacheMap), inputs, h);
    }

    lemma GroupsHere()
      requires Valid()
      ensures cache.cacheMap.Keys == inputs.Keys
    {
      assert cache.cacheMap.Keys == SourcesOf(cache.cacheMap).Keys;
    }

    /** While a group lives, for sum and count the recent values of all metrics returned of it, plus the pending one,
        add up to its total. */
    lemma LivingGroupAddsUp(h: nat)
      requires Valid() && h in inputs && (definition.operation.Sum? || definition.operation.Count?)
      ensures h in cache.cacheMap
      ensures SumOfReports(inputs[h].metrics) + State(h).recentOpValue == State(h).totalValue
    {
      StateHere(h);
      var g := inputs[h];
      SumOfRecorded(definition.operation, g.metrics, g.id, g.chunks);
      ReportsAddUp(definition.operation, g.chunks, g.pending);
    }

    /** The raw values of all metrics returned of it, followed by the pending ones, are the parsed values of all flow
        logs it received, in order. */
    lemma LivingGroupKeepsValues(h: nat)
      requires Valid() && h in inputs && definition.operation.RawValues?
      ensures h in cache.cacheMap
      ensures RawOfReports(inputs[h].metrics) + State(h).recentRawValues == Numbers(inputs[h].All())
    {
      StateHere(h);
      var g := inputs[h];
      SumOfRecorded(definition.operation, g.metrics, g.id, g.chunks);
      ValueMeaning(definition.operation, g.pending);
      RawReportsConcatenate(g.chunks, g.pending);
    }

    method UpdateByEntry(entry: GenericMap, normalizedValues: seq<string>, labels: Labels, now: int)
      requires Valid() && IdentityOf(lib, definition, entry) == Some(Identity(normalizedValues, labels))
      requires cache.latest <= now
      modifies this, cache
      ensures Valid() && inputs == Fed(lib, definition, old(inputs), entry) && cache.latest == now
      ensures LastUpdates() == old(LastUpdates())[HashOf(lib.fnv, normalizedValues) := now]
    {
      FedInto(lib, definition, inputs, entry, Identity(normalizedValues, labels));
      var x := InputOf(lib, definition, entry);
      var h := ComputeHash(lib.fnv, normalizedValues);
      TouchGroup(normalizedValues, labels, now);
      UpdateGroup(h, x);
    }

    /** Finds the group or begins it, and makes it the last updated one. */
    method TouchGroup(normalizedValues: seq<string>, labels: Labels, now: int)
      requires Valid() && cache.latest <= now
      modifies this, cache
      ensures Valid() && cache.latest == now
      ensures var id := Identity(normalizedValues, labels);
        inputs == old(inputs)[KeyOf(lib, id) := GroupAt(lib, old(inputs), id)]
      ensures LastUpdates() == old(LastUpdates())[HashOf(lib.fnv, normalizedValues) := now]
    {
      ghost var id, m := Identity(normalizedValues, labels), cache.cacheMap;
      ghost var h, g := KeyOf(lib, id), GroupAt(lib, inputs, id);
      var groupState := FindGroup(normalizedValues, labels);
      Refresh(normalizedValues, groupState, now);
      PutKeeps(lib, definition.operation, SourcesOf(m), inputs, h, groupState, g);
      inputs := inputs[h := g];
    }

    method FindGroup(normalizedValues: seq<string>, labels: Labels) returns (groupState: GroupState)
      requires Valid()
      ensures var id := Identity(normalizedValues, labels); var g := GroupAt(lib, inputs, id);
        && groupState == StateOf(definition.operation, g) && Fits(lib, definition.operation, KeyOf(lib, id), g)
        && (KeyOf(lib, id) in cache.cacheMap ==> State(KeyOf(lib, id)) == groupState)
    {
      ghost var id := Identity(normalizedValues, labels);
      ghost var h := KeyOf(lib, id);
      if h in cache.cacheMap || h in inputs {
        StateHere(h);
      }
      var oldEntry := cache.GetCacheEntry(normalizedValues);
      if oldEntry.None? {
        NewFits(lib, definition.operation, id);
        var initVal := InitValue(definition.operation);
        groupState := GroupState(normalizedValues, labels, [], initVal, 0, initVal, 0);
      } else {
        groupState := oldEntry.value;
      }
    }

    /** The update of the cache: a known group keeps its state. */
    method Refresh(normalizedValues: seq<string>, groupState: GroupState, now: int)
      requires cache.Valid() && cache.maxEntries == 0 && cache.fnv == lib.fnv && cache.latest <= now
      requires var h := HashOf(lib.fnv, normalizedValues); h in cache.cacheMap ==> State(h) == groupState
      modifies cache
      ensures cache.Valid() && cache.latest == now
      ensures var h := HashOf(lib.fnv, normalizedValues);
        && SourcesOf(cache.cacheMap) == old(SourcesOf(cache.cacheMap))[h := groupState]
        && TimesOf(cache.cacheMap) == old(TimesOf(cache.cacheMap))[h := now]
    {
      ghost var h, m := HashOf(lib.fnv, normalizedValues), cache.cacheMap;
      var _ := cache.UpdateCacheEntry(normalizedValues, groupState, now);
      PutSource(m, h, cache.cacheMap[h]);
    }

    method UpdateGroup(h: nat, x: Input)
      requires Valid() && h in inputs
      modifies this`inputs, cache
      ensures Valid() && inputs == old(inputs)[h := old(inputs)[h].Extended(x)]
      ensures cache.latest == old(cache.latest) && LastUpdates() == old(LastUpdates())
    {
      StateHere(h);
      var groupState := Update(definition.operation, cache.cacheMap[h].source, x, inputs[h]);
      SetState(h, groupState, inputs[h].Extended(x));
    }

    /** A change made to a group through its pointer. */
    method SetState(h: nat, groupState: GroupState, ghost g: Group)
      requires Valid() && h in inputs
      requires groupState == StateOf(definition.operation, g) && Fits(lib, definition.operation, h, g)
      modifies this`inputs, cache
      ensures Valid() && inputs == old(inputs)[h := g]
      ensures cache.latest == old(cache.latest) && LastUpdates() == old(LastUpdates())
    {
      ghost var m := cache.cacheMap;
      StateHere(h);
      Write(h, groupState);
      PutKeeps(lib, definition.operation, SourcesOf(m), inputs, h, groupState, g);
      inputs := inputs[h := g];
    }

    method Write(h: nat, groupState: GroupState)
      requires cache.Valid() && h in cache.cacheMap
      modifies cache
      ensures cache.Valid() && cache.latest == old(cache.latest)
      ensures SourcesOf(cache.cacheMap) == old(SourcesOf(cache.cacheMap))[h := groupState]
      ensures TimesOf(cache.cacheMap) == old(TimesOf(cache.cacheMap))
    {
      ghost var m := cache.cacheMap;
      cache.SetSource(h, groupState);
      PutSource(m, h, cache.cacheMap[h]);
    }

    /** Every flow log that has all the group-by keys is entered into the group of its hash, in order; others are
        ignored. */
    method Evaluate(entries: seq<GenericMap>, now: int)
      requires Valid() && cache.latest <= now
      modifies this, cache
      ensures Valid() && inputs == FedAll(lib, definition, old(inputs), entries) && cache.latest <= now
      ensures LastUpdates() == Touched(lib, definition, old(LastUpdates()), entries, now)
    {
      ghost var times := LastUpdates();
      for i := 0 to |entries|
        invariant Valid() && inputs == FedAll(lib, definition, old(inputs), entries[..i]) && cache.latest <= now
        invariant LastUpdates() == Touched(lib, definition, times, entries[..i], now)
      {
        assert entries[..i+1][..i] == entries[..i];
        var found := FilterEntry(lib, definition, entries[i]);
        if found.None? {
          continue;
        }
        UpdateByEntry(entries[i], found.value.values, found.value.labels, now);
      }
      assert entries[..|entries|] == entries;
    }

    /** Reports every group once, in any order, and closes its period. */
    method GetMetrics() returns (metrics: seq<GenericMap>, ghost order: seq<nat>)
      requires Valid()
      modifies this, cache
      ensures Valid() && cache.latest == old(cache.latest) && LastUpdates() == old(LastUpdates())
      ensures inputs == Closed(definition.operation, old(inputs), {})
      ensures Reporting(definition, old(inputs), {}, order, metrics)
      ensures RecordsTell(definition, old(inputs), order, metrics)
    {
      metrics, order := [], [];
      var todo := cache.cacheMap.Keys;
      ghost var before, times := inputs, LastUpdates();
      GroupsHere();
      ReportStarts(definition, before);
      while todo != {}
        invariant todo <= before.Keys && Valid() && inputs == Closed(definition.operation, before, todo)
        invariant cache.latest == old(cache.latest) && LastUpdates() == times
        invariant Reporting(definition, before, todo, order, metrics)
      {
        var h :| h in todo;
        ClosedStep(definition.operation, before, todo, h);
        ReportingStep(definition, before, todo, order, metrics, h);
        var newEntry := ReportGroup(h);
        metrics, order, todo := metrics + [newEntry], order + [h], todo - {h};
      }
      RecordsAreTold(definition, before, order);
    }

    method ReportGroup(h: nat) returns (newEntry: GenericMap)
      requires Valid() && h in inputs
      modifies this, cache
      ensures var m := MetricOf(definition.operation, old(inputs)[h]);
        newEntry == Record(definition, m) && inputs == old(inputs)[h := old(inputs)[h].Closed(m)]
      ensures Valid() && cache.latest == old(cache.latest) && LastUpdates() == old(LastUpdates())
    {
      StateHere(h);
      var groupState;
      newEntry, groupState := Report(definition, cache.cacheMap[h].source, inputs[h]);
      ClosedFits(lib, definition.operation, inputs, h);
      SetState(h, groupState, inputs[h].Closed(MetricOf(definition.operation, inputs[h])));
    }

    /** Expiry removes exactly the groups that received no flow log after now - expiryTime. */
    method Expire(now: int)
      requires Valid()
      modifies this, cache
      ensures Valid() && cache.latest == old(cache.latest)
      ensures var expired := ExpiredKeys(old(LastUpdates()), now - expiryTime);
        inputs == old(inputs) - expired && LastUpdates() == old(LastUpdates()) - expired
    {
      ghost var m := cache.cacheMap;
      ghost var expired := ExpiredKeys(LastUpdates(), now - expiryTime);
      Clean(now);
      DropKeeps(lib, definition.operation, SourcesOf(m), inputs, expired);
      inputs := inputs - expired;
    }

    method Clean(now: int)
      requires cache.Valid()
      modifies cache
      ensures cache.Valid() && cache.latest == old(cache.latest)
      ensures var expired := ExpiredKeys(old(TimesOf(cache.cacheMap)), now - expiryTime);
        && SourcesOf(cache.cacheMap) == old(SourcesOf(cache.cacheMap)) - expired
        && TimesOf(cache.cacheMap) == old(TimesOf(cache.cacheMap)) - expired
    {
      ghost var order, m := cache.cacheList, cache.cacheMap;
      var called, deleted := cache.CleanupExpiredEntries(expiryTime, now);
      CleanedSources(order, m, cache.cacheMap, now - expiryTime, deleted, called);
    }
  }

  /** Two minutes, in nanoseconds. */
  const DEFAULT_EXPIRY_TIME: int := 120_000_000_000
}
