/** What the fields of connections and records mean, read off the flow logs of each lifetime. */
module ConnTrackFields {
  import opened Common
  import opened Float64
  import opened ConnTrackConfig
  import opened ConnTrackHash
  import opened ConnTrackConn
  import opened ConnTrackSpec
  import opened ConnTrackFlowLogs
  import opened ConnTrackConservation

  // ----- the meaning of an output field

  function InputName(of: OutputField): string { if of.input != "" then of.input else of.name }

  /** The number a flow log brings to a field: a missing one counts as zero unless missing fields are reported. */
  function Brought(t: Tracker, of: OutputField, fl: GenericMap): seq<real> {
    if InputName(of) in fl then
      match t.lib.toFloat(fl[InputName(of)])
      case Some(v) => [v]
      case None => []
    else if of.reportMissing then [] else [0.0]
  }

  function AllBrought(t: Tracker, of: OutputField, fls: seq<GenericMap>): seq<real> {
    if fls == [] then [] else AllBrought(t, of, fls[..|fls|-1]) + Brought(t, of, fls[|fls|-1])
  }

  predicate IsLeast(nums: seq<real>, v: real) { v in nums && forall x :: x in nums ==> v <= x }

  predicate IsGreatest(nums: seq<real>, v: real) { v in nums && forall x :: x in nums ==> v >= x }

  /** The name of an operation in the configuration. */
  function OperationName(op: AggOp): string {
    match op
    case Sum => "sum"
    case Count => "count"
    case Min => "min"
    case Max => "max"
    case First => "first"
    case Last => "last"
  }

  lemma OperationNamed(of: OutputField)
    requires NewAggregator(of).Some?
    ensures of.operation == OperationName(NewAggregator(of).value.op)
    ensures forall op :: of.operation == OperationName(op) ==> op == NewAggregator(of).value.op
  {
  }

  /** The number a field shows for as many flow logs, which brought these numbers. */
  predicate Shows(op: AggOp, count: nat, nums: seq<real>, v: real) {
    match op
    case Sum => v == Total(nums)
    case Count => v == count as real
    case Min => IsLeast([MAX_FLOAT64] + nums, v)
    case Max => IsGreatest([-MAX_FLOAT64] + nums, v)
    case _ => true
  }

  predicate NumberMeans(t: Tracker, op: AggOp, of: OutputField, fls: seq<GenericMap>, v: real) {
    Shows(op, |fls|, AllBrought(t, of, fls), v)
  }

  function FirstValue(k: string, fls: seq<GenericMap>): Value { if fls == [] then Nil else Lookup(fls[0], k) }

  /** The latest value that is not nil. */
  function LastValue(k: string, fls: seq<GenericMap>): Value {
    if fls == [] then Nil
    else if Lookup(fls[|fls|-1], k) != Nil then Lookup(fls[|fls|-1], k)
    else LastValue(k, fls[..|fls|-1])
  }

  /** The hash of the endpoint fields in group A (B). */
  function EndpointA(t: Tracker, fl: GenericMap): Hash { GroupHash(t.lib, t.cfg, fl, t.cfg.hash.aRef) }
  function EndpointB(t: Tracker, fl: GenericMap): Hash { GroupHash(t.lib, t.cfg, fl, t.cfg.hash.bRef) }

  /** The end that opened a connection: A of its first flow log, or B if that one answers the opening. */
  function Origin(t: Tracker, first: GenericMap): Hash {
    if t.cfg.tcpFlags.swapAB && HasSynAck(t, first) then EndpointB(t, first) else EndpointA(t, first)
  }

  /** The flow logs sent by the end that opened the connection, or those of the other end. */
  function SentBy(t: Tracker, origin: Hash, forth: bool, fls: seq<GenericMap>): seq<GenericMap> {
    if fls == [] then [] else
    var n := |fls| - 1;
    SentBy(t, origin, forth, fls[..n]) + (if (EndpointA(t, fls[n]) == origin) == forth then [fls[n]] else [])
  }

  /** What a numeric output field holds after the flow logs of a lifetime opened by the given end: when it is split, the
      _AB part covers what that end sent and the _BA part all the rest. */
  predicate NumbersHold(
    t: Tracker, op: AggOp, of: OutputField, origin: Hash, fls: seq<GenericMap>, m: GenericMap)
  {
    if of.splitAB then
      && NumberMeans(t, op, of, SentBy(t, origin, true, fls), Num(m, of.name + "_AB"))
      && NumberMeans(t, op, of, SentBy(t, origin, false, fls), Num(m, of.name + "_BA"))
    else NumberMeans(t, op, of, fls, Num(m, of.name))
  }

  /** What an output field of an operation holds. */
  predicate FieldHolds(
    t: Tracker, op: AggOp, of: OutputField, origin: Hash, fls: seq<GenericMap>, m: GenericMap)
  {
    if op == First then Lookup(m, of.name) == FirstValue(InputName(of), fls)
    else if op == Last then Lookup(m, of.name) == LastValue(InputName(of), fls)
    else NumbersHold(t, op, of, origin, fls, m)
  }

  // ----- one update

  /** What a numeric aggregator makes of a number on one flow log. */
  function Stepped(lib: Lib, a: Aggregator, fl: GenericMap, v: real): real {
    var x := if a.op == Count then Some(1.0) else InputValue(lib, a, fl);
    if x.Some? then Combine(a.op, v, x.value) else v
  }

  lemma NumAfter(
    lib: Lib, a: Aggregator, m: GenericMap, fl: GenericMap, d: Direction, isNew: bool, k: string)
    requires a.Numeric()
    ensures Num(AggUpdated(lib, a, m, fl, d, isNew), k)
         == if k == a.FieldFor(d) then Stepped(lib, a, fl, Num(m, k)) else Num(m, k)
  {
  }

  lemma BroughtStep(t: Tracker, of: OutputField, fls: seq<GenericMap>, fl: GenericMap)
    ensures AllBrought(t, of, fls + [fl]) == AllBrought(t, of, fls) + Brought(t, of, fl)
  {
    assert (fls + [fl])[..|fls|] == fls;
  }

  lemma InputIsBrought(t: Tracker, of: OutputField, fl: GenericMap)
    requires NewAggregator(of).Some?
    ensures InputValue(t.lib, NewAggregator(of).value, fl)
         == if Brought(t, of, fl) == [] then None else Some(Brought(t, of, fl)[0])
    ensures |Brought(t, of, fl)| <= 1
  {
  }

  /** One more flow log, which brings at most one number. */
  lemma ShowsStep(op: AggOp, count: nat, nums: seq<real>, more: seq<real>, v: real)
    requires Shows(op, count, nums, v) && |more| <= 1
    ensures op in {Sum, Min, Max} ==>
      Shows(op, count + 1, nums + more, if more == [] then v else Combine(op, v, more[0]))
    ensures op == Count ==> Shows(op, count + 1, nums + more, v + 1.0)
  {
    if more == [] {
      assert nums + more == nums;
    } else {
      assert more == [more[0]] && (nums + more)[..|nums|] == nums;
      LeastStep([MAX_FLOAT64] + nums, more[0], v);
      GreatestStep([-MAX_FLOAT64] + nums, more[0], v);
      assert [MAX_FLOAT64] + nums + [more[0]] == [MAX_FLOAT64] + (nums + more);
      assert [-MAX_FLOAT64] + nums + [more[0]] == [-MAX_FLOAT64] + (nums + more);
    }
  }

  /** One more flow log for a numeric field. */
  lemma NumberStep(t: Tracker, of: OutputField, fls: seq<GenericMap>, v: real, fl: GenericMap)
    requires NewAggregator(of).Some? && NewAggregator(of).value.Numeric()
    requires NumberMeans(t, NewAggregator(of).value.op, of, fls, v)
    ensures var a := NewAggregator(of).value; NumberMeans(t, a.op, of, fls + [fl], Stepped(t.lib, a, fl, v))
  {
    BroughtStep(t, of, fls, fl);
    InputIsBrought(t, of, fl);
    ShowsStep(NewAggregator(of).value.op, |fls|, AllBrought(t, of, fls), Brought(t, of, fl), v);
  }

  lemma LeastStep(nums: seq<real>, x: real, v: real)
    ensures IsLeast(nums, v) ==> IsLeast(nums + [x], if x < v then x else v)
  {
  }

  lemma GreatestStep(nums: seq<real>, x: real, v: real)
    ensures IsGreatest(nums, v) ==> IsGreatest(nums + [x], if x > v then x else v)
  {
  }

  /** A flow log for a field that is not a number. */
  lemma ValueStep(
    t: Tracker, of: OutputField, origin: Hash, fls: seq<GenericMap>, m: GenericMap, fl: GenericMap, d: Direction,
    isNew: bool)
    requires NewAggregator(of).Some? && !NewAggregator(of).value.Numeric()
    requires FieldHolds(t, NewAggregator(of).value.op, of, origin, fls, m) && (isNew <==> fls == [])
    ensures var a := NewAggregator(of).value;
      FieldHolds(t, a.op, of, origin, fls + [fl], AggUpdated(t.lib, a, m, fl, d, isNew))
  {
    assert (fls + [fl])[..|fls|] == fls;
    assert fls != [] ==> (fls + [fl])[0] == fls[0];
  }

  lemma SentByStep(t: Tracker, origin: Hash, forth: bool, fls: seq<GenericMap>, fl: GenericMap)
    ensures SentBy(t, origin, forth, fls + [fl])
         == SentBy(t, origin, forth, fls) + (if (EndpointA(t, fl) == origin) == forth then [fl] else [])
  {
    assert (fls + [fl])[..|fls|] == fls;
  }

  /** One more flow log for one direction. */
  lemma DirectionStep(
    t: Tracker, of: OutputField, origin: Hash, forth: bool, fls: seq<GenericMap>, v: real, fl: GenericMap)
    requires NewAggregator(of).Some? && NewAggregator(of).value.Numeric()
    requires NumberMeans(t, NewAggregator(of).value.op, of, SentBy(t, origin, forth, fls), v)
    ensures var a := NewAggregator(of).value;
      NumberMeans(t, a.op, of, SentBy(t, origin, forth, fls + [fl]),
                  if (EndpointA(t, fl) == origin) == forth then Stepped(t.lib, a, fl, v) else v)
  {
    var sent := SentBy(t, origin, forth, fls);
    SentByStep(t, origin, forth, fls, fl);
    if (EndpointA(t, fl) == origin) == forth {
      NumberStep(t, of, sent, v, fl);
    } else {
      assert sent + [] == sent;
    }
  }

  lemma SplitFields(of: OutputField, d: Direction)
    requires NewAggregator(of).Some? && of.splitAB
    ensures of.name + "_AB" != of.name + "_BA"
    ensures NewAggregator(of).value.FieldFor(d) == if d == AB then of.name + "_AB" else of.name + "_BA"
  {
    SuffixesDiffer(of.name);
  }

  lemma SplitStep(
    t: Tracker, of: OutputField, origin: Hash, fls: seq<GenericMap>, m: GenericMap, fl: GenericMap, d: Direction,
    isNew: bool)
    requires NewAggregator(of).Some? && NewAggregator(of).value.Numeric() && of.splitAB
    requires NumbersHold(t, NewAggregator(of).value.op, of, origin, fls, m)
    requires d == AB <==> EndpointA(t, fl) == origin
    ensures var a := NewAggregator(of).value;
      NumbersHold(t, a.op, of, origin, fls + [fl], AggUpdated(t.lib, a, m, fl, d, isNew))
  {
    var a, ab, ba := NewAggregator(of).value, of.name + "_AB", of.name + "_BA";
    SplitFields(of, d);
    NumAfter(t.lib, a, m, fl, d, isNew, ab);
    NumAfter(t.lib, a, m, fl, d, isNew, ba);
    DirectionStep(t, of, origin, true, fls, Num(m, ab), fl);
    DirectionStep(t, of, origin, false, fls, Num(m, ba), fl);
  }

  /** The aggregator of a field keeps it right. */
  lemma OwnStep(
    t: Tracker, of: OutputField, origin: Hash, fls: seq<GenericMap>, m: GenericMap, fl: GenericMap, d: Direction,
    isNew: bool)
    requires NewAggregator(of).Some? && (of.splitAB ==> NewAggregator(of).value.Numeric())
    requires FieldHolds(t, NewAggregator(of).value.op, of, origin, fls, m) && (isNew <==> fls == [])
    requires of.splitAB ==> (d == AB <==> EndpointA(t, fl) == origin)
    ensures var a := NewAggregator(of).value;
      FieldHolds(t, a.op, of, origin, fls + [fl], AggUpdated(t.lib, a, m, fl, d, isNew))
  {
    var a := NewAggregator(of).value;
    if !a.Numeric() {
      ValueStep(t, of, origin, fls, m, fl, d, isNew);
    } else if of.splitAB {
      SplitStep(t, of, origin, fls, m, fl, d, isNew);
    } else {
      NumAfter(t.lib, a, m, fl, d, isNew, of.name);
      NumberStep(t, of, fls, Num(m, of.name), fl);
    }
  }

  /** Two maps agree on some fields. */
  predicate Agree(names: seq<string>, m: GenericMap, m': GenericMap) {
    forall k :: k in names ==> (k in m <==> k in m') && Lookup(m, k) == Lookup(m', k)
  }

  lemma AgreeHolds(t: Tracker, of: OutputField, origin: Hash, fls: seq<GenericMap>, m: GenericMap, m': GenericMap)
    requires NewAggregator(of).Some? && Agree(NewAggregator(of).value.Names(), m, m')
    requires of.splitAB ==> NewAggregator(of).value.Numeric()
    requires FieldHolds(t, NewAggregator(of).value.op, of, origin, fls, m)
    ensures FieldHolds(t, NewAggregator(of).value.op, of, origin, fls, m')
  {
    var a := NewAggregator(of).value;
    FieldIsNamed(a, AB);
    FieldIsNamed(a, BA);
  }

  lemma OtherAgrees(
    lib: Lib, a: Aggregator, b: Aggregator, m: GenericMap, fl: GenericMap, d: Direction, isNew: bool)
    requires (forall k :: k in b.Names() ==> k !in a.Names()) && (b.splitAB ==> b.Numeric())
    ensures Agree(a.Names(), m, AggUpdated(lib, b, m, fl, d, isNew))
  {
    FieldIsNamed(b, d);
  }

  lemma OwnAgrees(
    lib: Lib, a: Aggregator, m: GenericMap, m': GenericMap, fl: GenericMap, d: Direction, isNew: bool)
    requires Agree(a.Names(), m, m') && (a.splitAB ==> a.Numeric())
    ensures Agree(a.Names(), AggUpdated(lib, a, m, fl, d, isNew), AggUpdated(lib, a, m', fl, d, isNew))
  {
    FieldIsNamed(a, d);
  }

  /** Only the own aggregator of a field changes it. */
  lemma {:induction false} OnlyOwn(
    t: Tracker, i: nat, n: nat, m: GenericMap, fl: GenericMap, d: Direction, isNew: bool)
    requires SoundAggregators(t) && i < |t.aggs| && n <= |t.aggs|
    ensures var m' := AllUpdated(t.lib, t.aggs[..n], m, fl, d, isNew);
      Agree(t.aggs[i].Names(), if i < n then AggUpdated(t.lib, t.aggs[i], m, fl, d, isNew) else m, m')
  {
    if n > 0 {
      OnlyOwn(t, i, n - 1, m, fl, d, isNew);
      assert t.aggs[..n][..n-1] == t.aggs[..n-1];
      var m' := AllUpdated(t.lib, t.aggs[..n-1], m, fl, d, isNew);
      if i == n - 1 {
        OwnAgrees(t.lib, t.aggs[i], m, m', fl, d, isNew);
      } else {
        if i < n - 1 { NamesDisjoint(t.aggs, i, n - 1); } else { NamesDisjoint(t.aggs, n - 1, i); }
        OtherAgrees(t.lib, t.aggs[i], t.aggs[n-1], m', fl, d, isNew);
      }
    }
  }

  // ----- all fields of a connection

  /** Every output field of the configuration holds what its operation says. */
  predicate AllHold(t: Tracker, origin: Hash, fls: seq<GenericMap>, m: GenericMap) {
    forall i, op | 0 <= i < |t.cfg.outputFields| && t.cfg.outputFields[i].operation == OperationName(op) ::
      FieldHolds(t, op, t.cfg.outputFields[i], origin, fls, m)
  }

  lemma HoldsByAggregator(t: Tracker, origin: Hash, fls: seq<GenericMap>, m: GenericMap)
    requires t.Valid()
    ensures AllHold(t, origin, fls, m) <==>
      forall i :: 0 <= i < |t.aggs| ==> FieldHolds(t, t.aggs[i].op, t.cfg.outputFields[i], origin, fls, m)
  {
    forall i | 0 <= i < |t.aggs|
      ensures t.cfg.outputFields[i].operation == OperationName(t.aggs[i].op)
      ensures forall op :: t.cfg.outputFields[i].operation == OperationName(op) ==> op == t.aggs[i].op
    {
      OperationNamed(t.cfg.outputFields[i]);
    }
  }

  /** The flow log reaches the side of the connection that its own endpoint A says. */
  predicate Directs(t: Tracker, origin: Hash, fl: GenericMap, d: Direction) {
    t.cfg.hash.aRef != "" ==> (d == AB <==> EndpointA(t, fl) == origin)
  }

  lemma AllStep(
    t: Tracker, origin: Hash, fls: seq<GenericMap>, m: GenericMap, fl: GenericMap, d: Direction, isNew: bool)
    requires t.Valid() && AllHold(t, origin, fls, m) && (isNew <==> fls == []) && Directs(t, origin, fl, d)
    ensures AllHold(t, origin, fls + [fl], AllUpdated(t.lib, t.aggs, m, fl, d, isNew))
  {
    AggregatorsSound(t);
    assert t.aggs[..|t.aggs|] == t.aggs;
    var m' := AllUpdated(t.lib, t.aggs, m, fl, d, isNew);
    HoldsByAggregator(t, origin, fls, m);
    HoldsByAggregator(t, origin, fls + [fl], m');
    forall i | 0 <= i < |t.aggs| ensures FieldHolds(t, t.aggs[i].op, t.cfg.outputFields[i], origin, fls + [fl], m') {
      var of, a := t.cfg.outputFields[i], t.aggs[i];
      OnlyOwn(t, i, |t.aggs|, m, fl, d, isNew);
      OwnStep(t, of, origin, fls, m, fl, d, isNew);
      AgreeHolds(t, of, origin, fls + [fl], AggUpdated(t.lib, a, m, fl, d, isNew), m');
    }
  }

  lemma OtherAdded(a: Aggregator, b: Aggregator, m: GenericMap)
    requires forall k :: k in b.Names() ==> k !in a.Names()
    ensures Agree(a.Names(), m, AddField(m, b))
  {
    FieldIsNamed(b, AB);
    FieldIsNamed(b, BA);
  }

  lemma OwnAdded(t: Tracker, of: OutputField, origin: Hash, m: GenericMap)
    requires NewAggregator(of).Some? && (of.splitAB ==> NewAggregator(of).value.Numeric())
    ensures var a := NewAggregator(of).value; FieldHolds(t, a.op, of, origin, [], AddField(m, a))
  {
    SuffixesDiffer(of.name);
  }

  lemma BuiltAggregator(t: Tracker, i: nat)
    requires t.Valid() && SoundAggregators(t) && i < |t.aggs|
    ensures NewAggregator(t.cfg.outputFields[i]) == Some(t.aggs[i])
    ensures t.cfg.outputFields[i].splitAB ==> t.aggs[i].Numeric()
  {
    assert t.aggs[i] in t.aggs;
  }

  lemma AddedHolds(t: Tracker, of: OutputField, origin: Hash, m: GenericMap, b: Aggregator)
    requires NewAggregator(of).Some? && (of.splitAB ==> NewAggregator(of).value.Numeric())
    requires forall k :: k in NewAggregator(of).value.Names() ==> k !in b.Names()
    requires FieldHolds(t, NewAggregator(of).value.op, of, origin, [], m)
    ensures FieldHolds(t, NewAggregator(of).value.op, of, origin, [], AddField(m, b))
  {
    OtherAdded(NewAggregator(of).value, b, m);
    AgreeHolds(t, of, origin, [], m, AddField(m, b));
  }

  lemma InitialStep(aggs: seq<Aggregator>, n: nat)
    requires 0 < n <= |aggs|
    ensures InitFields(aggs[..n]) == AddField(InitFields(aggs[..n-1]), aggs[n-1])
  {
    assert aggs[..n][..n-1] == aggs[..n-1];
  }

  lemma {:induction false} InitialHolds(t: Tracker, origin: Hash, i: nat, n: nat)
    requires t.Valid() && SoundAggregators(t) && i < n <= |t.aggs|
    ensures FieldHolds(t, t.aggs[i].op, t.cfg.outputFields[i], origin, [], InitFields(t.aggs[..n]))
  {
    var of, m := t.cfg.outputFields[i], InitFields(t.aggs[..n-1]);
    InitialStep(t.aggs, n);
    BuiltAggregator(t, i);
    if i == n - 1 {
      OwnAdded(t, of, origin, m);
    } else {
      InitialHolds(t, origin, i, n - 1);
      NamesDisjoint(t.aggs, i, n - 1);
      AddedHolds(t, of, origin, m, t.aggs[n-1]);
    }
  }

  lemma AllInitial(t: Tracker, origin: Hash)
    requires t.Valid()
    ensures AllHold(t, origin, [], InitFields(t.aggs))
  {
    AggregatorsSound(t);
    assert t.aggs[..|t.aggs|] == t.aggs;
    HoldsByAggregator(t, origin, [], InitFields(t.aggs));
    forall i | 0 <= i < |t.aggs|
      ensures FieldHolds(t, t.aggs[i].op, t.cfg.outputFields[i], origin, [], InitFields(t.aggs))
    {
      InitialHolds(t, origin, i, |t.aggs|);
    }
  }
}
