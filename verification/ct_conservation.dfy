/** Conservation: a sum field never loses nor invents traffic, over tracked and ended connections together. */
module ConnTrackConservation {
  import opened Common
  import opened ConnTrackConfig
  import opened ConnTrackHash
  import opened ConnTrackConn
  import opened ConnTrackSpec
  import opened ConnTrackFlowLogs

  // ----- what a valid tracker guarantees about its aggregators

  lemma {:induction false} NamesAgree(fs: seq<OutputField>, aggs: seq<Aggregator>)
    requires |aggs| == |fs| && forall i :: 0 <= i < |aggs| ==> NewAggregator(fs[i]) == Some(aggs[i])
    ensures AllNames(aggs) == OutputNames(fs)
  {
    if aggs != [] {
      NamesAgree(fs[..|fs|-1], aggs[..|aggs|-1]);
    }
  }

  predicate SoundAggregators(t: Tracker) {
    NoDup(AllNames(t.aggs)) && forall a :: a in t.aggs ==> a.Built() && (a.splitAB ==> t.cfg.hash.aRef != "")
  }

  lemma GoodFieldBuilds(cfg: ConnTrack, of: OutputField)
    requires !BadOutputField(cfg, of) && NewAggregator(of).Some?
    ensures var a := NewAggregator(of).value; a.Built() && (a.splitAB ==> cfg.hash.aRef != "")
  {
  }

  /** Fields do not collide, only numeric aggregates are split, and only when directions exist. */
  lemma AggregatorsSound(t: Tracker)
    requires t.Valid()
    ensures SoundAggregators(t)
  {
    NamesAgree(t.cfg.outputFields, t.aggs);
    forall a | a in t.aggs ensures a.Built() && (a.splitAB ==> t.cfg.hash.aRef != "") {
      var of := t.cfg.outputFields[IndexOf(t.aggs, a)];
      assert of in t.cfg.outputFields;
      GoodFieldBuilds(t.cfg, of);
    }
  }

  // ----- sums over maps

  ghost function SumMap(m: map<Hash, real>): real {
    if m == map[] then 0.0 else var h :| h in m; m[h] + SumMap(m - {h})
  }

  lemma {:induction false} SumSplit(m: map<Hash, real>, h: Hash)
    requires h in m
    ensures SumMap(m) == m[h] + SumMap(m - {h})
  {
    var x :| x in m && SumMap(m) == m[x] + SumMap(m - {x});
    if x != h {
      SumSplit(m - {x}, h);
      SumSplit(m - {h}, x);
      assert m - {x} - {h} == m - {h} - {x};
    }
  }

  lemma SumUpdate(m: map<Hash, real>, h: Hash, v: real)
    ensures SumMap(m[h := v]) == SumMap(m) + v - if h in m then m[h] else 0.0
  {
    SumSplit(m[h := v], h);
    assert m[h := v] - {h} == m - {h};
    if h in m {
      SumSplit(m, h);
    } else {
      assert m - {h} == m;
    }
  }

  // ----- the quantity

  /** What a field holds, AB plus BA when it is split; a field absent from a record counts as zero. */
  function Amount(a: Aggregator, m: GenericMap): real {
    if a.splitAB then Num(m, a.output + "_AB") + Num(m, a.output + "_BA") else Num(m, a.output)
  }

  function Amounts(a: Aggregator, s: State): map<Hash, real> {
    map h | h in s :: Amount(a, s[h].conn.agg)
  }

  /** What one accepted flow log brings: nothing when its value is missing with an error or is not a number. */
  function Contribution(t: Tracker, a: Aggregator, fl: GenericMap): real {
    InputValue(t.lib, a, fl).GetOr(0.0)
  }

  /** Traffic received by connections along a trace. */
  function Received(t: Tracker, a: Aggregator, evs: Trace): real {
    if evs == [] then 0.0
    else
      var n := |evs| - 1;
      Received(t, a, evs[..n]) + if evs[n].Seen? then Contribution(t, a, evs[n].fl) else 0.0
  }

  /** Traffic reported by the final records of ended connections. */
  function Ended(a: Aggregator, evs: Trace): real {
    if evs == [] then 0.0
    else
      var n := |evs| - 1;
      Ended(a, evs[..n]) + if evs[n].Closed? then Amount(a, evs[n].fields) else 0.0
  }

  lemma {:induction false} TotalsConcat(t: Tracker, a: Aggregator, x: Trace, y: Trace)
    ensures Received(t, a, x + y) == Received(t, a, x) + Received(t, a, y)
    ensures Ended(a, x + y) == Ended(a, x) + Ended(a, y)
  {
    if y == [] {
      assert x + y == x;
    } else {
      assert (x + y)[..|x + y|-1] == x + y[..|y|-1];
      TotalsConcat(t, a, x, y[..|y|-1]);
    }
  }

  // ----- one update moves the amount by exactly one contribution

  lemma OwnUpdate(t: Tracker, a: Aggregator, m: GenericMap, fl: GenericMap, d: Direction, isNew: bool)
    requires a.op == Sum && (a.splitAB ==> d != NA)
    ensures Amount(a, AggUpdated(t.lib, a, m, fl, d, isNew)) == Amount(a, m) + Contribution(t, a, fl)
  {
    SuffixesDiffer(a.output);
  }

  lemma OtherUpdate(t: Tracker, a: Aggregator, b: Aggregator, m: GenericMap, fl: GenericMap, d: Direction, isNew: bool)
    requires forall k :: k in b.Names() ==> k !in a.Names()
    requires b.splitAB ==> b.Numeric()
    ensures Amount(a, AggUpdated(t.lib, b, m, fl, d, isNew)) == Amount(a, m)
  {
    FieldIsNamed(b, d);
    FieldIsNamed(a, AB);
    FieldIsNamed(a, BA);
  }

  lemma {:induction false} AllUpdatedAmount(
    t: Tracker, i: nat, n: nat, m: GenericMap, fl: GenericMap, d: Direction, isNew: bool)
    requires SoundAggregators(t) && i < |t.aggs| && n <= |t.aggs| && t.aggs[i].op == Sum
    requires d == NA <==> t.cfg.hash.aRef == ""
    ensures Amount(t.aggs[i], AllUpdated(t.lib, t.aggs[..n], m, fl, d, isNew)) ==
      Amount(t.aggs[i], m) + if i < n then Contribution(t, t.aggs[i], fl) else 0.0
  {
    if n > 0 {
      AllUpdatedAmount(t, i, n - 1, m, fl, d, isNew);
      assert t.aggs[..n][..n-1] == t.aggs[..n-1];
      var m' := AllUpdated(t.lib, t.aggs[..n-1], m, fl, d, isNew);
      if i == n - 1 {
        OwnUpdate(t, t.aggs[i], m', fl, d, isNew);
      } else {
        if i < n - 1 { NamesDisjoint(t.aggs, i, n - 1); } else { NamesDisjoint(t.aggs, n - 1, i); }
        OtherUpdate(t, t.aggs[i], t.aggs[n-1], m', fl, d, isNew);
      }
    }
  }

  /** A sum output field that is not also a key field. */
  predicate IsSumField(t: Tracker, i: nat) {
    i < |t.aggs| && t.aggs[i].op == Sum && forall k :: k in t.aggs[i].Names() ==> k !in KeyFields(t.cfg.fieldGroups)
  }

  predicate KeysWithin(t: Tracker, s: State) {
    forall h :: h in s ==> s[h].conn.keys.Keys <= KeyFields(t.cfg.fieldGroups)
  }

  lemma TouchAmount(t: Tracker, i: nat, e: Entry, now: int, fl: GenericMap, th: TotalHash, isNew: bool)
    requires t.Valid() && IsSumField(t, i)
    ensures Amount(t.aggs[i], Touch(t, e, now, fl, th, isNew).conn.agg) ==
      Amount(t.aggs[i], e.conn.agg) + Contribution(t, t.aggs[i], fl)
  {
    assert t.aggs[..|t.aggs|] == t.aggs;
    AggregatorsSound(t);
    AllUpdatedAmount(t, i, |t.aggs|, e.conn.agg, fl, DirectionOf(t.cfg, e.conn.hash, th), isNew);
  }

  lemma {:induction false} InitialAmount(t: Tracker, i: nat, n: nat)
    requires SoundAggregators(t) && i < |t.aggs| && n <= |t.aggs| && t.aggs[i].op == Sum
    ensures Amount(t.aggs[i], InitFields(t.aggs[..n])) == 0.0
  {
    if n > 0 {
      InitialAmount(t, i, n - 1);
      assert t.aggs[..n][..n-1] == t.aggs[..n-1];
      if i != n - 1 {
        if i < n - 1 { NamesDisjoint(t.aggs, i, n - 1); } else { NamesDisjoint(t.aggs, n - 1, i); }
        OtherField(t.aggs[i], t.aggs[n-1], InitFields(t.aggs[..n-1]));
      } else {
        SuffixesDiffer(t.aggs[i].output);
      }
    }
  }

  lemma OtherField(a: Aggregator, b: Aggregator, m: GenericMap)
    requires forall k :: k in b.Names() ==> k !in a.Names()
    ensures Amount(a, AddField(m, b)) == Amount(a, m)
  {
    FieldIsNamed(a, AB);
    FieldIsNamed(a, BA);
    FieldIsNamed(b, AB);
    FieldIsNamed(b, BA);
  }

  lemma ExportedAmount(t: Tracker, i: nat, c: Conn)
    requires IsSumField(t, i) && c.keys.Keys <= KeyFields(t.cfg.fieldGroups)
    ensures Amount(t.aggs[i], Exported(c)) == Amount(t.aggs[i], c.agg)
  {
    var a := t.aggs[i];
    FieldIsNamed(a, AB);
    FieldIsNamed(a, BA);
    forall k | k in a.Names() ensures Num(Exported(c), k) == Num(c.agg, k) {
      assert k !in c.keys;
    }
  }

  lemma {:induction false} SwapKeepsKeys(
    keys: GenericMap, fl: GenericMap, a: seq<string>, b: seq<string>, all: set<string>)
    requires keys.Keys <= all && (forall f :: f in a ==> f in all) && forall f :: f in b ==> f in all
    ensures SwapEndpoints(keys, fl, a, b).Keys <= all
  {
    if a != [] && |a| == |b| {
      SwapKeepsKeys(keys, fl, a[..|a|-1], b[..|a|-1], all);
    }
  }

  lemma NewEntryKeys(t: Tracker, now: int, fl: GenericMap, th: TotalHash)
    ensures NewEntry(t, now, fl, th).conn.keys.Keys <= KeyFields(t.cfg.fieldGroups)
  {
    FieldsAreKeys(t.cfg.fieldGroups, t.cfg.hash.aRef);
    FieldsAreKeys(t.cfg.fieldGroups, t.cfg.hash.bRef);
    SwapKeepsKeys(BaseKeys(t.cfg, fl), fl, FieldsA(t.cfg), FieldsB(t.cfg), KeyFields(t.cfg.fieldGroups));
  }

  // ----- the balance

  ghost function Tracked(a: Aggregator, s: State): real { SumMap(Amounts(a, s)) }

  /** Between two states: received = change of the tracked amount + ended. */
  ghost predicate Balanced(t: Tracker, i: nat, s: State, evs: Trace, s': State)
    requires i < |t.aggs|
  {
    var a := t.aggs[i];
    Tracked(a, s') + Ended(a, evs) == Tracked(a, s) + Received(t, a, evs) && KeysWithin(t, s')
  }

  lemma BalancedConcat(t: Tracker, i: nat, s: State, x: Trace, s1: State, y: Trace, s2: State)
    requires i < |t.aggs| && Balanced(t, i, s, x, s1) && Balanced(t, i, s1, y, s2)
    ensures Balanced(t, i, s, x + y, s2)
  {
    TotalsConcat(t, t.aggs[i], x, y);
  }

  lemma TrackedUpdate(a: Aggregator, s: State, h: Hash, e: Entry)
    ensures Tracked(a, s[h := e]) ==
      Tracked(a, s) + Amount(a, e.conn.agg) - if h in s then Amount(a, s[h].conn.agg) else 0.0
  {
    SumUpdate(Amounts(a, s), h, Amount(a, e.conn.agg));
    assert Amounts(a, s[h := e]) == Amounts(a, s)[h := Amount(a, e.conn.agg)];
  }

  lemma AdmitBalanced(t: Tracker, i: nat, s: State, now: int, fl: GenericMap, th: TotalHash)
    requires t.Valid() && IsSumField(t, i) && KeysWithin(t, s)
    ensures Balanced(t, i, s, Admit(t, s, now, fl, th).events, Admit(t, s, now, fl, th).state)
  {
    if th.hashTotal in s {
      KnownBalanced(t, i, s, now, fl, th);
    } else if !t.Full(s) {
      NewBalanced(t, i, s, now, fl, th);
    }
  }

  lemma KnownBalanced(t: Tracker, i: nat, s: State, now: int, fl: GenericMap, th: TotalHash)
    requires t.Valid() && IsSumField(t, i) && KeysWithin(t, s) && th.hashTotal in s
    ensures Balanced(t, i, s, Admit(t, s, now, fl, th).events, Admit(t, s, now, fl, th).state)
  {
    var a, h, o := t.aggs[i], th.hashTotal, Admit(t, s, now, fl, th);
    OneEvent(t, a, o.events[0]);
    TouchAmount(t, i, s[h], now, fl, th, false);
    TrackedUpdate(a, s, h, o.state[h]);
  }

  lemma NewBalanced(t: Tracker, i: nat, s: State, now: int, fl: GenericMap, th: TotalHash)
    requires t.Valid() && IsSumField(t, i) && KeysWithin(t, s) && th.hashTotal !in s && !t.Full(s)
    ensures Balanced(t, i, s, Admit(t, s, now, fl, th).events, Admit(t, s, now, fl, th).state)
  {
    var a, h, o := t.aggs[i], th.hashTotal, Admit(t, s, now, fl, th);
    NewEntryKeys(t, now, fl, th);
    NewAmount(t, i, now, fl, th);
    TrackedUpdate(a, s, h, o.state[h]);
    OpeningTotals(t, a, o.events);
  }

  /** A new connection holds what its first flow log brings. */
  lemma NewAmount(t: Tracker, i: nat, now: int, fl: GenericMap, th: TotalHash)
    requires t.Valid() && IsSumField(t, i)
    ensures Amount(t.aggs[i], Touch(t, NewEntry(t, now, fl, th), now, fl, th, true).conn.agg)
         == Contribution(t, t.aggs[i], fl)
  {
    assert t.aggs[..|t.aggs|] == t.aggs;
    AggregatorsSound(t);
    InitialAmount(t, i, |t.aggs|);
    TouchAmount(t, i, NewEntry(t, now, fl, th), now, fl, th, true);
  }

  lemma OneEvent(t: Tracker, a: Aggregator, e: Event)
    ensures Received(t, a, [e]) == if e.Seen? then Contribution(t, a, e.fl) else 0.0
    ensures Ended(a, [e]) == if e.Closed? then Amount(a, e.fields) else 0.0
  {
    assert [e][..0] == [];
  }

  lemma OpeningTotals(t: Tracker, a: Aggregator, evs: Trace)
    requires 2 <= |evs| <= 3 && evs[0].Opened? && evs[1].Seen? && (|evs| == 3 ==> evs[2].Emit?)
    ensures Received(t, a, evs) == Contribution(t, a, evs[1].fl) && Ended(a, evs) == 0.0
  {
    OneEvent(t, a, evs[0]);
    OneEvent(t, a, evs[1]);
    TotalsConcat(t, a, [evs[0]], [evs[1]]);
    if |evs| == 3 {
      OneEvent(t, a, evs[2]);
      TotalsConcat(t, a, [evs[0]] + [evs[1]], [evs[2]]);
      assert evs == [evs[0]] + [evs[1]] + [evs[2]];
    } else {
      assert evs == [evs[0]] + [evs[1]];
    }
  }

  lemma EmitBalanced(t: Tracker, i: nat, s: State, e: Event)
    requires i < |t.aggs| && KeysWithin(t, s) && e.Emit?
    ensures Balanced(t, i, s, [e], s)
  {
    OneEvent(t, t.aggs[i], e);
  }

  lemma FlowStepBalanced(t: Tracker, i: nat, s: State, now: int, fl: GenericMap)
    requires t.Valid() && IsSumField(t, i) && KeysWithin(t, s)
    ensures Balanced(t, i, s, FlowStep(t, s, now, fl).events, FlowStep(t, s, now, fl).state)
  {
    var th := TotalHashOf(t.lib, t.cfg, fl);
    if t.Filtered(fl) || th.None? {
      assert FlowStep(t, s, now, fl) == Outcome(s, []);
    } else {
      var o := if t.IsDuplicate(fl) then Outcome(s, []) else Admit(t, s, now, fl, th.value);
      if !t.IsDuplicate(fl) {
        AdmitBalanced(t, i, s, now, fl, th.value);
      }
      assert Balanced(t, i, s, o.events, o.state);
      var e := Emit(th.value.hashTotal, now, FlowLog, false, fl);
      if t.Emits(FlowLog) {
        EmitBalanced(t, i, o.state, e);
        BalancedConcat(t, i, s, o.events, o.state, [e], o.state);
        assert FlowStep(t, s, now, fl) == Outcome(o.state, o.events + [e]);
      } else {
        assert FlowStep(t, s, now, fl) == o;
      }
    }
  }

  lemma {:induction false} FlowsBalanced(t: Tracker, i: nat, s: State, now: int, fls: seq<GenericMap>)
    requires t.Valid() && IsSumField(t, i) && KeysWithin(t, s)
    ensures Balanced(t, i, s, Flows(t, s, now, fls).events, Flows(t, s, now, fls).state)
  {
    if fls != [] {
      var o := Flows(t, s, now, fls[..|fls|-1]);
      var o' := FlowStep(t, o.state, now, fls[|fls|-1]);
      FlowsBalanced(t, i, s, now, fls[..|fls|-1]);
      FlowStepBalanced(t, i, o.state, now, fls[|fls|-1]);
      BalancedConcat(t, i, s, o.events, o.state, o'.events, o'.state);
    }
  }

  lemma CloseBalanced(t: Tracker, i: nat, s: State, h: Hash, e: Entry, now: int)
    requires IsSumField(t, i) && KeysWithin(t, s) && h in s && e == s[h]
    ensures Balanced(t, i, s, CloseEvents(t, e, h, now), s - {h})
  {
    var a, evs := t.aggs[i], CloseEvents(t, e, h, now);
    ExportedAmount(t, i, e.conn);
    SumSplit(Amounts(a, s), h);
    assert Amounts(a, s) - {h} == Amounts(a, s - {h});
    var last := evs[|evs|-1];
    OneEvent(t, a, last);
    if t.Emits(EndConnection) {
      OneEvent(t, a, evs[0]);
      TotalsConcat(t, a, [evs[0]], [last]);
      assert evs == [evs[0]] + [last];
    }
  }

  lemma {:induction false} PopBalanced(t: Tracker, i: nat, s: State, now: int, hs: seq<Hash>)
    requires IsSumField(t, i) && KeysWithin(t, s) && NoDup(hs) && forall h :: h in hs ==> h in s
    ensures Balanced(t, i, s, PopEvents(t, s, now, hs), s - Elems(hs))
  {
    if hs == [] {
      assert s - Elems(hs) == s;
    } else {
      var n := |hs| - 1;
      PopBalanced(t, i, s, now, hs[..n]);
      WithoutLast(s, hs);
      PopOneBalanced(t, i, s, s - Elems(hs[..n]), PopEvents(t, s, now, hs[..n]), now, hs[n]);
    }
  }

  lemma PopOneBalanced(t: Tracker, i: nat, s: State, p: State, evs: Trace, now: int, h: Hash)
    requires IsSumField(t, i) && KeysWithin(t, p) && h in p && h in s && p[h] == s[h]
    requires Balanced(t, i, s, evs, p)
    ensures Balanced(t, i, s, evs + CloseEvents(t, s[h], h, now), p - {h})
  {
    CloseBalanced(t, i, p, h, s[h], now);
    BalancedConcat(t, i, s, evs, p, CloseEvents(t, s[h], h, now), p - {h});
  }

  lemma {:induction false} BeatBalanced(t: Tracker, i: nat, s: State, now: int, hs: seq<Hash>)
    requires i < |t.aggs| && KeysWithin(t, s)
    ensures Balanced(t, i, s, BeatEvents(s, now, hs), BeatState(t, s, now, hs))
  {
    assert Amounts(t.aggs[i], BeatState(t, s, now, hs)) == Amounts(t.aggs[i], s);
    NoTotals(t, t.aggs[i], s, now, hs);
  }

  lemma {:induction false} NoTotals(t: Tracker, a: Aggregator, s: State, now: int, hs: seq<Hash>)
    ensures Received(t, a, BeatEvents(s, now, hs)) == 0.0 && Ended(a, BeatEvents(s, now, hs)) == 0.0
  {
    if hs != [] {
      var n := |hs| - 1;
      NoTotals(t, a, s, now, hs[..n]);
      if hs[n] in s {
        var e := Report(s[hs[n]], hs[n], now, Heartbeat);
        OneEvent(t, a, e);
        TotalsConcat(t, a, BeatEvents(s, now, hs[..n]), [e]);
      } else {
        assert BeatEvents(s, now, hs) == BeatEvents(s, now, hs[..n]);
      }
    }
  }

  lemma BatchBalanced(t: Tracker, i: nat, s: State, b: Batch)
    requires t.Valid() && IsSumField(t, i) && KeysWithin(t, s) && LegalBatch(t, s, b)
    ensures Balanced(t, i, s, BatchOutcome(t, s, b).events, BatchOutcome(t, s, b).state)
  {
    var o, p := AfterFlows(t, s, b), AfterPop(t, s, b);
    var pops, beats := PopEvents(t, o.state, b.now, b.popped), BeatEvents(p, b.now, b.beats);
    FlowsBalanced(t, i, s, b.now, b.flows);
    forall h | h in b.popped ensures h in o.state {
      assert h in Elems(b.popped);
    }
    PopBalanced(t, i, o.state, b.now, b.popped);
    BeatBalanced(t, i, p, b.now, b.beats);
    BalancedConcat(t, i, s, o.events, o.state, pops, p);
    BalancedConcat(t, i, s, o.events + pops, p, beats, BatchOutcome(t, s, b).state);
  }

  lemma {:induction false} RunBalanced(t: Tracker, i: nat, hist: seq<Batch>)
    requires t.Valid() && IsSumField(t, i) && Legal(t, hist)
    ensures Balanced(t, i, map[], Run(t, hist).events, Run(t, hist).state)
  {
    if hist != [] {
      var n := |hist| - 1;
      var o := Run(t, hist[..n]);
      RunBalanced(t, i, hist[..n]);
      BatchBalanced(t, i, o.state, hist[n]);
      var o' := BatchOutcome(t, o.state, hist[n]);
      BalancedConcat(t, i, map[], o.events, o.state, o'.events, o'.state);
    }
  }

  // ----- received traffic, read off the input instead of the trace

  function FlowsInput(t: Tracker, a: Aggregator, s: State, now: int, fls: seq<GenericMap>): real {
    if fls == [] then 0.0
    else
      var n := |fls| - 1;
      var s' := Flows(t, s, now, fls[..n]).state;
      FlowsInput(t, a, s, now, fls[..n]) + if Accepted(t, s', fls[n]) then Contribution(t, a, fls[n]) else 0.0
  }

  /** The sum of the input field over all accepted flow logs of a history. */
  function TotalInput(t: Tracker, a: Aggregator, hist: seq<Batch>): real {
    if hist == [] then 0.0
    else
      var n := |hist| - 1;
      TotalInput(t, a, hist[..n]) + FlowsInput(t, a, Run(t, hist[..n]).state, hist[n].now, hist[n].flows)
  }

  lemma AdmitInput(t: Tracker, a: Aggregator, s: State, now: int, fl: GenericMap, th: TotalHash)
    ensures Received(t, a, Admit(t, s, now, fl, th).events) ==
      if th.hashTotal in s || !t.Full(s) then Contribution(t, a, fl) else 0.0
  {
    var evs := Admit(t, s, now, fl, th).events;
    if th.hashTotal in s {
      OneEvent(t, a, evs[0]);
    } else if !t.Full(s) {
      OpeningTotals(t, a, evs);
    }
  }

  lemma TakenInput(t: Tracker, a: Aggregator, s: State, now: int, fl: GenericMap, th: TotalHash)
    ensures var o := if t.IsDuplicate(fl) then Outcome(s, []) else Admit(t, s, now, fl, th);
      var taken := !t.IsDuplicate(fl) && (th.hashTotal in s || !t.Full(s));
      && Received(t, a, o.events) == (if taken then Contribution(t, a, fl) else 0.0)
      && Received(t, a, o.events + [Emit(th.hashTotal, now, FlowLog, false, fl)])
         == if taken then Contribution(t, a, fl) else 0.0
  {
    var o := if t.IsDuplicate(fl) then Outcome(s, []) else Admit(t, s, now, fl, th);
    if !t.IsDuplicate(fl) {
      AdmitInput(t, a, s, now, fl, th);
    }
    var e := Emit(th.hashTotal, now, FlowLog, false, fl);
    OneEvent(t, a, e);
    TotalsConcat(t, a, o.events, [e]);
  }

  lemma StepInput(t: Tracker, a: Aggregator, s: State, now: int, fl: GenericMap)
    ensures Received(t, a, FlowStep(t, s, now, fl).events) == if Accepted(t, s, fl) then Contribution(t, a, fl) else 0.0
  {
    TransportOnly(t, s, fl);
    var th := TotalHashOf(t.lib, t.cfg, fl);
    if t.Filtered(fl) || th.None? {
      NothingStepped(t, s, now, fl);
    } else {
      TakenInput(t, a, s, now, fl, th.value);
      StepIs(t, s, now, fl, th.value);
    }
  }

  lemma {:induction false} FlowsInputReceived(t: Tracker, a: Aggregator, s: State, now: int, fls: seq<GenericMap>)
    ensures Received(t, a, Flows(t, s, now, fls).events) == FlowsInput(t, a, s, now, fls)
  {
    if fls != [] {
      var n := |fls| - 1;
      var o := Flows(t, s, now, fls[..n]);
      FlowsInputReceived(t, a, s, now, fls[..n]);
      StepInput(t, a, o.state, now, fls[n]);
      TotalsConcat(t, a, o.events, FlowStep(t, o.state, now, fls[n]).events);
    }
  }

  lemma {:induction false} PopReceivesNothing(t: Tracker, a: Aggregator, s: State, now: int, hs: seq<Hash>)
    ensures Received(t, a, PopEvents(t, s, now, hs)) == 0.0
  {
    if hs != [] {
      var n := |hs| - 1;
      PopReceivesNothing(t, a, s, now, hs[..n]);
      if hs[n] in s {
        var evs := CloseEvents(t, s[hs[n]], hs[n], now);
        TotalsConcat(t, a, PopEvents(t, s, now, hs[..n]), evs);
        OneEvent(t, a, evs[|evs|-1]);
        OneEvent(t, a, evs[0]);
        TotalsConcat(t, a, evs[..|evs|-1], [evs[|evs|-1]]);
        assert evs == evs[..|evs|-1] + [evs[|evs|-1]];
        assert |evs| == 2 ==> evs[..1] == [evs[0]];
      } else {
        assert PopEvents(t, s, now, hs) == PopEvents(t, s, now, hs[..n]);
      }
    }
  }

  lemma {:induction false} InputReceived(t: Tracker, a: Aggregator, hist: seq<Batch>)
    ensures Received(t, a, Run(t, hist).events) == TotalInput(t, a, hist)
  {
    if hist != [] {
      var n := |hist| - 1;
      var o, b := Run(t, hist[..n]), hist[n];
      InputReceived(t, a, hist[..n]);
      var f, p := AfterFlows(t, o.state, b), AfterPop(t, o.state, b);
      var pops, beats := PopEvents(t, f.state, b.now, b.popped), BeatEvents(p, b.now, b.beats);
      FlowsInputReceived(t, a, o.state, b.now, b.flows);
      PopReceivesNothing(t, a, f.state, b.now, b.popped);
      NoTotals(t, a, p, b.now, b.beats);
      TotalsConcat(t, a, f.events, pops);
      TotalsConcat(t, a, f.events + pops, beats);
      TotalsConcat(t, a, o.events, f.events + pops + beats);
    }
  }

  /** Conservation: in every run, for every sum field that is not a key field, what the tracked connections hold
      plus what the final records of ended ones carried equals the sum of the input over all flow logs that were
      not discarded, rejected or duplicate, including those that reached a terminating connection. */
  lemma Conservation(t: Tracker, i: nat, hist: seq<Batch>)
    requires t.Valid() && IsSumField(t, i) && Legal(t, hist)
    ensures var o := Run(t, hist);
      Tracked(t.aggs[i], o.state) + Ended(t.aggs[i], o.events) == TotalInput(t, t.aggs[i], hist)
  {
    RunBalanced(t, i, hist);
    InputReceived(t, t.aggs[i], hist);
    assert Amounts(t.aggs[i], map[]) == map[];
  }
}
