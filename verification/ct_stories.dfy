/** Whole-run meaning of connections and records: every lifetime is told by its flow logs. */
module ConnTrackStories {
  import opened Common
  import opened ConnTrackConfig
  import opened ConnTrackHash
  import opened ConnTrackConn
  import opened ConnTrackSpec
  import opened ConnTrackFlowLogs
  import opened ConnTrackConservation
  import opened ConnTrackFields

  // ----- connections and records of a lifetime

  /** The key fields of a connection are those of its first flow log, with the ends exchanged if that one answers. */
  predicate KeysMean(t: Tracker, first: GenericMap, m: GenericMap) {
    var (a, b) := (FieldsA(t.cfg), FieldsB(t.cfg));
    && (forall f :: f in KeyFields(t.cfg.fieldGroups) ==> f in m)
    && (if t.cfg.tcpFlags.swapAB && HasSynAck(t, first) then
          NoDup(a + b) ==>
            && (forall i :: 0 <= i < |a| && i < |b| ==>
                  Lookup(m, a[i]) == Lookup(first, b[i]) && Lookup(m, b[i]) == Lookup(first, a[i]))
            && (forall f :: f in KeyFields(t.cfg.fieldGroups) && f !in a && f !in b ==>
                  Lookup(m, f) == Lookup(first, f))
        else forall f :: f in KeyFields(t.cfg.fieldGroups) ==> Lookup(m, f) == Lookup(first, f))
  }

  predicate ConnMeans(t: Tracker, fls: seq<GenericMap>, c: Conn)
    requires fls != []
  {
    && AllHold(t, Origin(t, fls[0]), fls, c.agg)
    && c.agg.Keys == Elems(AllNames(t.aggs))
    && (t.cfg.hash.aRef != "" ==> c.hash.hashA == Origin(t, fls[0]))
    && KeysMean(t, fls[0], c.keys) && c.keys.Keys == KeyFields(t.cfg.fieldGroups)
  }

  /** A zero is not shown in a record. */
  function Shown(v: Value): Value { if v == Float(0.0) then Nil else v }

  /** What a record shows of an output field. */
  predicate FieldShows(
    t: Tracker, op: AggOp, of: OutputField, origin: Hash, fls: seq<GenericMap>, rec: GenericMap)
  {
    if op == First then Lookup(rec, of.name) == Shown(FirstValue(InputName(of), fls))
    else if op == Last then Lookup(rec, of.name) == Shown(LastValue(InputName(of), fls))
    else NumbersHold(t, op, of, origin, fls, rec)
  }

  predicate IsKeyField(t: Tracker, f: string) { f in KeyFields(t.cfg.fieldGroups) }

  /** A record of a connection with the given flow logs: its keys, and every output field that is no key field. */
  predicate RecordMeans(t: Tracker, fls: seq<GenericMap>, rec: GenericMap)
    requires fls != []
  {
    && KeysMean(t, fls[0], rec)
    && (forall i, op | 0 <= i < |t.cfg.outputFields| && t.cfg.outputFields[i].operation == OperationName(op) ::
          (forall k :: k in NamesOf(t.cfg.outputFields[i]) ==> !IsKeyField(t, k)) ==>
            FieldShows(t, op, t.cfg.outputFields[i], Origin(t, fls[0]), fls, rec))
    && (forall k :: k in rec && !IsKeyField(t, k) ==>
          k in OutputNames(t.cfg.outputFields) && rec[k] != Nil && rec[k] != Float(0.0))
  }

  lemma SwappedKeysMean(cfg: ConnTrack, fl: GenericMap)
    requires |FieldsA(cfg)| == |FieldsB(cfg)|
    ensures var (a, b, keys) := (FieldsA(cfg), FieldsB(cfg), KeysOf(cfg, fl, true));
      && keys.Keys == KeyFields(cfg.fieldGroups)
      && (forall f :: f in KeyFields(cfg.fieldGroups) && f !in a && f !in b ==> Lookup(keys, f) == Lookup(fl, f))
      && (NoDup(a + b) ==> forall i :: 0 <= i < |a| ==>
            Lookup(keys, a[i]) == Lookup(fl, b[i]) && Lookup(keys, b[i]) == Lookup(fl, a[i]))
  {
    var base, a, b := BaseKeys(cfg, fl), FieldsA(cfg), FieldsB(cfg);
    FieldsAreKeys(cfg.fieldGroups, cfg.hash.aRef);
    FieldsAreKeys(cfg.fieldGroups, cfg.hash.bRef);
    var keys := SwapEndpoints(base, fl, a, b);
    forall f
      ensures f in keys <==> f in KeyFields(cfg.fieldGroups)
      ensures f !in a && f !in b ==> Lookup(keys, f) == Lookup(base, f)
    {
      SwapEndpointsOther(base, fl, a, b, f);
    }
    if NoDup(a + b) {
      forall i | 0 <= i < |a| ensures Lookup(keys, a[i]) == Lookup(fl, b[i]) && Lookup(keys, b[i]) == Lookup(fl, a[i]) {
        SwapEndpointsPair(base, fl, a, b, i);
      }
    }
  }

  lemma KeysMeanOf(t: Tracker, fl: GenericMap)
    requires t.Valid()
    ensures var keys := KeysOf(t.cfg, fl, t.SwapsEndpoints(fl));
      KeysMean(t, fl, keys) && keys.Keys == KeyFields(t.cfg.fieldGroups)
  {
    FlagsAgree(t, fl);
    if t.SwapsEndpoints(fl) {
      SwappedKeysMean(t.cfg, fl);
    }
  }

  lemma {:induction false} UpdatedKeys(
    t: Tracker, n: nat, m: GenericMap, fl: GenericMap, d: Direction, isNew: bool)
    requires n <= |t.aggs| && SoundAggregators(t) && m.Keys == Elems(AllNames(t.aggs))
    ensures AllUpdated(t.lib, t.aggs[..n], m, fl, d, isNew).Keys == Elems(AllNames(t.aggs))
  {
    if n > 0 {
      UpdatedKeys(t, n - 1, m, fl, d, isNew);
      assert t.aggs[..n][..n-1] == t.aggs[..n-1];
      NamesIncluded(t.aggs, n - 1);
      FieldIsNamed(t.aggs[n-1], d);
    }
  }

  /** A flow log of the connection, reaching it in a state that means the earlier ones. */
  lemma TouchMeans(t: Tracker, fls: seq<GenericMap>, e: Entry, now: int, fl: GenericMap, th: TotalHash)
    requires t.Valid() && fls != [] && ConnMeans(t, fls, e.conn) && TotalHashOf(t.lib, t.cfg, fl) == Some(th)
    ensures ConnMeans(t, fls + [fl], Touch(t, e, now, fl, th, false).conn)
  {
    AggregatorsSound(t);
    assert (fls + [fl])[0] == fls[0] && t.aggs[..|t.aggs|] == t.aggs;
    var d := DirectionOf(t.cfg, e.conn.hash, th);
    AllStep(t, Origin(t, fls[0]), fls, e.conn.agg, fl, d, false);
    UpdatedKeys(t, |t.aggs|, e.conn.agg, fl, d, false);
  }

  lemma NewMeans(t: Tracker, now: int, fl: GenericMap, th: TotalHash)
    requires t.Valid() && TotalHashOf(t.lib, t.cfg, fl) == Some(th)
    ensures ConnMeans(t, [fl], Touch(t, NewEntry(t, now, fl, th), now, fl, th, true).conn)
  {
    AggregatorsSound(t);
    FlagsAgree(t, fl);
    KeysMeanOf(t, fl);
    assert t.aggs[..|t.aggs|] == t.aggs && [] + [fl] == [fl];
    var e := NewEntry(t, now, fl, th);
    var d := DirectionOf(t.cfg, e.conn.hash, th);
    AllInitial(t, Origin(t, fl));
    InitFieldsReady(t.aggs);
    AllStep(t, Origin(t, fl), [], e.conn.agg, fl, d, true);
    UpdatedKeys(t, |t.aggs|, e.conn.agg, fl, d, true);
  }

  lemma ExportMeans(t: Tracker, fls: seq<GenericMap>, c: Conn)
    requires t.Valid() && fls != [] && ConnMeans(t, fls, c)
    ensures RecordMeans(t, fls, Exported(c))
  {
    KeysExported(t, fls[0], c);
    NoMoreExported(t, c);
    AggregatorsSound(t);
    forall i, op | 0 <= i < |t.cfg.outputFields| && t.cfg.outputFields[i].operation == OperationName(op)
      && (forall k :: k in NamesOf(t.cfg.outputFields[i]) ==> !IsKeyField(t, k))
      ensures FieldShows(t, op, t.cfg.outputFields[i], Origin(t, fls[0]), fls, Exported(c))
    {
      OperationNamed(t.cfg.outputFields[i]);
      assert t.aggs[i] in t.aggs;
      FieldExported(t, op, t.cfg.outputFields[i], Origin(t, fls[0]), fls, c);
    }
  }

  lemma NoMoreExported(t: Tracker, c: Conn)
    requires t.Valid() && c.agg.Keys == Elems(AllNames(t.aggs)) && c.keys.Keys == KeyFields(t.cfg.fieldGroups)
    ensures forall k :: k in Exported(c) && !IsKeyField(t, k) ==>
      k in OutputNames(t.cfg.outputFields) && Exported(c)[k] != Nil && Exported(c)[k] != Float(0.0)
  {
    NamesAgree(t.cfg.outputFields, t.aggs);
    forall k | k in Exported(c) && !IsKeyField(t, k)
      ensures k in OutputNames(t.cfg.outputFields) && Exported(c)[k] != Nil && Exported(c)[k] != Float(0.0)
    {
      assert k in Elems(AllNames(t.aggs));
    }
  }

  lemma KeysExported(t: Tracker, first: GenericMap, c: Conn)
    requires KeysMean(t, first, c.keys) && c.keys.Keys == KeyFields(t.cfg.fieldGroups)
    ensures KeysMean(t, first, Exported(c))
  {
    FieldsAreKeys(t.cfg.fieldGroups, t.cfg.hash.aRef);
    FieldsAreKeys(t.cfg.fieldGroups, t.cfg.hash.bRef);
    forall f | f in KeyFields(t.cfg.fieldGroups)
      ensures f in Exported(c) && Lookup(Exported(c), f) == Lookup(c.keys, f)
    {
    }
  }

  lemma FieldExported(t: Tracker, op: AggOp, of: OutputField, origin: Hash, fls: seq<GenericMap>, c: Conn)
    requires FieldHolds(t, op, of, origin, fls, c.agg) && (op in {First, Last} ==> !of.splitAB)
    requires forall k :: k in NamesOf(of) ==> k !in c.keys
    ensures FieldShows(t, op, of, origin, fls, Exported(c))
  {
    forall k | k in NamesOf(of)
      ensures Num(Exported(c), k) == Num(c.agg, k) && Lookup(Exported(c), k) == Shown(Lookup(c.agg, k))
    {
    }
    assert of.splitAB ==> NamesOf(of)[0] == of.name + "_AB" && NamesOf(of)[1] == of.name + "_BA";
    assert !of.splitAB ==> NamesOf(of)[0] == of.name;
  }

  // ----- stories

  /** What a trace has told of a hash: nothing is tracked, or the flow logs of the current lifetime so far. */
  datatype Story = Untracked | Told(fls: seq<GenericMap>)

  /** What each event must be, given the story so far; None marks a violation. */
  function StepStory(t: Tracker, p: Story, e: Event): Option<Story> {
    match e
    case Opened(_, _, _) => if p == Untracked then Some(Told([])) else None
    case Seen(h, _, fin, fl) =>
      if p.Told? && Belongs(t, fl, h) && (fin <==> t.cfg.tcpFlags.detectEndConnection && HasFin(t, fl))
      then Some(Told(p.fls + [fl])) else None
    case Emit(h, _, kind, _, fields) =>
      if !Enabled(t, kind) then None
      else if kind == FlowLog then (if IsTransport(t, fields) && HashesTo(t, fields, h) then Some(p) else None)
      else if p.Told? && p.fls != [] && RecordMeans(t, p.fls, fields) then Some(p) else None
    case Closed(_, _, fields) =>
      if p.Told? && p.fls != [] && RecordMeans(t, p.fls, fields) then Some(Untracked) else None
  }

  /** The story of h after a stretch of trace. */
  function Retell(t: Tracker, p: Option<Story>, evs: Trace, h: Hash): Option<Story> {
    if evs == [] then p
    else
      var n := |evs| - 1;
      var q := Retell(t, p, evs[..n], h);
      if q.None? || evs[n].h != h then q else StepStory(t, q.value, evs[n])
  }

  /** The state holds what the story tells. */
  predicate Fits(t: Tracker, s: State, h: Hash, p: Story) {
    match p
    case Untracked => h !in s
    case Told(fls) =>
      h in s && fls != [] && ConnMeans(t, fls, s[h].conn) && IsFirstGroup(t, s[h].conn.keys, s[h].group)
  }

  /** From a story that fits, the events tell one that fits the next state. */
  predicate Tells(t: Tracker, p: Story, evs: Trace, s: State, h: Hash) {
    var q := Retell(t, Some(p), evs, h);
    q.Some? && Fits(t, s, h, q.value)
  }

  lemma {:induction false} RetellConcat(t: Tracker, p: Option<Story>, a: Trace, b: Trace, h: Hash)
    ensures Retell(t, p, a + b, h) == Retell(t, Retell(t, p, a, h), b, h)
  {
    if b == [] {
      assert a + b == a;
    } else {
      assert (a + b)[..|a + b|-1] == a + b[..|b|-1];
      RetellConcat(t, p, a, b[..|b|-1], h);
    }
  }

  lemma TellsConcat(t: Tracker, p: Story, a: Trace, q: Story, b: Trace, s: State, h: Hash)
    requires Retell(t, Some(p), a, h) == Some(q) && Tells(t, q, b, s, h)
    ensures Tells(t, p, a + b, s, h)
  {
    RetellConcat(t, Some(p), a, b, h);
  }

  lemma RetellOne(t: Tracker, p: Story, e: Event, h: Hash)
    ensures Retell(t, Some(p), [e], h) == if e.h != h then Some(p) else StepStory(t, p, e)
  {
    assert [e][..0] == [];
  }

  lemma {:induction false} OthersSilent(t: Tracker, p: Option<Story>, evs: Trace, h: Hash)
    requires forall e :: e in evs ==> e.h != h
    ensures Retell(t, p, evs, h) == p
  {
    if evs != [] {
      OthersSilent(t, p, evs[..|evs|-1], h);
    }
  }

  // ----- one flow log

  lemma KnownTells(t: Tracker, s: State, now: int, fl: GenericMap, th: TotalHash, p: Story)
    requires t.Valid() && th.hashTotal in s && Fits(t, s, th.hashTotal, p)
    requires Belongs(t, fl, th.hashTotal) && TotalHashOf(t.lib, t.cfg, fl) == Some(th)
    ensures Tells(t, p, Admit(t, s, now, fl, th).events, Admit(t, s, now, fl, th).state, th.hashTotal)
  {
    var h := th.hashTotal;
    FlagsAgree(t, fl);
    TouchMeans(t, p.fls, s[h], now, fl, th);
    RetellOne(t, p, Admit(t, s, now, fl, th).events[0], h);
  }

  lemma NewTells(t: Tracker, s: State, now: int, fl: GenericMap, th: TotalHash)
    requires t.Valid() && th.hashTotal !in s && !t.Full(s)
    requires Belongs(t, fl, th.hashTotal) && TotalHashOf(t.lib, t.cfg, fl) == Some(th)
    ensures Tells(t, Untracked, Admit(t, s, now, fl, th).events, Admit(t, s, now, fl, th).state, th.hashTotal)
  {
    var h, e := th.hashTotal, NewEntry(t, now, fl, th);
    var e', evs := Touch(t, e, now, fl, th, true), Admit(t, s, now, fl, th).events;
    NewMeans(t, now, fl, th);
    FirstMatchIsFirst(t, e.conn.keys, 0);
    ExportMeans(t, [fl], e'.conn);
    OpeningTells(t, now, fl, h, evs);
  }

  lemma OpeningTells(t: Tracker, now: int, fl: GenericMap, h: Hash, evs: Trace)
    requires Belongs(t, fl, h) && 2 <= |evs| <= 3 && forall e :: e in evs ==> e.h == h
    requires evs[0].Opened? && evs[1] == Seen(h, now, t.EndsConnection(fl), fl)
    requires |evs| == 3 ==>
      t.Emits(NewConnection) && evs[2].Emit? && evs[2].kind == NewConnection && RecordMeans(t, [fl], evs[2].fields)
    ensures Retell(t, Some(Untracked), evs, h) == Some(Told([fl]))
  {
    SeenTells(t, now, fl, h, evs[0], evs[1]);
    if |evs| == 3 {
      RetellOne(t, Told([fl]), evs[2], h);
      RetellConcat(t, Some(Untracked), [evs[0], evs[1]], [evs[2]], h);
      assert evs == [evs[0], evs[1]] + [evs[2]];
    } else {
      assert evs == [evs[0], evs[1]];
    }
  }

  lemma SeenTells(t: Tracker, now: int, fl: GenericMap, h: Hash, first: Event, seen: Event)
    requires Belongs(t, fl, h) && first.Opened? && first.h == h && seen == Seen(h, now, t.EndsConnection(fl), fl)
    ensures Retell(t, Some(Untracked), [first, seen], h) == Some(Told([fl]))
  {
    FlagsAgree(t, fl);
    RetellOne(t, Untracked, first, h);
    RetellOne(t, Told([]), seen, h);
    RetellConcat(t, Some(Untracked), [first], [seen], h);
    assert [first, seen] == [first] + [seen] && [] + [fl] == [fl];
  }

  lemma AdmitTells(t: Tracker, s: State, now: int, fl: GenericMap, th: TotalHash, h: Hash, p: Story)
    requires t.Valid() && Fits(t, s, h, p)
    requires Belongs(t, fl, th.hashTotal) && TotalHashOf(t.lib, t.cfg, fl) == Some(th)
    ensures Tells(t, p, Admit(t, s, now, fl, th).events, Admit(t, s, now, fl, th).state, h)
  {
    if h != th.hashTotal {
      OtherTells(t, s, now, fl, th, h, p);
    } else if h in s {
      KnownTells(t, s, now, fl, th, p);
    } else if !t.Full(s) {
      NewTells(t, s, now, fl, th);
    }
  }

  lemma OtherTells(t: Tracker, s: State, now: int, fl: GenericMap, th: TotalHash, h: Hash, p: Story)
    requires Fits(t, s, h, p) && h != th.hashTotal
    ensures Tells(t, p, Admit(t, s, now, fl, th).events, Admit(t, s, now, fl, th).state, h)
  {
    OthersSilent(t, Some(p), Admit(t, s, now, fl, th).events, h);
  }

  lemma FlowStepTells(t: Tracker, s: State, now: int, fl: GenericMap, h: Hash, p: Story)
    requires t.Valid() && Fits(t, s, h, p)
    ensures Tells(t, p, FlowStep(t, s, now, fl).events, FlowStep(t, s, now, fl).state, h)
  {
    var th := TotalHashOf(t.lib, t.cfg, fl);
    if t.Filtered(fl) || th.None? {
      assert FlowStep(t, s, now, fl) == Outcome(s, []);
    } else {
      LoggedTells(t, s, now, fl, th.value, h, p);
    }
  }

  lemma LoggedTells(t: Tracker, s: State, now: int, fl: GenericMap, th: TotalHash, h: Hash, p: Story)
    requires t.Valid() && Fits(t, s, h, p) && !t.Filtered(fl) && TotalHashOf(t.lib, t.cfg, fl) == Some(th)
    ensures Tells(t, p, FlowStep(t, s, now, fl).events, FlowStep(t, s, now, fl).state, h)
  {
    TakenTells(t, s, now, fl, th, h, p);
    StepIs(t, s, now, fl, th);
  }

  lemma TakenTells(t: Tracker, s: State, now: int, fl: GenericMap, th: TotalHash, h: Hash, p: Story)
    requires t.Valid() && Fits(t, s, h, p) && !t.Filtered(fl) && TotalHashOf(t.lib, t.cfg, fl) == Some(th)
    ensures var o := if t.IsDuplicate(fl) then Outcome(s, []) else Admit(t, s, now, fl, th);
      && Tells(t, p, o.events, o.state, h)
      && (t.Emits(FlowLog) ==>
            Tells(t, p, o.events + [Emit(th.hashTotal, now, FlowLog, false, fl)], o.state, h))
  {
    if t.IsDuplicate(fl) {
      assert Retell(t, Some(p), [], h) == Some(p);
      LogTells(t, p, [], s, now, fl, th, h);
    } else {
      var o := Admit(t, s, now, fl, th);
      AdmitTells(t, s, now, fl, th, h, p);
      LogTells(t, p, o.events, o.state, now, fl, th, h);
    }
  }

  lemma LogTells(
    t: Tracker, p: Story, evs: Trace, s: State, now: int, fl: GenericMap, th: TotalHash, h: Hash)
    requires Tells(t, p, evs, s, h) && !t.Filtered(fl) && TotalHashOf(t.lib, t.cfg, fl) == Some(th)
    ensures t.Emits(FlowLog) ==> Tells(t, p, evs + [Emit(th.hashTotal, now, FlowLog, false, fl)], s, h)
  {
    var e, q := Emit(th.hashTotal, now, FlowLog, false, fl), Retell(t, Some(p), evs, h).value;
    if t.Emits(FlowLog) {
      RetellOne(t, q, e, h);
      TellsConcat(t, p, evs, q, [e], s, h);
    }
  }

  lemma {:induction false} FlowsTell(t: Tracker, s: State, now: int, fls: seq<GenericMap>, h: Hash, p: Story)
    requires t.Valid() && Fits(t, s, h, p)
    ensures Tells(t, p, Flows(t, s, now, fls).events, Flows(t, s, now, fls).state, h)
  {
    if fls != [] {
      var o := Flows(t, s, now, fls[..|fls|-1]);
      FlowsTell(t, s, now, fls[..|fls|-1], h, p);
      var q := Retell(t, Some(p), o.events, h).value;
      FlowStepTells(t, o.state, now, fls[|fls|-1], h, q);
      var o' := FlowStep(t, o.state, now, fls[|fls|-1]);
      TellsConcat(t, p, o.events, q, o'.events, o'.state, h);
    }
  }

  // ----- expiry and heartbeats

  lemma CloseTells(t: Tracker, s: State, now: int, x: Hash, h: Hash, p: Story)
    requires t.Valid() && x in s && Fits(t, s, h, p)
    ensures Tells(t, p, CloseEvents(t, s[x], x, now), s - {x}, h)
  {
    var evs := CloseEvents(t, s[x], x, now);
    if h != x {
      OthersSilent(t, Some(p), evs, h);
    } else {
      ExportMeans(t, p.fls, s[x].conn);
      RetellOne(t, p, evs[0], h);
      if t.Emits(EndConnection) {
        RetellOne(t, p, evs[1], h);
        RetellConcat(t, Some(p), [evs[0]], [evs[1]], h);
        assert evs == [evs[0]] + [evs[1]];
      } else {
        assert evs == [evs[0]];
      }
    }
  }

  lemma {:induction false} PopTells(t: Tracker, s: State, now: int, hs: seq<Hash>, h: Hash, p: Story)
    requires t.Valid() && Fits(t, s, h, p) && NoDup(hs) && forall x :: x in hs ==> x in s
    ensures Tells(t, p, PopEvents(t, s, now, hs), s - Elems(hs), h)
  {
    if hs == [] {
      assert s - Elems(hs) == s;
    } else {
      var n := |hs| - 1;
      PopTells(t, s, now, hs[..n], h, p);
      WithoutLast(s, hs);
      var s1 := s - Elems(hs[..n]);
      var q := Retell(t, Some(p), PopEvents(t, s, now, hs[..n]), h).value;
      CloseTells(t, s1, now, hs[n], h, q);
      TellsConcat(t, p, PopEvents(t, s, now, hs[..n]), q, CloseEvents(t, s1[hs[n]], hs[n], now), s1 - {hs[n]}, h);
    }
  }

  /** Heartbeats tell nothing new. */
  lemma {:induction false} BeatTells(t: Tracker, s: State, now: int, hs: seq<Hash>, h: Hash, p: Story)
    requires t.Valid() && Fits(t, s, h, p) && (hs != [] ==> t.Emits(Heartbeat))
    ensures Retell(t, Some(p), BeatEvents(s, now, hs), h) == Some(p)
  {
    if hs != [] {
      var n := |hs| - 1;
      BeatTells(t, s, now, hs[..n], h, p);
      if hs[n] in s {
        OneBeatTells(t, s, now, hs[n], h, p);
        RetellConcat(t, Some(p), BeatEvents(s, now, hs[..n]), [Report(s[hs[n]], hs[n], now, Heartbeat)], h);
      } else {
        assert BeatEvents(s, now, hs) == BeatEvents(s, now, hs[..n]);
      }
    }
  }

  lemma OneBeatTells(t: Tracker, s: State, now: int, x: Hash, h: Hash, p: Story)
    requires t.Valid() && Fits(t, s, h, p) && t.Emits(Heartbeat) && x in s
    ensures Retell(t, Some(p), [Report(s[x], x, now, Heartbeat)], h) == Some(p)
  {
    if x == h {
      ExportMeans(t, p.fls, s[h].conn);
    }
    RetellOne(t, p, Report(s[x], x, now, Heartbeat), h);
  }

  lemma BeatFits(t: Tracker, s: State, now: int, hs: seq<Hash>, h: Hash, p: Story)
    requires Fits(t, s, h, p)
    ensures Fits(t, BeatState(t, s, now, hs), h, p)
  {
  }

  lemma BatchTells(t: Tracker, s: State, b: Batch, h: Hash, p: Story)
    requires t.Valid() && Fits(t, s, h, p) && LegalBatch(t, s, b)
    ensures Tells(t, p, BatchOutcome(t, s, b).events, BatchOutcome(t, s, b).state, h)
  {
    var o, s2 := AfterFlows(t, s, b), AfterPop(t, s, b);
    var pops, beats := PopEvents(t, o.state, b.now, b.popped), BeatEvents(s2, b.now, b.beats);
    FlowsTell(t, s, b.now, b.flows, h, p);
    var q := Retell(t, Some(p), o.events, h).value;
    forall x | x in b.popped ensures x in o.state {
      assert x in Elems(b.popped);
    }
    PopTells(t, o.state, b.now, b.popped, h, q);
    TellsConcat(t, p, o.events, q, pops, s2, h);
    var r := Retell(t, Some(p), o.events + pops, h).value;
    if b.beats != [] {
      assert b.beats[0] in Elems(b.beats);
    }
    BeatTells(t, s2, b.now, b.beats, h, r);
    BeatFits(t, s2, b.now, b.beats, h, r);
    TellsConcat(t, p, o.events + pops, r, beats, BatchOutcome(t, s, b).state, h);
  }

  /** In every run the events of every hash tell its story, and the state holds what the story tells: each connection
      and each record of one carries exactly what the flow logs of its lifetime brought. */
  lemma {:induction false} StoryOfRun(t: Tracker, hist: seq<Batch>, h: Hash)
    requires t.Valid() && Legal(t, hist)
    ensures Tells(t, Untracked, Run(t, hist).events, Run(t, hist).state, h)
  {
    if hist != [] {
      var n := |hist| - 1;
      var o := Run(t, hist[..n]);
      StoryOfRun(t, hist[..n], h);
      var q := Retell(t, Some(Untracked), o.events, h).value;
      BatchTells(t, o.state, hist[n], h, q);
      var o' := BatchOutcome(t, o.state, hist[n]);
      TellsConcat(t, Untracked, o.events, q, o'.events, o'.state, h);
    }
  }

  // ----- read off the trace

  /** The flow logs of the current lifetime of h, if there is one. */
  function Lifetime(evs: Trace, h: Hash): Option<seq<GenericMap>> {
    if evs == [] then None
    else
      var n := |evs| - 1;
      var before := Lifetime(evs[..n], h);
      if evs[n].h != h then before
      else match evs[n]
        case Opened(_, _, _) => Some([])
        case Seen(_, _, _, fl) => if before.Some? then Some(before.value + [fl]) else None
        case Emit(_, _, _, _, _) => before
        case Closed(_, _, _) => None
  }

  lemma {:induction false} RetoldLifetime(t: Tracker, evs: Trace, h: Hash)
    requires Retell(t, Some(Untracked), evs, h).Some?
    ensures Retell(t, Some(Untracked), evs, h).value ==
      match Lifetime(evs, h) case None => Untracked case Some(fls) => Told(fls)
  {
    if evs != [] {
      RetoldLifetime(t, evs[..|evs|-1], h);
    }
  }

  lemma {:induction false} RetoldPrefix(t: Tracker, evs: Trace, j: nat, h: Hash)
    requires j <= |evs| && Retell(t, Some(Untracked), evs, h).Some?
    ensures Retell(t, Some(Untracked), evs[..j], h).Some?
    decreases |evs| - j
  {
    if j < |evs| {
      RetoldPrefix(t, evs, j + 1, h);
      assert evs[..j+1][..j] == evs[..j];
    } else {
      assert evs[..j] == evs;
    }
  }

  /** In every run a tracked connection has received the flow logs of its lifetime, at least one, and its hash, its
      keys, its scheduling group and all its fields are what these flow logs say. */
  lemma TrackedMeans(t: Tracker, hist: seq<Batch>, h: Hash)
    requires t.Valid() && Legal(t, hist)
    ensures var (fls, s) := (Lifetime(Run(t, hist).events, h), Run(t, hist).state);
      && (h in s <==> fls.Some?)
      && (h in s ==> fls.value != [] && ConnMeans(t, fls.value, s[h].conn))
      && (h in s ==> IsFirstGroup(t, s[h].conn.keys, s[h].group))
  {
    StoryOfRun(t, hist, h);
    RetoldLifetime(t, Run(t, hist).events, h);
  }

  /** What an event is, after the flow logs that its hash has received in the current lifetime: a flow log received
      belongs to the connection, and a newConnection, heartbeat or endConnection record shows what these say. */
  predicate EventMeans(t: Tracker, fls: Option<seq<GenericMap>>, e: Event) {
    match e
    case Opened(_, _, _) => fls == None
    case Seen(h, _, fin, fl) =>
      fls.Some? && Belongs(t, fl, h) && (fin <==> t.cfg.tcpFlags.detectEndConnection && HasFin(t, fl))
    case Emit(h, _, kind, _, fields) =>
      && Enabled(t, kind)
      && if kind == FlowLog then IsTransport(t, fields) && HashesTo(t, fields, h) else RecordShows(t, fls, fields)
    case Closed(_, _, fields) => RecordShows(t, fls, fields)
  }

  predicate RecordShows(t: Tracker, fls: Option<seq<GenericMap>>, rec: GenericMap) {
    fls.Some? && fls.value != [] && RecordMeans(t, fls.value, rec)
  }

  lemma StepMeans(t: Tracker, p: Story, e: Event)
    requires StepStory(t, p, e).Some?
    ensures EventMeans(t, if p.Told? then Some(p.fls) else None, e)
  {
  }

  /** In every run each event of a hash is one that the flow logs of its lifetime so far allow. */
  lemma RecordsMean(t: Tracker, hist: seq<Batch>, j: nat)
    requires t.Valid() && Legal(t, hist) && j < |Run(t, hist).events|
    ensures var (evs, e) := (Run(t, hist).events, Run(t, hist).events[j]); EventMeans(t, Lifetime(evs[..j], e.h), e)
  {
    var evs := Run(t, hist).events;
    var h := evs[j].h;
    StoryOfRun(t, hist, h);
    EventRetold(t, evs, j, h);
  }

  lemma EventRetold(t: Tracker, evs: Trace, j: nat, h: Hash)
    requires j < |evs| && evs[j].h == h && Retell(t, Some(Untracked), evs, h).Some?
    ensures EventMeans(t, Lifetime(evs[..j], h), evs[j])
  {
    RetoldPrefix(t, evs, j, h);
    RetoldPrefix(t, evs, j + 1, h);
    RetoldLifetime(t, evs[..j], h);
    assert evs[..j+1][..j] == evs[..j];
    StepMeans(t, Retell(t, Some(Untracked), evs[..j], h).value, evs[j]);
  }

  // ----- every flow log that is accepted reaches its connection

  /** The flow logs received by connections along a trace, in order. */
  function SeenFlows(evs: Trace): seq<GenericMap> {
    if evs == [] then [] else
    var n := |evs| - 1;
    SeenFlows(evs[..n]) + (if evs[n].Seen? then [evs[n].fl] else [])
  }

  function FlowsAccepted(t: Tracker, s: State, now: int, fls: seq<GenericMap>): seq<GenericMap> {
    if fls == [] then [] else
    var n := |fls| - 1;
    FlowsAccepted(t, s, now, fls[..n])
      + (if Accepted(t, Flows(t, s, now, fls[..n]).state, fls[n]) then [fls[n]] else [])
  }

  /** The accepted flow logs of a history, in order. */
  function AllAccepted(t: Tracker, hist: seq<Batch>): seq<GenericMap> {
    if hist == [] then [] else
    var n := |hist| - 1;
    AllAccepted(t, hist[..n]) + FlowsAccepted(t, Run(t, hist[..n]).state, hist[n].now, hist[n].flows)
  }

  lemma {:induction false} SeenConcat(a: Trace, b: Trace)
    ensures SeenFlows(a + b) == SeenFlows(a) + SeenFlows(b)
  {
    if b == [] {
      assert a + b == a;
    } else {
      assert (a + b)[..|a + b|-1] == a + b[..|b|-1];
      SeenConcat(a, b[..|b|-1]);
    }
  }

  lemma SeenOne(e: Event)
    ensures SeenFlows([e]) == if e.Seen? then [e.fl] else []
  {
    assert [e][..0] == [];
  }

  lemma OpeningSeen(evs: Trace)
    requires 2 <= |evs| <= 3 && evs[0].Opened? && evs[1].Seen? && (|evs| == 3 ==> evs[2].Emit?)
    ensures SeenFlows(evs) == [evs[1].fl]
  {
    SeenOne(evs[0]);
    assert evs[..2] == [evs[0]] + [evs[1]] && evs[..2][..1] == [evs[0]];
    assert SeenFlows(evs[..2]) == [evs[1].fl];
    assert |evs| == 2 ==> evs == evs[..2];
  }

  lemma AdmitSeen(t: Tracker, s: State, now: int, fl: GenericMap, th: TotalHash)
    ensures SeenFlows(Admit(t, s, now, fl, th).events) == if th.hashTotal in s || !t.Full(s) then [fl] else []
  {
    var evs := Admit(t, s, now, fl, th).events;
    if th.hashTotal in s {
      SeenOne(evs[0]);
    } else if !t.Full(s) {
      OpeningSeen(evs);
    }
  }

  lemma LogUnseen(evs: Trace, e: Event)
    requires !e.Seen?
    ensures SeenFlows(evs + [e]) == SeenFlows(evs)
  {
    SeenOne(e);
    SeenConcat(evs, [e]);
    assert SeenFlows(evs) + [] == SeenFlows(evs);
  }

  lemma TakenSeen(t: Tracker, s: State, now: int, fl: GenericMap, th: TotalHash)
    ensures var o := if t.IsDuplicate(fl) then Outcome(s, []) else Admit(t, s, now, fl, th);
      var taken := !t.IsDuplicate(fl) && (th.hashTotal in s || !t.Full(s));
      && SeenFlows(o.events) == (if taken then [fl] else [])
      && SeenFlows(o.events + [Emit(th.hashTotal, now, FlowLog, false, fl)]) == if taken then [fl] else []
  {
    var o := if t.IsDuplicate(fl) then Outcome(s, []) else Admit(t, s, now, fl, th);
    if !t.IsDuplicate(fl) {
      AdmitSeen(t, s, now, fl, th);
    }
    LogUnseen(o.events, Emit(th.hashTotal, now, FlowLog, false, fl));
  }

  lemma StepSeen(t: Tracker, s: State, now: int, fl: GenericMap)
    ensures SeenFlows(FlowStep(t, s, now, fl).events) == if Accepted(t, s, fl) then [fl] else []
  {
    TransportOnly(t, s, fl);
    var th := TotalHashOf(t.lib, t.cfg, fl);
    if t.Filtered(fl) || th.None? {
      NothingStepped(t, s, now, fl);
    } else {
      TakenSeen(t, s, now, fl, th.value);
      StepIs(t, s, now, fl, th.value);
    }
  }

  lemma {:induction false} FlowsSeen(t: Tracker, s: State, now: int, fls: seq<GenericMap>)
    ensures SeenFlows(Flows(t, s, now, fls).events) == FlowsAccepted(t, s, now, fls)
  {
    if fls != [] {
      var n := |fls| - 1;
      var o := Flows(t, s, now, fls[..n]);
      FlowsSeen(t, s, now, fls[..n]);
      StepSeen(t, o.state, now, fls[n]);
      SeenConcat(o.events, FlowStep(t, o.state, now, fls[n]).events);
    }
  }

  lemma {:induction false} NoneSeen(evs: Trace)
    requires forall e :: e in evs ==> !e.Seen?
    ensures SeenFlows(evs) == []
  {
    if evs != [] {
      NoneSeen(evs[..|evs|-1]);
    }
  }

  lemma {:induction false} PopUnseen(t: Tracker, s: State, now: int, hs: seq<Hash>)
    ensures forall e :: e in PopEvents(t, s, now, hs) ==> !e.Seen?
  {
    if hs != [] {
      PopUnseen(t, s, now, hs[..|hs|-1]);
    }
  }

  lemma {:induction false} BeatUnseen(s: State, now: int, hs: seq<Hash>)
    ensures forall e :: e in BeatEvents(s, now, hs) ==> !e.Seen?
  {
    if hs != [] {
      BeatUnseen(s, now, hs[..|hs|-1]);
    }
  }

  /** The flow logs that connections received in a run are exactly the accepted ones, in order. */
  lemma {:induction false} EveryAccepted(t: Tracker, hist: seq<Batch>)
    ensures SeenFlows(Run(t, hist).events) == AllAccepted(t, hist)
  {
    if hist != [] {
      var n := |hist| - 1;
      var o, b := Run(t, hist[..n]), hist[n];
      EveryAccepted(t, hist[..n]);
      var f, p := AfterFlows(t, o.state, b), AfterPop(t, o.state, b);
      var pops, beats := PopEvents(t, f.state, b.now, b.popped), BeatEvents(p, b.now, b.beats);
      FlowsSeen(t, o.state, b.now, b.flows);
      PopUnseen(t, f.state, b.now, b.popped);
      BeatUnseen(p, b.now, b.beats);
      NoneSeen(pops);
      NoneSeen(beats);
      SeenConcat(f.events, pops);
      SeenConcat(f.events + pops, beats);
      SeenConcat(o.events, f.events + pops + beats);
    }
  }

  /** The flow logs that left a flowLog record along a trace. */
  function LoggedFlows(evs: Trace): seq<GenericMap> {
    if evs == [] then [] else
    var n := |evs| - 1;
    LoggedFlows(evs[..n]) + (if evs[n].Emit? && evs[n].kind == FlowLog then [evs[n].fields] else [])
  }

  /** The flow logs of a transport protocol that have a hash, duplicates included. */
  function Hashed(t: Tracker, fls: seq<GenericMap>): seq<GenericMap> {
    if fls == [] then [] else
    var n := |fls| - 1;
    Hashed(t, fls[..n])
      + (if IsTransport(t, fls[n]) && TotalHashOf(t.lib, t.cfg, fls[n]).Some? then [fls[n]] else [])
  }

  function AllHashed(t: Tracker, hist: seq<Batch>): seq<GenericMap> {
    if hist == [] then [] else AllHashed(t, hist[..|hist|-1]) + Hashed(t, hist[|hist|-1].flows)
  }

  lemma {:induction false} LoggedConcat(a: Trace, b: Trace)
    ensures LoggedFlows(a + b) == LoggedFlows(a) + LoggedFlows(b)
  {
    if b == [] {
      assert a + b == a;
    } else {
      assert (a + b)[..|a + b|-1] == a + b[..|b|-1];
      LoggedConcat(a, b[..|b|-1]);
    }
  }

  lemma {:induction false} NoneLogged(evs: Trace)
    requires forall e :: e in evs && e.Emit? ==> e.kind != FlowLog
    ensures LoggedFlows(evs) == []
  {
    if evs != [] {
      NoneLogged(evs[..|evs|-1]);
    }
  }

  lemma AdmitUnlogged(t: Tracker, s: State, now: int, fl: GenericMap, th: TotalHash)
    ensures LoggedFlows(Admit(t, s, now, fl, th).events) == []
  {
    NoneLogged(Admit(t, s, now, fl, th).events);
  }

  lemma TakenLogged(t: Tracker, s: State, now: int, fl: GenericMap, th: TotalHash)
    ensures var o := if t.IsDuplicate(fl) then Outcome(s, []) else Admit(t, s, now, fl, th);
      && LoggedFlows(o.events) == []
      && LoggedFlows(o.events + [Emit(th.hashTotal, now, FlowLog, false, fl)]) == [fl]
  {
    var o := if t.IsDuplicate(fl) then Outcome(s, []) else Admit(t, s, now, fl, th);
    if !t.IsDuplicate(fl) {
      AdmitUnlogged(t, s, now, fl, th);
    }
    LogLogged(o.events, Emit(th.hashTotal, now, FlowLog, false, fl));
  }

  lemma LogLogged(evs: Trace, e: Event)
    requires LoggedFlows(evs) == [] && e.Emit? && e.kind == FlowLog
    ensures LoggedFlows(evs + [e]) == [e.fields]
  {
    assert (evs + [e])[..|evs|] == evs;
  }

  lemma StepLogged(t: Tracker, s: State, now: int, fl: GenericMap)
    ensures LoggedFlows(FlowStep(t, s, now, fl).events) ==
      if Enabled(t, FlowLog) && IsTransport(t, fl) && TotalHashOf(t.lib, t.cfg, fl).Some? then [fl] else []
  {
    TransportOnly(t, s, fl);
    var th := TotalHashOf(t.lib, t.cfg, fl);
    if t.Filtered(fl) || th.None? {
      NothingStepped(t, s, now, fl);
    } else {
      TakenLogged(t, s, now, fl, th.value);
      StepIs(t, s, now, fl, th.value);
    }
  }

  lemma {:induction false} FlowsLogged(t: Tracker, s: State, now: int, fls: seq<GenericMap>)
    ensures LoggedFlows(Flows(t, s, now, fls).events) == if Enabled(t, FlowLog) then Hashed(t, fls) else []
  {
    if fls != [] {
      var n := |fls| - 1;
      var o := Flows(t, s, now, fls[..n]);
      FlowsLogged(t, s, now, fls[..n]);
      StepLogged(t, o.state, now, fls[n]);
      LoggedConcat(o.events, FlowStep(t, o.state, now, fls[n]).events);
    }
  }

  lemma {:induction false} PopUnlogged(t: Tracker, s: State, now: int, hs: seq<Hash>)
    ensures forall e :: e in PopEvents(t, s, now, hs) && e.Emit? ==> e.kind != FlowLog
  {
    if hs != [] {
      PopUnlogged(t, s, now, hs[..|hs|-1]);
    }
  }

  lemma {:induction false} BeatUnlogged(s: State, now: int, hs: seq<Hash>)
    ensures forall e :: e in BeatEvents(s, now, hs) && e.Emit? ==> e.kind != FlowLog
  {
    if hs != [] {
      BeatUnlogged(s, now, hs[..|hs|-1]);
    }
  }

  /** When enabled, every flow log of a transport protocol that has a hash leaves one flowLog record, in order. */
  lemma {:induction false} EveryLogged(t: Tracker, hist: seq<Batch>)
    ensures LoggedFlows(Run(t, hist).events) == if Enabled(t, FlowLog) then AllHashed(t, hist) else []
  {
    if hist != [] {
      var n := |hist| - 1;
      var o, b := Run(t, hist[..n]), hist[n];
      EveryLogged(t, hist[..n]);
      var f, p := AfterFlows(t, o.state, b), AfterPop(t, o.state, b);
      var pops, beats := PopEvents(t, f.state, b.now, b.popped), BeatEvents(p, b.now, b.beats);
      FlowsLogged(t, o.state, b.now, b.flows);
      PopUnlogged(t, f.state, b.now, b.popped);
      BeatUnlogged(p, b.now, b.beats);
      NoneLogged(pops);
      NoneLogged(beats);
      LoggedConcat(f.events, pops);
      LoggedConcat(f.events + pops, beats);
      LoggedConcat(o.events, f.events + pops + beats);
    }
  }

  // ----- conservation in each direction

  /** In every run a split sum field of a tracked connection holds under _AB the sum of the input over the flow logs of
      its lifetime that the end which opened it sent, and under _BA the sum over all the others. */
  lemma DirectionSums(t: Tracker, hist: seq<Batch>, h: Hash, of: OutputField)
    requires t.Valid() && Legal(t, hist) && h in Run(t, hist).state
    requires of in t.cfg.outputFields && of.operation == "sum" && of.splitAB
    ensures var (fls, m) := (Lifetime(Run(t, hist).events, h), Run(t, hist).state[h].conn.agg);
      && fls.Some? && fls.value != []
      && var origin := Origin(t, fls.value[0]);
      && Num(m, of.name + "_AB") == Total(AllBrought(t, of, SentBy(t, origin, true, fls.value)))
      && Num(m, of.name + "_BA") == Total(AllBrought(t, of, SentBy(t, origin, false, fls.value)))
  {
    TrackedMeans(t, hist, h);
    var i := IndexOf(t.cfg.outputFields, of);
    assert of.operation == OperationName(Sum);
  }

  /** The flow log that opens a connection without exchanging its ends goes forth, and its mirror goes back, unless both
      ends hash alike; with the ends exchanged it is the other way round. */
  lemma OpeningSide(t: Tracker, fl: GenericMap)
    requires t.Valid() && Bidirectional(t.cfg) && EndpointA(t, fl) != EndpointB(t, fl)
    ensures var (exchanged, both) := (t.cfg.tcpFlags.swapAB && HasSynAck(t, fl), [fl, Mirror(t.cfg, fl)]);
      && SentBy(t, Origin(t, fl), true, both) == [if exchanged then Mirror(t.cfg, fl) else fl]
      && SentBy(t, Origin(t, fl), false, both) == [if exchanged then fl else Mirror(t.cfg, fl)]
  {
    MirrorEndpoints(t.lib, t.cfg, fl);
    var both := [fl, Mirror(t.cfg, fl)];
    assert both[..1] == [fl] && both[..1][..0] == [];
    forall forth ensures SentBy(t, Origin(t, fl), forth, both[..1])
      == if (EndpointA(t, fl) == Origin(t, fl)) == forth then [fl] else []
    {
      assert [] + [fl] == [fl];
    }
    assert [] + [Mirror(t.cfg, fl)] == [Mirror(t.cfg, fl)];
  }
}
