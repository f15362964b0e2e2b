/** The tracker itself (conntrack.go): Extract over a batch of flow logs, refining one batch of the reference run. */
module ConnTrackExtract {
  import opened Common
  import opened ConnTrackHash
  import opened ConnTrackConn
  import opened ConnTrackSpec
  import opened ConnTrackFlowLogs
  import opened ConnTrackView
  import opened ConnTrackStore
  import opened ConnTrackConservation
  import opened ConnTrackBalance
  import opened ConnTrackStories

  /** Every connection has all aggregate fields, numbers in the numeric ones. */
  predicate FieldsReady(t: Tracker, s: State) {
    forall h :: h in s ==> AllReady(t.aggs, s[h].conn.agg)
  }

  lemma TouchReady(t: Tracker, e: Entry, now: int, fl: GenericMap, th: TotalHash, isNew: bool)
    requires t.Valid() && AllReady(t.aggs, e.conn.agg)
    ensures AllReady(t.aggs, Touch(t, e, now, fl, th, isNew).conn.agg)
  {
    AggregatorsSound(t);
    assert t.aggs[..|t.aggs|] == t.aggs;
    AllUpdatesKeepReady(t.lib, t.aggs, |t.aggs|, e.conn.agg, fl, DirectionOf(t.cfg, e.conn.hash, th), isNew);
  }

  lemma ReadyForNext(t: Tracker, i: nat, m: GenericMap, fl: GenericMap, d: Direction, isNew: bool)
    requires t.Valid() && AllReady(t.aggs, m) && i < |t.aggs| && (d == NA <==> t.cfg.hash.aRef == "")
    ensures Ready(t.aggs[i], AllUpdated(t.lib, t.aggs[..i], m, fl, d, isNew))
    ensures t.aggs[i].splitAB ==> d != NA
  {
    AggregatorsSound(t);
    assert t.aggs[i] in t.aggs;
    AllUpdatesKeepReady(t.lib, t.aggs, i, m, fl, d, isNew);
  }

  lemma NextUpdate(lib: Lib, aggs: seq<Aggregator>, i: nat, m: GenericMap, fl: GenericMap, d: Direction, isNew: bool)
    requires i < |aggs|
    ensures AllUpdated(lib, aggs[..i+1], m, fl, d, isNew)
      == AggUpdated(lib, aggs[i], AllUpdated(lib, aggs[..i], m, fl, d, isNew), fl, d, isNew)
  {
    assert aggs[..i+1][..i] == aggs[..i];
  }

  /** The aggregator loop of updateConnection. */
  method UpdateAggregates(t: Tracker, conn: Conn, fl: GenericMap, d: Direction, isNew: bool) returns (m: GenericMap)
    requires t.Valid() && AllReady(t.aggs, conn.agg) && (d == NA <==> t.cfg.hash.aRef == "")
    ensures m == AllUpdated(t.lib, t.aggs, conn.agg, fl, d, isNew)
  {
    m := conn.agg;
    for i := 0 to |t.aggs|
      invariant m == AllUpdated(t.lib, t.aggs[..i], conn.agg, fl, d, isNew)
    {
      ReadyForNext(t, i, conn.agg, fl, d, isNew);
      NextUpdate(t.lib, t.aggs, i, conn.agg, fl, d, isNew);
      m := UpdateAggregate(t.lib, t.aggs[i], m, fl, d, isNew);
    }
    assert t.aggs[..|t.aggs|] == t.aggs;
  }

  lemma {:induction false} EventOfRecord(evs: Trace, k: nat) returns (j: nat)
    requires k < |RecordsOf(evs)|
    ensures j < |evs| && evs[j].Emit? && RecordsOf(evs)[k] == RecordOf(evs[j])
  {
    var n := |evs| - 1;
    if k < |RecordsOf(evs[..n])| {
      j := EventOfRecord(evs[..n], k);
    } else {
      j := n;
    }
  }

  lemma OneMoreBatch(t: Tracker, history: seq<Batch>, b: Batch)
    requires Legal(t, history) && LegalBatch(t, Run(t, history).state, b)
    requires history != [] ==> history[|history|-1].now <= b.now
    ensures Legal(t, history + [b])
    ensures var o, o' := Run(t, history), BatchOutcome(t, Run(t, history).state, b);
      && Run(t, history + [b]).state == o'.state
      && RecordsOf(Run(t, history + [b]).events) == RecordsOf(o.events) + RecordsOf(o'.events)
    ensures (history + [b])[..|history|] == history
  {
    assert (history + [b])[..|history|] == history;
    var o := Run(t, history);
    RecordsConcat(o.events, BatchOutcome(t, o.state, b).events);
  }

  class ConnTrackImpl {
    const t: Tracker
    const store: ConnectionStore
    ghost var history: seq<Batch>
    /** All records returned so far. */
    ghost var returned: seq<Record>

    /** The store holds what the reference run of the history so far holds, in sorted lists. */
    ghost predicate Valid()
      reads this, store, store.moms
    {
      && t.Valid() && store.t == t && store.Valid() && FieldsReady(t, store.view.entries)
      && Legal(t, history) && store.view.entries == Run(t, history).state
      && returned == RecordsOf(Run(t, history).events)
      && (history == [] ==> store.view == EmptyView(|store.groups|))
      && (history != [] ==> Ordered(t, store.view, history[|history|-1].now))
    }

    /** NewConnectionTrack, given a configuration that Validate and the aggregator constructor accept. */
    constructor (t: Tracker)
      requires t.Valid()
      ensures Valid() && this.t == t && history == [] && returned == []
      ensures fresh(store) && fresh(store.moms)
    {
      this.t := t;
      store := new ConnectionStore(t);
      history, returned := [], [];
    }

    /** What a reader of the output can check, if endConnection records are enabled: for every sum field that is not a
        key field, the endConnection records returned so far and the tracked connections together hold the input. */
    lemma Balance(i: nat)
      requires Valid() && IsSumField(t, i) && Enabled(t, EndConnection)
      ensures Tracked(t.aggs[i], store.view.entries) + EndedInRecords(t.aggs[i], returned)
           == TotalInput(t, t.aggs[i], history)
    {
      RecordsBalance(t, i, history);
    }

    /** Every connection tracked by a reachable tracker holds what the flow logs of its lifetime say. */
    lemma HoldsItsFlows(h: Hash)
      requires Valid() && h in store.view.entries
      ensures var fls := Lifetime(Run(t, history).events, h);
        fls.Some? && fls.value != [] && ConnMeans(t, fls.value, store.view.entries[h].conn)
    {
      TrackedMeans(t, history, h);
    }

    /** Every record returned by a reachable tracker is of an enabled type, and unless it is a flow log it shows what
        the flow logs of the lifetime say that its connection had received by then. */
    lemma ReturnedMeans(k: nat)
      requires Valid() && k < |returned|
      ensures Enabled(t, returned[k].kind)
      ensures returned[k].kind != FlowLog ==>
        exists j: nat, fls | j <= |Run(t, history).events| && fls != [] ::
          Lifetime(Run(t, history).events[..j], returned[k].h) == Some(fls) && RecordMeans(t, fls, returned[k].fields)
    {
      var j := EventOfRecord(Run(t, history).events, k);
      RecordsMean(t, history, j);
    }

    lemma OrderedNow(now: int)
      requires Valid() && (history != [] ==> history[|history|-1].now <= now)
      ensures Ordered(t, store.view, now)
    {
      if history == [] {
        assert forall g, b :: 0 <= g < |store.view.active| ==> store.view.At(g, b) == Lists([], []);
      }
    }

    method UpdateConnection(h: Hash, fl: GenericMap, th: TotalHash, now: int, isNew: bool)
      requires t.Valid() && store.t == t && store.Valid() && h == th.hashTotal && h in store.view.entries
      requires AllReady(t.aggs, store.view.entries[h].conn.agg)
      modifies store, store.moms
      ensures store.Valid() && old(store.view).Tracks(h)
      ensures store.view == Touched(t, old(store.view), h, now, fl, th, isNew)
    {
      var conn, _ := store.GetConnection(h);
      var d := DirectionOf(t.cfg, conn.value.hash, th);
      var m := UpdateAggregates(t, conn.value, fl, d, isNew);
      store.SetConnection(h, conn.value.(agg := m));
      if t.EndsConnection(fl) {
        store.SetConnectionTerminating(h, now);
      } else {
        store.UpdateConnectionExpiryTime(h, now);
      }
    }

    /** What one step of Extract starts from and leaves behind. */
    ghost predicate Sound(now: int)
      reads this, store, store.moms
    {
      t.Valid() && store.t == t && store.Valid() && Ordered(t, store.view, now) && FieldsReady(t, store.view.entries)
    }

    /** A flow log of an unknown connection, when there is room: built, stored, scheduled, updated. */
    method OpenConnection(fl: GenericMap, th: TotalHash, now: int)
      requires Sound(now) && th.hashTotal !in store.view.entries
      modifies store, store.moms
      ensures Sound(now)
      ensures store.view.entries ==
        old(store.view.entries)[th.hashTotal := Touch(t, NewEntry(t, now, fl, th), now, fl, th, true)]
    {
      var h := th.hashTotal;
      var conn := BuildConnection(t.cfg, t.aggs, fl, th, t.SwapsEndpoints(fl));
      store.AddConnection(h, conn);
      store.UpdateNextHeartbeatTime(h, now);
      OpeningView(t, old(store.view), conn, now, fl, th);
      UpdateConnection(h, fl, th, now, true);
    }

    /** toGenericMap, the meta fields, and markReported. */
    method ReportConnection(h: Hash, kind: Kind, now: int) returns (record: Record)
      requires Sound(now) && h in store.view.entries && kind != FlowLog
      modifies store, store.moms
      ensures Sound(now)
      ensures record == RecordOf(Report(old(store.view.entries)[h], h, now, kind))
      ensures store.view.entries == old(store.view.entries)[h := Reported(old(store.view.entries)[h])]
    {
      var conn, _ := store.GetConnection(h);
      var fields := ToGenericMap(conn.value);
      record := Record(kind, h, Some(!conn.value.reported), fields);
      ReportedView(t, store.view, h, now);
      store.SetConnection(h, conn.value.(reported := true));
    }

    /** The body of Extract for a flow log that is neither filtered, rejected nor duplicate. */
    method AdmitFlow(fl: GenericMap, th: TotalHash, now: int) returns (records: seq<Record>)
      requires Sound(now)
      modifies store, store.moms
      ensures Sound(now)
      ensures store.view.entries == Admit(t, old(store.view.entries), now, fl, th).state
      ensures records == RecordsOf(Admit(t, old(store.view.entries), now, fl, th).events)
    {
      ghost var s := store.view.entries;
      AdmitRecords(t, s, now, fl, th);
      records := [];
      var conn, _ := store.GetConnection(th.hashTotal);
      if conn.Some? {
        TouchExisting(th.hashTotal, now, fl, th);
        UpdateConnection(th.hashTotal, fl, th, now, false);
      } else {
        assert |store.hashID2groupIdx.Keys| == |s.Keys|;
        if !(t.cfg.maxConnectionsTracked > 0 && store.Len() >= t.cfg.maxConnectionsTracked) {
          OpenConnection(fl, th, now);
          if t.Emits(NewConnection) {
            ghost var e := store.view.entries[th.hashTotal];
            UpdateTwice(s, th.hashTotal, e, Reported(e));
            var record := ReportConnection(th.hashTotal, NewConnection, now);
            records := [record];
          }
        }
      }
    }

    /** One iteration of the loop of Extract. */
    method ExtractFlow(fl: GenericMap, now: int) returns (records: seq<Record>)
      requires Sound(now)
      modifies store, store.moms
      ensures Sound(now)
      ensures store.view.entries == FlowStep(t, old(store.view.entries), now, fl).state
      ensures records == RecordsOf(FlowStep(t, old(store.view.entries), now, fl).events)
    {
      if t.Filtered(fl) {
        return [];
      }
      var computedHash := ComputeHash(t.lib, t.cfg, fl);
      if computedHash.None? {
        return [];
      }
      ghost var o := if t.IsDuplicate(fl) then Outcome(store.view.entries, [])
                     else Admit(t, store.view.entries, now, fl, computedHash.value);
      records := [];
      if !t.IsDuplicate(fl) {
        records := AdmitFlow(fl, computedHash.value, now);
      }
      assert records == RecordsOf(o.events);
      if t.Emits(FlowLog) {
        ghost var e := Emit(computedHash.value.hashTotal, now, FlowLog, false, fl);
        RecordsOfOne(o.events, e);
        records := records + [Record(FlowLog, computedHash.value.hashTotal, None, fl)];
      }
    }

    method ExtractFlows(flowLogs: seq<GenericMap>, now: int) returns (records: seq<Record>)
      requires Sound(now)
      modifies store, store.moms
      ensures Sound(now)
      ensures store.view.entries == Flows(t, old(store.view.entries), now, flowLogs).state
      ensures records == RecordsOf(Flows(t, old(store.view.entries), now, flowLogs).events)
    {
      ghost var s := store.view.entries;
      records := [];
      for i := 0 to |flowLogs|
        invariant Sound(now)
        invariant store.view.entries == Flows(t, s, now, flowLogs[..i]).state
        invariant records == RecordsOf(Flows(t, s, now, flowLogs[..i]).events)
      {
        assert flowLogs[..i+1][..i] == flowLogs[..i];
        ghost var o := Flows(t, s, now, flowLogs[..i]);
        var more := ExtractFlow(flowLogs[i], now);
        RecordsConcat(o.events, FlowStep(t, o.state, now, flowLogs[i]).events);
        records := records + more;
      }
      assert flowLogs[..|flowLogs|] == flowLogs;
    }

    /** popEndConnections: the records are produced only if they are to be emitted. */
    method PopEndConnections(now: int) returns (records: seq<Record>, ghost hs: seq<Hash>)
      requires Sound(now)
      modifies store, store.moms
      ensures Sound(now)
      ensures Enumerates(hs, Expired(old(store.view.entries), now)) && InPopOrder(old(store.view.entries), hs)
      ensures store.view.entries == old(store.view.entries) - Elems(hs)
      ensures records == RecordsOf(PopEvents(t, old(store.view.entries), now, hs))
    {
      ghost var s := store.view.entries;
      var connections;
      connections, hs := store.PopEndConnections(now);
      records := EndRecords(t, connections, s, hs, now);
    }

    /** prepareHeartbeatRecords. */
    method PrepareHeartbeatRecords(now: int) returns (records: seq<Record>, hs: seq<Hash>)
      requires Sound(now)
      modifies store, store.moms
      ensures Sound(now)
      ensures Enumerates(hs, Due(old(store.view.entries), now)) && InBeatOrder(old(store.view.entries), hs)
      ensures store.view.entries == BeatState(t, old(store.view.entries), now, hs)
      ensures records == RecordsOf(BeatEvents(old(store.view.entries), now, hs))
    {
      ghost var s := store.view.entries;
      hs := store.PrepareHeartbeats(now);
      ReportingEnds(t, s, now, hs);
      records := [];
      for i := 0 to |hs|
        invariant Sound(now) && store.view.entries == Reporting(t, s, now, hs, i)
        invariant records == RecordsOf(BeatEvents(s, now, hs[..i]))
      {
        assert hs[i] in Elems(hs);
        ReportingStep(t, s, now, hs, i);
        var record := ReportConnection(hs[i], Heartbeat, now);
        records := records + [record];
      }
    }

    /** The body of Extract: one legal batch. */
    method RunBatch(flowLogs: seq<GenericMap>, now: int) returns (outputRecords: seq<Record>, ghost b: Batch)
      requires Sound(now)
      modifies store, store.moms
      ensures Sound(now) && b.now == now && b.flows == flowLogs && LegalBatch(t, old(store.view.entries), b)
      ensures store.view.entries == BatchOutcome(t, old(store.view.entries), b).state
      ensures outputRecords == RecordsOf(BatchOutcome(t, old(store.view.entries), b).events)
    {
      ghost var s := store.view.entries;
      outputRecords := ExtractFlows(flowLogs, now);
      var ended, hs := PopEndConnections(now);
      NoBeats(t, store.view.entries, now);
      outputRecords := outputRecords + ended;
      var beats: seq<Hash> := [];
      if t.Emits(Heartbeat) {
        var heartbeats;
        heartbeats, beats := PrepareHeartbeatRecords(now);
        outputRecords := outputRecords + heartbeats;
      }
      b := Batch(now, flowLogs, hs, beats);
      BatchRecords(t, s, b);
    }

    /** Extract: the history grows by one batch, and the output is exactly the records of its events. */
    method Extract(flowLogs: seq<GenericMap>, now: int) returns (outputRecords: seq<Record>)
      requires Valid() && (history != [] ==> history[|history|-1].now <= now)
      modifies this, store, store.moms
      ensures Valid() && |history| == |old(history)| + 1 && history[..|old(history)|] == old(history)
      ensures var b := history[|old(history)|];
        && b.now == now && b.flows == flowLogs
        && outputRecords == RecordsOf(BatchOutcome(t, Run(t, old(history)).state, b).events)
      ensures returned == old(returned) + outputRecords
    {
      OrderedNow(now);
      ghost var b, before := *, history;
      outputRecords, b := RunBatch(flowLogs, now);
      OneMoreBatch(t, before, b);
      history, returned := history + [b], returned + outputRecords;
    }

    lemma TouchExisting(h: Hash, now: int, fl: GenericMap, th: TotalHash)
      requires Sound(now) && h in store.view.entries
      ensures store.view.Tracks(h)
      ensures Ordered(t, Touched(t, store.view, h, now, fl, th, false), now)
      ensures FieldsReady(t, Touched(t, store.view, h, now, fl, th, false).entries)
      ensures Touched(t, store.view, h, now, fl, th, false).entries ==
        store.view.entries[h := Touch(t, store.view.entries[h], now, fl, th, false)]
    {
      TouchedOrdered(t, store.view, h, now, fl, th, false, store.view.entries);
      TouchedEntries(t, store.view, h, now, fl, th, false);
      TouchReady(t, store.view.entries[h], now, fl, th, false);
    }
  }

  lemma NewEntryReady(t: Tracker, now: int, fl: GenericMap, th: TotalHash)
    requires t.Valid()
    ensures AllReady(t.aggs, NewEntry(t, now, fl, th).conn.agg)
  {
    AggregatorsSound(t);
    InitFieldsReady(t.aggs);
  }

  lemma ReportedView(t: Tracker, v: View, h: Hash, now: int)
    requires Ordered(t, v, now) && FieldsReady(t, v.entries) && h in v.entries
    ensures var v' := v.SetConn(h, v.entries[h].conn.(reported := true));
      Ordered(t, v', now) && FieldsReady(t, v'.entries) && v'.entries == v.entries[h := Reported(v.entries[h])]
  {
    SetConnOrdered(t, v, h, v.entries[h].conn.(reported := true), v.entries);
  }

  lemma RecordsOfOne(evs: Trace, e: Event)
    requires e.Emit?
    ensures RecordsOf(evs + [e]) == RecordsOf(evs) + [RecordOf(e)]
  {
    assert (evs + [e])[..|evs|] == evs;
  }

  lemma BatchRecords(t: Tracker, s: State, b: Batch)
    ensures var o := AfterFlows(t, s, b);
      RecordsOf(BatchOutcome(t, s, b).events) == RecordsOf(o.events) +
        RecordsOf(PopEvents(t, o.state, b.now, b.popped)) + RecordsOf(BeatEvents(AfterPop(t, s, b), b.now, b.beats))
  {
    var o := AfterFlows(t, s, b);
    RecordsConcat(o.events, PopEvents(t, o.state, b.now, b.popped));
    RecordsConcat(o.events + PopEvents(t, o.state, b.now, b.popped), BeatEvents(AfterPop(t, s, b), b.now, b.beats));
  }

  lemma NoBeats(t: Tracker, s: State, now: int)
    ensures BeatState(t, s, now, []) == s && BeatEvents(s, now, []) == [] && Enumerates([], {}) && InBeatOrder(s, [])
  {
  }

  /** The record loop of popEndConnections. */
  method EndRecords(t: Tracker, connections: seq<Conn>, ghost s: State, ghost hs: seq<Hash>, now: int)
    returns (records: seq<Record>)
    requires Scanned(s, hs, |hs|, connections, now)
    requires forall h :: h in s ==> s[h].conn.hash.hashTotal == h
    ensures records == RecordsOf(PopEvents(t, s, now, hs))
  {
    records := [];
    for i := 0 to |connections|
      invariant records == RecordsOf(PopEvents(t, s, now, hs[..i]))
    {
      assert hs[..i+1][..i] == hs[..i];
      CloseRecords(t, PopEvents(t, s, now, hs[..i]), s[hs[i]], hs[i], now);
      var fields := ToGenericMap(connections[i]);
      if t.Emits(EndConnection) {
        records := records + [Record(EndConnection, connections[i].hash.hashTotal, Some(!connections[i].reported),
          fields)];
      }
    }
    assert hs[..|hs|] == hs;
  }

  lemma CloseRecords(t: Tracker, evs: Trace, e: Entry, h: Hash, now: int)
    ensures RecordsOf(evs + CloseEvents(t, e, h, now)) ==
      RecordsOf(evs) + if t.Emits(EndConnection) then [RecordOf(Report(e, h, now, EndConnection))] else []
  {
    var c := CloseEvents(t, e, h, now);
    RecordsConcat(evs, c);
    var last := c[|c|-1];
    assert [last][..0] == [] && RecordsOf([last]) == [];
    if t.Emits(EndConnection) {
      RecordsConcat([c[0]], [last]);
      assert c == [c[0]] + [last];
      RecordsOfOne([], c[0]);
      assert [] + [c[0]] == [c[0]];
    }
  }

  /** Heartbeats re-armed for all of hs, reported for the first i. */
  function Reporting(t: Tracker, s: State, now: int, hs: seq<Hash>, i: nat): State
    requires i <= |hs|
  {
    map h | h in s :: if h in hs[..i] then Beaten(t, s[h], now) else Rearmed(t, s, now, hs)[h]
  }

  lemma ReportingEnds(t: Tracker, s: State, now: int, hs: seq<Hash>)
    requires FieldsReady(t, s)
    ensures Reporting(t, s, now, hs, 0) == Rearmed(t, s, now, hs)
    ensures Reporting(t, s, now, hs, |hs|) == BeatState(t, s, now, hs)
    ensures FieldsReady(t, Rearmed(t, s, now, hs))
    ensures hs[..|hs|] == hs
  {
  }

  lemma ReportingStep(t: Tracker, s: State, now: int, hs: seq<Hash>, i: nat)
    requires i < |hs| && NoDup(hs) && hs[i] in s
    ensures var r, h := Reporting(t, s, now, hs, i), hs[i];
      && h in r && Reporting(t, s, now, hs, i + 1) == r[h := Reported(r[h])]
      && RecordsOf(BeatEvents(s, now, hs[..i+1])) ==
         RecordsOf(BeatEvents(s, now, hs[..i])) + [RecordOf(Report(r[h], h, now, Heartbeat))]
  {
    assert hs[..i+1] == hs[..i] + [hs[i]];
    RecordsOfOne(BeatEvents(s, now, hs[..i]), Report(s[hs[i]], hs[i], now, Heartbeat));
    assert hs[..i+1][..i] == hs[..i];
    assert hs[i] !in hs[..i] && hs[i] in hs;
  }

  lemma UpdateTwice(s: State, h: Hash, a: Entry, b: Entry)
    ensures s[h := a][h := b] == s[h := b]
  {
  }

  /** Opening a connection in the store, step by step, is one step of the reference behaviour. */
  lemma OpeningView(t: Tracker, v: View, c: Conn, now: int, fl: GenericMap, th: TotalHash)
    requires t.Valid() && Ordered(t, v, now) && FieldsReady(t, v.entries)
    requires th.hashTotal !in v.entries && t.GroupOf(c.keys) < |v.active|
    requires var swap := t.SwapsEndpoints(fl);
      c == Conn(ConnHash(th, swap), KeysOf(t.cfg, fl, swap), InitFields(t.aggs), 0, 0, false)
    ensures var h := th.hashTotal;
      var v1 := v.Added(h, Entry(c, t.GroupOf(c.keys), false)).Rescheduled(t, h, now);
      && v1.Tracks(h) && AllReady(t.aggs, v1.entries[h].conn.agg)
      && Ordered(t, Touched(t, v1, h, now, fl, th, true), now)
      && FieldsReady(t, Touched(t, v1, h, now, fl, th, true).entries)
      && Touched(t, v1, h, now, fl, th, true).entries ==
         v.entries[h := Touch(t, NewEntry(t, now, fl, th), now, fl, th, true)]
  {
    var h, e := th.hashTotal, NewEntry(t, now, fl, th);
    var v1 := v.Added(h, Entry(c, t.GroupOf(c.keys), false)).Rescheduled(t, h, now);
    OpenedOrdered(t, v, h, c, t.GroupOf(c.keys), now);
    assert v1.entries == v.entries[h := e];
    EnteredTouched(t, v.entries, v1, now, fl, th);
  }

  lemma EnteredTouched(t: Tracker, s: State, v: View, now: int, fl: GenericMap, th: TotalHash)
    requires t.Valid() && Coherent(v) && Timely(t, s, now) && FieldsReady(t, s)
    requires var h := th.hashTotal; h !in s && v.entries == s[h := NewEntry(t, now, fl, th)] && v.Tracks(h)
    requires ExpiryOrdered(v, v.entries - {th.hashTotal}) && HeartbeatOrdered(v, v.entries)
    ensures var h := th.hashTotal;
      && AllReady(t.aggs, v.entries[h].conn.agg)
      && Ordered(t, Touched(t, v, h, now, fl, th, true), now)
      && FieldsReady(t, Touched(t, v, h, now, fl, th, true).entries)
      && Touched(t, v, h, now, fl, th, true).entries == s[h := Touch(t, NewEntry(t, now, fl, th), now, fl, th, true)]
  {
    var h, e := th.hashTotal, NewEntry(t, now, fl, th);
    NewEntryReady(t, now, fl, th);
    assert v.entries - {h} == s;
    TouchedOrdered(t, v, h, now, fl, th, true, s);
    TouchedEntries(t, v, h, now, fl, th, true);
    TouchReady(t, e, now, fl, th, true);
    UpdateTwice(s, h, e, Touch(t, e, now, fl, th, true));
  }

  lemma AdmitRecords(t: Tracker, s: State, now: int, fl: GenericMap, th: TotalHash)
    ensures RecordsOf(Admit(t, s, now, fl, th).events) ==
      if th.hashTotal in s || t.Full(s) || !t.Emits(NewConnection) then []
      else [RecordOf(Report(Touch(t, NewEntry(t, now, fl, th), now, fl, th, true), th.hashTotal, now, NewConnection))]
  {
    var evs := Admit(t, s, now, fl, th).events;
    if th.hashTotal in s {
      NoRecord(evs[0]);
    } else if !t.Full(s) {
      RecordsOfOpening(evs);
    }
  }

  lemma NoRecord(e: Event)
    requires !e.Emit?
    ensures RecordsOf([e]) == []
  {
    assert [e][..0] == [];
  }

  lemma RecordsOfOpening(evs: Trace)
    requires 2 <= |evs| <= 3 && !evs[0].Emit? && !evs[1].Emit? && (|evs| == 3 ==> evs[2].Emit?)
    ensures RecordsOf(evs) == if |evs| == 3 then [RecordOf(evs[2])] else []
  {
    var two := [evs[0], evs[1]];
    NoRecord(evs[0]);
    assert two[..1] == [evs[0]] && evs[..2] == two;
    assert RecordsOf(two) == RecordsOf([evs[0]]) + [];
  }
}
