/** Reference behaviour of connection tracking: a map from hash to connection, with no lists.
    A run is a history of batches; its trace records openings, updates, closings and emitted records. */
module ConnTrackSpec {
  import opened Common
  import opened ConnTrackConfig
  import opened ConnTrackHash
  import opened ConnTrackConn

  const FIN_FLAG: bv32 := 0x01
  const SYN_ACK_FLAG: bv32 := 0x100

  datatype Tracker = Tracker(lib: Lib, cfg: ConnTrack, aggs: seq<Aggregator>) {
    predicate Emits(kind: Kind) { KindName(kind) in cfg.outputRecordTypes }

    function Scheduling(g: nat): SchedulingGroup {
      if g < |cfg.scheduling| then cfg.scheduling[g] else SchedulingGroup(map[], 0, 0, 0)
    }

    predicate HasFlag(fl: GenericMap, flag: bv32) {
      cfg.tcpFlags.fieldName in fl &&
      match lib.toUint32(fl[cfg.tcpFlags.fieldName])
      case None => false
      case Some(flags) => flags & flag == flag
    }

    predicate EndsConnection(fl: GenericMap) { cfg.tcpFlags.detectEndConnection && HasFlag(fl, FIN_FLAG) }

    predicate SwapsEndpoints(fl: GenericMap) { cfg.tcpFlags.swapAB && HasFlag(fl, SYN_ACK_FLAG) }

    /** Neither TCP, UDP nor SCTP. */
    predicate Filtered(fl: GenericMap) {
      cfg.protoFieldName !in fl ||
      match lib.toFloat(fl[cfg.protoFieldName])
      case None => true
      case Some(proto) => proto != 6.0 && proto != 17.0 && proto != 132.0
    }

    predicate IsDuplicate(fl: GenericMap) {
      cfg.duplicateFieldName in fl && lib.toBool(fl[cfg.duplicateFieldName]).GetOr(false)
    }

    predicate Full(s: State) { cfg.maxConnectionsTracked > 0 && |s| >= cfg.maxConnectionsTracked }

    /** Scheduling group of a connection: the first whose selector matches its keys. */
    function GroupOf(keys: GenericMap): nat { FirstMatch(keys, 0) }

    function FirstMatch(keys: GenericMap, from: nat): nat
      decreases |cfg.scheduling| - from
    {
      if from >= |cfg.scheduling| || SelectorMatches(lib, keys, cfg.scheduling[from].selector) then from
      else FirstMatch(keys, from + 1)
    }

    /** A validated configuration, its aggregators, and durations that are not negative. */
    predicate Valid() {
      && ValidConfig(cfg)
      && |aggs| == |cfg.outputFields|
      && (forall i :: 0 <= i < |aggs| ==> NewAggregator(cfg.outputFields[i]) == Some(aggs[i]))
      && forall g :: g in cfg.scheduling ==>
           g.endConnectionTimeout >= 0 && g.terminatingTimeout >= 0 && g.heartbeatInterval >= 0
    }
  }

  datatype Kind = FlowLog | NewConnection | EndConnection | Heartbeat

  function KindName(k: Kind): string {
    match k
    case FlowLog => "flowLog"
    case NewConnection => "newConnection"
    case EndConnection => "endConnection"
    case Heartbeat => "heartbeat"
  }

  datatype Entry = Entry(conn: Conn, group: nat, terminating: bool)
  type State = map<Hash, Entry>

  datatype Event =
    | Opened(h: Hash, now: int, group: nat)
    | Seen(h: Hash, now: int, fin: bool, fl: GenericMap)
    | Emit(h: Hash, now: int, kind: Kind, isFirst: bool, fields: GenericMap)
    | Closed(h: Hash, now: int, fields: GenericMap)
  type Trace = seq<Event>

  datatype Outcome = Outcome(state: State, events: Trace)

  // ----- one flow log

  /** A flow log reaches a tracked connection: aggregates always move, the deadline only until a FIN. */
  function Touch(t: Tracker, e: Entry, now: int, fl: GenericMap, th: TotalHash, isNew: bool): Entry {
    var fin := t.EndsConnection(fl);
    var g := t.Scheduling(e.group);
    var d := DirectionOf(t.cfg, e.conn.hash, th);
    var c := e.conn.(agg := AllUpdated(t.lib, t.aggs, e.conn.agg, fl, d, isNew));
    if e.terminating then e.(conn := c)
    else Entry(c.(expiry := now + if fin then g.terminatingTimeout else g.endConnectionTimeout), e.group, fin)
  }

  function NewEntry(t: Tracker, now: int, fl: GenericMap, th: TotalHash): Entry {
    var swap := t.SwapsEndpoints(fl);
    var keys := KeysOf(t.cfg, fl, swap);
    var g := t.GroupOf(keys);
    var conn := Conn(ConnHash(th, swap), keys, InitFields(t.aggs), 0, now + t.Scheduling(g).heartbeatInterval, false);
    Entry(conn, g, false)
  }

  function Report(e: Entry, h: Hash, now: int, kind: Kind): Event {
    Emit(h, now, kind, !e.conn.reported, Exported(e.conn))
  }

  function Reported(e: Entry): Entry { e.(conn := e.conn.(reported := true)) }

  function Admit(t: Tracker, s: State, now: int, fl: GenericMap, th: TotalHash): Outcome {
    var h := th.hashTotal;
    var seen := Seen(h, now, t.EndsConnection(fl), fl);
    if h in s then Outcome(s[h := Touch(t, s[h], now, fl, th, false)], [seen])
    else if t.Full(s) then Outcome(s, [])
    else
      var e := NewEntry(t, now, fl, th);
      var e' := Touch(t, e, now, fl, th, true);
      if t.Emits(NewConnection) then
        Outcome(s[h := Reported(e')], [Opened(h, now, e.group), seen, Report(e', h, now, NewConnection)])
      else
        Outcome(s[h := e'], [Opened(h, now, e.group), seen])
  }

  function FlowStep(t: Tracker, s: State, now: int, fl: GenericMap): Outcome {
    if t.Filtered(fl) then Outcome(s, [])
    else match TotalHashOf(t.lib, t.cfg, fl)
      case None => Outcome(s, [])
      case Some(th) =>
        var o := if t.IsDuplicate(fl) then Outcome(s, []) else Admit(t, s, now, fl, th);
        if t.Emits(FlowLog) then Outcome(o.state, o.events + [Emit(th.hashTotal, now, FlowLog, false, fl)]) else o
  }

  lemma StepIs(t: Tracker, s: State, now: int, fl: GenericMap, th: TotalHash)
    requires !t.Filtered(fl) && TotalHashOf(t.lib, t.cfg, fl) == Some(th)
    ensures var o := if t.IsDuplicate(fl) then Outcome(s, []) else Admit(t, s, now, fl, th);
      FlowStep(t, s, now, fl) ==
        if t.Emits(FlowLog) then Outcome(o.state, o.events + [Emit(th.hashTotal, now, FlowLog, false, fl)]) else o
  {
  }

  lemma NothingStepped(t: Tracker, s: State, now: int, fl: GenericMap)
    requires t.Filtered(fl) || TotalHashOf(t.lib, t.cfg, fl).None?
    ensures FlowStep(t, s, now, fl) == Outcome(s, [])
  {
  }

  function Flows(t: Tracker, s: State, now: int, fls: seq<GenericMap>): Outcome {
    if fls == [] then Outcome(s, [])
    else
      var o := Flows(t, s, now, fls[..|fls|-1]);
      var o' := FlowStep(t, o.state, now, fls[|fls|-1]);
      Outcome(o'.state, o.events + o'.events)
  }

  // ----- end of a batch: expiry and heartbeats

  function Expired(s: State, now: int): set<Hash> {
    set h | h in s && now > s[h].conn.expiry
  }

  function Due(s: State, now: int): set<Hash> {
    set h | h in s && !s[h].terminating && now > s[h].conn.nextHeartbeat
  }

  function CloseEvents(t: Tracker, e: Entry, h: Hash, now: int): Trace {
    (if t.Emits(EndConnection) then [Report(e, h, now, EndConnection)] else []) + [Closed(h, now, Exported(e.conn))]
  }

  function PopEvents(t: Tracker, s: State, now: int, hs: seq<Hash>): Trace {
    if hs == [] then []
    else PopEvents(t, s, now, hs[..|hs|-1]) + if hs[|hs|-1] in s then CloseEvents(t, s[hs[|hs|-1]], hs[|hs|-1], now)
      else []
  }

  lemma WithoutLast(s: State, hs: seq<Hash>)
    requires NoDup(hs) && hs != []
    ensures var n := |hs| - 1; hs[n] !in Elems(hs[..n]) && s - Elems(hs) == s - Elems(hs[..n]) - {hs[n]}
  {
    var n := |hs| - 1;
    assert hs == hs[..n] + [hs[n]];
    assert Elems(hs) == Elems(hs[..n]) + {hs[n]};
  }

  function Beaten(t: Tracker, e: Entry, now: int): Entry {
    Reported(e.(conn := e.conn.(nextHeartbeat := now + t.Scheduling(e.group).heartbeatInterval)))
  }

  function BeatState(t: Tracker, s: State, now: int, hs: seq<Hash>): State {
    map h | h in s :: if h in hs then Beaten(t, s[h], now) else s[h]
  }

  function BeatEvents(s: State, now: int, hs: seq<Hash>): Trace {
    if hs == [] then []
    else BeatEvents(s, now, hs[..|hs|-1]) + if hs[|hs|-1] in s
      then [Report(s[hs[|hs|-1]], hs[|hs|-1], now, Heartbeat)] else []
  }

  /** One call of Extract: its time, its input, and the order in which it ended and reported connections. */
  datatype Batch = Batch(now: int, flows: seq<GenericMap>, popped: seq<Hash>, beats: seq<Hash>)

  function AfterFlows(t: Tracker, s: State, b: Batch): Outcome { Flows(t, s, b.now, b.flows) }

  function AfterPop(t: Tracker, s: State, b: Batch): State { AfterFlows(t, s, b).state - Elems(b.popped) }

  function BatchOutcome(t: Tracker, s: State, b: Batch): Outcome {
    var o := AfterFlows(t, s, b);
    var p := AfterPop(t, s, b);
    Outcome(BeatState(t, p, b.now, b.beats),
            o.events + PopEvents(t, o.state, b.now, b.popped) + BeatEvents(p, b.now, b.beats))
  }

  /** Group by group, terminating connections first, oldest deadline first. */
  predicate PopsBefore(a: Entry, b: Entry) {
    a.group < b.group || (a.group == b.group &&
      if a.terminating == b.terminating then a.conn.expiry <= b.conn.expiry else a.terminating)
  }

  predicate BeatsBefore(a: Entry, b: Entry) {
    a.group < b.group || (a.group == b.group && a.conn.nextHeartbeat <= b.conn.nextHeartbeat)
  }

  predicate Enumerates(hs: seq<Hash>, s: set<Hash>) { NoDup(hs) && Elems(hs) == s }

  predicate InPopOrder(s: State, hs: seq<Hash>) {
    forall i, j :: 0 <= i < j < |hs| ==> hs[i] in s && hs[j] in s && PopsBefore(s[hs[i]], s[hs[j]])
  }

  predicate InBeatOrder(s: State, hs: seq<Hash>) {
    forall i, j :: 0 <= i < j < |hs| ==> hs[i] in s && hs[j] in s && BeatsBefore(s[hs[i]], s[hs[j]])
  }

  /** A batch ends exactly the expired connections and reports exactly the due ones, each once, in order. */
  predicate LegalBatch(t: Tracker, s: State, b: Batch) {
    var s1 := AfterFlows(t, s, b).state;
    var s2 := AfterPop(t, s, b);
    && Enumerates(b.popped, Expired(s1, b.now)) && InPopOrder(s1, b.popped)
    && Enumerates(b.beats, if t.Emits(Heartbeat) then Due(s2, b.now) else {}) && InBeatOrder(s2, b.beats)
  }

  function Run(t: Tracker, hist: seq<Batch>): Outcome {
    if hist == [] then Outcome(map[], [])
    else
      var o := Run(t, hist[..|hist|-1]);
      var o' := BatchOutcome(t, o.state, hist[|hist|-1]);
      Outcome(o'.state, o.events + o'.events)
  }

  /** A history under a monotone clock. */
  predicate Legal(t: Tracker, hist: seq<Batch>) {
    hist == [] ||
    var n := |hist| - 1;
    && Legal(t, hist[..n])
    && LegalBatch(t, Run(t, hist[..n]).state, hist[n])
    && (n > 0 ==> hist[n-1].now <= hist[n].now)
  }

  // ----- output records

  datatype Record = Record(kind: Kind, h: Hash, isFirst: Option<bool>, fields: GenericMap)

  function RecordOf(e: Event): Record
    requires e.Emit?
  {
    Record(e.kind, e.h, if e.kind == FlowLog then None else Some(e.isFirst), e.fields)
  }

  /** What Extract returns for a stretch of the trace. */
  function RecordsOf(evs: Trace): seq<Record> {
    if evs == [] then []
    else RecordsOf(evs[..|evs|-1]) + if evs[|evs|-1].Emit? then [RecordOf(evs[|evs|-1])] else []
  }

  lemma {:induction false} RecordsConcat(a: Trace, b: Trace)
    ensures RecordsOf(a + b) == RecordsOf(a) + RecordsOf(b)
  {
    if b == [] {
      assert a + b == a;
    } else {
      assert (a + b)[..|a + b|-1] == a + b[..|b|-1];
      RecordsConcat(a, b[..|b|-1]);
    }
  }
}
