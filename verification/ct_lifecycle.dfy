/** Whole-run properties of connection tracking: life cycle, deadlines, heartbeats, first reports, capacity. */
module ConnTrackLifecycle {
  import opened Common
  import opened ConnTrackHash
  import opened ConnTrackSpec
  import opened ConnTrackFlowLogs

  /** Where one hash stands. The deadline is what the trace so far implies, not what the store says. */
  datatype Phase =
    | Idle
    | Live(group: nat, terminating: bool, deadline: int, next: int, reported: bool)

  /** The protocol every hash obeys; None marks a violation. */
  function StepPhase(t: Tracker, p: Phase, e: Event): Option<Phase> {
    match e
    case Opened(_, now, g) =>
      if p == Idle then Some(Live(g, false, 0, now + t.Scheduling(g).heartbeatInterval, false)) else None
    case Seen(_, now, fin, _) =>
      if p == Idle then None
      else if p.terminating then Some(p)
      else
        var g := t.Scheduling(p.group);
        Some(p.(terminating := fin, deadline := now + if fin then g.terminatingTimeout else g.endConnectionTimeout))
    case Emit(_, now, kind, isFirst, _) =>
      if kind == FlowLog then Some(p)
      else if p == Idle || isFirst == p.reported then None
      else if kind == NewConnection then (if isFirst then Some(p.(reported := true)) else None)
      else if kind == EndConnection then (if now > p.deadline then Some(p.(reported := true)) else None)
      else if p.terminating || now <= p.next then None
      else Some(p.(next := now + t.Scheduling(p.group).heartbeatInterval, reported := true))
    case Closed(_, now, _) =>
      if p == Idle || now <= p.deadline then None else Some(Idle)
  }

  /** The phase of h after a stretch of trace. */
  function Replay(t: Tracker, p: Option<Phase>, evs: Trace, h: Hash): Option<Phase> {
    if evs == [] then p
    else
      var n := |evs| - 1;
      var q := Replay(t, p, evs[..n], h);
      if q.None? || evs[n].h != h then q else StepPhase(t, q.value, evs[n])
  }

  lemma {:induction false} ReplayConcat(t: Tracker, p: Option<Phase>, a: Trace, b: Trace, h: Hash)
    ensures Replay(t, p, a + b, h) == Replay(t, Replay(t, p, a, h), b, h)
  {
    if b == [] {
      assert a + b == a;
    } else {
      assert (a + b)[..|a + b|-1] == a + b[..|b|-1];
      ReplayConcat(t, p, a, b[..|b|-1], h);
    }
  }

  /** The phase the state implies. */
  function PhaseOf(s: State, h: Hash): Phase {
    if h !in s then Idle
    else
      var e := s[h];
      Live(e.group, e.terminating, e.conn.expiry, e.conn.nextHeartbeat, e.conn.reported)
  }

  ghost predicate Follows(t: Tracker, s: State, evs: Trace, s': State, h: Hash) {
    Replay(t, Some(PhaseOf(s, h)), evs, h) == Some(PhaseOf(s', h))
  }

  lemma FollowsConcat(t: Tracker, s: State, a: Trace, s1: State, b: Trace, s2: State, h: Hash)
    requires Follows(t, s, a, s1, h) && Follows(t, s1, b, s2, h)
    ensures Follows(t, s, a + b, s2, h)
  {
    ReplayConcat(t, Some(PhaseOf(s, h)), a, b, h);
  }

  lemma Replay1(t: Tracker, p: Phase, e: Event, h: Hash)
    ensures Replay(t, Some(p), [e], h) == if e.h != h then Some(p) else StepPhase(t, p, e)
  {
    assert [e][..0] == [];
  }

  lemma Replay2(t: Tracker, p: Phase, e: Event, f: Event, h: Hash)
    requires e.h == f.h == h
    ensures var q := StepPhase(t, p, e);
      Replay(t, Some(p), [e, f], h) == if q.None? then None else StepPhase(t, q.value, f)
  {
    Replay1(t, p, e, h);
    assert [e, f][..1] == [e];
  }

  lemma AdmitFollows(t: Tracker, s: State, now: int, fl: GenericMap, th: TotalHash, h: Hash)
    ensures Follows(t, s, Admit(t, s, now, fl, th).events, Admit(t, s, now, fl, th).state, h)
  {
    if h != th.hashTotal {
      OtherAdmitFollows(t, s, now, fl, th, h);
    } else if h in s {
      KnownFollows(t, s, now, fl, th);
    } else if !t.Full(s) {
      OpeningReplays(t, now, fl, th, Admit(t, s, now, fl, th).events);
    }
  }

  lemma OtherAdmitFollows(t: Tracker, s: State, now: int, fl: GenericMap, th: TotalHash, h: Hash)
    requires h != th.hashTotal
    ensures Follows(t, s, Admit(t, s, now, fl, th).events, Admit(t, s, now, fl, th).state, h)
  {
    var o := Admit(t, s, now, fl, th);
    assert PhaseOf(o.state, h) == PhaseOf(s, h);
    OtherHash(t, Some(PhaseOf(s, h)), o.events, h);
  }

  lemma KnownFollows(t: Tracker, s: State, now: int, fl: GenericMap, th: TotalHash)
    requires th.hashTotal in s
    ensures Follows(t, s, Admit(t, s, now, fl, th).events, Admit(t, s, now, fl, th).state, th.hashTotal)
  {
    var h := th.hashTotal;
    Replay1(t, PhaseOf(s, h), Admit(t, s, now, fl, th).events[0], h);
  }

  lemma OpeningReplays(t: Tracker, now: int, fl: GenericMap, th: TotalHash, evs: Trace)
    requires
      var h, e := th.hashTotal, NewEntry(t, now, fl, th);
      evs == [Opened(h, now, e.group), Seen(h, now, t.EndsConnection(fl), fl)] +
        if t.Emits(NewConnection) then [Report(Touch(t, e, now, fl, th, true), h, now, NewConnection)] else []
    ensures
      var e := Touch(t, NewEntry(t, now, fl, th), now, fl, th, true);
      Replay(t, Some(Idle), evs, th.hashTotal) ==
        Some(Live(e.group, e.terminating, e.conn.expiry, e.conn.nextHeartbeat, t.Emits(NewConnection)))
  {
    Replay2(t, Idle, evs[0], evs[1], th.hashTotal);
    assert evs[..2] == [evs[0], evs[1]];
    if !t.Emits(NewConnection) {
      assert evs == [evs[0], evs[1]];
    }
  }

  lemma {:induction false} OtherHash(t: Tracker, p: Option<Phase>, evs: Trace, h: Hash)
    requires forall e :: e in evs ==> e.h != h
    ensures Replay(t, p, evs, h) == p
  {
    if evs != [] {
      OtherHash(t, p, evs[..|evs|-1], h);
    }
  }

  lemma FlowStepFollows(t: Tracker, s: State, now: int, fl: GenericMap, h: Hash)
    ensures Follows(t, s, FlowStep(t, s, now, fl).events, FlowStep(t, s, now, fl).state, h)
  {
    var th := TotalHashOf(t.lib, t.cfg, fl);
    if !t.Filtered(fl) && th.Some? {
      var o := if t.IsDuplicate(fl) then Outcome(s, []) else Admit(t, s, now, fl, th.value);
      AdmitFollows(t, s, now, fl, th.value, h);
      var e := Emit(th.value.hashTotal, now, FlowLog, false, fl);
      Replay1(t, PhaseOf(o.state, h), e, h);
      FollowsConcat(t, s, o.events, o.state, [e], o.state, h);
    }
  }

  lemma {:induction false} FlowsFollow(t: Tracker, s: State, now: int, fls: seq<GenericMap>, h: Hash)
    ensures Follows(t, s, Flows(t, s, now, fls).events, Flows(t, s, now, fls).state, h)
  {
    if fls != [] {
      var o := Flows(t, s, now, fls[..|fls|-1]);
      FlowsFollow(t, s, now, fls[..|fls|-1], h);
      FlowStepFollows(t, o.state, now, fls[|fls|-1], h);
      var o' := FlowStep(t, o.state, now, fls[|fls|-1]);
      FollowsConcat(t, s, o.events, o.state, o'.events, o'.state, h);
    }
  }

  lemma CloseReplays(t: Tracker, s: State, now: int, h: Hash)
    requires h in s && now > s[h].conn.expiry
    ensures Replay(t, Some(PhaseOf(s, h)), CloseEvents(t, s[h], h, now), h) == Some(Idle)
  {
    var evs := CloseEvents(t, s[h], h, now);
    if t.Emits(EndConnection) {
      Replay2(t, PhaseOf(s, h), evs[0], evs[1], h);
    } else {
      Replay1(t, PhaseOf(s, h), evs[0], h);
    }
  }

  lemma ClosesOnly(t: Tracker, e: Entry, x: Hash, now: int)
    ensures forall ev :: ev in CloseEvents(t, e, x, now) ==> ev.h == x
  {
  }

  lemma OthersFollow(t: Tracker, s: State, evs: Trace, x: Hash, h: Hash)
    requires h != x && forall ev :: ev in evs ==> ev.h == x
    ensures Follows(t, s, evs, s - {x}, h)
  {
    OtherHash(t, Some(PhaseOf(s, h)), evs, h);
  }

  lemma CloseFollows(t: Tracker, s: State, now: int, x: Hash, h: Hash)
    requires x in s && now > s[x].conn.expiry
    ensures Follows(t, s, CloseEvents(t, s[x], x, now), s - {x}, h)
  {
    if h == x {
      CloseReplays(t, s, now, h);
    } else {
      ClosesOnly(t, s[x], x, now);
      OthersFollow(t, s, CloseEvents(t, s[x], x, now), x, h);
    }
  }

  lemma {:induction false} PopFollows(t: Tracker, s: State, now: int, hs: seq<Hash>, h: Hash)
    requires NoDup(hs) && forall x :: x in hs ==> x in s && now > s[x].conn.expiry
    ensures Follows(t, s, PopEvents(t, s, now, hs), s - Elems(hs), h)
  {
    if hs == [] {
      assert s - Elems(hs) == s;
    } else {
      var n := |hs| - 1;
      PopFollows(t, s, now, hs[..n], h);
      WithoutLast(s, hs);
      var s1 := s - Elems(hs[..n]);
      CloseFollows(t, s1, now, hs[n], h);
      FollowsConcat(t, s, PopEvents(t, s, now, hs[..n]), s1, CloseEvents(t, s1[hs[n]], hs[n], now), s1 - {hs[n]}, h);
    }
  }

  lemma {:induction false} BeatFollows(t: Tracker, s: State, now: int, hs: seq<Hash>, h: Hash)
    requires NoDup(hs) && forall x :: x in hs ==> x in Due(s, now)
    ensures Follows(t, s, BeatEvents(s, now, hs), BeatState(t, s, now, hs), h)
  {
    if hs != [] {
      var n := |hs| - 1;
      BeatFollows(t, s, now, hs[..n], h);
      assert hs[n] in Due(s, now);
      var e := Report(s[hs[n]], hs[n], now, Heartbeat);
      ReplayConcat(t, Some(PhaseOf(s, h)), BeatEvents(s, now, hs[..n]), [e], h);
      Replay1(t, PhaseOf(BeatState(t, s, now, hs[..n]), h), e, h);
      if h == hs[n] {
        assert h !in hs[..n];
        assert h in hs;
      } else {
        assert h in hs <==> h in hs[..n];
      }
    }
  }

  lemma BatchFollows(t: Tracker, s: State, b: Batch, h: Hash)
    requires LegalBatch(t, s, b)
    ensures Follows(t, s, BatchOutcome(t, s, b).events, BatchOutcome(t, s, b).state, h)
  {
    var o := AfterFlows(t, s, b);
    var p := AfterPop(t, s, b);
    FlowsFollow(t, s, b.now, b.flows, h);
    forall x ensures (x in b.popped <==> x in Expired(o.state, b.now)) && (x in b.beats ==> x in Due(p, b.now)) {
      assert x in b.popped <==> x in Elems(b.popped);
      assert x in b.beats <==> x in Elems(b.beats);
    }
    PopFollows(t, o.state, b.now, b.popped, h);
    BeatFollows(t, p, b.now, b.beats, h);
    FollowsConcat(t, s, o.events, o.state, PopEvents(t, o.state, b.now, b.popped), p, h);
    FollowsConcat(t, s, o.events + PopEvents(t, o.state, b.now, b.popped), p,
                  BeatEvents(p, b.now, b.beats), BatchOutcome(t, s, b).state, h);
  }

  /** Life cycle: in every run the events of every hash follow the protocol, and the phase they imply,
      deadlines included, is the one the state holds. */
  lemma {:induction false} Lifecycle(t: Tracker, hist: seq<Batch>, h: Hash)
    requires Legal(t, hist)
    ensures Replay(t, Some(Idle), Run(t, hist).events, h) == Some(PhaseOf(Run(t, hist).state, h))
  {
    if hist != [] {
      var n := |hist| - 1;
      var o := Run(t, hist[..n]);
      Lifecycle(t, hist[..n], h);
      BatchFollows(t, o.state, hist[n], h);
      ReplayConcat(t, Some(Idle), o.events, BatchOutcome(t, o.state, hist[n]).events, h);
    }
  }

  // ----- consequences stated on trace positions

  lemma {:induction false} PrefixReplays(t: Tracker, evs: Trace, i: nat, h: Hash)
    requires i <= |evs| && Replay(t, Some(Idle), evs, h).Some?
    ensures Replay(t, Some(Idle), evs[..i], h).Some?
    decreases |evs| - i
  {
    if i < |evs| {
      PrefixReplays(t, evs, i + 1, h);
      assert evs[..i+1][..i] == evs[..i];
    } else {
      assert evs[..i] == evs;
    }
  }

  function PhaseAt(t: Tracker, evs: Trace, i: nat, h: Hash): Phase
    requires i <= |evs| && Replay(t, Some(Idle), evs, h).Some?
  {
    PrefixReplays(t, evs, i, h);
    Replay(t, Some(Idle), evs[..i], h).value
  }

  lemma PhaseStep(t: Tracker, evs: Trace, i: nat, h: Hash)
    requires i < |evs| && Replay(t, Some(Idle), evs, h).Some?
    ensures evs[i].h != h ==> PhaseAt(t, evs, i + 1, h) == PhaseAt(t, evs, i, h)
    ensures evs[i].h == h ==> StepPhase(t, PhaseAt(t, evs, i, h), evs[i]) == Some(PhaseAt(t, evs, i + 1, h))
  {
    PrefixReplays(t, evs, i, h);
    PrefixReplays(t, evs, i + 1, h);
    assert evs[..i+1][..i] == evs[..i];
  }

  /** An opening of h strictly between two positions. */
  predicate Reopened(evs: Trace, i: nat, j: nat, h: Hash)
    requires j <= |evs|
  {
    exists k :: i < k < j && evs[k].Opened? && evs[k].h == h
  }

  /** A FIN of h came before position j, after its latest opening. */
  predicate FinSeen(evs: Trace, j: nat, h: Hash)
    requires j <= |evs|
  {
    exists i :: 0 <= i < j && IsFin(evs[i], h) && !Reopened(evs, i, j, h)
  }

  predicate IsFin(e: Event, h: Hash) { e.Seen? && e.h == h && e.fin }

  lemma ReopenedStep(evs: Trace, j: nat, h: Hash)
    requires j < |evs|
    ensures !Reopened(evs, j, j + 1, h)
    ensures forall i :: 0 <= i < j ==>
      (Reopened(evs, i, j + 1, h) <==> Reopened(evs, i, j, h) || (evs[j].Opened? && evs[j].h == h))
  {
    forall i | 0 <= i < j
      ensures Reopened(evs, i, j + 1, h) <==> Reopened(evs, i, j, h) || (evs[j].Opened? && evs[j].h == h)
    {
      if Reopened(evs, i, j + 1, h) && !(evs[j].Opened? && evs[j].h == h) {
        var k :| i < k < j + 1 && evs[k].Opened? && evs[k].h == h;
        assert i < k < j;
      }
    }
  }

  lemma FinSeenStep(evs: Trace, j: nat, h: Hash)
    requires j < |evs|
    ensures FinSeen(evs, j + 1, h) <==> IsFin(evs[j], h) || (FinSeen(evs, j, h) && !(evs[j].Opened? && evs[j].h == h))
  {
    ReopenedStep(evs, j, h);
  }

  /** After a FIN, h is either terminating with the deadline fixed then, or closed and not reopened. */
  lemma {:induction false} AfterFin(t: Tracker, evs: Trace, i: nat, j: nat, h: Hash)
    requires i < j <= |evs| && Replay(t, Some(Idle), evs, h).Some?
    requires IsFin(evs[i], h) && !Reopened(evs, i, j, h)
    ensures var q, p := PhaseAt(t, evs, i + 1, h), PhaseAt(t, evs, j, h);
      q.Live? && (p == Idle || (p.terminating && p.deadline == q.deadline && p.group == q.group))
    decreases j
  {
    if j == i + 1 {
      PhaseStep(t, evs, i, h);
    } else {
      AfterFin(t, evs, i, j - 1, h);
      PhaseStep(t, evs, j - 1, h);
    }
  }

  /** A terminating connection emits no heartbeat: between a FIN and a heartbeat the hash was opened anew. */
  lemma NoHeartbeatAfterFin(t: Tracker, hist: seq<Batch>, i: nat, j: nat, h: Hash)
    requires Legal(t, hist) && i < j < |Run(t, hist).events|
    requires var evs := Run(t, hist).events;
      && IsFin(evs[i], h)
      && evs[j].Emit? && evs[j].h == h && evs[j].kind == Heartbeat
    ensures Reopened(Run(t, hist).events, i, j, h)
  {
    Lifecycle(t, hist, h);
    ReopenedBetween(t, Run(t, hist).events, i, j, h);
  }

  lemma ReopenedBetween(t: Tracker, evs: Trace, i: nat, j: nat, h: Hash)
    requires i < j < |evs| && Replay(t, Some(Idle), evs, h).Some?
    requires IsFin(evs[i], h)
    requires evs[j].Emit? && evs[j].h == h && evs[j].kind == Heartbeat
    ensures Reopened(evs, i, j, h)
  {
    PhaseStep(t, evs, j, h);
    if !Reopened(evs, i, j, h) {
      AfterFin(t, evs, i, j, h);
    }
  }

  /** A live connection is terminating exactly when a FIN of its current lifetime was seen. */
  lemma {:induction false} FinFlag(t: Tracker, evs: Trace, j: nat, h: Hash)
    requires j <= |evs| && Replay(t, Some(Idle), evs, h).Some?
    ensures var p := PhaseAt(t, evs, j, h); p.Live? ==> (p.terminating <==> FinSeen(evs, j, h))
  {
    if j > 0 {
      FinFlag(t, evs, j - 1, h);
      PhaseStep(t, evs, j - 1, h);
      FinSeenStep(evs, j - 1, h);
    }
  }

  /** While a connection stays tracked after its first FIN, the store holds it as terminating, with the deadline set by
      that FIN: no later traffic moves it. */
  lemma FinDeadlineStored(t: Tracker, hist: seq<Batch>, i: nat, h: Hash)
    requires Legal(t, hist) && i < |Run(t, hist).events| && h in Run(t, hist).state
    requires var evs := Run(t, hist).events; IsFin(evs[i], h) && !FinSeen(evs, i, h) && !Reopened(evs, i, |evs|, h)
    ensures var e := Run(t, hist).state[h];
      && e.terminating
      && e.conn.expiry == Run(t, hist).events[i].now + t.Scheduling(e.group).terminatingTimeout
  {
    var evs := Run(t, hist).events;
    Lifecycle(t, hist, h);
    AfterFin(t, evs, i, |evs|, h);
    PhaseStep(t, evs, i, h);
    FinFlag(t, evs, i, h);
    assert evs[..|evs|] == evs;
  }

  /** The deadline set by the first FIN bounds the closing from below: after the FIN the connection is closed only once
      that deadline has passed. */
  lemma FinFixesDeadline(t: Tracker, hist: seq<Batch>, i: nat, j: nat, h: Hash)
    requires Legal(t, hist) && i < j < |Run(t, hist).events|
    requires var evs := Run(t, hist).events;
      && IsFin(evs[i], h) && !FinSeen(evs, i, h) && !Reopened(evs, i, j, h)
      && evs[j].Closed? && evs[j].h == h
    ensures var evs := Run(t, hist).events;
      && Replay(t, Some(Idle), evs, h).Some?
      && PhaseAt(t, evs, i, h).Live?
      && evs[j].now > evs[i].now + t.Scheduling(PhaseAt(t, evs, i, h).group).terminatingTimeout
  {
    var evs := Run(t, hist).events;
    Lifecycle(t, hist, h);
    AfterFin(t, evs, i, j, h);
    PhaseStep(t, evs, i, h);
    PhaseStep(t, evs, j, h);
    FinFlag(t, evs, i, h);
  }

  predicate ReportOf(e: Event, h: Hash) { e.Emit? && e.h == h && e.kind != FlowLog }

  /** No record of h since its latest opening before position j. */
  predicate Unreported(evs: Trace, j: nat, h: Hash)
    requires j <= |evs|
  {
    forall i :: 0 <= i < j && ReportOf(evs[i], h) ==> Reopened(evs, i, j, h)
  }

  lemma UnreportedStep(evs: Trace, j: nat, h: Hash)
    requires j < |evs|
    ensures Unreported(evs, j + 1, h) <==>
      (evs[j].Opened? && evs[j].h == h) || (Unreported(evs, j, h) && !ReportOf(evs[j], h))
  {
    ReopenedStep(evs, j, h);
  }

  lemma {:induction false} ReportedFlag(t: Tracker, evs: Trace, j: nat, h: Hash)
    requires j <= |evs| && Replay(t, Some(Idle), evs, h).Some?
    ensures var p := PhaseAt(t, evs, j, h); p != Idle ==> (p.reported <==> !Unreported(evs, j, h))
  {
    if j > 0 {
      ReportedFlag(t, evs, j - 1, h);
      PhaseStep(t, evs, j - 1, h);
      UnreportedStep(evs, j - 1, h);
    }
  }

  /** Whatever record types are enabled, _IsFirst marks exactly the first connection record of each lifetime. */
  lemma IsFirstIsFirst(t: Tracker, hist: seq<Batch>, j: nat, h: Hash)
    requires Legal(t, hist) && j < |Run(t, hist).events| && ReportOf(Run(t, hist).events[j], h)
    ensures Run(t, hist).events[j].isFirst <==> Unreported(Run(t, hist).events, j, h)
  {
    var evs := Run(t, hist).events;
    Lifecycle(t, hist, h);
    PhaseStep(t, evs, j, h);
    ReportedFlag(t, evs, j, h);
  }

  // ----- with every record type enabled, the records alone tell the story

  /** Reads records in order: newConnection opens, endConnection closes, heartbeats only in between. */
  function ReadRecords(open: Option<bool>, rs: seq<Record>, h: Hash): Option<bool> {
    if rs == [] then open
    else
      var n := |rs| - 1;
      var q := ReadRecords(open, rs[..n], h);
      if q.None? || rs[n].h != h || rs[n].kind == FlowLog then q
      else match rs[n].kind
        case NewConnection => if q.value then None else Some(true)
        case EndConnection => if q.value then Some(false) else None
        case _ => if q.value then q else None
  }

  /** The same reading, directly on the events. */
  function ReadEvents(open: Option<bool>, evs: Trace, h: Hash): Option<bool> {
    if evs == [] then open
    else
      var n := |evs| - 1;
      ReadEvent(ReadEvents(open, evs[..n], h), evs[n], h)
  }

  function ReadEvent(q: Option<bool>, e: Event, h: Hash): Option<bool> {
    if q.None? || !e.Emit? || e.h != h || e.kind == FlowLog then q
    else match e.kind
      case NewConnection => if q.value then None else Some(true)
      case EndConnection => if q.value then Some(false) else None
      case _ => if q.value then q else None
  }

  lemma {:induction false} ReadConcat(open: Option<bool>, a: Trace, b: Trace, h: Hash)
    ensures ReadEvents(open, a + b, h) == ReadEvents(ReadEvents(open, a, h), b, h)
  {
    if b == [] {
      assert a + b == a;
    } else {
      assert (a + b)[..|a + b|-1] == a + b[..|b|-1];
      ReadConcat(open, a, b[..|b|-1], h);
    }
  }

  lemma {:induction false} RecordsReadAsEvents(open: Option<bool>, evs: Trace, h: Hash)
    ensures ReadRecords(open, RecordsOf(evs), h) == ReadEvents(open, evs, h)
  {
    if evs != [] {
      var n := |evs| - 1;
      RecordsReadAsEvents(open, evs[..n], h);
      var rs := RecordsOf(evs[..n]);
      if evs[n].Emit? {
        assert (rs + [RecordOf(evs[n])])[..|rs|] == rs;
      } else {
        assert RecordsOf(evs) == rs;
      }
    }
  }

  predicate AllEnabled(t: Tracker) { Enabled(t, NewConnection) && Enabled(t, EndConnection) && Enabled(t, Heartbeat) }

  ghost predicate Reads(open: bool, evs: Trace, open': bool, h: Hash) {
    ReadEvents(Some(open), evs, h) == Some(open')
  }

  lemma ReadsConcat(x: bool, a: Trace, y: bool, b: Trace, z: bool, h: Hash)
    requires Reads(x, a, y, h) && Reads(y, b, z, h)
    ensures Reads(x, a + b, z, h)
  {
    ReadConcat(Some(x), a, b, h);
  }

  lemma ReadsSilent(x: bool, e: Event, h: Hash)
    requires e.Emit? ==> e.h != h || e.kind == FlowLog || (e.kind == Heartbeat && x)
    ensures Reads(x, [e], x, h)
  {
    assert [e][..0] == [];
  }

  lemma ReadsOne(x: bool, e: Event, h: Hash)
    requires e.Emit? && e.h == h && e.kind == if x then EndConnection else NewConnection
    ensures Reads(x, [e], !x, h)
  {
    assert [e][..0] == [];
  }

  lemma AdmitReads(t: Tracker, s: State, now: int, fl: GenericMap, th: TotalHash, h: Hash)
    requires AllEnabled(t)
    ensures Reads(h in s, Admit(t, s, now, fl, th).events, h in Admit(t, s, now, fl, th).state, h)
  {
    var evs := Admit(t, s, now, fl, th).events;
    if th.hashTotal in s {
      ReadsSilent(h in s, evs[0], h);
    } else if !t.Full(s) {
      OpeningReads(h in s, evs, h, th.hashTotal);
    }
  }

  lemma OpeningReads(x: bool, evs: Trace, h: Hash, x0: Hash)
    requires |evs| == 3 && evs[0].Opened? && evs[1].Seen?
    requires evs[2].Emit? && evs[2].kind == NewConnection && evs[2].h == x0 && (h == x0 ==> !x)
    ensures Reads(x, evs, x || h == x0, h)
  {
    ReadsSilent(x, evs[0], h);
    ReadsSilent(x, evs[1], h);
    ReadsConcat(x, [evs[0]], x, [evs[1]], x, h);
    if h == x0 { ReadsOne(x, evs[2], h); } else { ReadsSilent(x, evs[2], h); }
    ReadsConcat(x, [evs[0]] + [evs[1]], x, [evs[2]], x || h == x0, h);
    assert evs == [evs[0]] + [evs[1]] + [evs[2]];
  }

  lemma FlowStepReads(t: Tracker, s: State, now: int, fl: GenericMap, h: Hash)
    requires AllEnabled(t)
    ensures Reads(h in s, FlowStep(t, s, now, fl).events, h in FlowStep(t, s, now, fl).state, h)
  {
    var th := TotalHashOf(t.lib, t.cfg, fl);
    if !t.Filtered(fl) && th.Some? {
      LoggedReads(t, s, now, fl, th.value, h);
    }
  }

  lemma LoggedReads(t: Tracker, s: State, now: int, fl: GenericMap, th: TotalHash, h: Hash)
    requires AllEnabled(t)
    ensures var a := if t.IsDuplicate(fl) then Outcome(s, []) else Admit(t, s, now, fl, th);
      && Reads(h in s, a.events, h in a.state, h)
      && Reads(h in s, a.events + [Emit(th.hashTotal, now, FlowLog, false, fl)], h in a.state, h)
  {
    var a := if t.IsDuplicate(fl) then Outcome(s, []) else Admit(t, s, now, fl, th);
    AdmitReads(t, s, now, fl, th, h);
    ReadsLogged(h in s, a.events, h in a.state, Emit(th.hashTotal, now, FlowLog, false, fl), h);
  }

  lemma ReadsLogged(x: bool, evs: Trace, y: bool, e: Event, h: Hash)
    requires Reads(x, evs, y, h) && e.Emit? && e.kind == FlowLog
    ensures Reads(x, evs + [e], y, h)
  {
    ReadsSilent(y, e, h);
    ReadsConcat(x, evs, y, [e], y, h);
  }

  lemma {:induction false} FlowsRead(t: Tracker, s: State, now: int, fls: seq<GenericMap>, h: Hash)
    requires AllEnabled(t)
    ensures Reads(h in s, Flows(t, s, now, fls).events, h in Flows(t, s, now, fls).state, h)
  {
    if fls != [] {
      var o := Flows(t, s, now, fls[..|fls|-1]);
      var o' := FlowStep(t, o.state, now, fls[|fls|-1]);
      FlowsRead(t, s, now, fls[..|fls|-1], h);
      FlowStepReads(t, o.state, now, fls[|fls|-1], h);
      ReadsConcat(h in s, o.events, h in o.state, o'.events, h in o'.state, h);
    }
  }

  lemma CloseReads(t: Tracker, e: Entry, x: Hash, now: int, h: Hash, open: bool)
    requires t.Emits(EndConnection) && (h == x ==> open)
    ensures Reads(open, CloseEvents(t, e, x, now), open && h != x, h)
  {
    var evs := CloseEvents(t, e, x, now);
    var open' := open && h != x;
    if h == x { ReadsOne(open, evs[0], h); } else { ReadsSilent(open, evs[0], h); }
    ReadsSilent(open', evs[1], h);
    ReadsConcat(open, [evs[0]], open', [evs[1]], open', h);
    assert evs == [evs[0]] + [evs[1]];
  }

  lemma {:induction false} PopReads(t: Tracker, s: State, now: int, hs: seq<Hash>, h: Hash)
    requires AllEnabled(t) && NoDup(hs) && forall x :: x in hs ==> x in s
    ensures Reads(h in s, PopEvents(t, s, now, hs), h in s && h !in hs, h)
  {
    if hs != [] {
      var n := |hs| - 1;
      PopReads(t, s, now, hs[..n], h);
      assert hs[n] in s && hs[n] !in hs[..n];
      assert h in hs <==> h in hs[..n] || h == hs[n];
      CloseReads(t, s[hs[n]], hs[n], now, h, h in s && h !in hs[..n]);
      ReadsConcat(h in s, PopEvents(t, s, now, hs[..n]), h in s && h !in hs[..n],
                  CloseEvents(t, s[hs[n]], hs[n], now), h in s && h !in hs, h);
    }
  }

  lemma {:induction false} BeatReads(t: Tracker, s: State, now: int, hs: seq<Hash>, h: Hash)
    requires forall x :: x in hs ==> x in s
    ensures Reads(h in s, BeatEvents(s, now, hs), h in s, h)
  {
    if hs != [] {
      var n := |hs| - 1;
      BeatReads(t, s, now, hs[..n], h);
      assert hs[n] in s;
      var e := Report(s[hs[n]], hs[n], now, Heartbeat);
      ReadsSilent(h in s, e, h);
      ReadsConcat(h in s, BeatEvents(s, now, hs[..n]), h in s, [e], h in s, h);
    }
  }

  lemma BatchReads(t: Tracker, s: State, b: Batch, h: Hash)
    requires AllEnabled(t) && LegalBatch(t, s, b)
    ensures Reads(h in s, BatchOutcome(t, s, b).events, h in BatchOutcome(t, s, b).state, h)
  {
    var o, p := AfterFlows(t, s, b), AfterPop(t, s, b);
    forall x ensures (x in b.popped <==> x in Elems(b.popped)) && (x in b.beats <==> x in Elems(b.beats)) {}
    FlowsRead(t, s, b.now, b.flows, h);
    PopReads(t, o.state, b.now, b.popped, h);
    BeatReads(t, p, b.now, b.beats, h);
    var pops, beats := PopEvents(t, o.state, b.now, b.popped), BeatEvents(p, b.now, b.beats);
    ReadsConcat(h in s, o.events, h in o.state, pops, h in p, h);
    ReadsConcat(h in s, o.events + pops, h in p, beats, h in p, h);
  }

  lemma {:induction false} EventsAlternate(t: Tracker, hist: seq<Batch>, h: Hash)
    requires AllEnabled(t) && Legal(t, hist)
    ensures Reads(false, Run(t, hist).events, h in Run(t, hist).state, h)
  {
    if hist != [] {
      var n := |hist| - 1;
      var o := Run(t, hist[..n]);
      EventsAlternate(t, hist[..n], h);
      BatchReads(t, o.state, hist[n], h);
      var o' := BatchOutcome(t, o.state, hist[n]);
      ReadsConcat(false, o.events, h in o.state, o'.events, h in o'.state, h);
    }
  }

  /** With all record types enabled, the newConnection and endConnection records of each hash strictly alternate,
      starting with newConnection, and heartbeats come strictly between them; the hash is tracked exactly when
      its last such record is not an endConnection. */
  lemma RecordsAlternate(t: Tracker, hist: seq<Batch>, h: Hash)
    requires AllEnabled(t) && Legal(t, hist)
    ensures ReadRecords(Some(false), RecordsOf(Run(t, hist).events), h) == Some(h in Run(t, hist).state)
  {
    EventsAlternate(t, hist, h);
    RecordsReadAsEvents(Some(false), Run(t, hist).events, h);
  }

  // ----- nothing is left behind, and the table never outgrows its bound

  /** After every batch no connection is past its deadline, and no active one is past its heartbeat time. */
  lemma CaughtUp(t: Tracker, hist: seq<Batch>)
    requires t.Valid() && Legal(t, hist) && hist != []
    ensures var s, now := Run(t, hist).state, hist[|hist|-1].now;
      && (forall h :: h in s ==> now <= s[h].conn.expiry)
      && (Enabled(t, Heartbeat) ==> forall h :: h in s && !s[h].terminating ==> now <= s[h].conn.nextHeartbeat)
  {
    var n := |hist| - 1;
    BatchCatchesUp(t, Run(t, hist[..n]).state, hist[n]);
  }

  lemma BatchCatchesUp(t: Tracker, s: State, b: Batch)
    requires t.Valid() && LegalBatch(t, s, b)
    ensures var s' := BatchOutcome(t, s, b).state;
      && (forall h :: h in s' ==> b.now <= s'[h].conn.expiry)
      && (Enabled(t, Heartbeat) ==> forall h :: h in s' && !s'[h].terminating ==> b.now <= s'[h].conn.nextHeartbeat)
  {
    var p := AfterPop(t, s, b);
    forall h | h in p ensures b.now <= p[h].conn.expiry {
      assert h !in Elems(b.popped);
      assert h !in Expired(AfterFlows(t, s, b).state, b.now);
    }
    if Enabled(t, Heartbeat) {
      forall h | h in p && h in Due(p, b.now) ensures h in b.beats && t.Scheduling(p[h].group).heartbeatInterval >= 0 {
        assert h in Elems(b.beats);
      }
    }
  }

  lemma StepCapacity(t: Tracker, s: State, now: int, fl: GenericMap)
    requires t.cfg.maxConnectionsTracked > 0 && |s| <= t.cfg.maxConnectionsTracked
    ensures |FlowStep(t, s, now, fl).state| <= t.cfg.maxConnectionsTracked
  {
    var th := TotalHashOf(t.lib, t.cfg, fl);
    if th.Some? {
      AdmitCapacity(t, s, now, fl, th.value);
    }
  }

  lemma AdmitCapacity(t: Tracker, s: State, now: int, fl: GenericMap, th: TotalHash)
    requires t.cfg.maxConnectionsTracked > 0 && |s| <= t.cfg.maxConnectionsTracked
    ensures |Admit(t, s, now, fl, th).state| <= t.cfg.maxConnectionsTracked
  {
    AdmitKeys(t, s, now, fl, th);
    var s' := Admit(t, s, now, fl, th).state;
    assert |s'| == |s'.Keys| && |s| == |s.Keys|;
  }

  lemma AdmitKeys(t: Tracker, s: State, now: int, fl: GenericMap, th: TotalHash)
    ensures var s' := Admit(t, s, now, fl, th).state;
      s'.Keys == s.Keys || (!t.Full(s) && s'.Keys == s.Keys + {th.hashTotal})
  {
  }

  lemma {:induction false} FlowsCapacity(t: Tracker, s: State, now: int, fls: seq<GenericMap>)
    requires t.cfg.maxConnectionsTracked > 0 && |s| <= t.cfg.maxConnectionsTracked
    ensures |Flows(t, s, now, fls).state| <= t.cfg.maxConnectionsTracked
  {
    if fls != [] {
      FlowsCapacity(t, s, now, fls[..|fls|-1]);
      StepCapacity(t, Flows(t, s, now, fls[..|fls|-1]).state, now, fls[|fls|-1]);
    }
  }

  /** A positive MaxConnectionsTracked bounds the table in every run. */
  lemma {:induction false} Capacity(t: Tracker, hist: seq<Batch>)
    requires t.cfg.maxConnectionsTracked > 0
    ensures |Run(t, hist).state| <= t.cfg.maxConnectionsTracked
  {
    if hist != [] {
      var n := |hist| - 1;
      var s, b := Run(t, hist[..n]).state, hist[n];
      Capacity(t, hist[..n]);
      FlowsCapacity(t, s, b.now, b.flows);
      var o, p := AfterFlows(t, s, b).state, AfterPop(t, s, b);
      SubsetSize(p.Keys, o.Keys);
      assert BatchOutcome(t, s, b).state.Keys == p.Keys;
    }
  }

  lemma {:induction false} SubsetSize(a: set<Hash>, b: set<Hash>)
    requires a <= b
    ensures |a| <= |b|
  {
    assert |b| == |a| + |b - a| by {
      assert b == a + (b - a);
    }
  }
}
