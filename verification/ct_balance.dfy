/** Conservation in terms of the records that Extract returns. */
module ConnTrackBalance {
  import opened Common
  import opened ConnTrackHash
  import opened ConnTrackConn
  import opened ConnTrackSpec
  import opened ConnTrackFlowLogs
  import opened ConnTrackConservation

  /** What the endConnection records carry of a field, both directions together. */
  function EndedInRecords(a: Aggregator, rs: seq<Record>): real {
    if rs == [] then 0.0
    else
      var n := |rs| - 1;
      EndedInRecords(a, rs[..n]) + if rs[n].kind == EndConnection then Amount(a, rs[n].fields) else 0.0
  }

  predicate EndsRecorded(e: Event) { e.Emit? && e.kind == EndConnection }

  /** The same, read off the events. */
  function EndedInEvents(a: Aggregator, evs: Trace): real {
    if evs == [] then 0.0
    else
      var n := |evs| - 1;
      EndedInEvents(a, evs[..n]) + if EndsRecorded(evs[n]) then Amount(a, evs[n].fields) else 0.0
  }

  lemma {:induction false} RecordsAgree(a: Aggregator, evs: Trace)
    ensures EndedInRecords(a, RecordsOf(evs)) == EndedInEvents(a, evs)
  {
    if evs != [] {
      var n := |evs| - 1;
      RecordsAgree(a, evs[..n]);
      var rs := RecordsOf(evs[..n]);
      if evs[n].Emit? {
        assert (rs + [RecordOf(evs[n])])[..|rs|] == rs;
      } else {
        assert RecordsOf(evs) == rs;
      }
    }
  }

  /** Every connection that ended along a trace left an endConnection record with the same amount. */
  predicate Matched(a: Aggregator, evs: Trace) { EndedInEvents(a, evs) == Ended(a, evs) }

  lemma {:induction false} MatchedConcat(a: Aggregator, x: Trace, y: Trace)
    requires Matched(a, x) && Matched(a, y)
    ensures Matched(a, x + y)
  {
    EndedConcat(a, x, y);
  }

  lemma {:induction false} EndedConcat(a: Aggregator, x: Trace, y: Trace)
    ensures EndedInEvents(a, x + y) == EndedInEvents(a, x) + EndedInEvents(a, y)
    ensures Ended(a, x + y) == Ended(a, x) + Ended(a, y)
  {
    if y == [] {
      assert x + y == x;
    } else {
      assert (x + y)[..|x + y|-1] == x + y[..|y|-1];
      EndedConcat(a, x, y[..|y|-1]);
    }
  }

  /** No connection ends along the trace. */
  predicate Quiet(evs: Trace) {
    forall i :: 0 <= i < |evs| ==> !evs[i].Closed? && !EndsRecorded(evs[i])
  }

  lemma {:induction false} QuietMatched(a: Aggregator, evs: Trace)
    requires Quiet(evs)
    ensures Matched(a, evs)
  {
    if evs != [] {
      QuietMatched(a, evs[..|evs|-1]);
    }
  }

  lemma FlowStepQuiet(t: Tracker, s: State, now: int, fl: GenericMap)
    ensures Quiet(FlowStep(t, s, now, fl).events)
  {
    var th := TotalHashOf(t.lib, t.cfg, fl);
    if th.Some? {
      AdmitQuiet(t, s, now, fl, th.value);
    }
  }

  lemma AdmitQuiet(t: Tracker, s: State, now: int, fl: GenericMap, th: TotalHash)
    ensures Quiet(Admit(t, s, now, fl, th).events)
  {
  }

  lemma {:induction false} FlowsMatched(t: Tracker, a: Aggregator, s: State, now: int, fls: seq<GenericMap>)
    ensures Matched(a, Flows(t, s, now, fls).events)
  {
    if fls != [] {
      var n := |fls| - 1;
      var o := Flows(t, s, now, fls[..n]);
      FlowsMatched(t, a, s, now, fls[..n]);
      FlowStepQuiet(t, o.state, now, fls[n]);
      QuietMatched(a, FlowStep(t, o.state, now, fls[n]).events);
      MatchedConcat(a, o.events, FlowStep(t, o.state, now, fls[n]).events);
    }
  }

  lemma CloseMatched(t: Tracker, a: Aggregator, e: Entry, h: Hash, now: int)
    requires t.Emits(EndConnection)
    ensures Matched(a, CloseEvents(t, e, h, now))
  {
    var first, last := Report(e, h, now, EndConnection), Closed(h, now, Exported(e.conn));
    assert CloseEvents(t, e, h, now) == [first] + [last];
    EndedConcat(a, [first], [last]);
    assert [first][..0] == [] && [last][..0] == [];
  }

  lemma {:induction false} PopMatched(t: Tracker, a: Aggregator, s: State, now: int, hs: seq<Hash>)
    requires t.Emits(EndConnection)
    ensures Matched(a, PopEvents(t, s, now, hs))
  {
    if hs != [] {
      var n := |hs| - 1;
      PopMatched(t, a, s, now, hs[..n]);
      var before := PopEvents(t, s, now, hs[..n]);
      if hs[n] in s {
        CloseMatched(t, a, s[hs[n]], hs[n], now);
        MatchedConcat(a, before, CloseEvents(t, s[hs[n]], hs[n], now));
      } else {
        assert PopEvents(t, s, now, hs) == before;
      }
    }
  }

  lemma {:induction false} BeatsQuiet(s: State, now: int, hs: seq<Hash>)
    ensures Quiet(BeatEvents(s, now, hs))
  {
    if hs != [] {
      BeatsQuiet(s, now, hs[..|hs|-1]);
    }
  }

  lemma BatchMatched(t: Tracker, a: Aggregator, s: State, b: Batch)
    requires t.Emits(EndConnection)
    ensures Matched(a, BatchOutcome(t, s, b).events)
  {
    var o, p := AfterFlows(t, s, b), AfterPop(t, s, b);
    var pops, beats := PopEvents(t, o.state, b.now, b.popped), BeatEvents(p, b.now, b.beats);
    FlowsMatched(t, a, s, b.now, b.flows);
    PopMatched(t, a, o.state, b.now, b.popped);
    BeatsQuiet(p, b.now, b.beats);
    QuietMatched(a, beats);
    MatchedConcat(a, o.events, pops);
    MatchedConcat(a, o.events + pops, beats);
  }

  lemma {:induction false} RunMatched(t: Tracker, a: Aggregator, hist: seq<Batch>)
    requires t.Emits(EndConnection)
    ensures Matched(a, Run(t, hist).events)
  {
    if hist != [] {
      var n := |hist| - 1;
      RunMatched(t, a, hist[..n]);
      BatchMatched(t, a, Run(t, hist[..n]).state, hist[n]);
      MatchedConcat(a, Run(t, hist[..n]).events, BatchOutcome(t, Run(t, hist[..n]).state, hist[n]).events);
    }
  }

  /** When endConnection records are enabled, a reader of the output can check the balance: in every run the sum field
      over all endConnection records returned, plus what the tracked connections still hold, is the input accepted. */
  lemma RecordsBalance(t: Tracker, i: nat, hist: seq<Batch>)
    requires t.Valid() && IsSumField(t, i) && Legal(t, hist) && Enabled(t, EndConnection)
    ensures var o := Run(t, hist);
      Tracked(t.aggs[i], o.state) + EndedInRecords(t.aggs[i], RecordsOf(o.events)) == TotalInput(t, t.aggs[i], hist)
  {
    Conservation(t, i, hist);
    RunMatched(t, t.aggs[i], hist);
    RecordsAgree(t.aggs[i], Run(t, hist).events);
  }
}
