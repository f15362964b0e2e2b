/** The connection store as a value: entries by hash and the order lists of every scheduling group.
    No list is ever sorted; they stay sorted because timeouts are constant per group and time is monotone. */
module ConnTrackView {
  import opened Common
  import opened ConnTrackHash
  import opened ConnTrackConn
  import opened ConnTrackSpec
  import opened MultiOrderedMaps

  const EXPIRY: OrderID := "expiryOrder"
  const HEARTBEAT: OrderID := "nextHeartbeatTimeOrder"

  predicate SortedByExpiry(s: State, list: seq<Hash>) {
    forall i, j :: 0 <= i < j < |list| && list[i] in s && list[j] in s ==>
      s[list[i]].conn.expiry <= s[list[j]].conn.expiry
  }

  predicate SortedByHeartbeat(s: State, list: seq<Hash>) {
    forall i, j :: 0 <= i < j < |list| && list[i] in s && list[j] in s ==>
      s[list[i]].conn.nextHeartbeat <= s[list[j]].conn.nextHeartbeat
  }

  /** No deadline lies further ahead than the timeout of its group. */
  predicate Timely(t: Tracker, s: State, now: int) {
    forall h :: h in s ==>
      var g := t.Scheduling(s[h].group);
      if s[h].terminating then s[h].conn.expiry <= now + g.terminatingTimeout
      else s[h].conn.expiry <= now + g.endConnectionTimeout && s[h].conn.nextHeartbeat <= now + g.heartbeatInterval
  }

  // ----- the two list operations keep lists sorted

  lemma {:induction false} WithoutSorted(s: State, list: seq<Hash>, h: Hash)
    ensures SortedByExpiry(s, list) ==> SortedByExpiry(s, Without(list, h))
    ensures SortedByHeartbeat(s, list) ==> SortedByHeartbeat(s, Without(list, h))
  {
    if list != [] {
      WithoutSorted(s, list[1..], h);
      var r := Without(list[1..], h);
      forall i | 0 <= i < |r| ensures exists j :: 0 < j < |list| && list[j] == r[i] {
        assert r[i] in list[1..];
        var j :| 0 <= j < |list[1..]| && list[1..][j] == r[i];
        assert list[j+1] == r[i];
      }
    }
  }

  /** Moving the element with the latest deadline to the back restores order. */
  lemma MoveToBackByExpiry(s: State, list: seq<Hash>, h: Hash)
    requires SortedByExpiry(s - {h}, list)
    requires h in s ==> forall x :: x in list && x in s ==> s[x].conn.expiry <= s[h].conn.expiry
    ensures SortedByExpiry(s, Without(list, h) + [h])
  {
    WithoutSorted(s - {h}, list, h);
    var r := Without(list, h);
    forall i, j | 0 <= i < j < |r| && r[i] in s && r[j] in s ensures s[r[i]].conn.expiry <= s[r[j]].conn.expiry {
      assert r[i] in r && r[j] in r;
      assert r[i] in s - {h} && r[j] in s - {h};
    }
  }

  lemma MoveToBackByHeartbeat(s: State, list: seq<Hash>, h: Hash)
    requires SortedByHeartbeat(s - {h}, list)
    requires h in s ==> forall x :: x in list && x in s ==> s[x].conn.nextHeartbeat <= s[h].conn.nextHeartbeat
    ensures SortedByHeartbeat(s, Without(list, h) + [h])
  {
    WithoutSorted(s - {h}, list, h);
    var r := Without(list, h);
    forall i, j | 0 <= i < j < |r| && r[i] in s && r[j] in s
      ensures s[r[i]].conn.nextHeartbeat <= s[r[j]].conn.nextHeartbeat
    {
      assert r[i] in r && r[j] in r;
      assert r[i] in s - {h} && r[j] in s - {h};
    }
  }

  // ----- the store as a value

  datatype Lists = Lists(expiry: seq<Hash>, heartbeat: seq<Hash>)

  function Pushed(l: Lists, h: Hash): Lists { Lists(l.expiry + [h], l.heartbeat + [h]) }

  function Dropped(l: Lists, h: Hash): Lists { Lists(Without(l.expiry, h), Without(l.heartbeat, h)) }

  function Requeued(l: Lists, h: Hash, order: Option<OrderID>): Lists {
    if order == Some(EXPIRY) then l.(expiry := Without(l.expiry, h) + [h])
    else if order == Some(HEARTBEAT) then l.(heartbeat := Without(l.heartbeat, h) + [h])
    else l
  }

  /** Entries by hash, and for every group the two orders of its active and of its terminating map. */
  datatype View = View(entries: State, active: seq<Lists>, terminating: seq<Lists>) {
    function At(g: nat, b: bool): Lists
      requires g < |active| == |terminating|
    {
      if b then terminating[g] else active[g]
    }

    function With(g: nat, b: bool, l: Lists): View
      requires g < |active| == |terminating|
    {
      if b then this.(terminating := terminating[g := l]) else this.(active := active[g := l])
    }

    predicate Tracks(h: Hash) { h in entries && entries[h].group < |active| == |terminating| }

    /** addConnection. */
    function Added(h: Hash, e: Entry): View
      requires e.group < |active| == |terminating|
    {
      With(e.group, e.terminating, Pushed(At(e.group, e.terminating), h)).(entries := entries[h := e])
    }

    function SetConn(h: Hash, c: Conn): View
      requires h in entries
    {
      this.(entries := entries[h := entries[h].(conn := c)])
    }

    /** Removal from the map and its lists. */
    function Removed(h: Hash): View
      requires Tracks(h)
    {
      var e := entries[h];
      With(e.group, e.terminating, Dropped(At(e.group, e.terminating), h)).(entries := entries - {h})
    }

    /** setConnectionTerminating. */
    function Terminated(t: Tracker, h: Hash, now: int): View
      requires Tracks(h)
    {
      var e := entries[h];
      if e.terminating then this
      else Removed(h).Added(h, Entry(e.conn.(expiry := now + t.Scheduling(e.group).terminatingTimeout), e.group, true))
    }

    /** updateConnectionExpiryTime. */
    function Extended(t: Tracker, h: Hash, now: int): View
      requires Tracks(h)
    {
      var e := entries[h];
      if e.terminating then this
      else
        var l := At(e.group, false);
        With(e.group, false, l.(expiry := Without(l.expiry, h) + [h]))
          .SetConn(h, e.conn.(expiry := now + t.Scheduling(e.group).endConnectionTimeout))
    }

    /** updateNextHeartbeatTime. */
    function Rescheduled(t: Tracker, h: Hash, now: int): View
      requires Tracks(h)
    {
      var e := entries[h];
      if e.terminating then this
      else
        var l := At(e.group, false);
        With(e.group, false, l.(heartbeat := Without(l.heartbeat, h) + [h]))
          .SetConn(h, e.conn.(nextHeartbeat := now + t.Scheduling(e.group).heartbeatInterval))
    }
  }

  function EmptyView(groups: nat): View {
    View(map[], seq(groups, _ => Lists([], [])), seq(groups, _ => Lists([], [])))
  }

  /** The entry of h belongs to the active (or terminating) map of group g. */
  predicate InSlot(s: State, h: Hash, g: nat, b: bool) {
    h in s && s[h].group == g && s[h].terminating == b
  }

  function SlotMap(s: State, g: nat, b: bool): map<Hash, Conn> {
    map h | h in s && InSlot(s, h, g, b) :: s[h].conn
  }

  predicate HasOrders(orders: map<OrderID, seq<Hash>>, l: Lists) {
    orders.Keys == {EXPIRY, HEARTBEAT} && orders[EXPIRY] == l.expiry && orders[HEARTBEAT] == l.heartbeat
  }

  predicate Sized(v: View, n: nat) { |v.active| == |v.terminating| == n }

  /** Two views agree on one multi-ordered map. */
  predicate SameSlot(v: View, v': View, g: nat, b: bool) {
    Sized(v, |v.active|) && Sized(v', |v.active|) && g < |v.active| &&
    v.At(g, b) == v'.At(g, b) && SlotMap(v.entries, g, b) == SlotMap(v'.entries, g, b)
  }

  /** Nothing but the slot of one group and phase differs. */
  ghost predicate SameElsewhere(v: View, v': View, g0: nat, b0: bool) {
    forall g, b :: 0 <= g < |v.active| && (g != g0 || b != b0) ==> SameSlot(v, v', g, b)
  }

  lemma AddedSlots(v: View, h: Hash, e: Entry)
    requires Sized(v, |v.active|) && e.group < |v.active| && h !in v.entries
    ensures SameElsewhere(v, v.Added(h, e), e.group, e.terminating)
    ensures SlotMap(v.Added(h, e).entries, e.group, e.terminating)
      == SlotMap(v.entries, e.group, e.terminating)[h := e.conn]
  {
    var v' := v.Added(h, e);
    forall g, b | 0 <= g < |v.active| && (g != e.group || b != e.terminating) ensures SameSlot(v, v', g, b) {
      assert forall x :: InSlot(v.entries, x, g, b) <==> InSlot(v'.entries, x, g, b);
    }
  }

  lemma RemovedSlots(v: View, h: Hash)
    requires v.Tracks(h)
    ensures var e := v.entries[h];
      && SameElsewhere(v, v.Removed(h), e.group, e.terminating)
      && SlotMap(v.Removed(h).entries, e.group, e.terminating) == SlotMap(v.entries, e.group, e.terminating) - {h}
  {
  }

  /** A change of the connection and of the order of the lists of one slot. */
  lemma ChangedSlots(v: View, v': View, h: Hash, c: Conn, l: Lists)
    requires v.Tracks(h)
    requires v' == v.With(v.entries[h].group, v.entries[h].terminating, l).SetConn(h, c)
    ensures var e := v.entries[h];
      && Sized(v', |v.active|)
      && SameElsewhere(v, v', e.group, e.terminating)
      && v'.At(e.group, e.terminating) == l
      && SlotMap(v'.entries, e.group, e.terminating) == SlotMap(v.entries, e.group, e.terminating)[h := c]
  {
  }

  // ----- the lists stay sorted

  ghost predicate Coherent(v: View) {
    && Sized(v, |v.active|)
    && (forall h :: h in v.entries ==> v.Tracks(h))
    && forall g, b :: 0 <= g < |v.active| ==>
      && NoDup(v.At(g, b).expiry) && NoDup(v.At(g, b).heartbeat)
      && forall h :: (h in v.At(g, b).expiry <==> InSlot(v.entries, h, g, b)) &&
                     (h in v.At(g, b).heartbeat <==> InSlot(v.entries, h, g, b))
  }

  ghost predicate ExpiryOrdered(v: View, s: State)
    requires Sized(v, |v.active|)
  {
    forall g, b :: 0 <= g < |v.active| ==> SortedByExpiry(s, v.At(g, b).expiry)
  }

  ghost predicate HeartbeatOrdered(v: View, s: State) {
    forall g :: 0 <= g < |v.active| ==> SortedByHeartbeat(s, v.active[g].heartbeat)
  }

  /** The reachable views: every expiry list sorted, every active heartbeat list sorted. */
  ghost predicate Ordered(t: Tracker, v: View, now: int) {
    Coherent(v) && ExpiryOrdered(v, v.entries) && HeartbeatOrdered(v, v.entries) && Timely(t, v.entries, now)
  }

  /** Traffic on an active connection: its new deadline is the latest of its group, so the back is its place. */
  lemma ExtendedOrdered(t: Tracker, v: View, h: Hash, now: int)
    requires Sized(v, |v.active|) && v.Tracks(h) && !v.entries[h].terminating
    requires ExpiryOrdered(v, v.entries - {h}) && HeartbeatOrdered(v, v.entries)
    requires Coherent(v) && Timely(t, v.entries - {h}, now)
    ensures var v' := v.Extended(t, h, now);
      Sized(v', |v.active|) && ExpiryOrdered(v', v'.entries) && HeartbeatOrdered(v', v'.entries)
  {
    var v' := v.Extended(t, h, now);
    var e := v.entries[h];
    assert v'.entries - {h} == v.entries - {h};
    forall g, b | 0 <= g < |v.active| ensures SortedByExpiry(v'.entries, v'.At(g, b).expiry) {
      assert SortedByExpiry(v.entries - {h}, v.At(g, b).expiry);
      if g == e.group && !b {
        assert SortedByExpiry(v'.entries - {h}, v.At(g, b).expiry);
        MoveToBackByExpiry(v'.entries, v.At(g, b).expiry, h);
      } else {
        assert h !in v.At(g, b).expiry;
      }
    }
  }

  lemma RescheduledOrdered(t: Tracker, v: View, h: Hash, now: int)
    requires Sized(v, |v.active|) && v.Tracks(h) && !v.entries[h].terminating
    requires HeartbeatOrdered(v, v.entries - {h})
    requires Coherent(v) && Timely(t, v.entries - {h}, now)
    ensures var v' := v.Rescheduled(t, h, now); Sized(v', |v.active|) && HeartbeatOrdered(v', v'.entries)
  {
    var v' := v.Rescheduled(t, h, now);
    var e := v.entries[h];
    assert v'.entries - {h} == v.entries - {h};
    forall g | 0 <= g < |v.active| ensures SortedByHeartbeat(v'.entries, v'.active[g].heartbeat) {
      assert SortedByHeartbeat(v.entries - {h}, v.active[g].heartbeat);
      if g == e.group {
        assert SortedByHeartbeat(v'.entries - {h}, v.active[g].heartbeat);
        assert v.At(g, false) == v.active[g];
        MoveToBackByHeartbeat(v'.entries, v.active[g].heartbeat, h);
      } else {
        assert h !in v.At(g, false).heartbeat;
      }
    }
  }

  lemma RemovedOrdered(t: Tracker, v: View, h: Hash, now: int)
    requires v.Tracks(h) && Ordered(t, v, now)
    ensures Ordered(t, v.Removed(h), now)
  {
    RemovedCoherent(v, h);
    forall g, b | 0 <= g < |v.active| ensures SortedByExpiry(v.entries - {h}, v.At(g, b).expiry) {
      assert SortedByExpiry(v.entries, v.At(g, b).expiry);
    }
    RemovedStaysOrdered(v, h);
  }

  /** Removing an entry keeps the lists sorted, even if its own deadline is out of place. */
  lemma RemovedStaysOrdered(v: View, h: Hash)
    requires Coherent(v) && v.Tracks(h)
    requires ExpiryOrdered(v, v.entries - {h}) && HeartbeatOrdered(v, v.entries)
    ensures var r := v.Removed(h);
      Sized(r, |v.active|) && ExpiryOrdered(r, r.entries) && HeartbeatOrdered(r, r.entries)
  {
    var r := v.Removed(h);
    forall g, b | 0 <= g < |v.active| ensures SortedByExpiry(r.entries, r.At(g, b).expiry) {
      assert SortedByExpiry(v.entries - {h}, v.At(g, b).expiry);
      WithoutSorted(v.entries - {h}, v.At(g, b).expiry, h);
    }
    forall g | 0 <= g < |v.active| ensures SortedByHeartbeat(r.entries, r.active[g].heartbeat) {
      assert SortedByHeartbeat(v.entries, v.active[g].heartbeat);
      WithoutSorted(v.entries, v.active[g].heartbeat, h);
    }
  }

  lemma RemovedCoherent(v: View, h: Hash)
    requires v.Tracks(h) && Coherent(v)
    ensures Coherent(v.Removed(h))
  {
    var v' := v.Removed(h);
    forall g, b | 0 <= g < |v.active|
      ensures NoDup(v'.At(g, b).expiry) && NoDup(v'.At(g, b).heartbeat)
      ensures forall x :: (x in v'.At(g, b).expiry <==> InSlot(v'.entries, x, g, b)) &&
                          (x in v'.At(g, b).heartbeat <==> InSlot(v'.entries, x, g, b))
    {
      assert NoDup(v.At(g, b).expiry) && NoDup(v.At(g, b).heartbeat);
      WithoutNoDup(v.At(g, b).expiry, h);
      WithoutNoDup(v.At(g, b).heartbeat, h);
    }
  }

  lemma AddedCoherent(v: View, h: Hash, e: Entry)
    requires Coherent(v) && e.group < |v.active| && h !in v.entries
    ensures Coherent(v.Added(h, e))
  {
    var v' := v.Added(h, e);
    forall g, b | 0 <= g < |v.active|
      ensures NoDup(v'.At(g, b).expiry) && NoDup(v'.At(g, b).heartbeat)
      ensures forall x :: (x in v'.At(g, b).expiry <==> InSlot(v'.entries, x, g, b)) &&
                          (x in v'.At(g, b).heartbeat <==> InSlot(v'.entries, x, g, b))
    {
      assert NoDup(v.At(g, b).expiry) && NoDup(v.At(g, b).heartbeat);
      assert !InSlot(v.entries, h, g, b);
    }
  }

  /** A connection put at the back disturbs nothing if it is the latest of its list, or is not looked at. */
  lemma AddedOrdered(v: View, h: Hash, e: Entry, s: State)
    requires Coherent(v) && e.group < |v.active| && h !in v.entries
    requires ExpiryOrdered(v, v.entries) && HeartbeatOrdered(v, v.entries)
    requires s == v.entries || s == v.entries[h := e]
    requires h in s ==> e.terminating
    requires h in s ==> forall x :: InSlot(v.entries, x, e.group, true) ==> v.entries[x].conn.expiry <= e.conn.expiry
    ensures var v' := v.Added(h, e); Sized(v', |v.active|) && ExpiryOrdered(v', s) && HeartbeatOrdered(v', s)
  {
    var v' := v.Added(h, e);
    forall g, b | 0 <= g < |v.active| ensures SortedByExpiry(s, v'.At(g, b).expiry) {
      var l := v.At(g, b).expiry;
      assert SortedByExpiry(v.entries, l) && forall x :: x in l ==> InSlot(v.entries, x, g, b);
      SeenFrom(v.entries, s, l);
      AppendSorted(s, l, h);
    }
    forall g | 0 <= g < |v.active| ensures SortedByHeartbeat(s, v'.active[g].heartbeat) {
      var l := v.active[g].heartbeat;
      assert SortedByHeartbeat(v.entries, l) && v.At(g, false) == v.active[g];
      assert forall x :: x in l ==> InSlot(v.entries, x, g, false);
      SeenFrom(v.entries, s, l);
      AppendSorted(s, l, h);
    }
  }

  lemma SeenFrom(s: State, s': State, list: seq<Hash>)
    requires forall x :: x in list && x in s' ==> x in s && s[x] == s'[x]
    ensures SortedByExpiry(s, list) ==> SortedByExpiry(s', list)
    ensures SortedByHeartbeat(s, list) ==> SortedByHeartbeat(s', list)
  {
    forall i | 0 <= i < |list| && list[i] in s' ensures list[i] in s && s[list[i]] == s'[list[i]] {
      assert list[i] in list;
    }
  }

  lemma AppendSorted(s: State, list: seq<Hash>, h: Hash)
    ensures SortedByExpiry(s, list) &&
      (h in s ==> forall x :: x in list && x in s ==> s[x].conn.expiry <= s[h].conn.expiry)
      ==> SortedByExpiry(s, list + [h])
    ensures SortedByHeartbeat(s, list) && h !in s ==> SortedByHeartbeat(s, list + [h])
  {
    forall i | 0 <= i < |list| ensures list[i] in list {
    }
  }

  /** A FIN: the connection leaves the active map for the back of the terminating one. */
  lemma TerminatedOrdered(t: Tracker, v: View, h: Hash, now: int)
    requires Coherent(v) && v.Tracks(h) && !v.entries[h].terminating
    requires ExpiryOrdered(v, v.entries - {h}) && HeartbeatOrdered(v, v.entries)
    requires Timely(t, v.entries - {h}, now)
    ensures Ordered(t, v.Terminated(t, h, now), now)
  {
    var e := v.entries[h];
    var r := v.Removed(h);
    var e' := Entry(e.conn.(expiry := now + t.Scheduling(e.group).terminatingTimeout), e.group, true);
    RemovedCoherent(v, h);
    RemovedStaysOrdered(v, h);
    AddedCoherent(r, h, e');
    AddedOrdered(r, h, e', r.entries[h := e']);
  }

  /** A change that touches neither times nor place. */
  lemma SetConnOrdered(t: Tracker, v: View, h: Hash, c: Conn, s: State)
    requires Coherent(v) && h in v.entries
    requires c.expiry == v.entries[h].conn.expiry && c.nextHeartbeat == v.entries[h].conn.nextHeartbeat
    requires s == v.entries || s == v.entries - {h}
    requires ExpiryOrdered(v, s) && HeartbeatOrdered(v, v.entries)
    ensures var v', s' := v.SetConn(h, c), if s == v.entries then v.SetConn(h, c).entries else s;
      Coherent(v') && ExpiryOrdered(v', s') && HeartbeatOrdered(v', v'.entries)
  {
    var v' := v.SetConn(h, c);
    forall g, b, x | 0 <= g < |v.active| ensures InSlot(v.entries, x, g, b) <==> InSlot(v'.entries, x, g, b) {
    }
    forall g, b | 0 <= g < |v.active| ensures v'.At(g, b) == v.At(g, b) && SortedByExpiry(s, v.At(g, b).expiry) {
    }
    forall g | 0 <= g < |v.active| ensures SortedByHeartbeat(v.entries, v'.active[g].heartbeat) {
      assert v'.active[g] == v.active[g];
    }
  }

  /** Moving within a list changes no membership. */
  lemma RequeuedCoherent(t: Tracker, v: View, h: Hash, now: int)
    requires Coherent(v) && v.Tracks(h)
    ensures Coherent(v.Extended(t, h, now)) && Coherent(v.Rescheduled(t, h, now))
  {
    var e := v.entries[h];
    if !e.terminating {
      var l := v.At(e.group, false);
      assert InSlot(v.entries, h, e.group, false);
      WithoutNoDup(l.expiry, h);
      WithoutNoDup(l.heartbeat, h);
      PermutedCoherent(v, h, v.Extended(t, h, now).entries[h].conn, l.(expiry := Without(l.expiry, h) + [h]));
      PermutedCoherent(v, h, v.Rescheduled(t, h, now).entries[h].conn, l.(heartbeat := Without(l.heartbeat, h) + [h]));
    }
  }

  lemma PermutedCoherent(v: View, h: Hash, c: Conn, l: Lists)
    requires Coherent(v) && v.Tracks(h) && NoDup(l.expiry) && NoDup(l.heartbeat)
    requires forall x :: x in l.expiry <==> x in v.At(v.entries[h].group, v.entries[h].terminating).expiry
    requires forall x :: x in l.heartbeat <==> x in v.At(v.entries[h].group, v.entries[h].terminating).heartbeat
    ensures Coherent(v.With(v.entries[h].group, v.entries[h].terminating, l).SetConn(h, c))
  {
    var v' := v.With(v.entries[h].group, v.entries[h].terminating, l).SetConn(h, c);
    forall g, b | 0 <= g < |v.active|
      ensures NoDup(v'.At(g, b).expiry) && NoDup(v'.At(g, b).heartbeat)
      ensures forall x :: (x in v'.At(g, b).expiry <==> InSlot(v'.entries, x, g, b)) &&
                          (x in v'.At(g, b).heartbeat <==> InSlot(v'.entries, x, g, b))
    {
      assert NoDup(v.At(g, b).expiry);
      assert forall x :: InSlot(v'.entries, x, g, b) <==> InSlot(v.entries, x, g, b);
    }
  }

  // ----- the store's part of one flow log

  function Aggregated(t: Tracker, e: Entry, fl: GenericMap, th: TotalHash, isNew: bool): Conn {
    e.conn.(agg := AllUpdated(t.lib, t.aggs, e.conn.agg, fl, DirectionOf(t.cfg, e.conn.hash, th), isNew))
  }

  /** updateConnection on the store: aggregates, then either termination or a new deadline. */
  function Touched(t: Tracker, v: View, h: Hash, now: int, fl: GenericMap, th: TotalHash, isNew: bool): View
    requires v.Tracks(h)
  {
    var v1 := v.SetConn(h, Aggregated(t, v.entries[h], fl, th, isNew));
    if t.EndsConnection(fl) then v1.Terminated(t, h, now) else v1.Extended(t, h, now)
  }

  lemma TouchedEntries(t: Tracker, v: View, h: Hash, now: int, fl: GenericMap, th: TotalHash, isNew: bool)
    requires v.Tracks(h)
    ensures Touched(t, v, h, now, fl, th, isNew).entries == v.entries[h := Touch(t, v.entries[h], now, fl, th, isNew)]
  {
  }

  /** Lists stay sorted through a flow log; a new connection may enter with its deadline still unset. */
  lemma TouchedOrdered(t: Tracker, v: View, h: Hash, now: int, fl: GenericMap, th: TotalHash, isNew: bool, s: State)
    requires t.Valid() && Coherent(v) && v.Tracks(h)
    requires s == v.entries || (s == v.entries - {h} && !v.entries[h].terminating)
    requires ExpiryOrdered(v, s) && HeartbeatOrdered(v, v.entries)
    requires Timely(t, s, now) && (!v.entries[h].terminating ==>
               v.entries[h].conn.nextHeartbeat <= now + t.Scheduling(v.entries[h].group).heartbeatInterval)
    ensures Ordered(t, Touched(t, v, h, now, fl, th, isNew), now)
  {
    var c := Aggregated(t, v.entries[h], fl, th, isNew);
    var v1 := v.SetConn(h, c);
    SetConnOrdered(t, v, h, c, s);
    if v.entries[h].terminating {
      assert Touched(t, v, h, now, fl, th, isNew) == v1;
    } else {
      assert v1.entries - {h} == v.entries - {h};
      forall g, b | 0 <= g < |v.active| ensures SortedByExpiry(v1.entries - {h}, v1.At(g, b).expiry) {
        assert SortedByExpiry(if s == v.entries then v1.entries else s, v1.At(g, b).expiry);
      }
      ActiveTouchedOrdered(t, v1, h, now);
    }
  }

  lemma ActiveTouchedOrdered(t: Tracker, v: View, h: Hash, now: int)
    requires t.Valid() && Coherent(v) && v.Tracks(h) && !v.entries[h].terminating
    requires ExpiryOrdered(v, v.entries - {h}) && HeartbeatOrdered(v, v.entries) && Timely(t, v.entries - {h}, now)
    requires v.entries[h].conn.nextHeartbeat <= now + t.Scheduling(v.entries[h].group).heartbeatInterval
    ensures Ordered(t, v.Terminated(t, h, now), now) && Ordered(t, v.Extended(t, h, now), now)
  {
    TerminatedOrdered(t, v, h, now);
    ExtendedOrdered(t, v, h, now);
    RequeuedCoherent(t, v, h, now);
    var s, s' := v.entries, v.Extended(t, h, now).entries;
    forall x | x in s' && x != h ensures x in s - {h} && s'[x] == s[x] && (s - {h})[x] == s[x] {
    }
  }

  lemma OpenedOrdered(t: Tracker, v: View, h: Hash, c: Conn, g: nat, now: int)
    requires t.Valid() && Ordered(t, v, now) && h !in v.entries && g < |v.active|
    ensures var v' := v.Added(h, Entry(c, g, false)).Rescheduled(t, h, now);
      && Coherent(v') && v'.Tracks(h) && ExpiryOrdered(v', v'.entries - {h}) && HeartbeatOrdered(v', v'.entries)
      && v'.entries == v.entries[h := Entry(c.(nextHeartbeat := now + t.Scheduling(g).heartbeatInterval), g, false)]
  {
    var e := Entry(c, g, false);
    var v1 := v.Added(h, e);
    var v' := v1.Rescheduled(t, h, now);
    AddedCoherent(v, h, e);
    AddedOrdered(v, h, e, v.entries);
    assert v1.entries - {h} == v.entries;
    RescheduledOrdered(t, v1, h, now);
    RequeuedCoherent(t, v1, h, now);
    assert v'.entries - {h} == v.entries;
    forall g', b | 0 <= g' < |v.active| ensures SortedByExpiry(v'.entries - {h}, v'.At(g', b).expiry) {
      assert SortedByExpiry(v.entries, v1.At(g', b).expiry) && v'.At(g', b).expiry == v1.At(g', b).expiry;
    }
  }

  // ----- scanning a sorted list from the front

  lemma WithoutHead(list: seq<Hash>)
    requires list != [] && NoDup(list)
    ensures Without(list, list[0]) == list[1..]
  {
    WithoutIsSlice(list, list[0], 0);
  }

  /** The first k elements of a list have expired, and popped holds their connections. */
  predicate Scanned(s: State, list: seq<Hash>, k: nat, popped: seq<Conn>, now: int) {
    k <= |list| && |popped| == k &&
    forall i :: 0 <= i < k ==> list[i] in s && now > s[list[i]].conn.expiry && popped[i] == s[list[i]].conn
  }

  /** One step of the scan: the saved next element is the new front. */
  lemma ScanStep(s: State, list: seq<Hash>, k: nat, popped: seq<Conn>, conn: Conn, now: int)
    requires Scanned(s, list, k, popped, now) && NoDup(list) && k < |list|
    requires list[k] in s && now > s[list[k]].conn.expiry && conn == s[list[k]].conn
    ensures Scanned(s, list, k + 1, popped + [conn], now)
    ensures s - Elems(list[..k]) - {list[k]} == s - Elems(list[..k+1])
    ensures list[k..][1..] == list[k+1..]
    ensures Next(list[k..], list[k]) == Front(list[k+1..])
  {
    assert list[..k+1] == list[..k] + [list[k]];
    assert list[k..][0] == list[k];
  }

  /** Stopping at the first live element misses nothing: the prefix before it is exactly the expired part. */
  lemma ScanExact(s: State, list: seq<Hash>, k: nat, popped: seq<Conn>, now: int)
    requires SortedByExpiry(s, list) && NoDup(list) && Scanned(s, list, k, popped, now)
    requires k < |list| ==> list[k] in s && now <= s[list[k]].conn.expiry
    ensures Scanned(s, list[..k], |list[..k]|, popped, now)
    ensures NoDup(list[..k]) && SortedByExpiry(s, list[..k])
    ensures forall h :: h in list[..k] <==> h in list && h in s && now > s[h].conn.expiry
  {
    forall j | k <= j < |list| && list[j] in s ensures now <= s[list[j]].conn.expiry {
      assert k < j ==> s[list[k]].conn.expiry <= s[list[j]].conn.expiry;
    }
    forall h | h in list && h in s && now > s[h].conn.expiry ensures h in list[..k] {
      assert list[IndexOf(list, h)] == h;
    }
  }

  /** The connections ended once all groups below g, and the terminating part of g if td, have been scanned. */
  predicate PoppedUpTo(s: State, hs: seq<Hash>, popped: seq<Conn>, g: nat, td: bool, now: int) {
    && NoDup(hs) && InPopOrder(s, hs) && Scanned(s, hs, |hs|, popped, now)
    && (forall h :: h in hs ==> h in Expired(s, now) && Visited(s[h], g, td))
    && (forall h :: h in Expired(s, now) && Visited(s[h], g, td) ==> h in hs)
  }

  predicate Visited(e: Entry, g: nat, td: bool) {
    e.group < g || (e.group == g && td && e.terminating)
  }

  /** What one scan of a slot yields. */
  predicate SlotPopped(s: State, hs: seq<Hash>, popped: seq<Conn>, g: nat, b: bool, now: int) {
    && NoDup(hs) && SortedByExpiry(s, hs) && Scanned(s, hs, |hs|, popped, now)
    && (forall h :: h in hs ==> InSlot(s, h, g, b))
    && (forall h :: h in s && InSlot(s, h, g, b) && now > s[h].conn.expiry ==> h in hs)
  }

  lemma MorePopped(s: State, hs: seq<Hash>, more: seq<Hash>, morePopped: seq<Conn>, g: nat, b: bool, now: int)
    requires SlotPopped(s - Elems(hs), more, morePopped, g, b, now)
    ensures forall i :: 0 <= i < |more| ==>
      more[i] in s && more[i] !in hs && InSlot(s, more[i], g, b) && now > s[more[i]].conn.expiry &&
      morePopped[i] == s[more[i]].conn
  {
    forall i | 0 <= i < |more|
      ensures more[i] in s && more[i] !in hs && InSlot(s, more[i], g, b)
    {
      assert more[i] in more && InSlot(s - Elems(hs), more[i], g, b);
    }
  }

  lemma AppendInPopOrder(s: State, hs: seq<Hash>, more: seq<Hash>, g: nat, b: bool)
    requires NoDup(hs) && InPopOrder(s, hs) && NoDup(more) && SortedByExpiry(s, more)
    requires forall h :: h in hs ==> h in s && Visited(s[h], g, !b)
    requires forall i :: 0 <= i < |more| ==> more[i] in s && more[i] !in hs && InSlot(s, more[i], g, b)
    ensures NoDup(hs + more) && InPopOrder(s, hs + more)
  {
    var all := hs + more;
    forall i, j | 0 <= i < j < |all|
      ensures all[i] != all[j] && all[i] in s && all[j] in s && PopsBefore(s[all[i]], s[all[j]])
    {
      if i < |hs| {
        assert hs[i] in hs;
        assert j < |hs| ==> hs[i] != hs[j] && PopsBefore(s[hs[i]], s[hs[j]]);
      } else {
        assert more[i - |hs|] != more[j - |hs|];
      }
    }
  }

  /** Popped so far, then one more slot: still in order, complete and without repetition. */
  lemma AppendPopped(
    s: State, hs: seq<Hash>, popped: seq<Conn>, more: seq<Hash>, morePopped: seq<Conn>, g: nat, b: bool, now: int)
    requires PoppedUpTo(s, hs, popped, g, !b, now)
    requires SlotPopped(s - Elems(hs), more, morePopped, g, b, now)
    ensures PoppedUpTo(s, hs + more, popped + morePopped, if b then g else g + 1, b, now)
    ensures s - Elems(hs) - Elems(more) == s - Elems(hs + more)
  {
    var g' := if b then g else g + 1;
    MorePopped(s, hs, more, morePopped, g, b, now);
    AppendInPopOrder(s, hs, more, g, b);
    assert Scanned(s, hs + more, |hs + more|, popped + morePopped, now);
    forall h ensures h in hs + more <==> h in Expired(s, now) && Visited(s[h], g', b) {
      if h in more {
        assert more[IndexOf(more, h)] == h;
      } else if h in Expired(s, now) && Visited(s[h], g', b) && h !in hs {
        assert InSlot(s - Elems(hs), h, g, b);
      }
    }
  }

  // ----- heartbeats: the list rotates under the iteration

  function Rearmed(t: Tracker, s: State, now: int, hs: seq<Hash>): State {
    map h | h in s ::
      if h in hs then s[h].(conn := s[h].conn.(nextHeartbeat := now + t.Scheduling(s[h].group).heartbeatInterval))
        else s[h]
  }

  /** The element the iteration visits after k rotations: after a full turn it meets the first one again. */
  function Upcoming(list: seq<Hash>, k: nat): Option<Hash> {
    if k < |list| then Some(list[k]) else if |list| > 1 then Some(list[0]) else None
  }

  lemma RotateStep(list: seq<Hash>, k: nat)
    requires k < |list| && NoDup(list)
    ensures var cur := list[k..] + list[..k];
      && list[k] in cur && cur[0] == list[k]
      && Without(cur, list[k]) + [list[k]] == list[k+1..] + list[..k+1]
      && Next(cur, list[k]) == Upcoming(list, k + 1)
  {
    var cur := list[k..] + list[..k];
    assert cur[0] == list[k];
    forall i, j | 0 <= i < j < |cur| ensures cur[i] != cur[j] {
    }
    WithoutHead(cur);
    assert cur[1..] == list[k+1..] + list[..k];
    assert list[..k+1] == list[..k] + [list[k]];
  }

  lemma RearmStep(t: Tracker, s: State, now: int, list: seq<Hash>, k: nat)
    requires k < |list| && NoDup(list) && list[k] in s
    ensures Rearmed(t, s, now, list[..k+1]) == Rearmed(t, s, now, list[..k])[list[k] :=
      s[list[k]].(conn := s[list[k]].conn.(nextHeartbeat := now + t.Scheduling(s[list[k]].group).heartbeatInterval))]
    ensures Rearmed(t, s, now, list[..k])[list[k]] == s[list[k]]
  {
    assert list[..k+1] == list[..k] + [list[k]];
    assert list[k] !in list[..k];
  }

  predicate DueIn(s: State, h: Hash, g: nat, now: int) { h in Due(s, now) && s[h].group == g }

  /** What one pass over the heartbeat order of a group yields. */
  predicate GroupBeaten(s: State, hs: seq<Hash>, g: nat, now: int) {
    && NoDup(hs) && SortedByHeartbeat(s, hs)
    && (forall h :: h in hs ==> DueIn(s, h, g, now))
    && (forall h :: h in s && DueIn(s, h, g, now) ==> h in hs)
  }

  // ----- one turn of the heartbeat loop

  /** After k turns: the first k elements are re-armed and sit, in order, behind the others. */
  ghost predicate Turned(t: Tracker, s: State, v: View, list: seq<Hash>, k: nat, g: nat, now: int) {
    && Sized(v, |v.active|) && g < |v.active| && k <= |list| && NoDup(list)
    && (forall h :: h in list <==> InSlot(s, h, g, false))
    && (forall i :: 0 <= i < k ==> DueIn(s, list[i], g, now))
    && v.entries == Rearmed(t, s, now, list[..k])
    && v.At(g, false).heartbeat == list[k..] + list[..k]
  }

  /** What the loop meets: a fresh element, or after a full turn one that is not due any more. */
  lemma TurnElement(t: Tracker, s: State, v: View, list: seq<Hash>, k: nat, g: nat, now: int, h: Hash)
    requires t.Valid() && g < |t.cfg.scheduling| && Turned(t, s, v, list, k, g, now) && Upcoming(list, k) == Some(h)
    ensures h in v.At(g, false).heartbeat && InSlot(v.entries, h, g, false) && v.Tracks(h)
    ensures k < |list| ==> v.entries[h] == s[h]
    ensures now > v.entries[h].conn.nextHeartbeat ==> k < |list|
  {
    assert h in list && h in list[k..] + list[..k] by {
      if k < |list| {
        assert (list[k..] + list[..k])[0] == h;
      } else {
        assert list[..k] == list;
      }
    }
    if k < |list| {
      assert h !in list[..k];
    } else {
      assert list[..k] == list;
      assert t.cfg.scheduling[g] in t.cfg.scheduling;
    }
  }

  lemma TurnStep(t: Tracker, s: State, v: View, list: seq<Hash>, k: nat, g: nat, now: int)
    requires Turned(t, s, v, list, k, g, now) && Ordered(t, v, now)
    requires k < |list| && v.Tracks(list[k]) && now > v.entries[list[k]].conn.nextHeartbeat
    ensures Turned(t, s, v.Rescheduled(t, list[k], now), list, k + 1, g, now)
    ensures Next(list[k..] + list[..k], list[k]) == Upcoming(list, k + 1)
    ensures list[..k] + [list[k]] == list[..k+1]
  {
    assert list[k] in list;
    RotateStep(list, k);
    RearmStep(t, s, now, list, k);
    forall i | 0 <= i < k + 1 ensures DueIn(s, list[i], g, now) {
    }
  }

  /** Stopping at the first element that is not due, or after a full turn, misses nothing. */
  lemma TurnsDone(t: Tracker, s: State, v: View, list: seq<Hash>, k: nat, g: nat, now: int)
    requires Turned(t, s, v, list, k, g, now) && SortedByHeartbeat(s, list)
    requires k < |list| ==> list[k] in s && now <= s[list[k]].conn.nextHeartbeat
    ensures GroupBeaten(s, list[..k], g, now)
  {
    forall j | k <= j < |list| ensures list[j] in s && now <= s[list[j]].conn.nextHeartbeat {
      assert list[j] in list && InSlot(s, list[j], g, false);
      assert k < j ==> s[list[k]].conn.nextHeartbeat <= s[list[j]].conn.nextHeartbeat;
    }
    forall h | h in s && DueIn(s, h, g, now) ensures h in list[..k] {
      assert InSlot(s, h, g, false) && list[IndexOf(list, h)] == h;
    }
  }

  lemma TurnsStart(t: Tracker, v: View, g: nat, now: int)
    requires Ordered(t, v, now) && g < |v.active|
    ensures var list := v.At(g, false).heartbeat;
      && Turned(t, v.entries, v, list, 0, g, now) && SortedByHeartbeat(v.entries, list)
      && Front(list) == Upcoming(list, 0) && list[..0] == []
  {
    var list := v.At(g, false).heartbeat;
    assert list[0..] + list[..0] == list && v.active[g] == v.At(g, false);
    assert Rearmed(t, v.entries, now, []) == v.entries;
  }

  /** The iteration ends at an element that is not due, or with the list. */
  lemma TurnsOver(t: Tracker, s: State, v: View, list: seq<Hash>, k: nat, g: nat, now: int)
    requires t.Valid() && g < |t.cfg.scheduling|
    requires Turned(t, s, v, list, k, g, now) && SortedByHeartbeat(s, list)
    requires var e := Upcoming(list, k);
      e.Some? ==> e.value in v.entries && now <= v.entries[e.value].conn.nextHeartbeat
    ensures GroupBeaten(s, list[..k], g, now)
  {
    if k < |list| {
      TurnElement(t, s, v, list, k, g, now, list[k]);
    }
    TurnsDone(t, s, v, list, k, g, now);
  }

  lemma RescheduledStaysOrdered(t: Tracker, v: View, h: Hash, now: int)
    requires Ordered(t, v, now) && v.Tracks(h) && !v.entries[h].terminating
    ensures Ordered(t, v.Rescheduled(t, h, now), now)
  {
    var v' := v.Rescheduled(t, h, now);
    forall g | 0 <= g < |v.active| ensures SortedByHeartbeat(v.entries - {h}, v.active[g].heartbeat) {
      assert SortedByHeartbeat(v.entries, v.active[g].heartbeat);
      SeenFrom(v.entries, v.entries - {h}, v.active[g].heartbeat);
    }
    RescheduledOrdered(t, v, h, now);
    RequeuedCoherent(t, v, h, now);
    forall g, b | 0 <= g < |v.active| ensures SortedByExpiry(v'.entries, v'.At(g, b).expiry) {
      assert SortedByExpiry(v.entries, v.At(g, b).expiry) && v'.At(g, b).expiry == v.At(g, b).expiry;
    }
  }

  predicate BeatenUpTo(s: State, hs: seq<Hash>, g: nat, now: int) {
    && NoDup(hs) && InBeatOrder(s, hs)
    && (forall h :: h in hs ==> h in Due(s, now) && s[h].group < g)
    && (forall h :: h in Due(s, now) && s[h].group < g ==> h in hs)
  }

  lemma NothingBeaten(t: Tracker, s: State, now: int)
    ensures BeatenUpTo(s, [], 0, now) && Rearmed(t, s, now, []) == s
  {
  }

  lemma AllBeaten(s: State, hs: seq<Hash>, n: nat, now: int)
    requires BeatenUpTo(s, hs, n, now) && forall h :: h in s ==> s[h].group < n
    ensures Enumerates(hs, Due(s, now)) && InBeatOrder(s, hs)
  {
    assert forall h :: h in Elems(hs) <==> h in Due(s, now);
  }

  lemma MoreBeaten(t: Tracker, s: State, hs: seq<Hash>, more: seq<Hash>, g: nat, now: int)
    requires BeatenUpTo(s, hs, g, now) && GroupBeaten(Rearmed(t, s, now, hs), more, g, now)
    ensures forall i :: 0 <= i < |more| ==> more[i] in s && more[i] !in hs && DueIn(s, more[i], g, now)
    ensures SortedByHeartbeat(s, more)
  {
    var r := Rearmed(t, s, now, hs);
    forall i | 0 <= i < |more|
      ensures more[i] in s && more[i] !in hs && DueIn(s, more[i], g, now) && r[more[i]] == s[more[i]]
    {
      assert more[i] in more && DueIn(r, more[i], g, now);
    }
    SeenFrom(r, s, more);
  }

  lemma AppendInBeatOrder(s: State, hs: seq<Hash>, more: seq<Hash>, g: nat, now: int)
    requires NoDup(hs) && InBeatOrder(s, hs) && NoDup(more) && SortedByHeartbeat(s, more)
    requires forall h :: h in hs ==> h in s && s[h].group < g
    requires forall i :: 0 <= i < |more| ==> more[i] in s && more[i] !in hs && DueIn(s, more[i], g, now)
    ensures NoDup(hs + more) && InBeatOrder(s, hs + more)
  {
    var all := hs + more;
    forall i, j | 0 <= i < j < |all|
      ensures all[i] != all[j] && all[i] in s && all[j] in s && BeatsBefore(s[all[i]], s[all[j]])
    {
      if i < |hs| {
        assert hs[i] in hs;
        assert j < |hs| ==> hs[i] != hs[j] && BeatsBefore(s[hs[i]], s[hs[j]]);
      } else {
        assert more[i - |hs|] != more[j - |hs|];
      }
    }
  }

  lemma AppendBeaten(t: Tracker, s: State, hs: seq<Hash>, more: seq<Hash>, g: nat, now: int)
    requires BeatenUpTo(s, hs, g, now) && GroupBeaten(Rearmed(t, s, now, hs), more, g, now)
    ensures BeatenUpTo(s, hs + more, g + 1, now)
    ensures Rearmed(t, Rearmed(t, s, now, hs), now, more) == Rearmed(t, s, now, hs + more)
  {
    MoreBeaten(t, s, hs, more, g, now);
    AppendInBeatOrder(s, hs, more, g, now);
    forall h | h in more ensures h !in hs && DueIn(s, h, g, now) {
      assert more[IndexOf(more, h)] == h;
    }
    forall h | h in Due(s, now) && s[h].group < g + 1 ensures h in hs + more {
      if h !in hs {
        assert DueIn(Rearmed(t, s, now, hs), h, g, now);
      }
    }
  }
}
