/** The connection store (store.go): scheduling groups of multi-ordered maps, refining a plain map of entries. */
module ConnTrackStore {
  import opened Common
  import opened ConnTrackConfig
  import opened ConnTrackHash
  import opened ConnTrackConn
  import opened ConnTrackSpec
  import opened ConnTrackView
  import opened MultiOrderedMaps

  type Mom = MultiOrderedMap<Conn>

  datatype Group = Group(scheduling: SchedulingGroup, activeMom: Mom, terminatingMom: Mom)

  class ConnectionStore {
    const t: Tracker
    const groups: seq<Group>
    var hashID2groupIdx: map<Hash, nat>
    ghost var view: View
    ghost const moms: set<Mom>

    function MomOf(g: nat, b: bool): Mom
      requires g < |groups|
    {
      if b then groups[g].terminatingMom else groups[g].activeMom
    }

    static ghost function Tag(g: nat, b: bool): nat {
      2 * g + if b then 1 else 0
    }

    /** The groups mirror the scheduling configuration and no two of their maps are the same object. */
    ghost predicate Separated() {
      && 0 < |groups| == |t.cfg.scheduling|
      && (forall g :: 0 <= g < |groups| ==> groups[g].scheduling == t.cfg.scheduling[g])
      && (forall g, b :: 0 <= g < |groups| ==> MomOf(g, b) in moms && MomOf(g, b).tag == Tag(g, b))
    }

    /** The index knows exactly the tracked hashes, with the group of each. */
    ghost predicate Indexed()
      reads this
    {
      && Sized(view, |groups|)
      && hashID2groupIdx.Keys == view.entries.Keys
      && (forall h :: h in view.entries ==>
            hashID2groupIdx[h] == view.entries[h].group < |groups| && view.entries[h].conn.hash.hashTotal == h)
    }

    /** The multi-ordered map of a slot holds exactly the entries of its group and phase, in the listed orders. */
    ghost predicate Backs(g: nat, b: bool, v: View)
      requires g < |groups|
      reads MomOf(g, b)
    {
      && Sized(v, |groups|)
      && MomOf(g, b).Valid() && MomOf(g, b).m == SlotMap(v.entries, g, b) && HasOrders(MomOf(g, b).orders, v.At(g, b))
    }

    /** The index is right, and every map backs its slot. */
    ghost predicate Valid()
      reads this, moms
    {
      Separated() && Indexed() && forall g, b :: 0 <= g < |groups| ==> Backs(g, b, view)
    }

    /** A hash is indexed exactly when some map holds it; that map is the only one, and its group is the one indexed. */
    lemma IndexedOnce(h: Hash)
      requires Valid()
      ensures h in hashID2groupIdx <==> exists g: nat, b :: g < |groups| && h in MomOf(g, b).m
      ensures forall g: nat, b :: g < |groups| && h in MomOf(g, b).m ==>
        hashID2groupIdx[h] == g && h !in MomOf(g, !b).m
    {
      forall g: nat, b | g < |groups| && h in MomOf(g, b).m
        ensures h in hashID2groupIdx && hashID2groupIdx[h] == g && h !in MomOf(g, !b).m
      {
        assert Backs(g, b, view) && Backs(g, !b, view);
      }
      if h in hashID2groupIdx {
        var e := view.entries[h];
        assert Backs(e.group, e.terminating, view) && h in MomOf(e.group, e.terminating).m;
      }
    }

    constructor (t: Tracker)
      requires 0 < |t.cfg.scheduling|
      ensures Valid() && fresh(moms) && this.t == t
      ensures view == EmptyView(|groups|)
    {
      var gs: seq<Group> := [];
      ghost var all: set<Mom> := {};
      for i := 0 to |t.cfg.scheduling|
        invariant |gs| == i && fresh(all)
        invariant forall g :: 0 <= g < i ==> NewGroup(gs[g], t.cfg.scheduling[g], g, all)
      {
        var active := new MultiOrderedMap<Conn>([EXPIRY, HEARTBEAT], Tag(i, false));
        var terminating := new MultiOrderedMap<Conn>([EXPIRY, HEARTBEAT], Tag(i, true));
        all := all + {active, terminating};
        gs := gs + [Group(t.cfg.scheduling[i], active, terminating)];
      }
      this.t, groups, hashID2groupIdx := t, gs, map[];
      moms := all;
      view := EmptyView(|gs|);
    }

    static ghost predicate EmptyMom(m: Mom)
      reads m
    {
      m.Valid() && m.m == map[] && m.orders == map[EXPIRY := [], HEARTBEAT := []]
    }

    static ghost predicate NewGroup(group: Group, sg: SchedulingGroup, g: nat, all: set<Mom>)
      reads group.activeMom, group.terminatingMom
    {
      && group.scheduling == sg && EmptyMom(group.activeMom) && EmptyMom(group.terminatingMom)
      && group.activeMom.tag == Tag(g, false) && group.terminatingMom.tag == Tag(g, true)
      && group.activeMom in all && group.terminatingMom in all
    }

    /** An operation on one slot: every other map still backs its slot. */
    lemma Reslot(v: View, v': View, g0: nat, b0: bool)
      requires Separated() && g0 < |groups| && Sized(v, |groups|) && Backs(g0, b0, v')
      requires forall g, b :: 0 <= g < |groups| && (g != g0 || b != b0) ==> Backs(g, b, v)
      requires SameElsewhere(v, v', g0, b0)
      ensures forall g, b :: 0 <= g < |groups| ==> Backs(g, b, v')
    {
      forall g, b | 0 <= g < |groups| ensures Backs(g, b, v') {
        if g != g0 || b != b0 {
          assert Backs(g, b, v) && SameSlot(v, v', g, b);
        }
      }
    }

    /** getGroupIdx. The fall-through of the original is unreachable: the last selector matches everything. */
    method GetGroupIdx(keys: GenericMap) returns (groupIdx: nat)
      requires Valid() && LastIsDefault(t.cfg.scheduling)
      ensures groupIdx == t.GroupOf(keys) < |groups|
    {
      for i := 0 to |groups|
        invariant t.GroupOf(keys) == t.FirstMatch(keys, i)
        invariant i == |groups| ==> !SelectorMatches(t.lib, keys, groups[i-1].scheduling.selector)
      {
        var m := IsMatchSelector(t.lib, keys, groups[i].scheduling.selector);
        if m {
          return i;
        }
      }
      assert false;
    }

    lemma DifferentMaps(g0: nat, b0: bool)
      requires Separated() && g0 < |groups|
      ensures forall g, b :: 0 <= g < |groups| && (g != g0 || b != b0) ==> MomOf(g, b) != MomOf(g0, b0)
    {
      forall g, b | 0 <= g < |groups| && (g != g0 || b != b0) ensures MomOf(g, b) != MomOf(g0, b0) {
        assert MomOf(g, b).tag == Tag(g, b) && MomOf(g0, b0).tag == Tag(g0, b0);
      }
    }

    ghost predicate AllBacked()
      reads this, moms
    {
      Separated() && Sized(view, |groups|) && forall g, b :: 0 <= g < |groups| ==> Backs(g, b, view)
    }

    method AddTo(g: nat, b: bool, h: Hash, conn: Conn)
      requires AllBacked() && g < |groups| && h !in view.entries
      modifies this`view, moms
      ensures AllBacked() && view == old(view).Added(h, Entry(conn, g, b))
    {
      DifferentMaps(g, b);
      var mom := MomOf(g, b);
      assert Backs(g, b, view);
      var err := mom.AddRecord(h, conn);
      assert err.NoError?;
      ghost var v := view;
      forall g', b' | 0 <= g' < |groups| && (g' != g || b' != b) ensures Backs(g', b', v) {
        assert old(Backs(g', b', view));
      }
      AddedSlots(v, h, Entry(conn, g, b));
      view := v.Added(h, Entry(conn, g, b));
      Reslot(v, view, g, b);
    }

    method RemoveFrom(g: nat, b: bool, h: Hash)
      requires AllBacked() && g < |groups| && InSlot(view.entries, h, g, b)
      modifies this`view, moms
      ensures AllBacked() && view == old(view).Removed(h)
    {
      DifferentMaps(g, b);
      var mom := MomOf(g, b);
      assert Backs(g, b, view);
      mom.RemoveRecord(h);
      ghost var v := view;
      forall g', b' | 0 <= g' < |groups| && (g' != g || b' != b) ensures Backs(g', b', v) {
        assert old(Backs(g', b', view));
      }
      RemovedSlots(v, h);
      view := v.Removed(h);
      Reslot(v, view, g, b);
    }

    /** Writes a changed connection back and, if an order is given, moves it to the back of that order. */
    method Change(g: nat, b: bool, h: Hash, conn: Conn, order: Option<OrderID>)
      requires AllBacked() && g < |groups| && InSlot(view.entries, h, g, b)
      requires order.Some? ==> order.value in {EXPIRY, HEARTBEAT}
      modifies this`view, moms
      ensures AllBacked()
      ensures view == old(view).With(g, b, Requeued(old(view).At(g, b), h, order)).SetConn(h, conn)
    {
      DifferentMaps(g, b);
      ghost var v, l := view, Requeued(view.At(g, b), h, order);
      assert Backs(g, b, view);
      ChangeRecord(MomOf(g, b), h, conn, order, v.At(g, b));
      forall g', b' | 0 <= g' < |groups| && (g' != g || b' != b) ensures Backs(g', b', v) {
        assert old(Backs(g', b', view));
      }
      view := v.With(g, b, l).SetConn(h, conn);
      ChangedSlots(v, view, h, conn, l);
      Reslot(v, view, g, b);
    }

    static method ChangeRecord(mom: Mom, h: Hash, conn: Conn, order: Option<OrderID>, ghost l: Lists)
      requires mom.Valid() && h in mom.m && HasOrders(mom.orders, l)
      requires order.Some? ==> order.value in {EXPIRY, HEARTBEAT}
      modifies mom
      ensures mom.Valid() && mom.m == old(mom.m)[h := conn] && HasOrders(mom.orders, Requeued(l, h, order))
    {
      mom.SetRecord(h, conn);
      if order.Some? {
        var err := mom.MoveToBack(h, order.value);
        assert err.NoError?;
      }
    }

    method AddConnection(h: Hash, conn: Conn)
      requires Valid() && LastIsDefault(t.cfg.scheduling)
      requires h !in view.entries && conn.hash.hashTotal == h
      modifies this, moms
      ensures Valid() && t.GroupOf(conn.keys) < |groups|
      ensures view == old(view).Added(h, Entry(conn, t.GroupOf(conn.keys), false))
    {
      var groupIdx := GetGroupIdx(conn.keys);
      AddTo(groupIdx, false, h, conn);
      hashID2groupIdx := hashID2groupIdx[h := groupIdx];
    }

    method SetConnectionTerminating(h: Hash, now: int)
      requires Valid() && h in view.entries
      modifies this`view, moms
      ensures Valid() && view == old(view).Terminated(t, h, now)
    {
      var conn, active := GetConnection(h);
      if !active {
        return;
      }
      var groupIdx := hashID2groupIdx[h];
      var timeout := groups[groupIdx].scheduling.terminatingTimeout;
      RemoveFrom(groupIdx, false, h);
      AddTo(groupIdx, true, h, conn.value.(expiry := now + timeout));
    }

    method UpdateConnectionExpiryTime(h: Hash, now: int)
      requires Valid() && h in view.entries
      modifies this`view, moms
      ensures Valid() && view == old(view).Extended(t, h, now)
    {
      var conn, active := GetConnection(h);
      if !active {
        return;
      }
      var groupIdx := hashID2groupIdx[h];
      var timeout := groups[groupIdx].scheduling.endConnectionTimeout;
      Change(groupIdx, false, h, conn.value.(expiry := now + timeout), Some(EXPIRY));
    }

    method UpdateNextHeartbeatTime(h: Hash, now: int)
      requires Valid() && h in view.entries
      modifies this`view, moms
      ensures Valid() && view == old(view).Rescheduled(t, h, now)
    {
      var conn, active := GetConnection(h);
      if !active {
        return;
      }
      var groupIdx := hashID2groupIdx[h];
      var timeout := groups[groupIdx].scheduling.heartbeatInterval;
      Change(groupIdx, false, h, conn.value.(nextHeartbeat := now + timeout), Some(HEARTBEAT));
    }

    /** A change made to a connection through its pointer. */
    method SetConnection(h: Hash, conn: Conn)
      requires Valid() && h in view.entries && conn.hash == view.entries[h].conn.hash
      modifies this`view, moms
      ensures Valid() && view == old(view).SetConn(h, conn)
    {
      var _, active := GetConnection(h);
      ghost var l := view.At(hashID2groupIdx[h], !active);
      Change(hashID2groupIdx[h], !active, h, conn, None);
      assert old(view).With(hashID2groupIdx[h], !active, l) == old(view);
    }

    /** Finds a connection, and whether it is active, in the maps of its group. */
    method GetConnection(h: Hash) returns (r: Option<Conn>, running: bool)
      requires Valid()
      ensures r == if h in view.entries then Some(view.entries[h].conn) else None
      ensures r.Some? ==> running == !view.entries[h].terminating
    {
      if h !in hashID2groupIdx {
        return None, false;
      }
      var g := hashID2groupIdx[h];
      assert Backs(g, false, view) && Backs(g, true, view);
      r, running := MomOf(g, false).GetRecord(h), true;
      if r.None? {
        r, running := MomOf(g, true).GetRecord(h), false;
      }
    }

    /** Deletes the front element of an expiry order, from the index and from its map. */
    method PopFront(g: nat, b: bool, conn: Conn, now: int)
      requires Valid() && Ordered(t, view, now) && g < |groups| && view.At(g, b).expiry != []
      requires var h := view.At(g, b).expiry[0]; InSlot(view.entries, h, g, b) && view.entries[h].conn == conn
      modifies this, moms
      ensures Valid() && Ordered(t, view, now)
      ensures view.entries == old(view).entries - {old(view).At(g, b).expiry[0]}
      ensures view.At(g, b).expiry == old(view).At(g, b).expiry[1..]
    {
      var h := conn.hash.hashTotal;
      RemovedOrdered(t, view, h, now);
      WithoutHead(view.At(g, b).expiry);
      RemoveFrom(g, b, h);
      hashID2groupIdx := hashID2groupIdx - {h};
    }

    /** popEndConnectionOfMap: from the front of the expiry order, stopping at the first live connection. */
    method PopEndConnectionOfMap(g: nat, b: bool, now: int) returns (popped: seq<Conn>, ghost hs: seq<Hash>)
      requires Valid() && Ordered(t, view, now) && g < |groups|
      modifies this, moms
      ensures Valid() && Ordered(t, view, now)
      ensures SlotPopped(old(view).entries, hs, popped, g, b, now)
      ensures view.entries == old(view).entries - Elems(hs)
    {
      ghost var s, list, k := view.entries, view.At(g, b).expiry, 0;
      assert Backs(g, b, view) && NoDup(list);
      popped := [];
      var e := Front(MomOf(g, b).orders[EXPIRY]);
      while e.Some?
        invariant Valid() && Ordered(t, view, now)
        invariant Scanned(s, list, k, popped, now)
        invariant view.At(g, b).expiry == list[k..] && e == Front(list[k..])
        invariant view.entries == s - Elems(list[..k])
        decreases |list| - k
      {
        assert Backs(g, b, view) && list[k] in list[k..] && InSlot(view.entries, list[k], g, b);
        var next := Next(MomOf(g, b).orders[EXPIRY], e.value);
        var conn := MomOf(g, b).m[e.value];
        if now <= conn.expiry {
          break;
        }
        ScanStep(s, list, k, popped, conn, now);
        popped := popped + [conn];
        PopFront(g, b, conn, now);
        k := k + 1;
        e := next;
      }
      hs := list[..k];
      assert forall h :: h in list ==> InSlot(s, h, g, b);
      ScanExact(s, list, k, popped, now);
    }

    /** popEndConnections: ends exactly the expired connections, group by group, terminating ones first. */
    method PopEndConnections(now: int) returns (popped: seq<Conn>, ghost hs: seq<Hash>)
      requires Valid() && Ordered(t, view, now)
      modifies this, moms
      ensures Valid() && Ordered(t, view, now)
      ensures Enumerates(hs, Expired(old(view).entries, now)) && InPopOrder(old(view).entries, hs)
      ensures Scanned(old(view).entries, hs, |hs|, popped, now)
      ensures view.entries == old(view).entries - Elems(hs)
    {
      ghost var s := view.entries;
      popped, hs := [], [];
      for g := 0 to |groups|
        invariant Valid() && Ordered(t, view, now)
        invariant PoppedUpTo(s, hs, popped, g, false, now) && view.entries == s - Elems(hs)
      {
        var terminated, th := PopEndConnectionOfMap(g, true, now);
        AppendPopped(s, hs, popped, th, terminated, g, true, now);
        popped, hs := popped + terminated, hs + th;
        var timedout, ah := PopEndConnectionOfMap(g, false, now);
        AppendPopped(s, hs, popped, ah, timedout, g, false, now);
        popped, hs := popped + timedout, hs + ah;
      }
      assert forall h :: h in Expired(s, now) ==> Visited(s[h], |groups|, false);
    }

    /** One group of prepareHeartbeats: the callback moves the current element to the back of the iterated list. */
    method BeatGroup(g: nat, now: int) returns (hs: seq<Hash>)
      requires t.Valid() && Valid() && Ordered(t, view, now) && g < |groups|
      modifies this, moms
      ensures Valid() && Ordered(t, view, now)
      ensures GroupBeaten(old(view).entries, hs, g, now)
      ensures view.entries == Rearmed(t, old(view).entries, now, hs)
    {
      ghost var s, list, k := view.entries, view.At(g, false).heartbeat, 0;
      TurnsStart(t, view, g, now);
      assert Backs(g, false, view);
      hs := [];
      var e := Front(MomOf(g, false).orders[HEARTBEAT]);
      while e.Some?
        invariant Valid() && Ordered(t, view, now) && Turned(t, s, view, list, k, g, now)
        invariant hs == list[..k] && e == Upcoming(list, k)
        decreases |list| - k
      {
        TurnElement(t, s, view, list, k, g, now, e.value);
        assert Backs(g, false, view);
        var next := Next(MomOf(g, false).orders[HEARTBEAT], e.value);
        var conn := MomOf(g, false).m[e.value];
        if now <= conn.nextHeartbeat {
          break;
        }
        TurnStep(t, s, view, list, k, g, now);
        Beat(conn, now);
        hs := hs + [e.value];
        k := k + 1;
        e := next;
      }
      TurnsOver(t, s, view, list, k, g, now);
    }

    /** The callback of prepareHeartbeats on a due connection. */
    method Beat(conn: Conn, now: int)
      requires Valid() && Ordered(t, view, now) && conn.hash.hashTotal in view.entries
      requires !view.entries[conn.hash.hashTotal].terminating
      modifies this`view, moms
      ensures Valid() && Ordered(t, view, now) && old(view).Tracks(conn.hash.hashTotal)
      ensures view == old(view).Rescheduled(t, conn.hash.hashTotal, now)
    {
      RescheduledStaysOrdered(t, view, conn.hash.hashTotal, now);
      UpdateNextHeartbeatTime(conn.hash.hashTotal, now);
    }

    /** prepareHeartbeats: reports exactly the due active connections, each once, and re-arms them. */
    method PrepareHeartbeats(now: int) returns (hs: seq<Hash>)
      requires t.Valid() && Valid() && Ordered(t, view, now)
      modifies this, moms
      ensures Valid() && Ordered(t, view, now)
      ensures Enumerates(hs, Due(old(view).entries, now)) && InBeatOrder(old(view).entries, hs)
      ensures view.entries == Rearmed(t, old(view).entries, now, hs)
    {
      ghost var s := view.entries;
      hs := [];
      NothingBeaten(t, s, now);
      assert forall h :: h in s ==> s[h].group < |groups|;
      for g := 0 to |groups|
        invariant Valid() && Ordered(t, view, now)
        invariant BeatenUpTo(s, hs, g, now) && view.entries == Rearmed(t, s, now, hs)
      {
        var more := BeatGroup(g, now);
        AppendBeaten(t, s, hs, more, g, now);
        hs := hs + more;
      }
      AllBeaten(s, hs, |groups|, now);
    }

    function Len(): nat
      reads this
    {
      |hashID2groupIdx|
    }
  }
}
