/** Synchronising the store over a stream of versioned updates (converter.go, client.go, server.go). */
module KubernetesSync {
  import opened Common
  import opened KubernetesStores

  /** The message form of a resource. Creation times travel as whole seconds, 0 meaning none. */
  datatype Entry = Entry(
    kind: string, namespace: string, name: string, uid: string, resourceVersion: string,
    labels: map<string, string>, annotations: map<string, string>, creationTimestamp: int,
    ownerName: string, ownerKind: string, hostName: string, hostIp: string, networkName: string,
    ips: seq<string>, secondaryNetKeys: seq<string>, secondaryNetNames: map<string, string>, terminated: bool)

  // ----- conversions

  const NANOS: int := 1_000_000_000
  /** January 1 of year 1 in seconds since the Unix epoch: the instant of the zero time. */
  const ZERO_SECONDS: int := -62_135_596_800
  const ZERO_TIME: Time := ZERO_SECONDS * NANOS

  function ToSeconds(t: Time): int { if t == ZERO_TIME then 0 else t / NANOS }
  function FromSeconds(s: int): Time { if s == 0 then ZERO_TIME else s * NANOS }

  function ToEntry(m: Meta): Entry {
    Entry(m.kind, m.namespace, m.name, m.uid, m.resourceVersion, m.labels, m.annotations, ToSeconds(m.creation),
          m.ownerName, m.ownerKind, m.hostName, m.hostIP, m.networkName,
          m.ips, m.secondaryNetKeys, m.secondaryNetNames, m.terminated)
  }

  function FromEntry(e: Entry): Meta {
    Meta(e.kind, e.namespace, e.name, e.uid, e.resourceVersion, e.labels, e.annotations,
         FromSeconds(e.creationTimestamp), e.ownerName, e.ownerKind, e.hostName, e.hostIp, e.networkName,
         e.ips, e.secondaryNetKeys, e.secondaryNetNames, e.terminated)
  }

  /** The creation time is the zero time, midnight of January 1 of year 1, or a whole number of seconds other than the
      epoch. */
  predicate Transmissible(m: Meta) {
    m.creation == -719_162 * 86_400 * 1_000_000_000 || (m.creation % 1_000_000_000 == 0 && m.creation != 0)
  }

  /** A resource survives the two conversions except for its creation time, which survives exactly when it is the zero
      time, or a whole number of seconds other than the epoch. */
  lemma MetaRoundTrip(m: Meta)
    ensures FromEntry(ToEntry(m)) == m.(creation := FromSeconds(ToSeconds(m.creation)))
    ensures FromEntry(ToEntry(m)) == m <==> Transmissible(m)
    ensures StoreKey(FromEntry(ToEntry(m))) == StoreKey(m)
  {
    var s := m.creation / NANOS;
    assert m.creation == s * NANOS + m.creation % NANOS;
  }

  /** A message survives the way back unless it spells out the zero time in seconds. */
  lemma EntryRoundTrip(e: Entry)
    ensures ToEntry(FromEntry(e)) == e <==> e.creationTimestamp != -62_135_596_800
  {
    assert e.creationTimestamp * NANOS / NANOS == e.creationTimestamp;
  }

  /** metaToResourceEntries: nil resources are left out. */
  function Sent(metas: seq<Option<Meta>>): seq<Option<Entry>> {
    if metas == [] then [] else
    var n := |metas| - 1;
    Sent(metas[..n]) + (if metas[n].None? then [] else [Some(ToEntry(metas[n].value))])
  }

  /** resourceEntriesToMeta: nil messages are left out. */
  function Decoded(entries: seq<Option<Entry>>): seq<Option<Meta>> {
    if entries == [] then [] else
    var n := |entries| - 1;
    Decoded(entries[..n]) + (if entries[n].None? then [] else [Some(FromEntry(entries[n].value))])
  }

  lemma {:induction false} SentConcat(a: seq<Option<Meta>>, b: seq<Option<Meta>>)
    ensures Sent(a + b) == Sent(a) + Sent(b)
  {
    if b == [] {
      assert a + b == a;
    } else {
      var n := |b| - 1;
      assert (a + b)[..|a|+n] == a + b[..n];
      SentConcat(a, b[..n]);
    }
  }

  lemma {:induction false} DecodedConcat(a: seq<Option<Entry>>, b: seq<Option<Entry>>)
    ensures Decoded(a + b) == Decoded(a) + Decoded(b)
  {
    if b == [] {
      assert a + b == a;
    } else {
      var n := |b| - 1;
      assert (a + b)[..|a|+n] == a + b[..n];
      DecodedConcat(a, b[..n]);
    }
  }

  method MetaToResourceEntries(metas: seq<Option<Meta>>) returns (out: seq<Option<Entry>>)
    ensures out == Sent(metas)
  {
    out := [];
    for i := 0 to |metas|
      invariant out == Sent(metas[..i])
    {
      assert metas[..i+1][..i] == metas[..i];
      if metas[i].Some? {
        out := out + [Some(ToEntry(metas[i].value))];
      }
    }
    assert metas[..|metas|] == metas;
  }

  method ResourceEntriesToMeta(entries: seq<Option<Entry>>) returns (out: seq<Option<Meta>>)
    ensures out == Decoded(entries)
  {
    out := [];
    for i := 0 to |entries|
      invariant out == Decoded(entries[..i])
    {
      assert entries[..i+1][..i] == entries[..i];
      if entries[i].Some? {
        out := out + [Some(FromEntry(entries[i].value))];
      }
    }
    assert entries[..|entries|] == entries;
  }

  // ----- updates

  datatype OperationType = Unspecified | AddType | UpdateType | DeleteType | Other(code: int)
  datatype Update = Update(version: int, isSnapshot: bool, operation: OperationType, entries: seq<Option<Entry>>)

  /** The entries of a sequence of updates, one after the other. */
  function Flattened(us: seq<Update>): seq<Option<Entry>> {
    if us == [] then [] else Flattened(us[..|us|-1]) + us[|us|-1].entries
  }

  lemma FlattenedAppend(us: seq<Update>, u: Update)
    ensures Flattened(us + [u]) == Flattened(us) + u.entries
  {
    assert (us + [u])[..|us|] == us;
  }

  /** The updates carry the resources, in versions that count up from first. */
  predicate Carry(us: seq<Update>, metas: seq<Option<Meta>>, operation: OperationType, first: int) {
    && Flattened(us) == Sent(metas)
    && forall i :: 0 <= i < |us| ==> us[i].version == first + i && us[i].operation == operation
  }

  const DEFAULT_BATCH_SIZE: int := 100

  class Client {
    const batchSize: int
    var version: int

    /** A configured batch size of zero selects the default. */
    constructor (configured: int)
      ensures batchSize == (if configured == 0 then 100 else configured) && version == 0
    {
      batchSize := if configured == 0 then DEFAULT_BATCH_SIZE else configured;
      version := 0;
    }

    method NextUpdate(batch: seq<Option<Meta>>, operation: OperationType, isSnapshot: bool) returns (u: Update)
      modifies this
      ensures version == old(version) + 1 && u == Update(version, isSnapshot, operation, Sent(batch))
    {
      var entries := MetaToResourceEntries(batch);
      version := version + 1;
      u := Update(version, isSnapshot, operation, entries);
    }

    /** Sends everything in batches: consecutive versions, only the first batch of a snapshot is marked as such. */
    method SendBatches(
      metas: seq<Option<Meta>>, operation: OperationType, snapshot: bool, size: int) returns (us: seq<Update>)
      requires size > 0
      modifies this
      ensures Carry(us, metas, operation, old(version) + 1) && version == old(version) + |us|
      ensures forall k :: 0 <= k < |us| ==> (us[k].isSnapshot <==> snapshot && k == 0)
      ensures |us| * size - size < |metas| <= |us| * size || (us == [] && metas == [])
    {
      us := [];
      var i := 0;
      while i < |metas|
        invariant 0 <= i && i == |us| * size && (i < |metas| + size || us == [])
        invariant Carry(us, metas[..Least(i, |metas|)], operation, old(version) + 1) && version == old(version) + |us|
        invariant forall k :: 0 <= k < |us| ==> (us[k].isSnapshot <==> snapshot && k == 0)
      {
        var end := Least(i + size, |metas|);
        var u := NextUpdate(metas[i..end], operation, snapshot && i == 0);
        CarryOn(us, metas, operation, old(version) + 1, u, i, end);
        FirstBatch(|us|, size);
        us := us + [u];
        i := i + size;
      }
      assert metas[..Least(i, |metas|)] == metas;
    }

    /** sendBatched; nothing is sent for an empty list. */
    method SendBatched(metas: seq<Option<Meta>>, operation: OperationType) returns (us: seq<Update>)
      requires metas == [] || batchSize > 0
      modifies this
      ensures Carry(us, metas, operation, old(version) + 1) && version == old(version) + |us|
      ensures forall k :: 0 <= k < |us| ==> !us[k].isSnapshot
    {
      if metas == [] {
        return [];
      }
      us := SendBatches(metas, operation, false, batchSize);
    }

    /** sendSnapshot; an empty list is sent as one empty snapshot. */
    method SendSnapshot(metas: seq<Option<Meta>>) returns (us: seq<Update>)
      modifies this
      ensures us != [] && Carry(us, metas, AddType, old(version) + 1) && version == old(version) + |us|
      ensures forall k :: 0 <= k < |us| ==> (us[k].isSnapshot <==> k == 0)
    {
      var size := if batchSize <= 0 then DEFAULT_BATCH_SIZE else batchSize;
      if metas == [] {
        var u := NextUpdate([], AddType, true);
        FlattenedAppend([], u);
        us := [u];
      } else {
        us := SendBatches(metas, AddType, true, size);
      }
    }
  }

  function Least(a: int, b: int): int { if a < b then a else b }

  lemma FirstBatch(k: nat, size: int)
    requires size > 0
    ensures k * size == 0 <==> k == 0
    ensures (k + 1) * size == k * size + size
  {
  }

  lemma CarryOn(
    us: seq<Update>, metas: seq<Option<Meta>>, operation: OperationType, first: int, u: Update, i: nat, end: nat)
    requires i <= end <= |metas| && Carry(us, metas[..i], operation, first)
    requires u.entries == Sent(metas[i..end]) && u.version == first + |us| && u.operation == operation
    ensures Carry(us + [u], metas[..end], operation, first)
  {
    FlattenedAppend(us, u);
    SentConcat(metas[..i], metas[i..end]);
    assert metas[..i] + metas[i..end] == metas[..end];
  }

  // ----- the server

  datatype ServerState = ServerState(version: int, contents: State)

  /** The call an update makes on the store; None for an operation that is rejected. */
  function CallOf(u: Update): Option<Call> {
    var entries := Decoded(u.entries);
    if u.isSnapshot then Some(Replace(entries)) else
    match u.operation
    case AddType => Some(AddOrUpdate(entries))
    case UpdateType => Some(AddOrUpdate(entries))
    case DeleteType => Some(Delete(entries))
    case _ => None
  }

  /** A rejected update changes neither the store nor the version. */
  function Received(s: ServerState, u: Update): ServerState {
    match CallOf(u)
    case None => s
    case Some(call) => ServerState(u.version, Apply(s.contents, call))
  }

  function ReceivedAll(s: ServerState, us: seq<Update>): ServerState {
    if us == [] then s else Received(ReceivedAll(s, us[..|us|-1]), us[|us|-1])
  }

  class Server {
    const datasource: KubernetesStore
    var version: int

    constructor (datasource: KubernetesStore)
      ensures this.datasource == datasource && version == 0
    {
      this.datasource, version := datasource, 0;
    }

    function View(): ServerState
      reads this, datasource
    {
      ServerState(version, datasource.Contents())
    }

    /** A new stream asks for everything from version 0. */
    method Connect() returns (lastVersion: int)
      modifies this
      ensures lastVersion == 0 && View() == old(View()).(version := 0)
    {
      version := 0;
      lastVersion := version;
    }

    method ProcessUpdate(u: Update) returns (ok: bool)
      modifies datasource
      ensures ok <==> CallOf(u).Some?
      ensures datasource.Contents() == if ok then Apply(old(datasource.Contents()), CallOf(u).value)
        else old(datasource.Contents())
    {
      var entries := ResourceEntriesToMeta(u.entries);
      if u.isSnapshot {
        datasource.ReplaceAll(entries);
        return true;
      }
      match u.operation {
        case AddType => datasource.AddOrUpdateAll(entries);
        case UpdateType => datasource.AddOrUpdateAll(entries);
        case DeleteType => datasource.DeleteAll(entries);
        case _ => return false;
      }
      ok := true;
    }

    /** The receive loop over a delivered sequence; acks says which updates were acknowledged as applied. */
    method StreamUpdates(us: seq<Update>) returns (acks: seq<bool>)
      modifies this, datasource
      ensures View() == ReceivedAll(old(View()), us)
      ensures |acks| == |us| && forall i :: 0 <= i < |us| ==> (acks[i] <==> CallOf(us[i]).Some?)
    {
      acks := [];
      for i := 0 to |us|
        invariant View() == ReceivedAll(old(View()), us[..i])
        invariant |acks| == i && forall k :: 0 <= k < i ==> (acks[k] <==> CallOf(us[k]).Some?)
      {
        assert us[..i+1][..i] == us[..i];
        var ok := ProcessUpdate(us[i]);
        acks := acks + [ok];
        if !ok {
          continue;
        }
        version := us[i].version;
      }
      assert us[..|us|] == us;
    }
  }

  // ----- batching is invisible

  lemma {:induction false} DoAllConcat(st: State, op: Operation, a: seq<Option<Meta>>, b: seq<Option<Meta>>)
    ensures DoAll(st, op, a + b) == DoAll(DoAll(st, op, a), op, b)
  {
    if b == [] {
      assert a + b == a;
    } else {
      var n := |b| - 1;
      assert (a + b)[..|a|+n] == a + b[..n];
      DoAllConcat(st, op, a, b[..n]);
    }
  }

  /** The resources as they come out of both conversions. */
  function Delivered(metas: seq<Option<Meta>>): seq<Option<Meta>> { Decoded(Sent(metas)) }

  lemma {:induction false} DeliveredEntries(metas: seq<Option<Meta>>, out: Option<Meta>)
    requires out in Delivered(metas)
    ensures out.Some?
    ensures exists i :: 0 <= i < |metas| && metas[i].Some? && StoreKey(metas[i].value) == StoreKey(out.value)
  {
    var n := |metas| - 1;
    DeliveredAppend(metas[..n], metas[n]);
    assert metas == metas[..n] + [metas[n]];
    if out in Delivered(metas[..n]) {
      DeliveredEntries(metas[..n], out);
      var i :| 0 <= i < n && metas[..n][i].Some? && StoreKey(metas[..n][i].value) == StoreKey(out.value);
      assert metas[i] == metas[..n][i];
    } else {
      MetaRoundTrip(metas[n].value);
    }
  }

  lemma DeliveredAppend(metas: seq<Option<Meta>>, m: Option<Meta>)
    ensures Delivered(metas + [m]) == Delivered(metas) + (if m.None? then [] else [Some(FromEntry(ToEntry(m.value)))])
  {
    SentConcat(metas, [m]);
    assert [m][..0] == [] && Sent([]) == [];
    DecodedConcat(Sent(metas), Sent([m]));
    assert m.Some? ==> Sent([m]) == [Some(ToEntry(m.value))];
    if m.Some? {
      assert Sent([m])[..0] == [] && Decoded([]) == [];
      assert Decoded(Sent([m])) == [Some(FromEntry(ToEntry(m.value)))];
    }
  }

  lemma {:induction false} DeliveredDistinct(metas: seq<Option<Meta>>)
    requires DistinctKeys(metas)
    ensures DistinctKeys(Delivered(metas))
  {
    if metas != [] {
      var n := |metas| - 1;
      DeliveredDistinct(metas[..n]);
      DeliveredAppend(metas[..n], metas[n]);
      assert metas == metas[..n] + [metas[n]];
      if metas[n].Some? {
        MetaRoundTrip(metas[n].value);
        forall out | out in Delivered(metas[..n]) && out.Some? ensures StoreKey(out.value) != StoreKey(metas[n].value) {
          DeliveredEntries(metas[..n], out);
        }
      }
    }
  }

  /** Resources whose creation times can be transmitted arrive unchanged. */
  lemma {:induction false} DeliveredUnchanged(st: State, op: Operation, metas: seq<Option<Meta>>)
    requires forall m :: Some(m) in metas ==> Transmissible(m)
    ensures DoAll(st, op, Delivered(metas)) == DoAll(st, op, metas)
  {
    if metas != [] {
      var n := |metas| - 1;
      DeliveredUnchanged(st, op, metas[..n]);
      DeliveredAppend(metas[..n], metas[n]);
      assert metas == metas[..n] + [metas[n]];
      if metas[n].Some? {
        MetaRoundTrip(metas[n].value);
        var rest, m := Delivered(metas[..n]), metas[n];
        assert m in metas;
        assert (rest + [m])[..|rest|] == rest;
      } else {
        assert Delivered(metas) == Delivered(metas[..n]);
      }
    }
  }

  /** Updates without a snapshot act like one call with all their entries. */
  lemma {:induction false} BatchesAreOneCall(s: ServerState, us: seq<Update>, operation: OperationType)
    requires forall i :: 0 <= i < |us| ==> us[i].operation == operation && !us[i].isSnapshot
    requires operation in {AddType, UpdateType, DeleteType}
    ensures var op := if operation == DeleteType then DropOp else PutOp;
      ReceivedAll(s, us).contents == DoAll(s.contents, op, Decoded(Flattened(us)))
    ensures ReceivedAll(s, us).version == if us == [] then s.version else us[|us|-1].version
  {
    if us != [] {
      var n := |us| - 1;
      var op := if operation == DeleteType then DropOp else PutOp;
      BatchesAreOneCall(s, us[..n], operation);
      DecodedConcat(Flattened(us[..n]), us[n].entries);
      DoAllConcat(s.contents, op, Decoded(Flattened(us[..n])), Decoded(us[n].entries));
    }
  }

  lemma {:induction false} ReceivedAllSplit(s: ServerState, first: Update, rest: seq<Update>)
    ensures ReceivedAll(s, [first] + rest) == ReceivedAll(Received(s, first), rest)
  {
    var us := [first] + rest;
    if rest == [] {
      assert us[..0] == [];
      assert ReceivedAll(s, []) == s;
    } else {
      ReceivedAllSplit(s, first, rest[..|rest|-1]);
      assert us[..|us|-1] == [first] + rest[..|rest|-1];
    }
  }

  lemma {:induction false} FlattenedSplit(first: Update, rest: seq<Update>)
    ensures Flattened([first] + rest) == first.entries + Flattened(rest)
  {
    var us := [first] + rest;
    if rest == [] {
      assert us[..0] == [];
      assert Flattened([]) == [];
    } else {
      FlattenedSplit(first, rest[..|rest|-1]);
      assert us[..|us|-1] == [first] + rest[..|rest|-1];
    }
  }

  /** Whatever the server held, a batched snapshot leaves it exactly as one replacement by all delivered resources,
      at the last version sent, if no resource after the first batch repeats the key of an earlier one. An empty
      snapshot empties the store. */
  lemma SnapshotIsOneReplace(s: ServerState, us: seq<Update>, metas: seq<Option<Meta>>, first: int)
    requires us != [] && Carry(us, metas, AddType, first)
    requires FreshFrom(Delivered(metas), |Decoded(us[0].entries)|)
    requires forall k :: 0 <= k < |us| ==> (us[k].isSnapshot <==> k == 0)
    ensures ReceivedAll(s, us) == ServerState(first + |us| - 1, Apply(s.contents, Replace(Delivered(metas))))
    ensures metas == [] ==> ReceivedAll(s, us).contents == EMPTY
  {
    var rest := us[1..];
    var batch, others := Decoded(us[0].entries), Decoded(Flattened(rest));
    assert us == [us[0]] + rest;
    ReceivedAllSplit(s, us[0], rest);
    FlattenedSplit(us[0], rest);
    DecodedConcat(us[0].entries, Flattened(rest));
    assert Delivered(metas) == batch + others;
    BatchesAreOneCall(Received(s, us[0]), rest, AddType);
    LoadThenPut(batch, others);
    if metas == [] {
      assert Sent(metas) == [] && Decoded([]) == [];
    }
  }

  /** The condition is needed: when a resource is listed twice and loses an IP in between, the index of IPs depends on
      whether both travel in one batch. */
  lemma CutsMatter(s: ServerState, m: Meta, n: Meta, ip: string)
    requires StoreKey(m) == StoreKey(n) && m.uid == n.uid && ip in m.ips && ip !in n.ips
    ensures var (e, f) := (Some(ToEntry(m)), Some(ToEntry(n)));
      var together := [Update(1, true, AddType, [e, f])];
      var apart := [Update(1, true, AddType, [e]), Update(2, false, AddType, [f])];
      && Carry(together, [Some(m), Some(n)], AddType, 1) && Carry(apart, [Some(m), Some(n)], AddType, 1)
      && ip in ReceivedAll(s, together).contents.byIP && ip !in ReceivedAll(s, apart).contents.byIP
  {
    var e, f := Some(ToEntry(m)), Some(ToEntry(n));
    SentTwo(m, n);
    OneUpdate(s, Update(1, true, AddType, [e, f]));
    TwoUpdates(s, Update(1, true, AddType, [e]), Update(2, false, AddType, [f]));
    TwoAdds(FromEntry(e.value), FromEntry(f.value), ip);
  }

  lemma OneUpdate(s: ServerState, u: Update)
    ensures Flattened([u]) == u.entries && ReceivedAll(s, [u]) == Received(s, u)
  {
    assert [u] == [] + [u] && [u][..0] == [];
    FlattenedAppend([], u);
    assert Flattened([]) == [] && ReceivedAll(s, []) == s;
  }

  lemma TwoUpdates(s: ServerState, u: Update, v: Update)
    ensures Flattened([u, v]) == u.entries + v.entries
    ensures ReceivedAll(s, [u, v]) == Received(Received(s, u), v)
  {
    assert [u, v][..1] == [u];
    OneUpdate(s, u);
  }

  lemma SentTwo(m: Meta, n: Meta)
    ensures var (e, f) := (Some(ToEntry(m)), Some(ToEntry(n)));
      && Sent([Some(m), Some(n)]) == [e, f] && Decoded([e, f]) == [Some(FromEntry(e.value)), Some(FromEntry(f.value))]
      && Decoded([e]) == [Some(FromEntry(e.value))] && Decoded([f]) == [Some(FromEntry(f.value))]
  {
    var e, f := Some(ToEntry(m)), Some(ToEntry(n));
    OneEntry(m);
    OneEntry(n);
    assert [Some(m), Some(n)] == [Some(m)] + [Some(n)] && [e, f] == [e] + [f];
    SentConcat([Some(m)], [Some(n)]);
    DecodedConcat([e], [f]);
  }

  lemma OneEntry(m: Meta)
    ensures Sent([Some(m)]) == [Some(ToEntry(m))]
    ensures Decoded([Some(ToEntry(m))]) == [Some(FromEntry(ToEntry(m)))]
  {
    assert [Some(m)][..0] == [] && [Some(ToEntry(m))][..0] == [];
    assert Sent([]) == [] && Decoded([]) == [];
  }

  lemma TwoAdds(m: Meta, n: Meta, ip: string)
    requires StoreKey(m) == StoreKey(n) && m.uid == n.uid && ip in m.ips && ip !in n.ips
    ensures ip in DoAll(EMPTY, AddOp, [Some(m), Some(n)]).byIP
    ensures ip !in DoAll(DoAll(EMPTY, AddOp, [Some(m)]), PutOp, [Some(n)]).byIP
  {
    TwoEntries(m, n, ByIP, ip);
    LoadedIndex([Some(m), Some(n)], ByIP, ip);
    DoOne(EMPTY, AddOp, m);
    DoOne(Add(EMPTY, m), PutOp, n);
    RenewedReleases(m, n, ip);
  }

  lemma RenewedReleases(m: Meta, n: Meta, ip: string)
    requires StoreKey(m) == StoreKey(n) && m.uid == n.uid && ip in m.ips && ip !in n.ips
    ensures ip !in Put(Add(EMPTY, m), n).byIP
  {
    var one := Add(EMPTY, m);
    ClaimedAt(EMPTY.byIP, m, m.ips, ip);
    ReleasedAt(one.byIP, m.uid, m.ips, ip);
    ClaimedAt(Unindexed(one, m).byIP, n, n.ips, ip);
  }

  lemma DoOne(st: State, op: Operation, m: Meta)
    ensures DoAll(st, op, [Some(m)]) == Do(st, op, m)
  {
    assert [Some(m)][..0] == [] && DoAll(st, op, []) == st;
  }

  /** Likewise a batched incremental change acts as one call on the store. */
  lemma IncrementalIsOneCall(
    s: ServerState, us: seq<Update>, metas: seq<Option<Meta>>, operation: OperationType, first: int)
    requires Carry(us, metas, operation, first) && operation in {AddType, UpdateType, DeleteType}
    requires forall k :: 0 <= k < |us| ==> !us[k].isSnapshot
    ensures ReceivedAll(s, us).contents
         == Apply(s.contents, if operation == DeleteType then Delete(Delivered(metas))
           else AddOrUpdate(Delivered(metas)))
    ensures us != [] ==> ReceivedAll(s, us).version == first + |us| - 1
  {
    BatchesAreOneCall(s, us, operation);
  }

  /** A whole synchronisation: what the client holds is what the server ends up with. */
  method Synchronise(client: Client, server: Server, metas: seq<Option<Meta>>)
    requires DistinctKeys(metas)
    modifies client, server, server.datasource
    ensures server.datasource.Contents() == Apply(EMPTY, Replace(Delivered(metas)))
    ensures server.version == client.version > old(client.version)
    ensures (forall m :: Some(m) in metas ==> Transmissible(m))
         ==> server.datasource.Contents() == Apply(EMPTY, Replace(metas))
    ensures Sound(server.datasource.Contents())
    ensures forall kind :: Complete(server.datasource.Contents(), kind)
    ensures (forall m :: Some(m) in metas ==> Transmissible(m))
         ==> Resources(server.datasource.Contents()) == iset m | Some(m) in metas
  {
    var _ := server.Connect();
    var us := client.SendSnapshot(metas);
    ghost var before := server.View();
    DeliveredDistinct(metas);
    SnapshotIsOneReplace(before, us, metas, old(client.version) + 1);
    var _ := server.StreamUpdates(us);
    DistinctStay(Delivered(metas));
    LoadedSound(Delivered(metas));
    forall kind ensures Complete(Loaded(Delivered(metas)), kind) {
      LoadedComplete(Delivered(metas), kind);
    }
    if forall m :: Some(m) in metas ==> Transmissible(m) {
      DeliveredUnchanged(EMPTY, AddOp, metas);
      LoadedResources(metas);
    }
  }

  /** A replacement by resources with different keys leaves exactly these. */
  lemma LoadedResources(metas: seq<Option<Meta>>)
    requires DistinctKeys(metas)
    ensures Resources(Loaded(metas)) == iset m | Some(m) in metas
  {
    forall m ensures Current(Loaded(metas), m) <==> Some(m) in metas {
      LoadedUnder(metas, StoreKey(m));
      LastOfDistinct(metas, m);
    }
  }

  lemma {:induction false} LastOfDistinct(metas: seq<Option<Meta>>, m: Meta)
    requires DistinctKeys(metas)
    ensures LastUnder(metas, StoreKey(m)) == Some(m) <==> Some(m) in metas
  {
    if metas != [] {
      var n := |metas| - 1;
      LastOfDistinct(metas[..n], m);
      assert metas == metas[..n] + [metas[n]];
      if Some(m) in metas[..n] {
        var i := IndexOf(metas[..n], Some(m));
        assert metas[i] == Some(m);
      }
    }
  }
}
