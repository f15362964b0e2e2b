/** The Kubernetes metadata store and its indexes (kubernetesstore.go). */
module KubernetesStores {
  import opened Common

  /** metav1.Time, in nanoseconds since the Unix epoch. */
  type Time = int

  /** model.ResourceMetaData with its embedded object metadata. */
  datatype Meta = Meta(
    kind: string, namespace: string, name: string, uid: string, resourceVersion: string,
    labels: map<string, string>, annotations: map<string, string>, creation: Time,
    ownerName: string, ownerKind: string, hostName: string, hostIP: string, networkName: string,
    ips: seq<string>, secondaryNetKeys: seq<string>, secondaryNetNames: map<string, string>, terminated: bool)

  type Index = map<string, Meta>

  datatype State = State(byKey: Index, byIP: Index, byNodeName: Index, bySecondaryKey: Index)

  const EMPTY: State := State(map[], map[], map[], map[])

  function StoreKey(m: Meta): string { m.kind + "/" + m.namespace + "/" + m.name }

  /** The name a resource is indexed under as a node; none for other resources. */
  function NodeNames(m: Meta): seq<string> { if m.kind == "Node" && m.name != "" then [m.name] else [] }

  // ----- what the operations do to the four maps

  /** Entries of the listed keys are removed when they belong to the resource with this UID. */
  function Released(index: Index, uid: string, keys: seq<string>): Index {
    if keys == [] then index else
    var n := |keys| - 1;
    var rest := Released(index, uid, keys[..n]);
    if keys[n] in rest && rest[keys[n]].uid == uid then rest - {keys[n]} else rest
  }

  /** First match wins. */
  function Claimed(index: Index, m: Meta, keys: seq<string>): Index {
    if keys == [] then index else
    var n := |keys| - 1;
    var rest := Claimed(index, m, keys[..n]);
    if keys[n] in rest then rest else rest[keys[n] := m]
  }

  /** The latest wins. */
  function Overwritten(index: Index, m: Meta, keys: seq<string>): Index {
    if keys == [] then index else Overwritten(index, m, keys[..|keys|-1])[keys[|keys|-1] := m]
  }

  function Unindexed(st: State, m: Meta): State {
    st.(byIP := Released(st.byIP, m.uid, m.ips),
        byNodeName := Released(st.byNodeName, m.uid, NodeNames(m)),
        bySecondaryKey := Released(st.bySecondaryKey, m.uid, m.secondaryNetKeys))
  }

  function Indexed(st: State, m: Meta): State {
    st.(byIP := Claimed(st.byIP, m, m.ips),
        byNodeName := Overwritten(st.byNodeName, m, NodeNames(m)),
        bySecondaryKey := Overwritten(st.bySecondaryKey, m, m.secondaryNetKeys))
  }

  function Add(st: State, m: Meta): State { Indexed(st.(byKey := st.byKey[StoreKey(m) := m]), m) }

  function Drop(st: State, m: Meta): State {
    if StoreKey(m) !in st.byKey then st else
    Unindexed(st, st.byKey[StoreKey(m)]).(byKey := st.byKey - {StoreKey(m)})
  }

  function Put(st: State, m: Meta): State {
    var st' := if StoreKey(m) in st.byKey then Unindexed(st, st.byKey[StoreKey(m)]) else st;
    Add(st', m)
  }

  datatype Operation = AddOp | PutOp | DropOp

  function Do(st: State, op: Operation, m: Meta): State {
    match op case AddOp => Add(st, m) case PutOp => Put(st, m) case DropOp => Drop(st, m)
  }

  /** One operation for each entry, in order; nil entries are skipped. */
  function DoAll(st: State, op: Operation, entries: seq<Option<Meta>>): State {
    if entries == [] then st else
    var n := |entries| - 1;
    var before := DoAll(st, op, entries[..n]);
    if entries[n].None? then before else Do(before, op, entries[n].value)
  }

  lemma {:induction false} ReleasedAt(index: Index, uid: string, keys: seq<string>, x: string)
    ensures x in Released(index, uid, keys) <==> x in index && !(x in keys && index[x].uid == uid)
    ensures x in Released(index, uid, keys) ==> Released(index, uid, keys)[x] == index[x]
  {
    if keys != [] {
      ReleasedAt(index, uid, keys[..|keys|-1], x);
      ReleasedAt(index, uid, keys[..|keys|-1], keys[|keys|-1]);
    }
  }

  lemma {:induction false} ClaimedAt(index: Index, m: Meta, keys: seq<string>, x: string)
    ensures x in Claimed(index, m, keys) <==> x in index || x in keys
    ensures x in Claimed(index, m, keys) ==> Claimed(index, m, keys)[x] == if x in index then index[x] else m
  {
    if keys != [] {
      ClaimedAt(index, m, keys[..|keys|-1], x);
      ClaimedAt(index, m, keys[..|keys|-1], keys[|keys|-1]);
    }
  }

  lemma {:induction false} OverwrittenAt(index: Index, m: Meta, keys: seq<string>, x: string)
    ensures x in Overwritten(index, m, keys) <==> x in index || x in keys
    ensures x in Overwritten(index, m, keys) ==> Overwritten(index, m, keys)[x] == if x in keys then m else index[x]
  {
    if keys != [] {
      OverwrittenAt(index, m, keys[..|keys|-1], x);
    }
  }

  // ----- what the indexes mean

  datatype Kind = ByIP | ByNode | BySecondary

  function IndexOfKind(st: State, kind: Kind): Index {
    match kind case ByIP => st.byIP case ByNode => st.byNodeName case BySecondary => st.bySecondaryKey
  }

  /** The keys a resource lists for an index. */
  function KeysOf(m: Meta, kind: Kind): seq<string> {
    match kind case ByIP => m.ips case ByNode => NodeNames(m) case BySecondary => m.secondaryNetKeys
  }

  predicate Current(st: State, m: Meta) { StoreKey(m) in st.byKey && st.byKey[StoreKey(m)] == m }

  /** Every index entry points to a current resource that lists its key. */
  ghost predicate Sound(st: State) {
    && (forall k :: k in st.byKey ==> StoreKey(st.byKey[k]) == k)
    && (forall kind, x :: x in IndexOfKind(st, kind) ==>
          Current(st, IndexOfKind(st, kind)[x]) && x in KeysOf(IndexOfKind(st, kind)[x], kind))
  }

  /** Every key that a current resource lists for an index has an entry there. */
  ghost predicate Complete(st: State, kind: Kind) {
    forall k, x :: k in st.byKey && x in KeysOf(st.byKey[k], kind) ==> x in IndexOfKind(st, kind)
  }

  /** No two resources list the same key for an index. */
  ghost predicate Disjoint(st: State, kind: Kind) {
    forall j, k, x ::
      j in st.byKey && k in st.byKey && x in KeysOf(st.byKey[j], kind) && x in KeysOf(st.byKey[k], kind) ==> j == k
  }

  /** Removing m takes no key away from another resource: whenever another one lists a key of m, the index entry does
      not carry the UID of m. */
  ghost predicate NoneStranded(st: State, m: Meta, kind: Kind) {
    forall k, x :: k in st.byKey && k != StoreKey(m) && x in KeysOf(st.byKey[k], kind) && x in KeysOf(m, kind) ==>
      x in IndexOfKind(st, kind) ==> IndexOfKind(st, kind)[x].uid != m.uid
  }

  lemma AddAt(st: State, m: Meta, kind: Kind, x: string)
    ensures x in IndexOfKind(Add(st, m), kind) <==> x in IndexOfKind(st, kind) || x in KeysOf(m, kind)
    ensures x in IndexOfKind(Add(st, m), kind) ==>
      IndexOfKind(Add(st, m), kind)[x] in [m] + (if x in IndexOfKind(st, kind) then [IndexOfKind(st, kind)[x]] else [])
    ensures x in IndexOfKind(st, kind) && x !in KeysOf(m, kind) ==>
      IndexOfKind(Add(st, m), kind)[x] == IndexOfKind(st, kind)[x]
  {
    match kind {
      case ByIP => ClaimedAt(st.byIP, m, m.ips, x);
      case ByNode => OverwrittenAt(st.byNodeName, m, NodeNames(m), x);
      case BySecondary => OverwrittenAt(st.bySecondaryKey, m, m.secondaryNetKeys, x);
    }
  }

  lemma UnindexedAt(st: State, m: Meta, kind: Kind, x: string)
    ensures x in IndexOfKind(Unindexed(st, m), kind) <==>
            x in IndexOfKind(st, kind) && !(x in KeysOf(m, kind) && IndexOfKind(st, kind)[x].uid == m.uid)
    ensures x in IndexOfKind(Unindexed(st, m), kind) ==>
      IndexOfKind(Unindexed(st, m), kind)[x] == IndexOfKind(st, kind)[x]
  {
    match kind {
      case ByIP => ReleasedAt(st.byIP, m.uid, m.ips, x);
      case ByNode => ReleasedAt(st.byNodeName, m.uid, NodeNames(m), x);
      case BySecondary => ReleasedAt(st.bySecondaryKey, m.uid, m.secondaryNetKeys, x);
    }
  }

  /** Adding a resource under a new key keeps the indexes sound. */
  lemma AddKeepsSound(st: State, m: Meta)
    requires Sound(st) && StoreKey(m) !in st.byKey
    ensures Sound(Add(st, m))
  {
    var st' := Add(st, m);
    forall kind, x | x in IndexOfKind(st', kind)
      ensures Current(st', IndexOfKind(st', kind)[x]) && x in KeysOf(IndexOfKind(st', kind)[x], kind)
    {
      AddSoundAt(st, m, kind, x);
    }
  }

  /** Adding keeps an index complete, under a new key or a known one. */
  lemma AddKeepsComplete(st: State, m: Meta, kind: Kind)
    requires Complete(st, kind)
    ensures Complete(Add(st, m), kind)
  {
    var st' := Add(st, m);
    forall k, x | k in st'.byKey && x in KeysOf(st'.byKey[k], kind) ensures x in IndexOfKind(st', kind) {
      AddAt(st, m, kind, x);
    }
  }

  lemma AddSoundAt(st: State, m: Meta, kind: Kind, x: string)
    requires Sound(st) && StoreKey(m) !in st.byKey && x in IndexOfKind(Add(st, m), kind)
    ensures var e := IndexOfKind(Add(st, m), kind)[x]; Current(Add(st, m), e) && x in KeysOf(e, kind)
  {
    AddAt(st, m, kind, x);
    if x in IndexOfKind(st, kind) {
      assert Current(st, IndexOfKind(st, kind)[x]);
    }
  }

  /** Removing a resource keeps the indexes sound. */
  lemma DropKeepsSound(st: State, m: Meta)
    requires Sound(st)
    ensures Sound(Drop(st, m))
  {
    if StoreKey(m) in st.byKey {
      var st', old_ := Drop(st, m), st.byKey[StoreKey(m)];
      forall kind, x | x in IndexOfKind(st', kind)
        ensures Current(st', IndexOfKind(st', kind)[x]) && x in KeysOf(IndexOfKind(st', kind)[x], kind)
      {
        UnindexedAt(st, old_, kind, x);
        var e := IndexOfKind(st, kind)[x];
        assert Current(st, e) && x in KeysOf(e, kind);
      }
    }
  }

  lemma DropAt(st: State, m: Meta, kind: Kind, x: string)
    requires StoreKey(m) in st.byKey
    ensures var e := st.byKey[StoreKey(m)];
      x in IndexOfKind(Drop(st, m), kind) <==>
        x in IndexOfKind(st, kind) && !(x in KeysOf(e, kind) && IndexOfKind(st, kind)[x].uid == e.uid)
  {
    UnindexedAt(st, st.byKey[StoreKey(m)], kind, x);
  }

  lemma StrandedIsIncomplete(st: State, m: Meta, kind: Kind)
    requires Sound(st) && StoreKey(m) in st.byKey && Complete(Drop(st, m), kind)
    ensures NoneStranded(st, st.byKey[StoreKey(m)], kind)
  {
    var e := st.byKey[StoreKey(m)];
    forall k, x | k in st.byKey && k != StoreKey(e) && x in KeysOf(st.byKey[k], kind) && x in KeysOf(e, kind)
        && x in IndexOfKind(st, kind)
      ensures IndexOfKind(st, kind)[x].uid != e.uid
    {
      DropAt(st, m, kind, x);
      assert k in Drop(st, m).byKey;
    }
  }

  /** It keeps an index complete exactly when it strands no key of another resource. */
  lemma DropKeepsComplete(st: State, m: Meta, kind: Kind)
    requires Sound(st) && Complete(st, kind) && StoreKey(m) in st.byKey
    ensures Complete(Drop(st, m), kind) <==> NoneStranded(st, st.byKey[StoreKey(m)], kind)
  {
    var st', e := Drop(st, m), st.byKey[StoreKey(m)];
    if Complete(st', kind) {
      StrandedIsIncomplete(st, m, kind);
    }
    if NoneStranded(st, e, kind) {
      forall k, x | k in st'.byKey && x in KeysOf(st'.byKey[k], kind) ensures x in IndexOfKind(st', kind) {
        DropAt(st, m, kind, x);
      }
    }
  }

  lemma DisjointStrandsNone(st: State, m: Meta, kind: Kind)
    requires Sound(st) && Disjoint(st, kind) && Current(st, m)
    ensures NoneStranded(st, m, kind)
  {
  }

  /** An update is a removal followed by an addition under a new key. */
  lemma PutIsDropThenAdd(st: State, m: Meta)
    ensures Put(st, m) == Add(Drop(st, m), m) && StoreKey(m) !in Drop(st, m).byKey
  {
    if StoreKey(m) in st.byKey {
      assert (st.byKey - {StoreKey(m)})[StoreKey(m) := m] == st.byKey[StoreKey(m) := m];
    }
  }

  // ----- runs

  predicate DistinctKeys(entries: seq<Option<Meta>>) { FreshFrom(entries, 0) }

  /** No entry from position n on repeats the key of an earlier one. */
  predicate FreshFrom(entries: seq<Option<Meta>>, n: nat) {
    forall i, j :: 0 <= i < j < |entries| && n <= j && entries[i].Some? && entries[j].Some? ==>
      StoreKey(entries[i].value) != StoreKey(entries[j].value)
  }

  datatype Call =
    | Replace(entries: seq<Option<Meta>>)
    | AddOrUpdate(entries: seq<Option<Meta>>)
    | Delete(entries: seq<Option<Meta>>)

  function Apply(st: State, call: Call): State {
    match call
    case Replace(entries) => DoAll(EMPTY, AddOp, entries)
    case AddOrUpdate(entries) => DoAll(st, PutOp, entries)
    case Delete(entries) => DoAll(st, DropOp, entries)
  }

  function Run(calls: seq<Call>): State {
    if calls == [] then EMPTY else Apply(Run(calls[..|calls|-1]), calls[|calls|-1])
  }

  /** Only listed resources are in the store. */
  lemma {:induction false} LoadedKeys(entries: seq<Option<Meta>>, k: string)
    ensures k in DoAll(EMPTY, AddOp, entries).byKey <==>
      exists i :: 0 <= i < |entries| && entries[i].Some? && StoreKey(entries[i].value) == k
  {
    if entries != [] {
      LoadedKeys(entries[..|entries|-1], k);
    }
  }

  /** Adding or updating entries with fresh keys after loading a snapshot is the same as loading them with it. */
  lemma {:induction false} LoadThenPut(a: seq<Option<Meta>>, b: seq<Option<Meta>>)
    requires FreshFrom(a + b, |a|)
    ensures DoAll(Loaded(a), PutOp, b) == Loaded(a + b)
  {
    if b == [] {
      assert a + b == a;
    } else {
      var n := |b| - 1;
      assert (a + b)[..|a|+n] == a + b[..n];
      assert forall i :: 0 <= i < |a| + n ==> (a + b[..n])[i] == (a + b)[i];
      LoadThenPut(a, b[..n]);
      assert (a + b)[|a|+n] == b[n];
      if b[n].Some? {
        LoadedKeys(a + b[..n], StoreKey(b[n].value));
      }
    }
  }

  lemma DoKeepsSound(st: State, op: Operation, m: Meta)
    requires Sound(st) && op != AddOp
    ensures Sound(Do(st, op, m))
  {
    DropKeepsSound(st, m);
    if op == PutOp {
      PutIsDropThenAdd(st, m);
      AddKeepsSound(Drop(st, m), m);
    }
  }

  lemma {:induction false} DoAllKeepsSound(st: State, op: Operation, entries: seq<Option<Meta>>)
    requires Sound(st) && op != AddOp
    ensures Sound(DoAll(st, op, entries))
  {
    if entries != [] {
      var n := |entries| - 1;
      DoAllKeepsSound(st, op, entries[..n]);
      if entries[n].Some? {
        DoKeepsSound(DoAll(st, op, entries[..n]), op, entries[n].value);
      }
    }
  }

  // ----- when a snapshot is indexed soundly

  /** The last entry of a snapshot under a store key: the one that stays. */
  function LastUnder(entries: seq<Option<Meta>>, key: string): Option<Meta> {
    if entries == [] then None else
    var n := |entries| - 1;
    if entries[n].Some? && StoreKey(entries[n].value) == key then entries[n] else LastUnder(entries[..n], key)
  }

  /** The entry that an index key ends up with: the first to list an IP, the last to list a node name or a
      secondary key. */
  function Winner(entries: seq<Option<Meta>>, kind: Kind, x: string): Option<Meta> {
    if entries == [] then None else
    var n := |entries| - 1;
    var before := Winner(entries[..n], kind, x);
    if entries[n].None? || x !in KeysOf(entries[n].value, kind) || (kind == ByIP && before.Some?) then before
    else entries[n]
  }

  /** For every listed key the entry that wins it is the one that stays under its store key. */
  predicate WinnersStay(entries: seq<Option<Meta>>) {
    forall i :: 0 <= i < |entries| && entries[i].Some? ==>
      forall kind, x :: x in KeysOf(entries[i].value, kind) ==> WinnerStays(entries, kind, x)
  }

  predicate WinnerStays(entries: seq<Option<Meta>>, kind: Kind, x: string) {
    var w := Winner(entries, kind, x);
    w.Some? ==> LastUnder(entries, StoreKey(w.value)) == w
  }

  function Loaded(entries: seq<Option<Meta>>): State { DoAll(EMPTY, AddOp, entries) }

  function At(index: Index, x: string): Option<Meta> { if x in index then Some(index[x]) else None }

  lemma {:induction false} LoadedUnder(entries: seq<Option<Meta>>, key: string)
    ensures At(Loaded(entries).byKey, key) == LastUnder(entries, key)
    ensures LastUnder(entries, key).Some? ==> StoreKey(LastUnder(entries, key).value) == key
  {
    if entries != [] {
      LoadedUnder(entries[..|entries|-1], key);
    }
  }

  lemma {:induction false} LoadedIndex(entries: seq<Option<Meta>>, kind: Kind, x: string)
    ensures At(IndexOfKind(Loaded(entries), kind), x) == Winner(entries, kind, x)
  {
    if entries != [] {
      var n := |entries| - 1;
      LoadedIndex(entries[..n], kind, x);
      if entries[n].Some? {
        AddedAt(Loaded(entries[..n]), entries[n].value, kind, x);
      }
    }
  }

  lemma AddedAt(st: State, m: Meta, kind: Kind, x: string)
    ensures At(IndexOfKind(Add(st, m), kind), x) ==
            if x !in KeysOf(m, kind) || (kind == ByIP && x in st.byIP) then At(IndexOfKind(st, kind), x) else Some(m)
  {
    match kind {
      case ByIP => ClaimedAt(st.byIP, m, m.ips, x);
      case ByNode => OverwrittenAt(st.byNodeName, m, NodeNames(m), x);
      case BySecondary => OverwrittenAt(st.bySecondaryKey, m, m.secondaryNetKeys, x);
    }
  }

  lemma {:induction false} WinnerLists(entries: seq<Option<Meta>>, kind: Kind, x: string)
    ensures var w := Winner(entries, kind, x);
      w.Some? ==> x in KeysOf(w.value, kind) && exists i :: 0 <= i < |entries| && entries[i] == w
  {
    if entries != [] {
      var n := |entries| - 1;
      WinnerLists(entries[..n], kind, x);
      var w := Winner(entries, kind, x);
      if w.Some? && w == Winner(entries[..n], kind, x) {
        var i :| 0 <= i < n && entries[..n][i] == w;
        assert entries[i] == w;
      }
    }
  }

  lemma {:induction false} ListedHasWinner(entries: seq<Option<Meta>>, kind: Kind, x: string, i: nat)
    requires i < |entries| && entries[i].Some? && x in KeysOf(entries[i].value, kind)
    ensures Winner(entries, kind, x).Some?
  {
    if i < |entries| - 1 {
      ListedHasWinner(entries[..|entries|-1], kind, x, i);
    }
  }

  /** A replacement is indexed soundly if and only if every winner stays. */
  lemma LoadedSound(entries: seq<Option<Meta>>)
    ensures Sound(Loaded(entries)) <==> WinnersStay(entries)
  {
    if WinnersStay(entries) {
      StayingIsSound(entries);
    }
    if Sound(Loaded(entries)) {
      SoundIsStaying(entries);
    }
  }

  lemma StayingIsSound(entries: seq<Option<Meta>>)
    requires WinnersStay(entries)
    ensures Sound(Loaded(entries))
  {
    var st := Loaded(entries);
    forall k | k in st.byKey ensures StoreKey(st.byKey[k]) == k {
      LoadedUnder(entries, k);
    }
    forall kind, x | x in IndexOfKind(st, kind)
      ensures Current(st, IndexOfKind(st, kind)[x]) && x in KeysOf(IndexOfKind(st, kind)[x], kind)
    {
      var m := IndexOfKind(st, kind)[x];
      LoadedIndex(entries, kind, x);
      WinnerLists(entries, kind, x);
      LoadedUnder(entries, StoreKey(m));
      var i :| 0 <= i < |entries| && entries[i] == Some(m);
      assert x in KeysOf(entries[i].value, kind);
      assert WinnerStays(entries, kind, x);
    }
  }

  lemma SoundIsStaying(entries: seq<Option<Meta>>)
    requires Sound(Loaded(entries))
    ensures WinnersStay(entries)
  {
    var st := Loaded(entries);
    forall i, kind, x | 0 <= i < |entries| && entries[i].Some? && x in KeysOf(entries[i].value, kind)
      ensures WinnerStays(entries, kind, x)
    {
      ListedHasWinner(entries, kind, x, i);
      LoadedIndex(entries, kind, x);
      LoadedUnder(entries, StoreKey(Winner(entries, kind, x).value));
      assert x in IndexOfKind(st, kind) && Current(st, IndexOfKind(st, kind)[x]);
    }
  }

  /** Distinct keys are enough. */
  lemma DistinctStay(entries: seq<Option<Meta>>)
    requires DistinctKeys(entries)
    ensures WinnersStay(entries)
  {
    assert [] + entries == entries;
    LoadThenPut([], entries);
    DoAllKeepsSound(EMPTY, PutOp, entries);
    LoadedSound(entries);
  }

  /** They are not needed: a repeated entry does no harm, while a renewed one with another IP leaves an index entry
      that points to a resource no longer stored. */
  lemma RepeatedKeys(m: Meta)
    requires m.ips == ["10.0.0.1"]
    ensures WinnersStay([Some(m), Some(m)])
    ensures !WinnersStay([Some(m), Some(m.(ips := ["10.0.0.2"]))])
  {
    var key, n := StoreKey(m), m.(ips := ["10.0.0.2"]);
    forall kind, x ensures WinnerStays([Some(m), Some(m)], kind, x) {
      TwoEntries(m, m, kind, x);
    }
    TwoEntries(m, n, ByIP, "10.0.0.1");
    assert n.ips[0] != "10.0.0.1" && [Some(m), Some(n)][0] == Some(m);
    assert "10.0.0.1" in KeysOf(m, ByIP) && !WinnerStays([Some(m), Some(n)], ByIP, "10.0.0.1");
  }

  lemma TwoEntries(m: Meta, n: Meta, kind: Kind, x: string)
    requires StoreKey(m) == StoreKey(n)
    ensures LastUnder([Some(m), Some(n)], StoreKey(m)) == Some(n)
    ensures Winner([Some(m), Some(n)], kind, x) ==
      if x in KeysOf(n, kind) && !(kind == ByIP && x in KeysOf(m, kind)) then Some(n)
      else if x in KeysOf(m, kind) then Some(m) else None
  {
    var entries := [Some(m), Some(n)];
    assert entries[1] == Some(n) && entries[..1] == [Some(m)] && [Some(m)][..0] == [];
    assert Winner([], kind, x) == None;
    assert Winner([Some(m)], kind, x) == if x in KeysOf(m, kind) then Some(m) else None;
  }

  // ----- every run

  /** In every run whose snapshots are indexed soundly, each index entry points to a current resource that lists it. */
  lemma {:induction false} AlwaysSound(calls: seq<Call>)
    requires forall i :: 0 <= i < |calls| && calls[i].Replace? ==> WinnersStay(calls[i].entries)
    ensures Sound(Run(calls))
  {
    if calls != [] {
      var n := |calls| - 1;
      AlwaysSound(calls[..n]);
      match calls[n]
      case Replace(entries) => LoadedSound(entries);
      case AddOrUpdate(entries) => DoAllKeepsSound(Run(calls[..n]), PutOp, entries);
      case Delete(entries) => DoAllKeepsSound(Run(calls[..n]), DropOp, entries);
    }
  }

  /** Conversely every snapshot of a run that is sound after each call was indexed soundly. */
  lemma SoundRunsLoadSoundly(calls: seq<Call>, i: nat)
    requires i < |calls| && calls[i].Replace? && Sound(Run(calls[..i+1]))
    ensures WinnersStay(calls[i].entries)
  {
    assert calls[..i+1][..i] == calls[..i];
    LoadedSound(calls[i].entries);
  }

  /** Loading a snapshot indexes every listed key. */
  lemma {:induction false} LoadedComplete(entries: seq<Option<Meta>>, kind: Kind)
    ensures Complete(Loaded(entries), kind)
  {
    if entries != [] {
      var n := |entries| - 1;
      LoadedComplete(entries[..n], kind);
      if entries[n].Some? {
        AddKeepsComplete(Loaded(entries[..n]), entries[n].value, kind);
      }
    }
  }

  /** The entries of a call one by one, each leaving resources that are disjoint for an index. */
  ghost predicate StaysDisjoint(st: State, op: Operation, entries: seq<Option<Meta>>, kind: Kind) {
    forall n :: 0 <= n <= |entries| ==> Disjoint(DoAll(st, op, entries[..n]), kind)
  }

  lemma {:induction false} DoAllKeepsComplete(st: State, op: Operation, entries: seq<Option<Meta>>, kind: Kind)
    requires Sound(st) && Complete(st, kind) && StaysDisjoint(st, op, entries, kind) && op != AddOp
    ensures Complete(DoAll(st, op, entries), kind)
  {
    if entries != [] {
      var n := |entries| - 1;
      assert forall i :: 0 <= i <= n ==> entries[..n][..i] == entries[..i];
      DoAllKeepsComplete(st, op, entries[..n], kind);
      DoAllKeepsSound(st, op, entries[..n]);
      if entries[n].Some? {
        DoKeepsComplete(DoAll(st, op, entries[..n]), op, entries[n].value, kind);
      }
    }
  }

  lemma DoKeepsComplete(st: State, op: Operation, m: Meta, kind: Kind)
    requires Sound(st) && Complete(st, kind) && Disjoint(st, kind) && op != AddOp
    ensures Complete(Do(st, op, m), kind)
  {
    if StoreKey(m) in st.byKey {
      DisjointStrandsNone(st, st.byKey[StoreKey(m)], kind);
      DropKeepsComplete(st, m, kind);
    }
    if op == PutOp {
      PutIsDropThenAdd(st, m);
      AddKeepsComplete(Drop(st, m), m, kind);
    }
  }

  /** Every single step of a change leaves resources that are disjoint for an index; snapshots only need to be
      indexed soundly. */
  ghost predicate AlwaysDisjoint(calls: seq<Call>, kind: Kind) {
    forall i :: 0 <= i < |calls| ==>
      match calls[i]
      case Replace(entries) => WinnersStay(entries)
      case AddOrUpdate(entries) => StaysDisjoint(Run(calls[..i]), PutOp, entries, kind)
      case Delete(entries) => StaysDisjoint(Run(calls[..i]), DropOp, entries, kind)
  }

  lemma {:induction false} AlwaysComplete(calls: seq<Call>, kind: Kind)
    requires AlwaysDisjoint(calls, kind)
    ensures Sound(Run(calls)) && Complete(Run(calls), kind)
  {
    AlwaysSound(calls);
    if calls != [] {
      var n := |calls| - 1;
      assert forall i :: 0 <= i <= n ==> calls[..n][..i] == calls[..i];
      AlwaysComplete(calls[..n], kind);
      match calls[n]
      case Replace(entries) => LoadedComplete(entries, kind);
      case AddOrUpdate(entries) => DoAllKeepsComplete(Run(calls[..n]), PutOp, entries, kind);
      case Delete(entries) => DoAllKeepsComplete(Run(calls[..n]), DropOp, entries, kind);
    }
  }

  // ----- lookups

  function NetName(m: Meta, key: string): string { if key in m.secondaryNetNames then m.secondaryNetNames[key] else "" }

  /** What the indexes answer. */
  function LookedUp(st: State, keys: seq<string>, ip: string): Option<Meta> {
    if keys == [] then (if ip != "" && ip in st.byIP then Some(st.byIP[ip]) else None)
    else if keys[0] in st.bySecondaryKey then
      Some(st.bySecondaryKey[keys[0]].(networkName := NetName(st.bySecondaryKey[keys[0]], keys[0])))
    else LookedUp(st, keys[1..], ip)
  }

  ghost predicate Listed(st: State, kind: Kind, x: string) {
    exists k :: k in st.byKey && x in KeysOf(st.byKey[k], kind)
  }

  ghost function Resources(st: State): iset<Meta> { iset m | Current(st, m) }

  predicate IsNode(m: Meta, name: string) { m.kind == "Node" && m.name == name && name != "" }

  /** The resource with the network name of a secondary key, if it has one. */
  predicate IsMarked(m: Meta, key: string, r: Meta) {
    && m == r.(networkName := m.networkName)
    && r.networkName == if key in m.secondaryNetNames then m.secondaryNetNames[key] else ""
  }

  /** What a search through resources answers: one that lists the first key that any of them lists, marked with the
      network of that key; else one with the IP; else none. */
  ghost predicate Finds(live: iset<Meta>, keys: seq<string>, ip: string, r: Option<Meta>) {
    if keys == [] then
      (if ip != "" && exists m :: m in live && ip in m.ips
       then exists m :: m in live && ip in m.ips && r == Some(m) else r == None)
    else if exists m :: m in live && keys[0] in m.secondaryNetKeys then
      r.Some? && exists m :: m in live && keys[0] in m.secondaryNetKeys && IsMarked(m, keys[0], r.value)
    else Finds(live, keys[1..], ip, r)
  }

  lemma ListedIsCurrent(st: State, kind: Kind, x: string)
    requires Sound(st)
    ensures Listed(st, kind, x) <==> exists m :: m in Resources(st) && x in KeysOf(m, kind)
  {
    if Listed(st, kind, x) {
      var k :| k in st.byKey && x in KeysOf(st.byKey[k], kind);
      assert st.byKey[k] in Resources(st);
    }
  }

  lemma IndexIsSearch(st: State, kind: Kind, x: string)
    requires Sound(st) && Complete(st, kind)
    ensures x in IndexOfKind(st, kind) <==> exists m :: m in Resources(st) && x in KeysOf(m, kind)
    ensures x in IndexOfKind(st, kind) ==>
      IndexOfKind(st, kind)[x] in Resources(st) && x in KeysOf(IndexOfKind(st, kind)[x], kind)
  {
    ListedIsCurrent(st, kind, x);
  }

  /** The index lookup is the linear search. */
  lemma {:induction false} LookupIsSearch(st: State, keys: seq<string>, ip: string)
    requires Sound(st) && Complete(st, ByIP) && Complete(st, BySecondary)
    ensures Finds(Resources(st), keys, ip, LookedUp(st, keys, ip))
  {
    if keys == [] {
      IndexIsSearch(st, ByIP, ip);
      assert forall m :: ip in KeysOf(m, ByIP) <==> ip in m.ips;
    } else {
      IndexIsSearch(st, BySecondary, keys[0]);
      assert forall m :: keys[0] in KeysOf(m, BySecondary) <==> keys[0] in m.secondaryNetKeys;
      if keys[0] in st.bySecondaryKey {
        var m := st.bySecondaryKey[keys[0]];
        assert IsMarked(m, keys[0], LookedUp(st, keys, ip).value);
      } else {
        LookupIsSearch(st, keys[1..], ip);
      }
    }
  }

  /** In every run whose changes keep IPs and secondary keys disjoint the index lookup is the linear search. */
  lemma AlwaysFound(calls: seq<Call>, keys: seq<string>, ip: string)
    requires AlwaysDisjoint(calls, ByIP) && AlwaysDisjoint(calls, BySecondary)
    ensures Finds(Resources(Run(calls)), keys, ip, LookedUp(Run(calls), keys, ip))
  {
    AlwaysComplete(calls, ByIP);
    AlwaysComplete(calls, BySecondary);
    LookupIsSearch(Run(calls), keys, ip);
  }

  /** No two resources list the same IP, nor the same secondary key. */
  ghost predicate AllDiffer(live: iset<Meta>) {
    && (forall m, n, x :: m in live && n in live && x in m.ips && x in n.ips ==> m == n)
    && (forall m, n, x :: m in live && n in live && x in m.secondaryNetKeys && x in n.secondaryNetKeys ==> m == n)
  }

  /** Among such resources a search has one answer. */
  lemma {:induction false} FoundIsUnique(
    live: iset<Meta>, keys: seq<string>, ip: string, r1: Option<Meta>, r2: Option<Meta>)
    requires AllDiffer(live) && Finds(live, keys, ip, r1) && Finds(live, keys, ip, r2)
    ensures r1 == r2
  {
    if keys != [] {
      if exists m :: m in live && keys[0] in m.secondaryNetKeys {
        var m :| m in live && keys[0] in m.secondaryNetKeys && IsMarked(m, keys[0], r1.value);
        var n :| n in live && keys[0] in n.secondaryNetKeys && IsMarked(n, keys[0], r2.value);
      } else {
        FoundIsUnique(live, keys[1..], ip, r1, r2);
      }
    }
  }

  lemma OverwrittenOnce(index: Index, m: Meta, key: string)
    ensures Overwritten(index, m, [key]) == index[key := m]
  {
    assert [key][..0] == [];
    assert Overwritten(index, m, []) == index;
  }

  // ----- the store object

  class KubernetesStore {
    var byKey: Index
    var byIP: Index
    var byNodeName: Index
    var bySecondaryKey: Index

    function Contents(): State
      reads this
    {
      State(byKey, byIP, byNodeName, bySecondaryKey)
    }

    constructor ()
      ensures Contents() == EMPTY
    {
      byKey, byIP, byNodeName, bySecondaryKey := map[], map[], map[], map[];
    }

    method RemoveFromIndexes(meta: Meta)
      modifies this
      ensures Contents() == Unindexed(old(Contents()), meta)
    {
      byIP := Release(byIP, meta.uid, meta.ips);
      if meta.kind == "Node" && meta.name != "" {
        byNodeName := Release(byNodeName, meta.uid, [meta.name]);
      }
      bySecondaryKey := Release(bySecondaryKey, meta.uid, meta.secondaryNetKeys);
    }

    method AddToIndexes(meta: Meta)
      modifies this
      ensures Contents() == Indexed(old(Contents()), meta)
    {
      for i := 0 to |meta.ips|
        invariant Contents() == old(Contents()).(byIP := Claimed(old(byIP), meta, meta.ips[..i]))
      {
        assert meta.ips[..i+1][..i] == meta.ips[..i];
        if meta.ips[i] !in byIP {
          byIP := byIP[meta.ips[i] := meta];
        }
      }
      assert meta.ips[..|meta.ips|] == meta.ips;
      if meta.kind == "Node" && meta.name != "" {
        OverwrittenOnce(byNodeName, meta, meta.name);
        byNodeName := byNodeName[meta.name := meta];
      }
      bySecondaryKey := Overwrite(bySecondaryKey, meta, meta.secondaryNetKeys);
    }

    method ReplaceAll(entries: seq<Option<Meta>>)
      modifies this
      ensures Contents() == Apply(old(Contents()), Replace(entries))
    {
      byKey, byIP, byNodeName, bySecondaryKey := map[], map[], map[], map[];
      for i := 0 to |entries|
        invariant Contents() == DoAll(EMPTY, AddOp, entries[..i])
      {
        assert entries[..i+1][..i] == entries[..i];
        if entries[i].None? {
          continue;
        }
        var meta := entries[i].value;
        byKey := byKey[StoreKey(meta) := meta];
        AddToIndexes(meta);
      }
      assert entries[..|entries|] == entries;
    }

    method AddOrUpdateAll(entries: seq<Option<Meta>>)
      modifies this
      ensures Contents() == Apply(old(Contents()), AddOrUpdate(entries))
    {
      for i := 0 to |entries|
        invariant Contents() == DoAll(old(Contents()), PutOp, entries[..i])
      {
        assert entries[..i+1][..i] == entries[..i];
        if entries[i].None? {
          continue;
        }
        var meta := entries[i].value;
        if StoreKey(meta) in byKey {
          RemoveFromIndexes(byKey[StoreKey(meta)]);
        }
        byKey := byKey[StoreKey(meta) := meta];
        AddToIndexes(meta);
      }
      assert entries[..|entries|] == entries;
    }

    method DeleteAll(entries: seq<Option<Meta>>)
      modifies this
      ensures Contents() == Apply(old(Contents()), Delete(entries))
    {
      for i := 0 to |entries|
        invariant Contents() == DoAll(old(Contents()), DropOp, entries[..i])
      {
        assert entries[..i+1][..i] == entries[..i];
        if entries[i].None? {
          continue;
        }
        var key := StoreKey(entries[i].value);
        if key in byKey {
          RemoveFromIndexes(byKey[key]);
          byKey := byKey - {key};
        }
      }
      assert entries[..|entries|] == entries;
    }

    method IndexLookup(potentialKeys: seq<string>, ip: string) returns (r: Option<Meta>)
      ensures r == LookedUp(Contents(), potentialKeys, ip)
      ensures Sound(Contents()) && Complete(Contents(), ByIP) && Complete(Contents(), BySecondary) ==>
        Finds(Resources(Contents()), potentialKeys, ip, r)
    {
      if Sound(Contents()) && Complete(Contents(), ByIP) && Complete(Contents(), BySecondary) {
        LookupIsSearch(Contents(), potentialKeys, ip);
      }
      for i := 0 to |potentialKeys|
        invariant LookedUp(Contents(), potentialKeys, ip) == LookedUp(Contents(), potentialKeys[i..], ip)
      {
        var key := potentialKeys[i];
        if key in bySecondaryKey {
          return Some(bySecondaryKey[key].(networkName := NetName(bySecondaryKey[key], key)));
        }
      }
      if ip != "" && ip in byIP {
        return Some(byIP[ip]);
      }
      return None;
    }

    /** Node metadata by name: the node of that name when there is one. */
    method GetNodeByName(name: string) returns (r: Option<Meta>)
      ensures Sound(Contents()) && Complete(Contents(), ByNode) ==>
        match r
        case Some(m) => m in Resources(Contents()) && IsNode(m, name)
        case None => forall m :: m in Resources(Contents()) ==> !IsNode(m, name)
    {
      assert forall m :: name in KeysOf(m, ByNode) <==> IsNode(m, name);
      if Sound(Contents()) && Complete(Contents(), ByNode) {
        IndexIsSearch(Contents(), ByNode, name);
      }
      if name in byNodeName {
        return Some(byNodeName[name]);
      }
      return None;
    }
  }

  method Release(index: Index, uid: string, keys: seq<string>) returns (r: Index)
    ensures r == Released(index, uid, keys)
  {
    r := index;
    for i := 0 to |keys|
      invariant r == Released(index, uid, keys[..i])
    {
      assert keys[..i+1][..i] == keys[..i];
      if keys[i] in r && r[keys[i]].uid == uid {
        r := r - {keys[i]};
      }
    }
    assert keys[..|keys|] == keys;
  }

  method Overwrite(index: Index, meta: Meta, keys: seq<string>) returns (r: Index)
    ensures r == Overwritten(index, meta, keys)
  {
    r := index;
    for i := 0 to |keys|
      invariant r == Overwritten(index, meta, keys[..i])
    {
      assert keys[..i+1][..i] == keys[..i];
      r := r[keys[i] := meta];
    }
    assert keys[..|keys|] == keys;
  }
}
