/** Connection hashing, connection keys and flow-log direction
    (hash.go, the builder of conn.go, getFlowLogDirection of conntrack.go). */
module ConnTrackHash {
  import opened Common
  import opened ConnTrackConfig

  type Hash = nat
  type Bytes = seq<int>
  datatype TotalHash = TotalHash(hashA: Hash, hashB: Hash, hashTotal: Hash)
  datatype Direction = NA | AB | BA

  /** The conversions and codecs the tracker is built on. Every theorem holds for all of them. */
  datatype Lib = Lib(
    toFloat: Value -> Option<real>,
    toUint32: Value -> Option<bv32>,
    toBool: Value -> Option<bool>,
    matches: (Value, Value) -> bool,
    encode: Value -> Option<Bytes>,
    u64Bytes: Hash -> Bytes,
    fnv: Bytes -> Hash)

  /** What has been written to the hasher after the given fields: missing fields are skipped. */
  function FieldsBytes(lib: Lib, fl: GenericMap, fields: seq<string>): Bytes {
    if fields == [] then []
    else
      var f := fields[|fields|-1];
      FieldsBytes(lib, fl, fields[..|fields|-1]) + if f in fl then lib.encode(fl[f]).GetOr([]) else []
  }

  /** Every key field that is present can be encoded; otherwise the flow log is rejected. */
  predicate Encodable(lib: Lib, fl: GenericMap, fields: set<string>) {
    forall f :: f in fields && f in fl ==> lib.encode(fl[f]).Some?
  }

  function GroupHash(lib: Lib, cfg: ConnTrack, fl: GenericMap, name: string): Hash {
    if name in GroupNames(cfg.fieldGroups) then lib.fnv(FieldsBytes(lib, fl, FieldsOf(cfg.fieldGroups, name))) else 0
  }

  function RefsBytes(lib: Lib, cfg: ConnTrack, fl: GenericMap, refs: seq<string>): Bytes {
    if refs == [] then []
    else RefsBytes(lib, cfg, fl, refs[..|refs|-1]) + lib.u64Bytes(GroupHash(lib, cfg, fl, refs[|refs|-1]))
  }

  /** The two endpoint hashes in ascending order, so that both directions write the same bytes. */
  function EndpointBytes(lib: Lib, a: Hash, b: Hash): Bytes {
    if a < b then lib.u64Bytes(a) + lib.u64Bytes(b) else lib.u64Bytes(b) + lib.u64Bytes(a)
  }

  function TotalHashOf(lib: Lib, cfg: ConnTrack, fl: GenericMap): Option<TotalHash> {
    if !Encodable(lib, fl, KeyFields(cfg.fieldGroups)) then None
    else
      var refs := RefsBytes(lib, cfg, fl, cfg.hash.groupRefs);
      if cfg.hash.aRef == "" then Some(TotalHash(0, 0, lib.fnv(refs)))
      else
        var a := GroupHash(lib, cfg, fl, cfg.hash.aRef);
        var b := GroupHash(lib, cfg, fl, cfg.hash.bRef);
        Some(TotalHash(a, b, lib.fnv(refs + EndpointBytes(lib, a, b))))
  }

  method ComputeHashFields(lib: Lib, fl: GenericMap, fields: seq<string>) returns (h: Option<Hash>)
    ensures h.None? <==> !Encodable(lib, fl, Elems(fields))
    ensures h.Some? ==> h.value == lib.fnv(FieldsBytes(lib, fl, fields))
  {
    var written: Bytes := [];
    for i := 0 to |fields|
      invariant written == FieldsBytes(lib, fl, fields[..i])
      invariant Encodable(lib, fl, Elems(fields[..i]))
    {
      assert fields[..i+1][..i] == fields[..i];
      assert fields[i] in Elems(fields);
      if fields[i] in fl {
        var bytes := lib.encode(fl[fields[i]]);
        if bytes.None? {
          return None;
        }
        written := written + bytes.value;
      }
    }
    assert fields[..|fields|] == fields;
    return Some(lib.fnv(written));
  }

  /** computeHash: per-group hashes collected in a map, then combined. */
  method ComputeHash(lib: Lib, cfg: ConnTrack, fl: GenericMap) returns (h: Option<TotalHash>)
    ensures h == TotalHashOf(lib, cfg, fl)
  {
    var groups := cfg.fieldGroups;
    var group2hash: map<string, Hash> := map[];
    for i := 0 to |groups|
      invariant Encodable(lib, fl, KeyFields(groups[..i]))
      invariant forall n :: n in group2hash <==> n in GroupNames(groups[..i])
      invariant forall n :: n in group2hash ==>
        group2hash[n] == lib.fnv(FieldsBytes(lib, fl, FieldsOf(groups[..i], n)))
    {
      assert groups[..i+1][..i] == groups[..i];
      assert GroupNames(groups[..i+1]) == GroupNames(groups[..i]) + [groups[i].name];
      assert groups[i] in groups && groups[i] in groups[..i+1];
      var gh := ComputeHashFields(lib, fl, groups[i].fields);
      if gh.None? {
        return None;
      }
      forall f | f in KeyFields(groups[..i+1]) && f in fl ensures lib.encode(fl[f]).Some? {
        if f !in KeyFields(groups[..i]) {
          assert f in groups[i].fields;
        }
      }
      group2hash := group2hash[groups[i].name := gh.value];
    }
    assert groups[..|groups|] == groups;
    var written: Bytes := [];
    for i := 0 to |cfg.hash.groupRefs|
      invariant written == RefsBytes(lib, cfg, fl, cfg.hash.groupRefs[..i])
    {
      assert cfg.hash.groupRefs[..i+1][..i] == cfg.hash.groupRefs[..i];
      var ref := cfg.hash.groupRefs[i];
      written := written + lib.u64Bytes(if ref in group2hash then group2hash[ref] else 0);
    }
    assert cfg.hash.groupRefs[..|cfg.hash.groupRefs|] == cfg.hash.groupRefs;
    var hashA, hashB := 0, 0;
    if cfg.hash.aRef != "" {
      hashA := if cfg.hash.aRef in group2hash then group2hash[cfg.hash.aRef] else 0;
      hashB := if cfg.hash.bRef in group2hash then group2hash[cfg.hash.bRef] else 0;
      if hashA < hashB {
        written := written + (lib.u64Bytes(hashA) + lib.u64Bytes(hashB));
      } else {
        written := written + (lib.u64Bytes(hashB) + lib.u64Bytes(hashA));
      }
    }
    return Some(TotalHash(hashA, hashB, lib.fnv(written)));
  }

  // ----- what the hash identifies

  function GroupText(lib: Lib, cfg: ConnTrack, fl: GenericMap, name: string): Bytes {
    FieldsBytes(lib, fl, FieldsOf(cfg.fieldGroups, name))
  }

  /** All that is hashed for a flow log: the texts of its groups and, last, their hashes together. */
  function HashedTexts(lib: Lib, cfg: ConnTrack, fl: GenericMap): set<Bytes> {
    var (a, b) := (GroupHash(lib, cfg, fl, cfg.hash.aRef), GroupHash(lib, cfg, fl, cfg.hash.bRef));
    (set r | r in cfg.hash.groupRefs + [cfg.hash.aRef, cfg.hash.bRef] :: GroupText(lib, cfg, fl, r))
      + {RefsBytes(lib, cfg, fl, cfg.hash.groupRefs),
         RefsBytes(lib, cfg, fl, cfg.hash.groupRefs) + EndpointBytes(lib, a, b)}
  }

  ghost predicate NoCollision(lib: Lib, texts: set<Bytes>) {
    forall x, y :: x in texts && y in texts && lib.fnv(x) == lib.fnv(y) ==> x == y
  }

  /** Hashes are written as eight bytes each. */
  ghost predicate WritesEightBytes(lib: Lib) {
    && (forall h :: |lib.u64Bytes(h)| == 8)
    && (forall g, h :: lib.u64Bytes(g) == lib.u64Bytes(h) ==> g == h)
  }

  predicate SameText(lib: Lib, cfg: ConnTrack, x: GenericMap, rx: string, y: GenericMap, ry: string) {
    GroupText(lib, cfg, x, rx) == GroupText(lib, cfg, y, ry)
  }

  /** Unless the hash collides, two flow logs belong to one connection if and only if they agree on every group of the
      definition and have the same two ends, in either order. */
  lemma SameConnection(lib: Lib, cfg: ConnTrack, x: GenericMap, y: GenericMap)
    requires ValidConfig(cfg) && TotalHashOf(lib, cfg, x).Some? && TotalHashOf(lib, cfg, y).Some?
    requires WritesEightBytes(lib) && NoCollision(lib, HashedTexts(lib, cfg, x) + HashedTexts(lib, cfg, y))
    ensures var (a, b) := (cfg.hash.aRef, cfg.hash.bRef);
      TotalHashOf(lib, cfg, x).value.hashTotal == TotalHashOf(lib, cfg, y).value.hashTotal <==>
        && (forall r :: r in cfg.hash.groupRefs ==> SameText(lib, cfg, x, r, y, r))
        && (a != "" ==>
              || (SameText(lib, cfg, x, a, y, a) && SameText(lib, cfg, x, b, y, b))
              || (SameText(lib, cfg, x, a, y, b) && SameText(lib, cfg, x, b, y, a)))
  {
    var refs := cfg.hash.groupRefs;
    var rx, ry := RefsBytes(lib, cfg, x, refs), RefsBytes(lib, cfg, y, refs);
    forall r | r in refs
      ensures SameText(lib, cfg, x, r, y, r) <==> GroupHash(lib, cfg, x, r) == GroupHash(lib, cfg, y, r)
    {
      TextsHash(lib, cfg, x, r, y, r);
    }
    RefsAgree(lib, cfg, x, y, refs);
    if cfg.hash.aRef != "" {
      EndsAgree(lib, cfg, x, y);
      RefsLength(lib, cfg, x, refs);
      RefsLength(lib, cfg, y, refs);
      var ex := EndpointBytes(lib, GroupHash(lib, cfg, x, cfg.hash.aRef), GroupHash(lib, cfg, x, cfg.hash.bRef));
      var ey := EndpointBytes(lib, GroupHash(lib, cfg, y, cfg.hash.aRef), GroupHash(lib, cfg, y, cfg.hash.bRef));
      SplitBytes(rx, ex, ry, ey);
    }
  }

  lemma SplitBytes(a: Bytes, b: Bytes, c: Bytes, d: Bytes)
    requires |a| == |c|
    ensures a + b == c + d <==> a == c && b == d
  {
    if a + b == c + d {
      assert a == (a + b)[..|a|] && c == (c + d)[..|a|];
      assert b == (a + b)[|a|..] && d == (c + d)[|a|..];
    }
  }

  lemma TextsHash(lib: Lib, cfg: ConnTrack, x: GenericMap, r: string, y: GenericMap, q: string)
    requires NoCollision(lib, HashedTexts(lib, cfg, x) + HashedTexts(lib, cfg, y))
    requires r in GroupNames(cfg.fieldGroups) && q in GroupNames(cfg.fieldGroups)
    requires r in cfg.hash.groupRefs + [cfg.hash.aRef, cfg.hash.bRef]
    requires q in cfg.hash.groupRefs + [cfg.hash.aRef, cfg.hash.bRef]
    ensures SameText(lib, cfg, x, r, y, q) <==> GroupHash(lib, cfg, x, r) == GroupHash(lib, cfg, y, q)
  {
    assert GroupText(lib, cfg, x, r) in HashedTexts(lib, cfg, x);
    assert GroupText(lib, cfg, y, q) in HashedTexts(lib, cfg, y);
  }

  lemma {:induction false} RefsLength(lib: Lib, cfg: ConnTrack, fl: GenericMap, refs: seq<string>)
    requires WritesEightBytes(lib)
    ensures |RefsBytes(lib, cfg, fl, refs)| == 8 * |refs|
  {
    if refs != [] {
      RefsLength(lib, cfg, fl, refs[..|refs|-1]);
    }
  }

  lemma {:induction false} RefsAgree(lib: Lib, cfg: ConnTrack, x: GenericMap, y: GenericMap, refs: seq<string>)
    requires WritesEightBytes(lib)
    ensures RefsBytes(lib, cfg, x, refs) == RefsBytes(lib, cfg, y, refs)
      <==> forall r :: r in refs ==> GroupHash(lib, cfg, x, r) == GroupHash(lib, cfg, y, r)
  {
    if refs != [] {
      var n := |refs| - 1;
      RefsAgree(lib, cfg, x, y, refs[..n]);
      RefsLength(lib, cfg, x, refs[..n]);
      RefsLength(lib, cfg, y, refs[..n]);
      SplitBytes(RefsBytes(lib, cfg, x, refs[..n]), lib.u64Bytes(GroupHash(lib, cfg, x, refs[n])),
                 RefsBytes(lib, cfg, y, refs[..n]), lib.u64Bytes(GroupHash(lib, cfg, y, refs[n])));
      assert forall r :: r in refs <==> r in refs[..n] || r == refs[n];
    }
  }

  lemma EndsAgree(lib: Lib, cfg: ConnTrack, x: GenericMap, y: GenericMap)
    requires ValidConfig(cfg) && cfg.hash.aRef != "" && WritesEightBytes(lib)
    requires NoCollision(lib, HashedTexts(lib, cfg, x) + HashedTexts(lib, cfg, y))
    ensures var (a, b) := (cfg.hash.aRef, cfg.hash.bRef);
      EndpointBytes(lib, GroupHash(lib, cfg, x, a), GroupHash(lib, cfg, x, b))
        == EndpointBytes(lib, GroupHash(lib, cfg, y, a), GroupHash(lib, cfg, y, b)) <==>
      || (SameText(lib, cfg, x, a, y, a) && SameText(lib, cfg, x, b, y, b))
      || (SameText(lib, cfg, x, a, y, b) && SameText(lib, cfg, x, b, y, a))
  {
    var a, b := cfg.hash.aRef, cfg.hash.bRef;
    TextsHash(lib, cfg, x, a, y, a);
    TextsHash(lib, cfg, x, b, y, b);
    TextsHash(lib, cfg, x, a, y, b);
    TextsHash(lib, cfg, x, b, y, a);
    PairBytes(lib, GroupHash(lib, cfg, x, a), GroupHash(lib, cfg, x, b), GroupHash(lib, cfg, y, a),
              GroupHash(lib, cfg, y, b));
  }

  lemma PairBytes(lib: Lib, a: Hash, b: Hash, c: Hash, d: Hash)
    requires WritesEightBytes(lib)
    ensures EndpointBytes(lib, a, b) == EndpointBytes(lib, c, d) <==> (a == c && b == d) || (a == d && b == c)
  {
    SplitBytes(lib.u64Bytes(if a < b then a else b), lib.u64Bytes(if a < b then b else a),
               lib.u64Bytes(if c < d then c else d), lib.u64Bytes(if c < d then d else c));
  }

  // ----- keys, swapped hash, direction

  function FieldsA(cfg: ConnTrack): seq<string> { FieldsOf(cfg.fieldGroups, cfg.hash.aRef) }
  function FieldsB(cfg: ConnTrack): seq<string> { FieldsOf(cfg.fieldGroups, cfg.hash.bRef) }

  /** The endpoint field on the other side, and any other field itself. */
  function Opposite(cfg: ConnTrack, f: string): string {
    if f in FieldsA(cfg) && IndexOf(FieldsA(cfg), f) < |FieldsB(cfg)| then FieldsB(cfg)[IndexOf(FieldsA(cfg), f)]
    else if f in FieldsB(cfg) && IndexOf(FieldsB(cfg), f) < |FieldsA(cfg)| then FieldsA(cfg)[IndexOf(FieldsB(cfg), f)]
    else f
  }

  /** The keys of a connection opened by fl; a missing field is stored as nil. */
  function KeysOf(cfg: ConnTrack, fl: GenericMap, swap: bool): GenericMap {
    if swap then SwapEndpoints(BaseKeys(cfg, fl), fl, FieldsA(cfg), FieldsB(cfg)) else BaseKeys(cfg, fl)
  }

  function BaseKeys(cfg: ConnTrack, fl: GenericMap): GenericMap {
    map f | f in KeyFields(cfg.fieldGroups) :: Lookup(fl, f)
  }

  /** The swap loop of keysFrom, pair by pair. */
  function SwapEndpoints(keys: GenericMap, fl: GenericMap, a: seq<string>, b: seq<string>): GenericMap {
    if a == [] || |a| != |b| then keys
    else
      var n := |a| - 1;
      SwapEndpoints(keys, fl, a[..n], b[..n])[a[n] := Lookup(fl, b[n])][b[n] := Lookup(fl, a[n])]
  }

  /** The hash stored in a connection opened by a flow log with hash h. */
  function ConnHash(h: TotalHash, swap: bool): TotalHash {
    if swap then TotalHash(h.hashB, h.hashA, h.hashTotal) else h
  }

  /** getFlowLogDirection. */
  function DirectionOf(cfg: ConnTrack, conn: TotalHash, flow: TotalHash): Direction {
    if cfg.hash.aRef == "" then NA else if conn.hashA == flow.hashA then AB else BA
  }

  // ----- mirrored flow logs

  /** A flow log seen from the other end: every endpoint field carries the value of its opposite. */
  function Mirror(cfg: ConnTrack, fl: GenericMap): GenericMap {
    map f | f in (set g | g in fl :: Opposite(cfg, g)) && Opposite(cfg, f) in fl :: fl[Opposite(cfg, f)]
  }

  /** Bidirectional, endpoints disjoint, and the other hashed groups do not touch endpoint fields. */
  predicate Bidirectional(cfg: ConnTrack) {
    && cfg.hash.aRef != ""
    && NoDup(FieldsA(cfg) + FieldsB(cfg))
    && forall r, f :: r in cfg.hash.groupRefs && f in FieldsOf(cfg.fieldGroups, r) ==>
         f !in FieldsA(cfg) && f !in FieldsB(cfg)
  }

  lemma OppositeOfPair(cfg: ConnTrack, i: nat)
    requires ValidConfig(cfg) && Bidirectional(cfg) && i < |FieldsA(cfg)|
    ensures Opposite(cfg, FieldsA(cfg)[i]) == FieldsB(cfg)[i]
    ensures Opposite(cfg, FieldsB(cfg)[i]) == FieldsA(cfg)[i]
  {
    var a, b := FieldsA(cfg), FieldsB(cfg);
    forall x | 0 <= x < |a| ensures IndexOf(a, a[x]) == x && IndexOf(b, b[x]) == x && b[x] !in a {
      var ia, ib := IndexOf(a, a[x]), IndexOf(b, b[x]);
      assert (a + b)[ia] == (a + b)[x];
      assert (a + b)[|a| + ib] == (a + b)[|a| + x];
      forall y | 0 <= y < |a| ensures a[y] != b[x] {
        assert (a + b)[y] != (a + b)[|a| + x];
      }
    }
  }

  lemma OppositeInvolutive(cfg: ConnTrack, f: string)
    requires ValidConfig(cfg) && Bidirectional(cfg)
    ensures Opposite(cfg, Opposite(cfg, f)) == f
    ensures f in KeyFields(cfg.fieldGroups) ==> Opposite(cfg, f) in KeyFields(cfg.fieldGroups)
    ensures f !in FieldsA(cfg) && f !in FieldsB(cfg) ==> Opposite(cfg, f) == f
  {
    if f in FieldsA(cfg) {
      OppositeOfPair(cfg, IndexOf(FieldsA(cfg), f));
      FieldsAreKeys(cfg.fieldGroups, cfg.hash.bRef);
    } else if f in FieldsB(cfg) {
      OppositeOfPair(cfg, IndexOf(FieldsB(cfg), f));
      FieldsAreKeys(cfg.fieldGroups, cfg.hash.aRef);
    }
  }

  lemma {:induction false} FieldsAreKeys(gs: seq<FieldGroup>, name: string)
    ensures forall f :: f in FieldsOf(gs, name) ==> f in KeyFields(gs)
  {
    if gs != [] {
      FieldsAreKeys(gs[..|gs|-1], name);
      assert gs[|gs|-1] in gs;
    }
  }

  lemma MirrorLookup(cfg: ConnTrack, fl: GenericMap, f: string)
    requires ValidConfig(cfg) && Bidirectional(cfg)
    ensures f in Mirror(cfg, fl) <==> Opposite(cfg, f) in fl
    ensures Lookup(Mirror(cfg, fl), f) == Lookup(fl, Opposite(cfg, f))
  {
    OppositeInvolutive(cfg, f);
  }

  lemma {:induction false} MirrorBytes(lib: Lib, cfg: ConnTrack, fl: GenericMap, s: seq<string>, t: seq<string>)
    requires ValidConfig(cfg) && Bidirectional(cfg) && |s| == |t|
    requires forall i :: 0 <= i < |s| ==> Opposite(cfg, s[i]) == t[i]
    ensures FieldsBytes(lib, Mirror(cfg, fl), s) == FieldsBytes(lib, fl, t)
  {
    if s != [] {
      var n := |s| - 1;
      MirrorBytes(lib, cfg, fl, s[..n], t[..n]);
      MirrorLookup(cfg, fl, s[n]);
    }
  }

  lemma MirrorEndpoints(lib: Lib, cfg: ConnTrack, fl: GenericMap)
    requires ValidConfig(cfg) && Bidirectional(cfg)
    ensures GroupHash(lib, cfg, Mirror(cfg, fl), cfg.hash.aRef) == GroupHash(lib, cfg, fl, cfg.hash.bRef)
    ensures GroupHash(lib, cfg, Mirror(cfg, fl), cfg.hash.bRef) == GroupHash(lib, cfg, fl, cfg.hash.aRef)
  {
    forall i | 0 <= i < |FieldsA(cfg)|
      ensures Opposite(cfg, FieldsA(cfg)[i]) == FieldsB(cfg)[i] && Opposite(cfg, FieldsB(cfg)[i]) == FieldsA(cfg)[i]
    {
      OppositeOfPair(cfg, i);
    }
    MirrorBytes(lib, cfg, fl, FieldsA(cfg), FieldsB(cfg));
    MirrorBytes(lib, cfg, fl, FieldsB(cfg), FieldsA(cfg));
  }

  lemma {:induction false} MirrorRefs(lib: Lib, cfg: ConnTrack, fl: GenericMap, refs: seq<string>)
    requires ValidConfig(cfg) && Bidirectional(cfg)
    requires forall r :: r in refs ==> r in cfg.hash.groupRefs
    ensures RefsBytes(lib, cfg, Mirror(cfg, fl), refs) == RefsBytes(lib, cfg, fl, refs)
  {
    if refs != [] {
      var r := refs[|refs|-1];
      MirrorRefs(lib, cfg, fl, refs[..|refs|-1]);
      assert r in refs;
      MirrorGroup(lib, cfg, fl, r);
    }
  }

  lemma MirrorGroup(lib: Lib, cfg: ConnTrack, fl: GenericMap, r: string)
    requires ValidConfig(cfg) && Bidirectional(cfg) && r in cfg.hash.groupRefs
    ensures GroupHash(lib, cfg, Mirror(cfg, fl), r) == GroupHash(lib, cfg, fl, r)
  {
    var fields := FieldsOf(cfg.fieldGroups, r);
    forall i | 0 <= i < |fields| ensures Opposite(cfg, fields[i]) == fields[i] {
      assert fields[i] in FieldsOf(cfg.fieldGroups, r);
      OppositeInvolutive(cfg, fields[i]);
    }
    MirrorBytes(lib, cfg, fl, fields, fields);
  }

  /** A flow log and its mirror belong to the same connection: same total hash, endpoint hashes exchanged,
      and either both are rejected or neither is. */
  lemma MirrorHash(lib: Lib, cfg: ConnTrack, fl: GenericMap)
    requires ValidConfig(cfg) && Bidirectional(cfg)
    ensures var h, m := TotalHashOf(lib, cfg, fl), TotalHashOf(lib, cfg, Mirror(cfg, fl));
      && (h.Some? <==> m.Some?)
      && (h.Some? ==> m.value == TotalHash(h.value.hashB, h.value.hashA, h.value.hashTotal))
  {
    MirrorEndpoints(lib, cfg, fl);
    MirrorRefs(lib, cfg, fl, cfg.hash.groupRefs);
    MirrorEncodable(lib, cfg, fl);
    var a, b := GroupHash(lib, cfg, fl, cfg.hash.aRef), GroupHash(lib, cfg, fl, cfg.hash.bRef);
    assert EndpointBytes(lib, a, b) == EndpointBytes(lib, b, a);
  }

  lemma MirrorEncodable(lib: Lib, cfg: ConnTrack, fl: GenericMap)
    requires ValidConfig(cfg) && Bidirectional(cfg)
    ensures Encodable(lib, Mirror(cfg, fl), KeyFields(cfg.fieldGroups)) <==>
            Encodable(lib, fl, KeyFields(cfg.fieldGroups))
  {
    var keys := KeyFields(cfg.fieldGroups);
    if Encodable(lib, fl, keys) {
      forall f | f in keys && f in Mirror(cfg, fl) ensures lib.encode(Mirror(cfg, fl)[f]).Some? {
        OppositeInvolutive(cfg, f);
        MirrorLookup(cfg, fl, f);
      }
    }
    if Encodable(lib, Mirror(cfg, fl), keys) {
      forall f | f in keys && f in fl ensures lib.encode(fl[f]).Some? {
        OppositeInvolutive(cfg, f);
        MirrorLookup(cfg, fl, Opposite(cfg, f));
      }
    }
  }

  /** Whichever end opened the connection, a flow log and its mirror update opposite directions,
      unless the two endpoints hash alike. */
  lemma MirrorDirection(lib: Lib, cfg: ConnTrack, fl: GenericMap, swap: bool)
    requires ValidConfig(cfg) && Bidirectional(cfg) && TotalHashOf(lib, cfg, fl).Some?
    ensures var h, m := TotalHashOf(lib, cfg, fl).value, TotalHashOf(lib, cfg, Mirror(cfg, fl));
      m.Some? && (DirectionOf(cfg, ConnHash(h, swap), h) != DirectionOf(cfg, ConnHash(h, swap), m.value)
                  <==> h.hashA != h.hashB)
  {
    MirrorHash(lib, cfg, fl);
  }

  lemma {:induction false} SwapEndpointsOther(
    keys: GenericMap, fl: GenericMap, a: seq<string>, b: seq<string>, f: string)
    requires |a| == |b|
    ensures f in SwapEndpoints(keys, fl, a, b) <==> f in keys || f in a || f in b
    ensures f !in a && f !in b ==> Lookup(SwapEndpoints(keys, fl, a, b), f) == Lookup(keys, f)
  {
    if a != [] {
      var n := |a| - 1;
      SwapEndpointsOther(keys, fl, a[..n], b[..n], f);
      assert a == a[..n] + [a[n]] && b == b[..n] + [b[n]];
    }
  }

  lemma {:induction false} SwapEndpointsPair(
    keys: GenericMap, fl: GenericMap, a: seq<string>, b: seq<string>, i: nat)
    requires i < |a| == |b| && NoDup(a + b)
    ensures Lookup(SwapEndpoints(keys, fl, a, b), a[i]) == Lookup(fl, b[i])
    ensures Lookup(SwapEndpoints(keys, fl, a, b), b[i]) == Lookup(fl, a[i])
  {
    var n := |a| - 1;
    assert (a + b)[n] != (a + b)[|a| + n];
    if i < n {
      assert (a + b)[i] != (a + b)[n] && (a + b)[i] != (a + b)[|a| + n];
      assert (a + b)[n] != (a + b)[|a| + i] && (a + b)[|a| + i] != (a + b)[|a| + n];
      NoDupPrefixes(a, b);
      SwapEndpointsPair(keys, fl, a[..n], b[..n], i);
    }
  }

  lemma NoDupPrefixes(a: seq<string>, b: seq<string>)
    requires 0 < |a| == |b| && NoDup(a + b)
    ensures NoDup(a[..|a|-1] + b[..|a|-1])
  {
    var n := |a| - 1;
    forall i, j | 0 <= i < j < n + n ensures (a[..n] + b[..n])[i] != (a[..n] + b[..n])[j] {
      assert (a + b)[if i < n then i else i + 1] != (a + b)[if j < n then j else j + 1];
    }
  }

  /** Opening a connection from a SYN_ACK flow log with swapping is opening it from the mirrored flow log:
      same keys, same stored hash, hence the same direction for every later flow log. */
  lemma SwapIsMirror(lib: Lib, cfg: ConnTrack, fl: GenericMap, later: TotalHash)
    requires ValidConfig(cfg) && Bidirectional(cfg) && TotalHashOf(lib, cfg, fl).Some?
    ensures KeysOf(cfg, fl, true) == KeysOf(cfg, Mirror(cfg, fl), false)
    ensures var h, m := TotalHashOf(lib, cfg, fl).value, TotalHashOf(lib, cfg, Mirror(cfg, fl));
      m.Some? && ConnHash(h, true) == ConnHash(m.value, false) &&
      DirectionOf(cfg, ConnHash(h, true), later) == DirectionOf(cfg, ConnHash(m.value, false), later)
  {
    MirrorHash(lib, cfg, fl);
    var k, m := KeysOf(cfg, fl, true), KeysOf(cfg, Mirror(cfg, fl), false);
    FieldsAreKeys(cfg.fieldGroups, cfg.hash.aRef);
    FieldsAreKeys(cfg.fieldGroups, cfg.hash.bRef);
    forall f ensures (f in k <==> f in m) && Lookup(k, f) == Lookup(m, f) {
      SwapEndpointsOther(BaseKeys(cfg, fl), fl, FieldsA(cfg), FieldsB(cfg), f);
      SwappedKey(cfg, fl, f);
    }
  }

  lemma SwappedKey(cfg: ConnTrack, fl: GenericMap, f: string)
    requires ValidConfig(cfg) && Bidirectional(cfg)
    ensures f in KeyFields(cfg.fieldGroups) ==> Lookup(KeysOf(cfg, fl, true), f) == Lookup(Mirror(cfg, fl), f)
  {
    var a, b, keys := FieldsA(cfg), FieldsB(cfg), BaseKeys(cfg, fl);
    MirrorLookup(cfg, fl, f);
    if f in a {
      OppositeOfPair(cfg, IndexOf(a, f));
      SwapEndpointsPair(keys, fl, a, b, IndexOf(a, f));
    } else if f in b {
      OppositeOfPair(cfg, IndexOf(b, f));
      SwapEndpointsPair(keys, fl, a, b, IndexOf(b, f));
    } else {
      SwapEndpointsOther(keys, fl, a, b, f);
    }
  }
}
