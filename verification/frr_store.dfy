/** The store of FRRConfiguration objects and the table rebuilt on every event (extract.go, store.go). */
module FrrStore {
  import opened Common
  import opened FrrLpm

  // ----- extraction

  /** An element of an unstructured prefix list. */
  datatype Item = Text(s: string) | Struct(prefix: Option<string>) | OtherItem

  /** A nested list: absent, of the wrong type, or present. */
  datatype Nested<+T> = Absent | Malformed | Present(items: seq<T>)

  datatype Neighbor = NotAMap | Neighbor(advertised: Nested<Item>)
  datatype Router = NotARouter | Router(asn: Option<int>, prefixes: Nested<Item>, neighbors: Nested<Neighbor>)
  datatype Config = Config(namespace: string, name: string, routers: Nested<Router>)

  const UINT32: int := 0x1_0000_0000

  function Strings(items: seq<Item>, structs: bool): seq<string> {
    if items == [] then [] else
    var s := match items[0]
      case Text(s) => s
      case Struct(Some(s)) => if structs then s else ""
      case _ => "";
    (if s == "" then [] else [s]) + Strings(items[1..], structs)
  }

  function NestedStrings(list: Nested<Item>, structs: bool): seq<string> {
    if list.Present? then Strings(list.items, structs) else []
  }

  function Advertised(neighbors: seq<Neighbor>): seq<string> {
    if neighbors == [] then [] else
    (if neighbors[0].Neighbor? then NestedStrings(neighbors[0].advertised, true) else []) + Advertised(neighbors[1..])
  }

  /** The AS number a router labels its prefixes with: truncated to 32 bits, None when missing or zero. */
  function LocalASN(router: Router): Option<nat> {
    if router.NotARouter? || router.asn.None? || router.asn.value % UINT32 == 0 then None
      else Some(router.asn.value % UINT32)
  }

  /** The prefixes a router owns, in the order they are read. */
  function Owned(router: Router): seq<string> {
    if router.NotARouter? then [] else
    NestedStrings(router.prefixes, false)
      + (if router.neighbors.Present? then Advertised(router.neighbors.items) else [])
  }

  predicate Readable(router: Router) {
    LocalASN(router).None? || !router.neighbors.Malformed?
  }

  function Assigned(out: Mappings, prefixes: seq<string>, asn: nat): Mappings {
    if prefixes == [] then out else
    var n := |prefixes| - 1;
    Assigned(out, prefixes[..n], asn)[prefixes[n] := asn]
  }

  /** What the first routers contribute; later routers override earlier ones. */
  function Extracted(routers: seq<Router>): Mappings {
    if routers == [] then map[] else
    var n := |routers| - 1;
    match LocalASN(routers[n])
    case None => Extracted(routers[..n])
    case Some(asn) => Assigned(Extracted(routers[..n]), Owned(routers[n]), asn)
  }

  predicate AllReadable(routers: seq<Router>) {
    routers == [] || (AllReadable(routers[..|routers|-1]) && Readable(routers[|routers|-1]))
  }

  lemma {:induction false} OneUnreadable(routers: seq<Router>, i: nat)
    requires i < |routers| && !Readable(routers[i])
    ensures !AllReadable(routers)
  {
    if i < |routers| - 1 {
      OneUnreadable(routers[..|routers|-1], i);
    }
  }

  /** The prefixes of an object, None when it cannot be read. */
  function MappingsOf(cfg: Config): Option<Mappings> {
    match cfg.routers
    case Absent => Some(map[])
    case Malformed => None
    case Present(routers) => if AllReadable(routers) then Some(Extracted(routers)) else None
  }

  lemma {:induction false} AssignedAt(out: Mappings, prefixes: seq<string>, asn: nat, p: string)
    ensures p in Assigned(out, prefixes, asn) <==> p in out || p in prefixes
    ensures p in Assigned(out, prefixes, asn) ==>
      Assigned(out, prefixes, asn)[p] == if p in prefixes then asn else out[p]
  {
    if prefixes != [] {
      AssignedAt(out, prefixes[..|prefixes|-1], asn, p);
    }
  }

  predicate Owns(router: Router, p: string) {
    LocalASN(router).Some? && p in Owned(router)
  }

  /** The AS number of the last labelling router that owns a prefix. */
  function LastOwner(routers: seq<Router>, p: string): Option<nat> {
    if routers == [] then None else
    var n := |routers| - 1;
    if Owns(routers[n], p) then LocalASN(routers[n]) else LastOwner(routers[..n], p)
  }

  /** A prefix is mapped exactly when some labelling router owns it, to the AS number of the last such router. */
  lemma {:induction false} LastOwnerWins(routers: seq<Router>, p: string)
    ensures (if p in Extracted(routers) then Some(Extracted(routers)[p]) else None) == LastOwner(routers, p)
  {
    if routers != [] {
      var n := |routers| - 1;
      LastOwnerWins(routers[..n], p);
      if LocalASN(routers[n]).Some? {
        AssignedAt(Extracted(routers[..n]), Owned(routers[n]), LocalASN(routers[n]).value, p);
      }
    }
  }

  lemma {:induction false} LastOwnerNotZero(routers: seq<Router>, p: string)
    ensures LastOwner(routers, p) != Some(0)
  {
    if routers != [] {
      LastOwnerNotZero(routers[..|routers|-1], p);
    }
  }

  /** AS number 0 is never extracted. */
  lemma NoZero(cfg: Config, p: string)
    requires MappingsOf(cfg).Some? && p in MappingsOf(cfg).value
    ensures MappingsOf(cfg).value[p] > 0
  {
    if cfg.routers.Present? {
      LastOwnerWins(cfg.routers.items, p);
      LastOwnerNotZero(cfg.routers.items, p);
    }
  }

  // ----- ownership, read off the lists of an object

  predicate IsListed(list: Nested<Item>, item: Item) { list.Present? && item in list.items }

  /** A router owns the texts of its prefix list, and what some neighbor is allowed to be advertised, as a text or as
      the prefix of a structure. */
  predicate IsOwner(router: Router, p: string) {
    && router.Router? && p != ""
    && (|| IsListed(router.prefixes, Text(p))
        || (router.neighbors.Present? && exists n :: n in router.neighbors.items && IsAdvertised(n, p)))
  }

  predicate IsAdvertised(n: Neighbor, p: string) {
    n.Neighbor? && (IsListed(n.advertised, Text(p)) || IsListed(n.advertised, Struct(Some(p))))
  }

  /** The AS number of a router: its number reduced to 32 bits, which must not be zero. */
  predicate IsASN(router: Router, asn: int) {
    router.Router? && router.asn.Some? && 0 < asn < 4_294_967_296 && (router.asn.value - asn) % 4_294_967_296 == 0
  }

  ghost predicate IsLabelling(router: Router) { exists asn :: IsASN(router, asn) }

  /** The object cannot be read: its routers are no list, or the neighbors of a labelling router are none. */
  ghost predicate IsUnreadable(cfg: Config) {
    || cfg.routers.Malformed?
    || (cfg.routers.Present? && exists r :: r in cfg.routers.items && IsLabelling(r) && r.neighbors.Malformed?)
  }

  /** The i-th router is the last labelling one that owns the prefix. */
  ghost predicate IsLastOwner(routers: seq<Router>, i: nat, p: string) {
    && i < |routers| && IsLabelling(routers[i]) && IsOwner(routers[i], p)
    && forall j :: i < j < |routers| ==> !(IsLabelling(routers[j]) && IsOwner(routers[j], p))
  }

  /** The object assigns the prefix to the AS number. */
  ghost predicate Assigns(cfg: Config, p: string, asn: nat) {
    && cfg.routers.Present? && !IsUnreadable(cfg)
    && exists i: nat :: IsLastOwner(cfg.routers.items, i, p) && IsASN(cfg.routers.items[i], asn)
  }

  lemma ASNIsUnique(router: Router)
    ensures forall asn :: IsASN(router, asn) <==> LocalASN(router) == Some(asn)
    ensures IsLabelling(router) <==> LocalASN(router).Some?
  {
    forall asn ensures IsASN(router, asn) <==> LocalASN(router) == Some(asn) {
      if router.Router? && router.asn.Some? {
        SameRemainder(router.asn.value, asn);
      }
    }
    if LocalASN(router).Some? {
      assert IsASN(router, LocalASN(router).value);
    }
  }

  lemma SameRemainder(a: int, b: int)
    ensures 0 <= b < UINT32 && (a - b) % UINT32 == 0 <==> a % UINT32 == b
  {
    var q := a / UINT32;
    assert a == q * UINT32 + a % UINT32;
    if 0 <= b < UINT32 && (a - b) % UINT32 == 0 {
      var k := (a - b) / UINT32;
      assert a - b == k * UINT32;
      assert (q - k) * UINT32 == b - a % UINT32;
    }
  }

  lemma {:induction false} StringsListed(items: seq<Item>, structs: bool, p: string)
    ensures p in Strings(items, structs) <==> p != "" && (Text(p) in items || (structs && Struct(Some(p)) in items))
  {
    if items != [] {
      StringsListed(items[1..], structs, p);
      assert items == [items[0]] + items[1..];
    }
  }

  lemma {:induction false} AdvertisedListed(neighbors: seq<Neighbor>, p: string)
    ensures p in Advertised(neighbors) <==> p != "" && exists n :: n in neighbors && IsAdvertised(n, p)
  {
    if neighbors != [] {
      AdvertisedListed(neighbors[1..], p);
      var first, rest := neighbors[0], neighbors[1..];
      if first.Neighbor? && first.advertised.Present? {
        StringsListed(first.advertised.items, true, p);
      }
      assert neighbors == [first] + rest;
      assert (exists n :: n in neighbors && IsAdvertised(n, p))
        <==> IsAdvertised(first, p) || exists n :: n in rest && IsAdvertised(n, p)
      by {
        assert forall n :: n in neighbors <==> n == first || n in rest;
      }
      assert Advertised(neighbors)
        == (if first.Neighbor? then NestedStrings(first.advertised, true) else []) + Advertised(rest);
    }
  }

  lemma OwnedListed(router: Router, p: string)
    ensures p in Owned(router) <==> IsOwner(router, p)
  {
    if router.Router? {
      if router.prefixes.Present? {
        StringsListed(router.prefixes.items, false, p);
      }
      if router.neighbors.Present? {
        AdvertisedListed(router.neighbors.items, p);
      }
    }
  }

  lemma {:induction false} LastOwnerListed(routers: seq<Router>, p: string, asn: nat)
    ensures LastOwner(routers, p) == Some(asn)
      <==> exists i: nat :: IsLastOwner(routers, i, p) && IsASN(routers[i], asn)
  {
    if routers != [] {
      var n := |routers| - 1;
      ASNIsUnique(routers[n]);
      OwnedListed(routers[n], p);
      if Owns(routers[n], p) {
        assert IsLastOwner(routers, n, p);
        forall i: nat | IsLastOwner(routers, i, p) ensures i == n {
        }
      } else {
        LastOwnerListed(routers[..n], p, asn);
        forall i: nat ensures IsLastOwner(routers, i, p) <==> IsLastOwner(routers[..n], i, p) {
        }
      }
    }
  }

  lemma {:induction false} UnreadableListed(routers: seq<Router>)
    ensures AllReadable(routers) <==> forall r :: r in routers ==> !(IsLabelling(r) && r.neighbors.Malformed?)
  {
    if routers != [] {
      var n := |routers| - 1;
      UnreadableListed(routers[..n]);
      ASNIsUnique(routers[n]);
      assert routers == routers[..n] + [routers[n]];
    }
  }

  /** The mappings of an object are exactly what it assigns, and it has none when it cannot be read. */
  lemma MappingsAreAssigned(cfg: Config)
    ensures MappingsOf(cfg).None? <==> IsUnreadable(cfg)
    ensures MappingsOf(cfg).Some? ==> forall p, asn ::
      (p in MappingsOf(cfg).value && MappingsOf(cfg).value[p] == asn) <==> Assigns(cfg, p, asn)
  {
    if cfg.routers.Present? {
      UnreadableListed(cfg.routers.items);
      if MappingsOf(cfg).Some? {
        forall p, asn
          ensures (p in MappingsOf(cfg).value && MappingsOf(cfg).value[p] == asn) <==> Assigns(cfg, p, asn)
        {
          LastOwnerWins(cfg.routers.items, p);
          LastOwnerListed(cfg.routers.items, p, asn);
        }
      }
    }
  }

  /** A prefix is mapped exactly when some labelling router owns it, to the AS number of the last such router. */
  method ExtractASNMappings(cfg: Config) returns (r: Option<Mappings>)
    ensures r == MappingsOf(cfg)
    ensures r.None? <==> IsUnreadable(cfg)
    ensures r.Some? ==> forall p, asn :: (p in r.value && r.value[p] == asn) <==> Assigns(cfg, p, asn)
  {
    MappingsAreAssigned(cfg);
    if cfg.routers.Malformed? {
      return None;
    }
    var out: Mappings := map[];
    if cfg.routers.Absent? {
      return Some(out);
    }
    var routers := cfg.routers.items;
    for i := 0 to |routers|
      invariant out == Extracted(routers[..i]) && AllReadable(routers[..i])
    {
      assert routers[..i+1][..i] == routers[..i];
      var asn := LocalASN(routers[i]);
      if asn.None? {
        continue;
      }
      if routers[i].neighbors.Malformed? {
        OneUnreadable(routers, i);
        return None;
      }
      out := AssignAll(out, Owned(routers[i]), asn.value);
    }
    assert routers[..|routers|] == routers;
    r := Some(out);
  }

  method AssignAll(out: Mappings, prefixes: seq<string>, asn: nat) returns (r: Mappings)
    ensures r == Assigned(out, prefixes, asn)
  {
    r := out;
    for i := 0 to |prefixes|
      invariant r == Assigned(out, prefixes[..i], asn)
    {
      assert prefixes[..i+1][..i] == prefixes[..i];
      r := r[prefixes[i] := asn];
    }
    assert prefixes[..|prefixes|] == prefixes;
  }

  // ----- events

  /** What an informer callback receives: a configuration, the tombstone of a missed deletion, or something else. */
  datatype Obj = Unstructured(cfg: Config) | DeletedFinalStateUnknown(obj: Obj) | Foreign
  datatype Event = Upsert(obj: Obj) | Remove(obj: Obj)

  function ObjectKey(cfg: Config): string { cfg.namespace + "/" + cfg.name }

  /** What an event says about one object: nothing, its new mappings, or that it is gone. */
  datatype News = Silent | Now(mappings: Mappings) | Gone

  function Tells(e: Event, key: string): News {
    match e
    case Upsert(Unstructured(cfg)) =>
      if ObjectKey(cfg) != key then Silent else if MappingsOf(cfg).Some? then Now(MappingsOf(cfg).value) else Gone
    case Remove(Unstructured(cfg)) => if ObjectKey(cfg) == key then Gone else Silent
    case Remove(DeletedFinalStateUnknown(Unstructured(cfg))) => if ObjectKey(cfg) == key then Gone else Silent
    case _ => Silent
  }

  /** The current mappings of an object: those of the latest event about it. */
  function Current(events: seq<Event>, key: string): Option<Mappings> {
    if events == [] then None else
    var n := |events| - 1;
    match Tells(events[n], key)
    case Now(m) => Some(m)
    case Gone => None
    case Silent => Current(events[..n], key)
  }

  /** The claims of all current objects. */
  ghost function CurrentClaims(lib: NetLib, events: seq<Event>): Claims {
    iset key, c | Current(events, key).Some? && c in Current(events, key).value && lib.parseCIDR(c).Some?
      :: (lib.parseCIDR(c).value, Current(events, key).value[c])
  }

  // ----- the current objects

  /** An upsert, or a removal with or without a tombstone, of the object with a namespace and a name. */
  predicate IsAbout(e: Event, namespace: string, name: string) {
    match e
    case Upsert(Unstructured(cfg)) => cfg.namespace == namespace && cfg.name == name
    case Remove(Unstructured(cfg)) => cfg.namespace == namespace && cfg.name == name
    case Remove(DeletedFinalStateUnknown(Unstructured(cfg))) => cfg.namespace == namespace && cfg.name == name
    case _ => false
  }

  /** The latest event about the object stored this configuration. */
  ghost predicate IsLive(events: seq<Event>, cfg: Config) {
    exists i :: 0 <= i < |events| && IsLatest(events, i, cfg)
  }

  predicate IsLatest(events: seq<Event>, i: nat, cfg: Config)
    requires i < |events|
  {
    && events[i] == Upsert(Unstructured(cfg))
    && forall j :: i < j < |events| ==> !IsAbout(events[j], cfg.namespace, cfg.name)
  }

  /** What the live objects assign, by networks. */
  ghost function LiveClaims(lib: NetLib, events: seq<Event>): Claims {
    iset cfg, p, asn: nat | IsLive(events, cfg) && Assigns(cfg, p, asn) && lib.parseCIDR(p).Some?
      :: (lib.parseCIDR(p).value, asn)
  }

  /** No namespace in the events holds the separator of object keys. */
  ghost predicate PlainNamespaces(events: seq<Event>) {
    forall e, namespace, name | e in events && IsAbout(e, namespace, name) :: '/' !in namespace
  }

  lemma KeysDiffer(namespace: string, name: string, namespace': string, name': string)
    requires '/' !in namespace && '/' !in namespace'
    ensures namespace + "/" + name == namespace' + "/" + name' <==> namespace == namespace' && name == name'
  {
    SeparatedOnce(namespace, name, namespace', name');
  }

  /** The object with a key, if it is live. */
  lemma {:induction false} CurrentIsLive(events: seq<Event>, cfg: Config)
    requires PlainNamespaces(events) && '/' !in cfg.namespace
    ensures IsLive(events, cfg) && !IsUnreadable(cfg) ==> Current(events, ObjectKey(cfg)) == MappingsOf(cfg)
  {
    if events != [] {
      var n := |events| - 1;
      assert events == events[..n] + [events[n]];
      CurrentIsLive(events[..n], cfg);
      MappingsAreAssigned(cfg);
      SameObject(events[n], cfg);
      if IsLive(events, cfg) {
        var i :| 0 <= i < |events| && IsLatest(events, i, cfg);
        if i < n {
          assert IsLatest(events[..n], i, cfg);
        }
      }
    }
  }

  lemma SameObject(e: Event, cfg: Config)
    requires '/' !in cfg.namespace && forall namespace, name :: IsAbout(e, namespace, name) ==> '/' !in namespace
    ensures IsAbout(e, cfg.namespace, cfg.name) <==> Tells(e, ObjectKey(cfg)) != Silent
  {
    var c := match e
      case Upsert(Unstructured(c)) => Some(c)
      case Remove(Unstructured(c)) => Some(c)
      case Remove(DeletedFinalStateUnknown(Unstructured(c))) => Some(c)
      case _ => None;
    if c.Some? {
      assert IsAbout(e, c.value.namespace, c.value.name);
      KeysDiffer(c.value.namespace, c.value.name, cfg.namespace, cfg.name);
    }
  }

  /** What is current under a key comes from a live object with that key. */
  lemma {:induction false} LiveOfCurrent(events: seq<Event>, key: string) returns (cfg: Config)
    requires PlainNamespaces(events) && Current(events, key).Some?
    ensures IsLive(events, cfg) && MappingsOf(cfg) == Current(events, key) && ObjectKey(cfg) == key
  {
    var n := |events| - 1;
    assert events == events[..n] + [events[n]];
    match Tells(events[n], key)
    case Now(_) =>
      cfg := events[n].obj.cfg;
      assert IsLatest(events, n, cfg);
    case Silent =>
      cfg := LiveOfCurrent(events[..n], key);
      var i :| 0 <= i < n && IsLatest(events[..n], i, cfg);
      assert IsAbout(events[i], cfg.namespace, cfg.name);
      SameObject(events[n], cfg);
      assert IsLatest(events, i, cfg);
    case Gone =>
  }

  /** The claims the table stands for are what the live objects assign. */
  lemma ClaimsAreLive(lib: NetLib, events: seq<Event>)
    requires PlainNamespaces(events)
    ensures CurrentClaims(lib, events) == LiveClaims(lib, events)
  {
    var l, r := CurrentClaims(lib, events), LiveClaims(lib, events);
    forall c | c in l ensures c in r {
      var key, p :| Current(events, key).Some? && p in Current(events, key).value && lib.parseCIDR(p).Some?
        && c == (lib.parseCIDR(p).value, Current(events, key).value[p]);
      var cfg := LiveOfCurrent(events, key);
      MappingsAreAssigned(cfg);
      assert Assigns(cfg, p, c.1);
    }
    forall c | c in r ensures c in l {
      var cfg, p, asn: nat :| IsLive(events, cfg) && Assigns(cfg, p, asn) && lib.parseCIDR(p).Some?
        && c == (lib.parseCIDR(p).value, asn);
      var i :| 0 <= i < |events| && IsLatest(events, i, cfg);
      assert IsAbout(events[i], cfg.namespace, cfg.name);
      CurrentIsLive(events, cfg);
      MappingsAreAssigned(cfg);
    }
  }

  /** Different orders of events that leave the same objects give the same answers. */
  lemma OrderIsIrrelevant(
    lib: NetLib, events1: seq<Event>, events2: seq<Event>, ip: Address, r1: Option<nat>, r2: Option<nat>)
    requires forall key :: Current(events1, key) == Current(events2, key)
    requires IsAnswer(CurrentClaims(lib, events1), ip, r1) && IsAnswer(CurrentClaims(lib, events2), ip, r2)
    ensures r1 == r2
  {
    assert CurrentClaims(lib, events1) == CurrentClaims(lib, events2);
    AnswerIsUnique(CurrentClaims(lib, events1), ip, r1, r2);
  }

  // ----- merging

  type Raw = map<string, Mappings>

  ghost function RawClaims(lib: NetLib, raw: Raw, visited: set<string>): Claims {
    iset key, c | key in visited && key in raw && c in raw[key]
      && lib.parseCIDR(c).Some? :: (lib.parseCIDR(c).value, raw[key][c])
  }

  /** The claims of one object as far as it has been visited. */
  ghost function Partial(lib: NetLib, mappings: Mappings, visited: set<string>): Claims {
    iset c | c in visited && c in mappings && lib.parseCIDR(c).Some? :: (lib.parseCIDR(c).value, mappings[c])
  }

  /** The merged map names each claimed network by its printed form, with its lowest AS number. */
  ghost predicate Merges(lib: NetLib, claims: Claims, merged: Mappings) {
    && AllReparse(lib, claims)
    && (forall k :: k in merged ==>
      lib.parseCIDR(k).Some? && k == lib.show(lib.parseCIDR(k).value)
        && IsLowest(claims, lib.parseCIDR(k).value, merged[k]))
    && (forall c :: c in claims ==> lib.show(c.0) in merged)
  }

  lemma MergeStep(lib: NetLib, claims: Claims, merged: Mappings, n: Network, asn: nat)
    requires lib.Reparses(n) && Merges(lib, claims, merged)
    ensures var key := lib.show(n);
      Merges(lib, claims + iset{(n, asn)}, if key !in merged || asn < merged[key] then merged[key := asn] else merged)
  {
    var key, claims' := lib.show(n), claims + iset{(n, asn)};
    var merged' := if key !in merged || asn < merged[key] then merged[key := asn] else merged;
    forall k | k in merged'
      ensures lib.parseCIDR(k).Some? && k == lib.show(lib.parseCIDR(k).value)
        && IsLowest(claims', lib.parseCIDR(k).value, merged'[k])
    {
      if k != key {
        assert lib.parseCIDR(k).value != n;
        assert IsLowest(claims, lib.parseCIDR(k).value, merged[k]);
      }
    }
  }

  /** A table built from the merged map represents all claims, when none is for AS number 0. */
  lemma MergedRepresents(lib: NetLib, claims: Claims, merged: Mappings, t: ASNTable)
    requires Merges(lib, claims, merged) && Represents(t, ClaimsOf(lib, merged, merged.Keys))
    requires forall c :: c in claims ==> c.1 != 0
    ensures Represents(t, claims)
  {
    var built := ClaimsOf(lib, merged, merged.Keys);
    forall i | 0 <= i < |t| ensures IsLowest(claims, t[i].network, t[i].asn) {
      assert IsLowest(built, t[i].network, t[i].asn) && (t[i].network, t[i].asn) in built;
    }
    forall c | c in claims ensures exists i :: 0 <= i < |t| && t[i].network == c.0 {
      var k := lib.show(c.0);
      assert lib.Reparses(c.0);
      assert IsLowest(claims, c.0, merged[k]) && (c.0, merged[k]) in claims;
      assert (c.0, merged[k]) in built;
    }
  }

  lemma RawGrows(lib: NetLib, raw: Raw, visited: set<string>, key: string)
    requires key in raw
    ensures RawClaims(lib, raw, visited + {key}) == RawClaims(lib, raw, visited) + Partial(lib, raw[key], raw[key].Keys)
  {
    var l, r := RawClaims(lib, raw, visited + {key}),
      RawClaims(lib, raw, visited) + Partial(lib, raw[key], raw[key].Keys);
    forall c | c in l ensures c in r {
      var k, p :| k in visited + {key} && k in raw && p in raw[k] && lib.parseCIDR(p).Some?
        && c == (lib.parseCIDR(p).value, raw[k][p]);
      assert k == key || k in visited;
    }
    forall c | c in r ensures c in l {
    }
  }

  lemma PartialGrows(lib: NetLib, mappings: Mappings, visited: set<string>, c: string)
    requires c in mappings
    ensures Partial(lib, mappings, visited + {c}) == Partial(lib, mappings, visited)
      + (if lib.parseCIDR(c).Some? then iset{(lib.parseCIDR(c).value, mappings[c])} else iset{})
  {
  }

  method NormalizeCIDR(lib: NetLib, cidr: string) returns (r: Option<string>)
    ensures r == match lib.parseCIDR(cidr) case Some(n) => Some(lib.show(n)) case None => None
  {
    match lib.parseCIDR(cidr)
    case Some(n) => r := Some(lib.show(n));
    case None => r := None;
  }

  /** The inner loop of rebuildLocked. */
  method MergeObject(
    lib: NetLib, mappings: Mappings, merged0: Mappings, ghost claims: Claims) returns (merged: Mappings)
    requires lib.Sound() && Merges(lib, claims, merged0)
    ensures Merges(lib, claims + Partial(lib, mappings, mappings.Keys), merged)
  {
    merged := merged0;
    var todo := mappings.Keys;
    ghost var visited: set<string> := {};
    assert Partial(lib, mappings, visited) == iset{};
    assert claims + Partial(lib, mappings, visited) == claims;
    while todo != {}
      invariant todo + visited == mappings.Keys && todo !! visited
      invariant Merges(lib, claims + Partial(lib, mappings, visited), merged)
    {
      var cidr :| cidr in todo;
      todo := todo - {cidr};
      PartialGrows(lib, mappings, visited, cidr);
      ghost var before := claims + Partial(lib, mappings, visited);
      visited := visited + {cidr};
      var norm := NormalizeCIDR(lib, cidr);
      if norm.Some? {
        MergeStep(lib, before, merged, lib.parseCIDR(cidr).value, mappings[cidr]);
        assert claims + Partial(lib, mappings, visited) == before + iset{(lib.parseCIDR(cidr).value, mappings[cidr])};
        if norm.value !in merged || mappings[cidr] < merged[norm.value] {
          merged := merged[norm.value := mappings[cidr]];
        }
      } else {
        assert claims + Partial(lib, mappings, visited) == before;
      }
    }
    assert visited == mappings.Keys;
  }

  method Merge(lib: NetLib, raw: Raw) returns (merged: Mappings)
    requires lib.Sound()
    ensures Merges(lib, RawClaims(lib, raw, raw.Keys), merged)
  {
    merged := map[];
    var todo := raw.Keys;
    ghost var visited: set<string> := {};
    while todo != {}
      invariant todo + visited == raw.Keys && todo !! visited
      invariant Merges(lib, RawClaims(lib, raw, visited), merged)
    {
      var key :| key in todo;
      todo := todo - {key};
      RawGrows(lib, raw, visited, key);
      merged := MergeObject(lib, raw[key], merged, RawClaims(lib, raw, visited));
      visited := visited + {key};
    }
    assert visited == raw.Keys;
  }

  // ----- the store

  class InformerStore {
    const lib: NetLib
    var raw: Raw
    var table: ASNTable
    ghost var events: seq<Event>

    ghost predicate RawCurrent()
      reads this
    {
      && (forall key :: key in raw <==> Current(events, key).Some?)
      && (forall key :: key in raw ==> Some(raw[key]) == Current(events, key))
    }

    /** The table answers for all current objects. */
    ghost predicate Valid()
      reads this
    {
      lib.Sound() && RawCurrent() && Represents(table, CurrentClaims(lib, events))
    }

    constructor (lib: NetLib)
      requires lib.Sound()
      ensures Valid() && this.lib == lib && events == []
    {
      this.lib, raw, events := lib, map[], [];
      new;
      Rebuild();
    }

    method Rebuild()
      requires lib.Sound() && RawCurrent()
      modifies this`table
      ensures Valid()
    {
      var merged := Merge(lib, raw);
      table := BuildASNTable(lib, merged);
      ClaimsAreCurrent();
      NoClaimIsZero(lib, events);
      MergedRepresents(lib, RawClaims(lib, raw, raw.Keys), merged, table);
    }

    lemma ClaimsAreCurrent()
      requires RawCurrent()
      ensures RawClaims(lib, raw, raw.Keys) == CurrentClaims(lib, events)
    {
      var l, r := RawClaims(lib, raw, raw.Keys), CurrentClaims(lib, events);
      forall c | c in l ensures c in r {
        var key, p :| key in raw && p in raw[key] && lib.parseCIDR(p).Some?
          && c == (lib.parseCIDR(p).value, raw[key][p]);
        assert Current(events, key) == Some(raw[key]);
      }
      forall c | c in r ensures c in l {
        var key, p :| Current(events, key).Some? && p in Current(events, key).value && lib.parseCIDR(p).Some?
          && c == (lib.parseCIDR(p).value, Current(events, key).value[p]);
        assert key in raw && raw[key] == Current(events, key).value;
      }
    }

    method Upsert(obj: Obj)
      requires Valid()
      modifies this
      ensures Valid() && events == old(events) + [Event.Upsert(obj)]
    {
      ghost var before := events;
      events := events + [Event.Upsert(obj)];
      assert events[..|events|-1] == before;
      if !obj.Unstructured? {
        Unheard(before, Event.Upsert(obj));
        return;
      }
      var mappings := ExtractASNMappings(obj.cfg);
      var key := ObjectKey(obj.cfg);
      raw := if mappings.None? then raw - {key} else raw[key := mappings.value];
      Rebuild();
    }

    method Remove(obj: Obj)
      requires Valid()
      modifies this
      ensures Valid() && events == old(events) + [Event.Remove(obj)]
    {
      ghost var before := events;
      events := events + [Event.Remove(obj)];
      assert events[..|events|-1] == before;
      var u := obj;
      if obj.DeletedFinalStateUnknown? {
        u := obj.obj;
      }
      if !u.Unstructured? {
        Unheard(before, Event.Remove(obj));
        return;
      }
      raw := raw - {ObjectKey(u.cfg)};
      Rebuild();
    }

    /** An event that is about no object changes no claim. */
    lemma Unheard(before: seq<Event>, e: Event)
      requires forall key :: Tells(e, key) == Silent
      ensures forall key :: Current(before + [e], key) == Current(before, key)
      ensures CurrentClaims(lib, before + [e]) == CurrentClaims(lib, before)
    {
      forall key ensures Current(before + [e], key) == Current(before, key) {
        assert (before + [e])[..|before|] == before;
      }
    }

    /** The answer for an address: longest prefix, then lowest AS number, over all current objects. */
    method Lookup(ipStr: string) returns (r: Option<nat>)
      requires Valid()
      ensures lib.parseIP(ipStr).None? ==> r == None
      ensures lib.parseIP(ipStr).Some? ==> IsAnswer(CurrentClaims(lib, events), lib.parseIP(ipStr).value, r)
      ensures lib.parseIP(ipStr).Some? && PlainNamespaces(events) ==>
        IsAnswer(LiveClaims(lib, events), lib.parseIP(ipStr).value, r)
    {
      if PlainNamespaces(events) {
        ClaimsAreLive(lib, events);
      }
      r := LookupString(lib, table, ipStr);
    }
  }

  lemma NoClaimIsZero(lib: NetLib, events: seq<Event>)
    ensures forall c :: c in CurrentClaims(lib, events) ==> c.1 != 0
  {
    forall c | c in CurrentClaims(lib, events) ensures c.1 != 0 {
      var key, p :| Current(events, key).Some? && p in Current(events, key).value && lib.parseCIDR(p).Some?
        && c == (lib.parseCIDR(p).value, Current(events, key).value[p]);
      CurrentHasNoZero(events, key, p);
    }
  }

  lemma {:induction false} CurrentHasNoZero(events: seq<Event>, key: string, p: string)
    requires Current(events, key).Some? && p in Current(events, key).value
    ensures Current(events, key).value[p] > 0
  {
    var n := |events| - 1;
    match Tells(events[n], key)
    case Silent => CurrentHasNoZero(events[..n], key, p);
    case Now(m) => NoZero(events[n].obj.cfg, p);
    case Gone =>
  }
}
