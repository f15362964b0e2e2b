/** The longest-prefix-match table from prefixes to AS numbers (lpm.go); the rule is that of section 5.1 of RFC 4632. */
module FrrLpm {
  import opened Common

  /** A network of one address family: the address bits that its mask keeps. */
  datatype Network = Network(ipv6: bool, prefix: seq<bool>)
  datatype Address = Address(ipv6: bool, bits: seq<bool>)
  datatype PrefixEntry = PrefixEntry(network: Network, asn: nat)
  type ASNTable = seq<PrefixEntry>

  /** The parsing and printing of package net. */
  datatype NetLib = NetLib(
    parseCIDR: string -> Option<Network>, show: Network -> string, parseIP: string -> Option<Address>)
  {
    /** Parsing the printed form of a network gives the network back. */
    predicate Reparses(n: Network) { parseCIDR(show(n)) == Some(n) }

    /** This holds of every network that was parsed. */
    ghost predicate Sound() {
      forall s :: parseCIDR(s).Some? ==> Reparses(parseCIDR(s).value)
    }
  }

  predicate Contains(n: Network, ip: Address) {
    n.ipv6 == ip.ipv6 && n.prefix <= ip.bits
  }

  /** The address agrees with the network in family and in every bit that the mask keeps. */
  predicate InNetwork(n: Network, ip: Address) {
    n.ipv6 == ip.ipv6 && |n.prefix| <= |ip.bits| && forall i :: 0 <= i < |n.prefix| ==> n.prefix[i] == ip.bits[i]
  }

  lemma ContainsIsBitwise(n: Network, ip: Address)
    ensures Contains(n, ip) <==> InNetwork(n, ip)
  {
  }

  /** Two networks of equal length that contain the same address are the same. */
  lemma SameLengthSameNetwork(a: Network, b: Network, ip: Address)
    requires InNetwork(a, ip) && InNetwork(b, ip) && |a.prefix| == |b.prefix|
    ensures a == b
  {
    assert a.prefix == ip.bits[..|a.prefix|] == b.prefix;
  }

  // ----- what a table must answer

  /** Which prefixes are announced by which AS numbers. */
  type Claims = iset<(Network, nat)>

  ghost predicate IsLowest(claims: Claims, n: Network, asn: nat) {
    (n, asn) in claims && forall other :: (n, other) in claims ==> asn <= other
  }

  /** The lowest AS number on the longest prefix that contains the address; none when no prefix contains it. */
  ghost predicate IsAnswer(claims: Claims, ip: Address, r: Option<nat>) {
    match r
    case None => forall c :: c in claims ==> !InNetwork(c.0, ip)
    case Some(asn) => exists n :: InNetwork(n, ip) && IsLowest(claims, n, asn) && IsLongest(claims, n, ip)
  }

  ghost predicate IsLongest(claims: Claims, n: Network, ip: Address) {
    forall c :: c in claims && InNetwork(c.0, ip) ==> |c.0.prefix| <= |n.prefix|
  }

  lemma AnswerMeansMatch(claims: Claims, ip: Address, r: Option<nat>)
    requires IsAnswer(claims, ip, r)
    ensures r.Some? <==> exists c :: c in claims && InNetwork(c.0, ip)
  {
    if r.Some? {
      var n :| InNetwork(n, ip) && IsLowest(claims, n, r.value) && IsLongest(claims, n, ip);
      assert (n, r.value) in claims;
    }
  }

  /** There is only one right answer. */
  lemma AnswerIsUnique(claims: Claims, ip: Address, r1: Option<nat>, r2: Option<nat>)
    requires IsAnswer(claims, ip, r1) && IsAnswer(claims, ip, r2)
    ensures r1 == r2
  {
    AnswerMeansMatch(claims, ip, r1);
    AnswerMeansMatch(claims, ip, r2);
    if r1.Some? {
      var m :| InNetwork(m, ip) && IsLowest(claims, m, r1.value) && IsLongest(claims, m, ip);
      var n :| InNetwork(n, ip) && IsLowest(claims, n, r2.value) && IsLongest(claims, n, ip);
      assert (m, r1.value) in claims && (n, r2.value) in claims;
      SameLengthSameNetwork(m, n, ip);
    }
  }

  // ----- tables

  predicate LongestFirst(t: ASNTable) {
    forall i, j :: 0 <= i < j < |t| ==> |t[i].network.prefix| >= |t[j].network.prefix|
  }

  /** A table represents claims when it lists each claimed network once with its lowest AS number, longest first. */
  ghost predicate Represents(t: ASNTable, claims: Claims) {
    LongestFirst(t) && Lists(t, claims)
  }

  predicate NetworksDiffer(t: ASNTable) {
    forall i, j :: 0 <= i < j < |t| ==> t[i].network != t[j].network
  }

  ghost predicate Lists(t: ASNTable, claims: Claims) {
    && NetworksDiffer(t)
    && (forall i :: 0 <= i < |t| ==> IsLowest(claims, t[i].network, t[i].asn))
    && (forall c :: c in claims ==> exists i :: 0 <= i < |t| && t[i].network == c.0)
  }

  method Lookup(t: ASNTable, ip: Address) returns (r: Option<nat>)
    ensures forall claims :: Represents(t, claims) ==> IsAnswer(claims, ip, r)
  {
    for i := 0 to |t|
      invariant forall j :: 0 <= j < i ==> !Contains(t[j].network, ip)
    {
      if Contains(t[i].network, ip) {
        forall claims | Represents(t, claims) ensures IsAnswer(claims, ip, Some(t[i].asn)) {
          FirstMatchAnswers(t, claims, ip, i);
        }
        return Some(t[i].asn);
      }
    }
    return None;
  }

  lemma FirstMatchAnswers(t: ASNTable, claims: Claims, ip: Address, i: nat)
    requires Represents(t, claims) && i < |t| && Contains(t[i].network, ip)
    requires forall j :: 0 <= j < i ==> !Contains(t[j].network, ip)
    ensures IsAnswer(claims, ip, Some(t[i].asn))
  {
    forall c | c in claims && Contains(c.0, ip) ensures |c.0.prefix| <= |t[i].network.prefix| {
      var j :| 0 <= j < |t| && t[j].network == c.0;
    }
    assert IsLongest(claims, t[i].network, ip);
  }

  /** Looking up the text of an address; a text that is no address finds nothing. */
  method LookupString(lib: NetLib, t: ASNTable, ipStr: string) returns (r: Option<nat>)
    ensures lib.parseIP(ipStr).None? ==> r == None
    ensures lib.parseIP(ipStr).Some? ==> forall claims :: Represents(t, claims) ==>
      IsAnswer(claims, lib.parseIP(ipStr).value, r)
  {
    match lib.parseIP(ipStr)
    case None => r := None;
    case Some(ip) => r := Lookup(t, ip);
  }

  // ----- building

  type Mappings = map<string, nat>

  /** AS number 0 and texts that are no prefix claim nothing. */
  ghost function ClaimsOf(lib: NetLib, cidrs: Mappings, visited: set<string>): Claims {
    iset c | c in visited && c in cidrs && cidrs[c] != 0 && lib.parseCIDR(c).Some? :: (lib.parseCIDR(c).value, cidrs[c])
  }

  /** All claimed networks come from parsed texts. */
  ghost predicate AllReparse(lib: NetLib, claims: Claims) {
    forall c :: c in claims ==> lib.Reparses(c.0)
  }

  /** The entries collected so far: one for each network claimed, under its printed form, with the lowest AS number. */
  ghost predicate Collected(lib: NetLib, claims: Claims, byCIDR: map<string, PrefixEntry>) {
    && AllReparse(lib, claims)
    && (forall k :: k in byCIDR ==>
      k == lib.show(byCIDR[k].network) && IsLowest(claims, byCIDR[k].network, byCIDR[k].asn))
    && (forall c :: c in claims ==> lib.show(c.0) in byCIDR)
  }

  /** Entering a claim keeps the lowest AS number of its network. */
  lemma CollectStep(lib: NetLib, claims: Claims, byCIDR: map<string, PrefixEntry>, n: Network, asn: nat)
    requires lib.Reparses(n) && Collected(lib, claims, byCIDR)
    ensures var key := lib.show(n);
      Collected(lib, claims + iset{(n, asn)},
        if key !in byCIDR || asn < byCIDR[key].asn then byCIDR[key := PrefixEntry(n, asn)] else byCIDR)
  {
    var key, claims' := lib.show(n), claims + iset{(n, asn)};
    var byCIDR' := if key !in byCIDR || asn < byCIDR[key].asn then byCIDR[key := PrefixEntry(n, asn)] else byCIDR;
    forall k | k in byCIDR' ensures k == lib.show(byCIDR'[k].network)
      && IsLowest(claims', byCIDR'[k].network, byCIDR'[k].asn) {
      if k == key {
        if k in byCIDR {
          SameText(lib, claims, byCIDR[k], n);
          assert IsLowest(claims, n, byCIDR[k].asn);
        }
      } else {
        assert IsLowest(claims, byCIDR[k].network, byCIDR[k].asn);
        assert byCIDR[k].network != n;
      }
    }
  }

  /** An entry printed like a parsed network is of that network. */
  lemma SameText(lib: NetLib, claims: Claims, e: PrefixEntry, n: Network)
    requires lib.Reparses(n) && AllReparse(lib, claims) && IsLowest(claims, e.network, e.asn)
    requires lib.show(e.network) == lib.show(n)
    ensures e.network == n
  {
    assert (e.network, e.asn) in claims;
  }

  method BuildASNTable(lib: NetLib, cidrs: Mappings) returns (t: ASNTable)
    requires lib.Sound()
    ensures Represents(t, ClaimsOf(lib, cidrs, cidrs.Keys))
  {
    var byCIDR: map<string, PrefixEntry> := map[];
    var todo := cidrs.Keys;
    ghost var visited: set<string> := {};
    while todo != {}
      invariant todo + visited == cidrs.Keys && todo !! visited
      invariant Collected(lib, ClaimsOf(lib, cidrs, visited), byCIDR)
    {
      var cidr :| cidr in todo;
      todo := todo - {cidr};
      var asn, ipNet := cidrs[cidr], lib.parseCIDR(cidr);
      ClaimsGrow(lib, cidrs, visited, cidr);
      ghost var before := ClaimsOf(lib, cidrs, visited);
      visited := visited + {cidr};
      if asn != 0 && ipNet.Some? {
        var key := lib.show(ipNet.value);
        CollectStep(lib, before, byCIDR, ipNet.value, asn);
        if key !in byCIDR || asn < byCIDR[key].asn {
          byCIDR := byCIDR[key := PrefixEntry(ipNet.value, asn)];
        }
      }
    }
    assert visited == cidrs.Keys;
    t := SortedEntries(lib, byCIDR, ClaimsOf(lib, cidrs, visited));
  }

  lemma ClaimsGrow(lib: NetLib, cidrs: Mappings, visited: set<string>, c: string)
    requires c in cidrs
    ensures ClaimsOf(lib, cidrs, visited + {c}) ==
            if cidrs[c] != 0 && lib.parseCIDR(c).Some?
            then ClaimsOf(lib, cidrs, visited) + iset{(lib.parseCIDR(c).value, cidrs[c])}
              else ClaimsOf(lib, cidrs, visited)
  {
  }

  predicate Before(lib: NetLib, a: PrefixEntry, b: PrefixEntry) {
    if |a.network.prefix| != |b.network.prefix| then |a.network.prefix| > |b.network.prefix|
    else TextBefore(lib.show(a.network), lib.show(b.network))
  }

  /** Collecting the entries in any order and sorting them. */
  method SortedEntries(lib: NetLib, byCIDR: map<string, PrefixEntry>, ghost claims: Claims) returns (t: ASNTable)
    requires Collected(lib, claims, byCIDR)
    ensures Represents(t, claims)
  {
    t := [];
    var todo := byCIDR.Keys;
    while todo != {}
      invariant todo <= byCIDR.Keys && LongestFirst(t) && NetworksDiffer(t)
      invariant forall e :: e in t ==>
        lib.show(e.network) in byCIDR && byCIDR[lib.show(e.network)] == e && lib.show(e.network) !in todo
      invariant forall k :: k in byCIDR && k !in todo ==> byCIDR[k] in t
    {
      var key :| key in todo;
      t := Inserted(lib, t, byCIDR[key]);
      todo := todo - {key};
    }
    forall c | c in claims ensures exists i :: 0 <= i < |t| && t[i].network == c.0 {
      var e := byCIDR[lib.show(c.0)];
      assert e in t;
      SameText(lib, claims, e, c.0);
    }
  }

  method Inserted(lib: NetLib, t: ASNTable, e: PrefixEntry) returns (t': ASNTable)
    requires LongestFirst(t) && NetworksDiffer(t) && forall x :: x in t ==> x.network != e.network
    ensures LongestFirst(t') && NetworksDiffer(t')
    ensures forall x :: x in t' <==> x in t || x == e
  {
    var i := |t|;
    while i > 0 && Before(lib, e, t[i-1])
      invariant 0 <= i <= |t|
      invariant forall j :: i <= j < |t| ==> |e.network.prefix| >= |t[j].network.prefix|
    {
      i := i - 1;
    }
    t' := With(t, e, i);
    WithSorted(t, e, i);
    WithDiffers(t, e, i);
    WithMembers(t, e, i);
  }

  function With(t: ASNTable, e: PrefixEntry, i: nat): ASNTable
    requires i <= |t|
  {
    t[..i] + [e] + t[i..]
  }

  lemma WithSorted(t: ASNTable, e: PrefixEntry, i: nat)
    requires i <= |t| && LongestFirst(t)
    requires forall j :: i <= j < |t| ==> |e.network.prefix| >= |t[j].network.prefix|
    requires i > 0 ==> |t[i-1].network.prefix| >= |e.network.prefix|
    ensures LongestFirst(With(t, e, i))
  {
    var t' := With(t, e, i);
    forall j, k | 0 <= j < k < |t'| ensures |t'[j].network.prefix| >= |t'[k].network.prefix| {
      assert t'[j] == if j < i then t[j] else if j == i then e else t[j-1];
      assert t'[k] == if k < i then t[k] else if k == i then e else t[k-1];
    }
  }

  lemma WithMembers(t: ASNTable, e: PrefixEntry, i: nat)
    requires i <= |t|
    ensures forall x :: x in With(t, e, i) <==> x in t || x == e
  {
    assert t == t[..i] + t[i..];
  }

  lemma WithDiffers(t: ASNTable, e: PrefixEntry, i: nat)
    requires i <= |t| && NetworksDiffer(t) && forall x :: x in t ==> x.network != e.network
    ensures NetworksDiffer(With(t, e, i))
  {
    var t' := With(t, e, i);
    forall j, k | 0 <= j < k < |t'| ensures t'[j].network != t'[k].network {
      assert t'[j] == if j < i then t[j] else if j == i then e else t[j-1];
      assert t'[k] == if k < i then t[k] else if k == i then e else t[k-1];
    }
  }
}
