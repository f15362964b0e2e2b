/** Labelling addresses by subnet, with a cache of labels (transform_network.go). */
module SubnetLabels {
  import opened Common
  import opened FrrLpm
  import opened TimedCaches

  datatype SubnetLabel = SubnetLabel(cidrs: seq<Network>, name: string)

  /** A configured category: a name and the texts of its prefixes. */
  datatype Category = Category(name: string, cidrs: seq<string>)

  // ----- configuration

  function ParsedCIDRs(lib: NetLib, cidrs: seq<string>): Option<seq<Network>> {
    if cidrs == [] then Some([]) else
    var n := |cidrs| - 1;
    match (ParsedCIDRs(lib, cidrs[..n]), lib.parseCIDR(cidrs[n]))
    case (Some(before), Some(network)) => Some(before + [network])
    case _ => None
  }

  /** The categories that have prefixes, in order; None when some prefix cannot be parsed. */
  function ParsedSubnets(lib: NetLib, categories: seq<Category>): Option<seq<SubnetLabel>> {
    if categories == [] then Some([]) else
    var n := |categories| - 1;
    match (ParsedSubnets(lib, categories[..n]), ParsedCIDRs(lib, categories[n].cidrs))
    case (Some(before), Some(cidrs)) => Some(before
      + (if cidrs == [] then [] else [SubnetLabel(cidrs, categories[n].name)]))
    case _ => None
  }

  lemma {:induction false} OneBadCIDR(lib: NetLib, cidrs: seq<string>, i: nat)
    requires i < |cidrs| && lib.parseCIDR(cidrs[i]).None?
    ensures ParsedCIDRs(lib, cidrs).None?
  {
    if i < |cidrs| - 1 {
      OneBadCIDR(lib, cidrs[..|cidrs|-1], i);
    }
  }

  lemma {:induction false} OneBadCategory(lib: NetLib, categories: seq<Category>, i: nat)
    requires i < |categories| && ParsedCIDRs(lib, categories[i].cidrs).None?
    ensures ParsedSubnets(lib, categories).None?
  {
    if i < |categories| - 1 {
      OneBadCategory(lib, categories[..|categories|-1], i);
    }
  }

  method ParseCIDRs(lib: NetLib, texts: seq<string>) returns (r: Option<seq<Network>>)
    ensures r == ParsedCIDRs(lib, texts)
  {
    var cidrs: seq<Network> := [];
    for j := 0 to |texts|
      invariant ParsedCIDRs(lib, texts[..j]) == Some(cidrs)
    {
      assert texts[..j+1][..j] == texts[..j];
      var parsed := lib.parseCIDR(texts[j]);
      if parsed.None? {
        OneBadCIDR(lib, texts, j);
        return None;
      }
      cidrs := cidrs + [parsed.value];
    }
    assert texts[..|texts|] == texts;
    r := Some(cidrs);
  }

  method ParseSubnets(lib: NetLib, categories: seq<Category>) returns (r: Option<seq<SubnetLabel>>)
    ensures r == ParsedSubnets(lib, categories)
  {
    var subnetCats: seq<SubnetLabel> := [];
    for i := 0 to |categories|
      invariant ParsedSubnets(lib, categories[..i]) == Some(subnetCats)
    {
      assert categories[..i+1][..i] == categories[..i];
      var cidrs := ParseCIDRs(lib, categories[i].cidrs);
      if cidrs.None? {
        OneBadCategory(lib, categories, i);
        return None;
      }
      assert subnetCats + [] == subnetCats;
      if |cidrs.value| > 0 {
        subnetCats := subnetCats + [SubnetLabel(cidrs.value, categories[i].name)];
      }
    }
    assert categories[..|categories|] == categories;
    r := Some(subnetCats);
  }

  // ----- labels

  predicate Covers(category: SubnetLabel, ip: Address) {
    exists j :: 0 <= j < |category.cidrs| && Contains(category.cidrs[j], ip)
  }

  /** The name of the first category that covers the address; empty when there is none. */
  function LabelOf(lib: NetLib, labels: seq<SubnetLabel>, strIP: string): string {
    match lib.parseIP(strIP)
    case None => ""
    case Some(ip) => if labels == [] then "" else if Covers(labels[0], ip) then labels[0].name
      else LabelOf(lib, labels[1..], strIP)
  }

  /** Some prefix of the category agrees with the address in every bit it keeps. */
  predicate Owns(category: SubnetLabel, ip: Address) {
    exists j :: 0 <= j < |category.cidrs| && InNetwork(category.cidrs[j], ip)
  }

  /** The text is the name of the first category that owns the address; empty for a text that is no address, and when no
      category owns it. */
  predicate IsLabel(lib: NetLib, labels: seq<SubnetLabel>, strIP: string, name: string) {
    match lib.parseIP(strIP)
    case None => name == ""
    case Some(ip) =>
      if forall i :: 0 <= i < |labels| ==> !Owns(labels[i], ip) then name == ""
      else exists i :: 0 <= i < |labels| && IsFirstOwner(labels, i, ip) && name == labels[i].name
  }

  predicate IsFirstOwner(labels: seq<SubnetLabel>, i: nat, ip: Address) {
    i < |labels| && Owns(labels[i], ip) && forall j :: 0 <= j < i ==> !Owns(labels[j], ip)
  }

  lemma CoversIsOwns(category: SubnetLabel, ip: Address)
    ensures Covers(category, ip) <==> Owns(category, ip)
  {
    forall j | 0 <= j < |category.cidrs|
      ensures Contains(category.cidrs[j], ip) <==> InNetwork(category.cidrs[j], ip)
    {
      ContainsIsBitwise(category.cidrs[j], ip);
    }
  }

  lemma {:induction false} LabelIsFirst(lib: NetLib, labels: seq<SubnetLabel>, strIP: string)
    ensures IsLabel(lib, labels, strIP, LabelOf(lib, labels, strIP))
  {
    if lib.parseIP(strIP).Some? && labels != [] {
      var ip := lib.parseIP(strIP).value;
      CoversIsOwns(labels[0], ip);
      if Covers(labels[0], ip) {
        assert IsFirstOwner(labels, 0, ip);
      } else {
        LabelIsFirst(lib, labels[1..], strIP);
        LaterOwner(labels, ip);
      }
    }
  }

  /** When the first category does not own the address, the first owner is that of the rest. */
  lemma LaterOwner(labels: seq<SubnetLabel>, ip: Address)
    requires labels != [] && !Owns(labels[0], ip)
    ensures forall i :: 0 <= i < |labels| - 1 && IsFirstOwner(labels[1..], i, ip) ==>
      IsFirstOwner(labels, i + 1, ip) && labels[1..][i] == labels[i + 1]
    ensures (forall i :: 0 <= i < |labels| ==> !Owns(labels[i], ip))
      <==> forall i :: 0 <= i < |labels[1..]| ==> !Owns(labels[1..][i], ip)
  {
    assert forall i :: 0 <= i < |labels| - 1 ==> labels[1..][i] == labels[i + 1];
    assert forall i :: 0 < i < |labels| ==> labels[i] == labels[1..][i - 1];
  }

  lemma {:induction false} LabelSkips(lib: NetLib, labels: seq<SubnetLabel>, strIP: string, i: nat)
    requires i <= |labels| && lib.parseIP(strIP).Some?
    requires forall k :: 0 <= k < i ==> !Covers(labels[k], lib.parseIP(strIP).value)
    ensures LabelOf(lib, labels, strIP) == LabelOf(lib, labels[i..], strIP)
  {
    if i > 0 {
      LabelSkips(lib, labels[1..], strIP, i - 1);
      assert labels[1..][i-1..] == labels[i..];
    }
  }

  method ApplySubnetLabel(lib: NetLib, snLabels: seq<SubnetLabel>, strIP: string) returns (name: string)
    ensures name == LabelOf(lib, snLabels, strIP) && IsLabel(lib, snLabels, strIP, name)
  {
    LabelIsFirst(lib, snLabels, strIP);
    var ip := lib.parseIP(strIP);
    if ip.None? {
      return "";
    }
    for i := 0 to |snLabels|
      invariant forall k :: 0 <= k < i ==> !Covers(snLabels[k], ip.value)
    {
      for j := 0 to |snLabels[i].cidrs|
        invariant forall k :: 0 <= k < j ==> !Contains(snLabels[i].cidrs[k], ip.value)
      {
        if Contains(snLabels[i].cidrs[j], ip.value) {
          LabelSkips(lib, snLabels, strIP, i);
          return snLabels[i].name;
        }
      }
    }
    LabelSkips(lib, snLabels, strIP, |snLabels|);
    return "";
  }

  // ----- the cache of labels

  /** The addresses have pairwise different hashes. */
  ghost predicate CollisionFree(fnv: Fnv, ips: set<string>) {
    forall a, b :: a in ips && b in ips && HashOf(fnv, [a]) == HashOf(fnv, [b]) ==> a == b
  }

  /** Every cached label is the label, under the current subnets, of the address it was looked up for. */
  ghost predicate Memoised(
    lib: NetLib, fnv: Fnv, m: CacheMap<string>, labels: seq<SubnetLabel>, owners: map<nat, string>)
  {
    forall h :: h in m ==>
      h in owners && HashOf(fnv, [owners[h]]) == h && m[h].source == LabelOf(lib, labels, owners[h])
  }

  /** What the rule makes of an entry when the label of an address is that of served. */
  function Labelled(
    lib: NetLib, labels: seq<SubnetLabel>, entry: GenericMap, input: string, output: string, served: string): GenericMap
  {
    if input in entry && entry[input].Str? && LabelOf(lib, labels, served) != ""
    then entry[output := Str(LabelOf(lib, labels, served))] else entry
  }

  /** The entry gets the label of its address under the output field, and nothing when there is no label. */
  ghost predicate IsLabelled(
    lib: NetLib, labels: seq<SubnetLabel>, entry: GenericMap, strIP: string, output: string, out: GenericMap)
  {
    && (forall k :: k != output ==> SameAt(out, entry, k))
    && exists name :: IsLabel(lib, labels, strIP, name) && IsShown(entry, output, name, out)
  }

  predicate IsShown(entry: GenericMap, output: string, name: string, out: GenericMap) {
    if name != "" then output in out && out[output] == Str(name) else SameAt(out, entry, output)
  }

  class NetworkTransform {
    const lib: NetLib
    const ipLabelCache: TimedCache<string>
    var snLabels: seq<SubnetLabel>
    /** The address that each cached hash was first looked up for. */
    ghost var owners: map<nat, string>
    /** All addresses looked up so far. */
    ghost var seen: set<string>

    ghost predicate Valid()
      reads this, ipLabelCache
    {
      && ipLabelCache.Valid()
      && Memoised(lib, ipLabelCache.fnv, ipLabelCache.cacheMap, snLabels, owners)
      && owners.Values <= seen
    }

    /** The address whose label is served for an address: the one that owns its cached hash, or itself. */
    ghost function Served(strIP: string): string
      requires Valid()
      reads this, ipLabelCache
    {
      var h := HashOf(ipLabelCache.fnv, [strIP]);
      if h in ipLabelCache.cacheMap then owners[h] else strIP
    }

    /** An address is served its own label, unless another one that was looked up has the same hash. */
    lemma ServedIsOwn(strIP: string)
      requires Valid() && CollisionFree(ipLabelCache.fnv, seen + {strIP})
      ensures Served(strIP) == strIP
    {
    }

    constructor (lib: NetLib, cache: TimedCache<string>, snLabels: seq<SubnetLabel>)
      requires cache.Valid() && cache.cacheMap == map[]
      ensures Valid() && this.lib == lib && ipLabelCache == cache && this.snLabels == snLabels && seen == {}
    {
      this.lib, ipLabelCache, this.snLabels := lib, cache, snLabels;
      owners, seen := map[], {};
    }

    /** The subnet-label rule: whatever the cache holds, the entry gets the label of the current subnets, unless two of
        the addresses looked up in the run have the same hash. */
    method AddSubnetLabel(entry: GenericMap, input: string, output: string, now: int) returns (outputEntry: GenericMap)
      requires Valid() && ipLabelCache.latest <= now
      modifies this`owners, this`seen, ipLabelCache
      ensures Valid() && ipLabelCache.latest <= now
      ensures input !in entry || !entry[input].Str? ==> outputEntry == entry && seen == old(seen)
      ensures input in entry && entry[input].Str? ==> seen == old(seen) + {entry[input].s}
      ensures input in entry && entry[input].Str? ==>
        outputEntry == Labelled(lib, snLabels, entry, input, output, old(Served(entry[input].s)))
      ensures input in entry && entry[input].Str? && CollisionFree(ipLabelCache.fnv, seen) ==>
        outputEntry == Labelled(lib, snLabels, entry, input, output, entry[input].s)
      ensures input in entry && entry[input].Str? ==>
        IsLabelled(lib, snLabels, entry, old(Served(entry[input].s)), output, outputEntry)
    {
      if input in entry && entry[input].Str? {
        LabelIsFirst(lib, snLabels, Served(entry[input].s));
      }
      outputEntry := entry;
      if input in outputEntry && outputEntry[input].Str? {
        var lbl := LookupLabel(outputEntry[input].s, now);
        if lbl != "" {
          outputEntry := outputEntry[output := Str(lbl)];
        }
      }
    }

    /** The label is exactly that of the address served; it is the right one if and only if both labels agree. */
    method LookupLabel(strIP: string, now: int) returns (lbl: string)
      requires Valid() && ipLabelCache.latest <= now
      modifies this`owners, this`seen, ipLabelCache
      ensures Valid() && ipLabelCache.latest <= now && seen == old(seen) + {strIP}
      ensures lbl == LabelOf(lib, snLabels, old(Served(strIP)))
      ensures CollisionFree(ipLabelCache.fnv, seen) ==> lbl == LabelOf(lib, snLabels, strIP)
    {
      ghost var h := HashOf(ipLabelCache.fnv, [strIP]);
      if CollisionFree(ipLabelCache.fnv, seen + {strIP}) {
        ServedIsOwn(strIP);
      }
      var cached := ipLabelCache.GetCacheEntry([strIP]);
      if cached.Some? {
        lbl := cached.value;
      } else {
        lbl := ApplySubnetLabel(lib, snLabels, strIP);
        ghost var before := ipLabelCache.cacheMap;
        var _ := ipLabelCache.UpdateCacheEntry([strIP], lbl, now);
        MemoisedAfterUpdate(lib, ipLabelCache.fnv, before, ipLabelCache.cacheMap, snLabels, owners, strIP, now);
        owners := owners[h := strIP];
      }
      seen := seen + {strIP};
    }

    /** Expiry, as run by the ticker of the cache. */
    method Cleanup(expiry: int, now: int)
      requires Valid()
      modifies ipLabelCache
      ensures Valid() && ipLabelCache.latest == old(ipLabelCache.latest)
      ensures ipLabelCache.cacheMap == Live(old(ipLabelCache.cacheMap), now - expiry)
    {
      var _, _ := ipLabelCache.CleanupExpiredEntries(expiry, now);
    }

    /** A configuration update replaces the subnets and empties the cache; an invalid one changes nothing. */
    method Update(categories: seq<Category>) returns (ok: bool)
      requires Valid()
      modifies this`snLabels, ipLabelCache
      ensures Valid() && ipLabelCache.latest == old(ipLabelCache.latest)
      ensures ok <==> ParsedSubnets(lib, categories).Some?
      ensures snLabels == if ok then ParsedSubnets(lib, categories).value else old(snLabels)
      ensures ok ==> ipLabelCache.cacheMap == map[]
    {
      var subnetCats := ParseSubnets(lib, categories);
      if subnetCats.None? {
        return false;
      }
      snLabels := subnetCats.value;
      ipLabelCache.Clear();
      ok := true;
    }
  }

  lemma MemoisedAfterUpdate(
    lib: NetLib, fnv: Fnv, m: CacheMap<string>, m': CacheMap<string>, labels: seq<SubnetLabel>,
    owners: map<nat, string>, strIP: string, now: int)
    requires Memoised(lib, fnv, m, labels, owners) && HashOf(fnv, [strIP]) !in m
    requires var h := HashOf(fnv, [strIP]);
      m' == m || m' == m[h := CacheEntry(h, now, LabelOf(lib, labels, strIP))]
    ensures Memoised(lib, fnv, m', labels, owners[HashOf(fnv, [strIP]) := strIP])
  {
  }
}
