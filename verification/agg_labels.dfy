/** Aggregation rules, and the labels by which flow logs are grouped (aggregate.go). */
module AggregateLabels {
  import opened Common
  import opened TimedCaches
  import opened AggregateValues

  datatype Definition = Definition(
    name: string, groupByKeys: seq<string>, operation: Operation, operationKey: string, expiryTime: int)

  datatype AggLib = AggLib(toString: Value -> string, parseFloat: string -> Option<real>, fnv: Fnv)

  function InputOf(lib: AggLib, def: Definition, entry: GenericMap): Input {
    if def.operationKey == "" || def.operationKey !in entry then None
      else lib.parseFloat(lib.toString(entry[def.operationKey]))
  }

  // ----- labels

  type Labels = map<string, string>

  function LabelsOf(lib: AggLib, keys: seq<string>, entry: GenericMap): Labels {
    map k | k in keys :: lib.toString(Lookup(entry, k))
  }

  predicate AllFound(keys: seq<string>, entry: GenericMap) { forall k :: k in keys ==> k in entry }

  predicate StrictlySorted(s: seq<string>) {
    forall i, j :: 0 <= i < j < |s| ==> TextBefore(s[i], s[j])
  }

  function Insert(s: seq<string>, k: string): seq<string>
    decreases s, k
  {
    if s == [] || TextBefore(k, s[0]) then [k] + s
    else if k == s[0] then s
    else [s[0]] + Insert(s[1..], k)
  }

  /** The keys without repetition, in bytewise order. */
  function SortedKeys(keys: seq<string>): seq<string> {
    if keys == [] then [] else Insert(SortedKeys(keys[..|keys|-1]), keys[|keys|-1])
  }

  lemma BeforeIsStrict(a: string)
    ensures !TextBefore(a, a)
  {
  }

  lemma BeforeIsTotal(a: string, b: string)
    ensures TextBefore(a, b) || TextBefore(b, a) || a == b
  {
    if a != "" && b != "" {
      BeforeIsTotal(a[1..], b[1..]);
      assert a == [a[0]] + a[1..] && b == [b[0]] + b[1..];
    }
  }

  lemma BeforeTransitive(a: string, b: string, c: string)
    requires TextBefore(a, b) && TextBefore(b, c)
    ensures TextBefore(a, c)
  {
  }

  lemma {:induction false} Inserted(s: seq<string>, k: string)
    requires StrictlySorted(s)
    ensures StrictlySorted(Insert(s, k)) && Elems(Insert(s, k)) == Elems(s) + {k}
  {
    if s == [] {
    } else if TextBefore(k, s[0]) {
      forall i | 0 < i < |s| ensures TextBefore(k, s[i]) {
        BeforeTransitive(k, s[0], s[i]);
      }
    } else if k != s[0] {
      BeforeIsTotal(k, s[0]);
      Inserted(s[1..], k);
      var rest := Insert(s[1..], k);
      forall i | 0 <= i < |rest| ensures TextBefore(s[0], rest[i]) {
        assert rest[i] in Elems(rest);
      }
      ElemsJoin([s[0]], s[1..]);
      ElemsJoin([s[0]], rest);
      assert s == [s[0]] + s[1..];
    }
  }

  lemma ElemsJoin(s: seq<string>, t: seq<string>)
    ensures Elems(s + t) == Elems(s) + Elems(t)
  {
  }

  lemma {:induction false} KeysSorted(keys: seq<string>)
    ensures StrictlySorted(SortedKeys(keys)) && Elems(SortedKeys(keys)) == Elems(keys)
  {
    if keys != [] {
      var n := |keys| - 1;
      KeysSorted(keys[..n]);
      Inserted(SortedKeys(keys[..n]), keys[n]);
      assert keys == keys[..n] + [keys[n]];
    }
  }

  /** There is one strictly sorted sequence of given elements, so the order of collecting them is irrelevant. */
  lemma {:induction false} SortedIsUnique(s: seq<string>, t: seq<string>)
    requires StrictlySorted(s) && StrictlySorted(t) && Elems(s) == Elems(t)
    ensures s == t
  {
    if s == [] {
      if t != [] {
        FirstIsLeast(t, s);
      }
    } else {
      FirstIsLeast(s, t);
      FirstIsLeast(t, s);
      if s[0] != t[0] {
        BeforeTransitive(s[0], t[0], s[0]);
        BeforeIsStrict(s[0]);
      }
      RestSorted(s);
      RestSorted(t);
      SortedIsUnique(s[1..], t[1..]);
    }
  }

  lemma RestSorted(s: seq<string>)
    requires s != [] && StrictlySorted(s)
    ensures StrictlySorted(s[1..]) && Elems(s[1..]) == Elems(s) - {s[0]}
  {
    ElemsJoin([s[0]], s[1..]);
    assert s == [s[0]] + s[1..];
    BeforeIsStrict(s[0]);
    assert forall i :: 0 < i < |s| ==> TextBefore(s[0], s[i]);
  }

  lemma FirstIsLeast(s: seq<string>, t: seq<string>)
    requires s != [] && StrictlySorted(s) && Elems(s) == Elems(t)
    ensures t != [] && (t[0] == s[0] || TextBefore(s[0], t[0]))
  {
    assert s[0] in Elems(t);
    assert t[0] in Elems(s);
    var i := IndexOf(s, t[0]);
  }

  function ValuesAt(labels: Labels, keys: seq<string>): seq<string>
    requires forall k :: k in keys ==> k in labels
  {
    seq(|keys|, i requires 0 <= i < |keys| => labels[keys[i]])
  }

  /** The values in the sorted order of their keys, and the labels themselves. */
  datatype Identity = Identity(values: seq<string>, labels: Labels)

  /** What identifies the group of a flow log; None when a group-by key is missing. */
  function IdentityOf(lib: AggLib, def: Definition, entry: GenericMap): Option<Identity> {
    if AllFound(def.groupByKeys, entry) then
      KeysSorted(def.groupByKeys);
      assert forall k :: k in SortedKeys(def.groupByKeys) ==> k in Elems(def.groupByKeys);
      var labels := LabelsOf(lib, def.groupByKeys, entry);
      Some(Identity(ValuesAt(labels, SortedKeys(def.groupByKeys)), labels))
    else None
  }

  /** A flow log is grouped if and only if it has all the group-by fields; its labels are their texts, and the values
      are the labels in the bytewise order of their keys. */
  lemma IdentityMeans(lib: AggLib, def: Definition, entry: GenericMap) returns (sorted: seq<string>)
    ensures IdentityOf(lib, def, entry).Some? <==> forall k :: k in def.groupByKeys ==> k in entry
    ensures forall i, j :: 0 <= i < j < |sorted| ==> IsLexicographic(sorted[i], sorted[j])
    ensures forall k :: k in sorted <==> k in def.groupByKeys
    ensures IdentityOf(lib, def, entry).Some? ==>
      var id := IdentityOf(lib, def, entry).value;
      && (forall k :: k in id.labels <==> k in def.groupByKeys)
      && (forall k :: k in id.labels ==> id.labels[k] == lib.toString(entry[k]))
      && |id.values| == |sorted|
      && (forall i :: 0 <= i < |sorted| ==> id.values[i] == id.labels[sorted[i]])
  {
    sorted := SortedKeys(def.groupByKeys);
    KeysSorted(def.groupByKeys);
    forall k ensures k in sorted <==> k in def.groupByKeys {
      assert k in Elems(sorted) <==> k in Elems(def.groupByKeys);
    }
    forall i, j | 0 <= i < j < |sorted| ensures IsLexicographic(sorted[i], sorted[j]) {
      BeforeIsLexicographic(sorted[i], sorted[j]);
    }
  }

  method LabelsFromEntry(lib: AggLib, def: Definition, entry: GenericMap)
    returns (labels: Labels, allLabelsFound: bool)
    ensures labels == LabelsOf(lib, def.groupByKeys, entry)
    ensures allLabelsFound <==> AllFound(def.groupByKeys, entry)
  {
    allLabelsFound := true;
    labels := map[];
    var keys := def.groupByKeys;
    for i := 0 to |keys|
      invariant labels == LabelsOf(lib, keys[..i], entry)
      invariant allLabelsFound <==> AllFound(keys[..i], entry)
    {
      assert keys[..i+1] == keys[..i] + [keys[i]];
      if keys[i] !in entry {
        allLabelsFound := false;
      }
      labels := labels[keys[i] := lib.toString(Lookup(entry, keys[i]))];
    }
    assert keys[..|keys|] == keys;
  }

  /** Collects the keys in any order and sorts them. */
  method GetNormalizedValues(labels: Labels, ghost sorted: seq<string>) returns (normalized: seq<string>)
    requires StrictlySorted(sorted) && Elems(sorted) == labels.Keys
    ensures |normalized| == |sorted|
    ensures forall i :: 0 <= i < |sorted| ==> sorted[i] in labels && normalized[i] == labels[sorted[i]]
  {
    var keys: seq<string> := [];
    var todo := labels.Keys;
    while todo != {}
      invariant todo <= labels.Keys && Elems(keys) == labels.Keys - todo
    {
      var k :| k in todo;
      ElemsJoin(keys, [k]);
      keys := keys + [k];
      todo := todo - {k};
    }
    KeysSorted(keys);
    SortedIsUnique(SortedKeys(keys), sorted);
    keys := SortedKeys(keys);
    assert forall k :: k in keys ==> k in Elems(sorted);
    normalized := [];
    for i := 0 to |keys|
      invariant |normalized| == i
      invariant forall j :: 0 <= j < i ==> normalized[j] == labels[keys[j]]
    {
      normalized := normalized + [labels[keys[i]]];
    }
  }

  /** Finds what identifies the group, unless a group-by key is missing. */
  method FilterEntry(lib: AggLib, def: Definition, entry: GenericMap) returns (r: Option<Identity>)
    ensures r == IdentityOf(lib, def, entry)
  {
    var labels, allLabelsFound := LabelsFromEntry(lib, def, entry);
    if !allLabelsFound {
      return None;
    }
    KeysSorted(def.groupByKeys);
    assert labels.Keys == Elems(def.groupByKeys) == Elems(SortedKeys(def.groupByKeys));
    var normalizedValues := GetNormalizedValues(labels, SortedKeys(def.groupByKeys));
    assert normalizedValues == ValuesAt(labels, SortedKeys(def.groupByKeys));
    r := Some(Identity(normalizedValues, labels));
  }
}
