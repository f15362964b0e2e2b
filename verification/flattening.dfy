/** Flattening list-valued fields into the product of their elements (flattening.go). */
module Flattening {
  import opened Common

  // ----- mixed-radix numbers, least significant digit first

  predicate Positive(radix: seq<nat>) { forall i :: 0 <= i < |radix| ==> radix[i] > 0 }

  predicate InRange(radix: seq<nat>, digits: seq<nat>) {
    |digits| == |radix| && forall i :: 0 <= i < |radix| ==> digits[i] < radix[i]
  }

  function Product(radix: seq<nat>): nat { if radix == [] then 1 else radix[0] * Product(radix[1..]) }

  function Digits(radix: seq<nat>, c: nat): (d: seq<nat>)
    requires Positive(radix)
    ensures InRange(radix, d)
  {
    if radix == [] then [] else [c % radix[0]] + Digits(radix[1..], c / radix[0])
  }

  function Number(radix: seq<nat>, d: seq<nat>): nat
    requires |d| == |radix|
  {
    if radix == [] then 0 else d[0] + radix[0] * Number(radix[1..], d[1..])
  }

  /** The carry stops at the first digit that is not at its end. */
  function Incremented(radix: seq<nat>, d: seq<nat>): (r: seq<nat>)
    requires |d| == |radix|
    ensures |r| == |radix|
  {
    if radix == [] then []
    else if d[0] + 1 == radix[0] then [0] + Incremented(radix[1..], d[1..])
    else [d[0] + 1] + d[1..]
  }

  lemma Quotient(a: nat, r: nat, q: nat, m: nat)
    requires r > 0 && a == q * r + m && m < r
    ensures a / r == q && a % r == m
  {
    assert a == a / r * r + a % r;
    if a / r > q {
      NextMultiple(q, a / r, r);
    } else if a / r < q {
      NextMultiple(a / r, q, r);
    }
  }

  lemma NextMultiple(a: nat, b: nat, r: nat)
    requires a < b
    ensures a * r + r <= b * r
  {
    MulGrows(a + 1, b, r);
    assert (a + 1) * r == a * r + r;
  }

  lemma MulGrows(a: nat, b: nat, r: nat)
    requires a <= b
    ensures a * r <= b * r
  {
    assert b * r == a * r + (b - a) * r;
  }

  lemma QuotientBound(c: nat, r: nat, p: nat)
    requires r > 0 && c < r * p
    ensures c / r < p
  {
    if c / r >= p {
      MulGrows(p, c / r, r);
    }
  }

  lemma DivisionStep(c: nat, r: nat)
    requires r > 0
    ensures c % r + 1 == r ==> (c + 1) % r == 0 && (c + 1) / r == c / r + 1
    ensures c % r + 1 != r ==> (c + 1) % r == c % r + 1 && (c + 1) / r == c / r
  {
    var q, m := c / r, c % r;
    if m + 1 == r {
      Quotient(c + 1, r, q + 1, 0);
    } else {
      Quotient(c + 1, r, q, m + 1);
    }
  }

  lemma DigitsStep(radix: seq<nat>, c: nat, q: nat, m: nat)
    requires Positive(radix) && radix != [] && c / radix[0] == q && c % radix[0] == m
    ensures Digits(radix, c) == [m] + Digits(radix[1..], q)
  {
  }

  /** Counting up the digits counts up the number. */
  lemma {:induction false} IncrementedDigits(radix: seq<nat>, c: nat)
    requires Positive(radix)
    ensures Incremented(radix, Digits(radix, c)) == Digits(radix, c + 1)
  {
    if radix != [] {
      var q, m, q', m' := c / radix[0], c % radix[0], (c + 1) / radix[0], (c + 1) % radix[0];
      DivisionStep(c, radix[0]);
      IncrementedDigits(radix[1..], q);
      DigitsStep(radix, c, q, m);
      DigitsStep(radix, c + 1, q', m');
      assert ([m] + Digits(radix[1..], q))[1..] == Digits(radix[1..], q);
    }
  }

  /** Digits and numbers below the product correspond one to one. */
  lemma {:induction false} DigitsOfNumber(radix: seq<nat>, d: seq<nat>)
    requires Positive(radix) && InRange(radix, d)
    ensures Digits(radix, Number(radix, d)) == d
    ensures Number(radix, d) < Product(radix)
  {
    if radix != [] {
      var r, rest := radix[0], Number(radix[1..], d[1..]);
      DigitsOfNumber(radix[1..], d[1..]);
      Quotient(Number(radix, d), r, rest, d[0]);
      NextMultiple(rest, Product(radix[1..]), r);
      assert d == [d[0]] + d[1..];
    }
  }

  lemma {:induction false} NumberOfDigits(radix: seq<nat>, c: nat)
    requires Positive(radix) && c < Product(radix)
    ensures Number(radix, Digits(radix, c)) == c
  {
    if radix != [] {
      var r := radix[0];
      assert c == c / r * r + c % r;
      QuotientBound(c, r, Product(radix[1..]));
      NumberOfDigits(radix[1..], c / r);
      assert Digits(radix, c)[1..] == Digits(radix[1..], c / r);
    }
  }

  // ----- the product

  type Parts = seq<seq<GenericMap>>

  predicate NonEmpty(parts: Parts) { forall i :: 0 <= i < |parts| ==> parts[i] != [] }

  function Lengths(parts: Parts): (r: seq<nat>)
    ensures |r| == |parts| && (NonEmpty(parts) ==> Positive(r))
  {
    seq(|parts|, i requires 0 <= i < |parts| => |parts[i]|)
  }

  /** The chosen elements merged in order; later ones win. */
  function Merged(parts: Parts, digits: seq<nat>): GenericMap
    requires InRange(Lengths(parts), digits)
  {
    if parts == [] then map[] else
    var n := |parts| - 1;
    Merged(parts[..n], digits[..n]) + parts[n][digits[n]]
  }

  /** A field of a merged element is that of the last chosen part that has it. */
  lemma {:induction false} LastPartWins(parts: Parts, digits: seq<nat>, i: nat, key: string)
    requires InRange(Lengths(parts), digits) && i < |parts| && key in parts[i][digits[i]]
    requires forall j :: i < j < |parts| ==> key !in parts[j][digits[j]]
    ensures key in Merged(parts, digits) && Merged(parts, digits)[key] == parts[i][digits[i]][key]
  {
    var n := |parts| - 1;
    if i < n {
      assert key !in parts[n][digits[n]];
      LastPartWins(parts[..n], digits[..n], i, key);
    }
  }

  lemma {:induction false} ProductAppend(radix: seq<nat>, r: nat)
    ensures Product(radix + [r]) == Product(radix) * r
  {
    if radix == [] {
      assert [r][1..] == [];
      assert Product([]) == 1;
    } else {
      ProductAppend(radix[1..], r);
      assert (radix + [r])[1..] == radix[1..] + [r];
      assert radix[0] * (Product(radix[1..]) * r) == radix[0] * Product(radix[1..]) * r;
    }
  }

  lemma {:induction false} ProductPositive(radix: seq<nat>)
    requires Positive(radix)
    ensures Product(radix) > 0
  {
    if radix != [] {
      ProductPositive(radix[1..]);
      assert radix[0] * Product(radix[1..]) >= Product(radix[1..]);
    }
  }

  /** The number of combinations; a list of one element adds none. */
  method TotalCard(parts: Parts) returns (totalCard: nat)
    requires NonEmpty(parts)
    ensures totalCard == Product(Lengths(parts))
  {
    totalCard := 1;
    var lengths := Lengths(parts);
    for i := 0 to |parts|
      invariant totalCard == Product(lengths[..i])
    {
      assert lengths[..i+1] == lengths[..i] + [|parts[i]|];
      ProductAppend(lengths[..i], |parts[i]|);
      if |parts[i]| > 1 {
        totalCard := totalCard * |parts[i]|;
      }
    }
    assert lengths[..|parts|] == lengths;
  }

  /** ret holds the merged combinations with the numbers below its length. */
  predicate Enumerates(parts: Parts, ret: seq<GenericMap>)
    requires NonEmpty(parts)
  {
    forall c :: 0 <= c < |ret| ==> ret[c] == Merged(parts, Digits(Lengths(parts), c))
  }

  /** All combinations, the first list varying fastest. */
  method Distribute(parts: Parts) returns (ret: seq<GenericMap>)
    requires NonEmpty(parts)
    ensures |ret| == Product(Lengths(parts)) && Enumerates(parts, ret)
    ensures ret != []
  {
    ghost var lengths := Lengths(parts);
    var totalCard := TotalCard(parts);
    ProductPositive(lengths);
    var indexes := new nat[|parts|](_ => 0);
    ZeroDigits(lengths);
    assert indexes[..] == seq(|parts|, _ => 0);
    ret := [];
    for c := 0 to totalCard
      invariant indexes[..] == Digits(lengths, c)
      invariant |ret| == c && Enumerates(parts, ret)
    {
      var entry := Combine(parts, indexes);
      IncrementedDigits(lengths, c);
      EnumeratesAppend(parts, ret, entry);
      ret := ret + [entry];
    }
  }

  lemma EnumeratesAppend(parts: Parts, ret: seq<GenericMap>, entry: GenericMap)
    requires NonEmpty(parts) && Enumerates(parts, ret) && entry == Merged(parts, Digits(Lengths(parts), |ret|))
    ensures Enumerates(parts, ret + [entry])
  {
  }

  lemma {:induction false} ZeroDigits(radix: seq<nat>)
    requires Positive(radix)
    ensures Digits(radix, 0) == seq(|radix|, _ => 0)
  {
    if radix != [] {
      Quotient(0, radix[0], 0, 0);
      ZeroDigits(radix[1..]);
    }
  }

  /** Counting up in place has passed position i: inc says that the carry has stopped. */
  predicate Counting(radix: seq<nat>, d: seq<nat>, cur: seq<nat>, i: nat, inc: bool) {
    && |d| == |cur| == |radix| && i <= |radix| && cur[i..] == d[i..]
    && Incremented(radix, d) == if inc then cur else cur[..i] + Incremented(radix[i..], d[i..])
  }

  /** What one iteration does to the counter. */
  function Count(radix: seq<nat>, cur: seq<nat>, i: nat, inc: bool): (seq<nat>, bool)
    requires i < |radix| == |cur|
  {
    if inc then (cur, true) else if cur[i] + 1 == radix[i] then (cur[i := 0], false) else (cur[i := cur[i] + 1], true)
  }

  lemma CountingStarts(radix: seq<nat>, d: seq<nat>)
    requires |d| == |radix|
    ensures Counting(radix, d, d, 0, false)
  {
    assert radix[0..] == radix && d[0..] == d;
  }

  lemma IncrementedFrom(radix: seq<nat>, d: seq<nat>, i: nat)
    requires i < |radix| == |d|
    ensures Incremented(radix[i..], d[i..]) ==
            if d[i] + 1 == radix[i] then [0] + Incremented(radix[i+1..], d[i+1..]) else [d[i] + 1] + d[i+1..]
  {
    assert radix[i..][1..] == radix[i+1..] && d[i..][1..] == d[i+1..];
  }

  lemma TailKept(d: seq<nat>, cur: seq<nat>, i: nat, x: nat)
    requires i < |cur| == |d| && cur[i..] == d[i..]
    ensures cur[i] == d[i] && cur[i+1..] == d[i+1..] && cur[i := x][i+1..] == d[i+1..]
    ensures cur[i := x][..i+1] == cur[..i] + [x] && cur[i := x] == cur[..i] + [x] + d[i+1..]
  {
    assert cur[i] == cur[i..][0] == d[i..][0];
    assert cur[i+1..] == cur[i..][1..] == d[i..][1..] == d[i+1..];
  }

  lemma Associated(a: seq<nat>, x: nat, b: seq<nat>)
    ensures a + ([x] + b) == a + [x] + b
  {
  }

  lemma CarryGoesOn(radix: seq<nat>, d: seq<nat>, cur: seq<nat>, i: nat)
    requires i < |radix| && Counting(radix, d, cur, i, false) && cur[i] + 1 == radix[i]
    ensures Counting(radix, d, cur[i := 0], i + 1, false)
  {
    IncrementedFrom(radix, d, i);
    TailKept(d, cur, i, 0);
    Associated(cur[..i], 0, Incremented(radix[i+1..], d[i+1..]));
  }

  lemma CarryStops(radix: seq<nat>, d: seq<nat>, cur: seq<nat>, i: nat)
    requires i < |radix| && Counting(radix, d, cur, i, false) && cur[i] + 1 != radix[i]
    ensures Counting(radix, d, cur[i := cur[i] + 1], i + 1, true)
  {
    IncrementedFrom(radix, d, i);
    TailKept(d, cur, i, d[i] + 1);
    Associated(cur[..i], d[i] + 1, d[i+1..]);
  }

  lemma CountingStep(radix: seq<nat>, d: seq<nat>, cur: seq<nat>, i: nat, inc: bool)
    requires i < |radix| && Counting(radix, d, cur, i, inc)
    ensures var (cur', inc') := Count(radix, cur, i, inc); Counting(radix, d, cur', i + 1, inc')
  {
    if inc {
      TailKept(d, cur, i, 0);
    } else if cur[i] + 1 == radix[i] {
      CarryGoesOn(radix, d, cur, i);
    } else {
      CarryStops(radix, d, cur, i);
    }
  }

  lemma MergedStep(parts: Parts, digits: seq<nat>, i: nat)
    requires InRange(Lengths(parts), digits) && i < |parts|
    ensures InRange(Lengths(parts[..i]), digits[..i]) && InRange(Lengths(parts[..i+1]), digits[..i+1])
    ensures Merged(parts[..i+1], digits[..i+1]) == Merged(parts[..i], digits[..i]) + parts[i][digits[i]]
  {
    assert parts[..i+1][..i] == parts[..i] && digits[..i+1][..i] == digits[..i];
  }

  method CountOne(indexes: array<nat>, i: nat, length: nat, incIndex: bool, ghost radix: seq<nat>) returns (inc: bool)
    requires i < |radix| == indexes.Length && radix[i] == length
    modifies indexes
    ensures (indexes[..], inc) == Count(radix, old(indexes[..]), i, incIndex)
  {
    inc := incIndex;
    if !incIndex {
      if indexes[i] + 1 == length {
        indexes[i] := 0;
      } else {
        indexes[i] := indexes[i] + 1;
        inc := true;
      }
    }
  }

  /** The loop over the parts for one combination: merges the chosen elements and counts the indexes up in place. */
  method Combine(parts: Parts, indexes: array<nat>) returns (entry: GenericMap)
    requires InRange(Lengths(parts), indexes[..])
    modifies indexes
    ensures entry == Merged(parts, old(indexes[..]))
    ensures indexes[..] == Incremented(Lengths(parts), old(indexes[..]))
  {
    entry := map[];
    var incIndex := false;
    ghost var lengths, before := Lengths(parts), indexes[..];
    CountingStarts(lengths, before);
    for i := 0 to |parts|
      invariant entry == Merged(parts[..i], before[..i])
      invariant Counting(lengths, before, indexes[..], i, incIndex)
    {
      MergedStep(parts, before, i);
      CountingStep(lengths, before, indexes[..], i, incIndex);
      var index := indexes[i];
      assert index == indexes[i..][0] == before[i..][0];
      entry := entry + parts[i][index];
      incIndex := CountOne(indexes, i, |parts[i]|, incIndex, lengths);
    }
    assert parts[..|parts|] == parts && before[..|parts|] == before;
  }

  /** Every choice of one element from each list appears exactly once. */
  lemma EveryCombinationOnce(parts: Parts, ret: seq<GenericMap>, digits: seq<nat>)
    requires NonEmpty(parts) && InRange(Lengths(parts), digits)
    requires |ret| == Product(Lengths(parts)) && Enumerates(parts, ret)
    ensures var c := Number(Lengths(parts), digits);
      && c < |ret| && ret[c] == Merged(parts, digits)
      && forall k :: 0 <= k < |ret| && Digits(Lengths(parts), k) == digits ==> k == c
  {
    var lengths := Lengths(parts);
    DigitsOfNumber(lengths, digits);
    forall k | 0 <= k < |ret| && Digits(lengths, k) == digits ensures k == Number(lengths, digits) {
      NumberOfDigits(lengths, k);
    }
  }

  // ----- the fields of a flow

  datatype AnyItem = Nested(fields: map<string, string>) | Plain(value: Value)

  /** The field values the flattening distinguishes. */
  datatype FieldValue =
    | AnyList(items: seq<AnyItem>)
    | MapList(maps: seq<map<string, string>>)
    | StringList(texts: seq<string>)
    | Scalar(value: Value)

  function FlattenNested(prefix: string, nested: map<string, string>): GenericMap {
    map k | k in set n | n in nested :: prefix + n :: Str(nested[k[|prefix|..]])
  }

  /** A nested field is found under the field name, a separator and its own name, and there are no others. */
  lemma NestedFields(prefix: string, nested: map<string, string>, name: string)
    ensures name in nested ==>
      prefix + name in FlattenNested(prefix, nested)
        && FlattenNested(prefix, nested)[prefix + name] == Str(nested[name])
    ensures |FlattenNested(prefix, nested)| == |nested|
  {
    assert (prefix + name)[|prefix|..] == name;
    var keys := set n | n in nested :: prefix + n;
    assert FlattenNested(prefix, nested).Keys == keys;
    PrefixedSize(prefix, nested.Keys);
    assert keys == set n | n in nested.Keys :: prefix + n;
  }

  lemma {:induction false} PrefixedSize(prefix: string, names: set<string>)
    ensures |set n | n in names :: prefix + n| == |names|
  {
    if names != {} {
      var n :| n in names;
      var rest := names - {n};
      PrefixedSize(prefix, rest);
      var keys, restKeys := set m | m in names :: prefix + m, set m | m in rest :: prefix + m;
      forall m | m in rest ensures prefix + m != prefix + n {
        assert (prefix + m)[|prefix|..] == m && (prefix + n)[|prefix|..] == n;
      }
      assert keys == restKeys + {prefix + n};
    }
  }

  /** The alternatives a field contributes: one for each element of a list, none for anything else. */
  function PartsOf(field: string, v: FieldValue): seq<GenericMap> {
    match v
    case AnyList(items) => seq(|items|, i requires 0 <= i < |items| =>
      match items[i] case Nested(fields) => FlattenNested(field + ">", fields) case Plain(value) => map[field := value])
    case MapList(maps) => seq(|maps|, i requires 0 <= i < |maps| => FlattenNested(field + ">", maps[i]))
    case StringList(texts) => seq(|texts|, i requires 0 <= i < |texts| => map[field := Str(texts[i])])
    case Scalar(_) => []
  }

  /** One field for each nested one: the field name, the separator and the nested name. */
  ghost predicate IsFlat(m: GenericMap, field: string, nested: map<string, string>) {
    && (forall n :: n in nested ==> Lookup(m, field + ">" + n) == Str(nested[n]))
    && (forall k :: k in m <==> exists n :: n in nested && k == field + ">" + n)
  }

  predicate IsSingle(m: GenericMap, field: string, value: Value) { m.Keys == {field} && m[field] == value }

  /** How many elements a field lists. */
  function Listed(v: FieldValue): nat {
    match v
    case AnyList(items) => |items|
    case MapList(maps) => |maps|
    case StringList(texts) => |texts|
    case Scalar(_) => 0
  }

  /** What the i-th element of a field contributes: its nested fields, or the element under the name of the field. */
  ghost predicate IsAlternative(field: string, v: FieldValue, i: nat, m: GenericMap) {
    match v
    case AnyList(items) => i < |items| &&
      (match items[i] case Nested(fields) => IsFlat(m, field, fields) case Plain(value) => IsSingle(m, field, value))
    case MapList(maps) => i < |maps| && IsFlat(m, field, maps[i])
    case StringList(texts) => i < |texts| && IsSingle(m, field, Str(texts[i]))
    case Scalar(_) => false
  }

  /** One alternative for each element, in order. */
  ghost predicate AreAlternatives(field: string, v: FieldValue, parts: seq<GenericMap>) {
    |parts| == Listed(v) && forall i :: 0 <= i < |parts| ==> IsAlternative(field, v, i, parts[i])
  }

  lemma FlattenedIsFlat(field: string, nested: map<string, string>)
    ensures IsFlat(FlattenNested(field + ">", nested), field, nested)
  {
    var m := FlattenNested(field + ">", nested);
    forall n | n in nested ensures Lookup(m, field + ">" + n) == Str(nested[n]) {
      NestedFields(field + ">", nested, n);
    }
  }

  lemma PartsAreAlternatives(field: string, v: FieldValue)
    ensures AreAlternatives(field, v, PartsOf(field, v))
  {
    forall i | 0 <= i < |PartsOf(field, v)| ensures IsAlternative(field, v, i, PartsOf(field, v)[i]) {
      if v.AnyList? && v.items[i].Nested? {
        FlattenedIsFlat(field, v.items[i].fields);
      } else if v.MapList? {
        FlattenedIsFlat(field, v.maps[i]);
      }
    }
  }

  predicate HasElements(flow: map<string, FieldValue>, field: string) { field in flow && Listed(flow[field]) > 0 }

  /** The labels whose fields list something, in order. */
  function ListingLabels(labels: seq<string>, flow: map<string, FieldValue>): seq<string> {
    if labels == [] then [] else
    var n := |labels| - 1;
    ListingLabels(labels[..n], flow) + (if HasElements(flow, labels[n]) then [labels[n]] else [])
  }

  /** The alternatives of these labels, list by list. */
  ghost predicate AreParts(labels: seq<string>, flow: map<string, FieldValue>, parts: Parts) {
    var listing := ListingLabels(labels, flow);
    |parts| == |listing| && forall i :: 0 <= i < |parts| ==>
      listing[i] in flow && AreAlternatives(listing[i], flow[listing[i]], parts[i])
  }

  /** The non-empty lists of alternatives, in the order of the labels. */
  function AllParts(labels: seq<string>, flow: map<string, FieldValue>): (parts: Parts)
    ensures NonEmpty(parts)
  {
    if labels == [] then [] else
    var n := |labels| - 1;
    AllParts(labels[..n], flow)
    + (if labels[n] in flow && PartsOf(labels[n], flow[labels[n]]) != [] then [PartsOf(labels[n], flow[labels[n]])]
      else [])
  }

  lemma {:induction false} AllPartsAreParts(labels: seq<string>, flow: map<string, FieldValue>)
    ensures AreParts(labels, flow, AllParts(labels, flow))
  {
    if labels != [] {
      var n := |labels| - 1;
      AllPartsAreParts(labels[..n], flow);
      if labels[n] in flow {
        PartsAreAlternatives(labels[n], flow[labels[n]]);
        assert PartsOf(labels[n], flow[labels[n]]) == [] <==> !HasElements(flow, labels[n]);
      }
    }
  }

  /** None when no field is to be flattened; else the product, which is one empty map when no field holds a list. */
  method GenerateFlatParts(flatten: seq<string>, flow: map<string, FieldValue>) returns (r: Option<seq<GenericMap>>)
    ensures r.None? <==> flatten == []
    ensures r.Some? ==> var parts := AllParts(flatten, flow);
      && AreParts(flatten, flow, parts)
      && |r.value| == Product(Lengths(parts)) && Enumerates(parts, r.value)
    ensures r.Some? && AllParts(flatten, flow) == [] ==> r.value == [map[]]
  {
    if flatten == [] {
      return None;
    }
    AllPartsAreParts(flatten, flow);
    var partsPerLabel: Parts := [];
    for i := 0 to |flatten|
      invariant partsPerLabel == AllParts(flatten[..i], flow)
    {
      assert flatten[..i+1][..i] == flatten[..i];
      if flatten[i] in flow {
        var partsForLabel := PartsOf(flatten[i], flow[flatten[i]]);
        if |partsForLabel| > 0 {
          partsPerLabel := partsPerLabel + [partsForLabel];
        }
      }
    }
    assert flatten[..|flatten|] == flatten;
    var ret := Distribute(partsPerLabel);
    r := Some(ret);
  }
}
