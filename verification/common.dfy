/** Vocabulary shared by the component models: options, flow-log records, and a few facts about sequences. */
module Common {

  datatype Option<+T> = None | Some(value: T) {
    function GetOr(default: T): T {
      if Some? then value else default
    }
  }

  /** A dynamically typed field value. Library conversions between these are parameters of the models. */
  datatype Value = Nil | Float(r: real) | Int(i: int) | Bool(b: bool) | Str(s: string)
                 | Floats(values: seq<real>) | Other(id: nat)

  /** config.GenericMap: one flow log or one output record. */
  type GenericMap = map<string, Value>

  /** Reading a missing key of a Go map yields the zero value, nil. */
  function Lookup(m: GenericMap, k: string): Value {
    if k in m then m[k] else Nil
  }

  predicate SameAt(m: GenericMap, m': GenericMap, k: string) {
    (k in m <==> k in m') && (k in m ==> m[k] == m'[k])
  }

  function Total(nums: seq<real>): real {
    if nums == [] then 0.0 else Total(nums[..|nums|-1]) + nums[|nums|-1]
  }

  /** strings.Join. */
  function JoinWith(parts: seq<string>, separator: string): string {
    if parts == [] then "" else if |parts| == 1 then parts[0]
    else parts[0] + separator + JoinWith(parts[1..], separator)
  }

  /** Bytewise comparison of texts. */
  predicate TextBefore(a: string, b: string) {
    if b == "" then false
    else if a == "" then true
    else a[0] < b[0] || (a[0] == b[0] && TextBefore(a[1..], b[1..]))
  }

  /** The texts agree up to a position, where the first one has the lesser byte. */
  predicate IsLessAt(a: string, b: string, i: nat) { i < |a| && i < |b| && a[..i] == b[..i] && a[i] < b[i] }

  /** One text is a proper prefix of the other, or has the lesser byte at the first difference. */
  ghost predicate IsLexicographic(a: string, b: string) {
    (|a| < |b| && a == b[..|a|]) || exists i: nat :: IsLessAt(a, b, i)
  }

  lemma {:induction false} BeforeIsLexicographic(a: string, b: string)
    ensures TextBefore(a, b) <==> IsLexicographic(a, b)
  {
    if a != "" && b != "" {
      BeforeIsLexicographic(a[1..], b[1..]);
      if a[0] == b[0] {
        LexicographicStep(a, b);
      } else {
        FirstDiffers(a, b);
      }
    }
  }

  lemma FirstDiffers(a: string, b: string)
    requires a != "" && b != "" && a[0] != b[0]
    ensures IsLexicographic(a, b) <==> a[0] < b[0]
  {
    assert IsLessAt(a, b, 0) <==> a[0] < b[0];
    forall i | 0 < i <= |a| && i <= |b| ensures a[..i] != b[..i] {
      assert a[..i][0] != b[..i][0];
    }
    assert |a| < |b| ==> a[..|a|] == a;
  }

  lemma LexicographicStep(a: string, b: string)
    requires a != "" && b != "" && a[0] == b[0]
    ensures IsLexicographic(a, b) <==> IsLexicographic(a[1..], b[1..])
  {
    var a', b' := a[1..], b[1..];
    SameFirst(a, b, |a|);
    assert a[..|a|] == a && a'[..|a'|] == a';
    forall i: nat ensures IsLessAt(a, b, i + 1) <==> IsLessAt(a', b', i) {
      SameFirst(a, b, i + 1);
    }
    if exists i: nat :: IsLessAt(a, b, i) {
      var i: nat :| IsLessAt(a, b, i);
      assert IsLessAt(a', b', i - 1);
    }
  }

  lemma SameFirst(a: string, b: string, n: nat)
    requires a != "" && b != "" && a[0] == b[0] && n > 0
    ensures n <= |a| && n <= |b| ==> (a[..n] == b[..n] <==> a[1..][..n-1] == b[1..][..n-1])
  {
    if n <= |a| && n <= |b| {
      assert a[..n] == [a[0]] + a[1..][..n-1] && b[..n] == [b[0]] + b[1..][..n-1];
      assert a[1..][..n-1] == a[..n][1..] && b[1..][..n-1] == b[..n][1..];
    }
  }

  /** What precedes the first slash is determined by the text, and so is what follows. */
  lemma SeparatedOnce(a: string, rest: string, a': string, rest': string)
    requires '/' !in a && '/' !in a'
    ensures a + "/" + rest == a' + "/" + rest' <==> a == a' && rest == rest'
  {
    var text, text' := a + "/" + rest, a' + "/" + rest';
    if text == text' {
      assert text[|a|] == '/' && text'[|a'|] == '/';
      assert forall i :: 0 <= i < |a| ==> text[i] == a[i] && text[i] != '/';
      assert forall i :: 0 <= i < |a'| ==> text'[i] == a'[i] && text'[i] != '/';
      assert |a| == |a'|;
      assert a == text[..|a|] && a' == text'[..|a'|];
      assert rest == text[|a|+1..] && rest' == text'[|a'|+1..];
    }
  }

  predicate NoDup<T(==)>(s: seq<T>) {
    forall i, j :: 0 <= i < j < |s| ==> s[i] != s[j]
  }

  function Elems<T(==)>(s: seq<T>): set<T> {
    set x | x in s
  }

  function Without<T(==)>(s: seq<T>, x: T): (r: seq<T>)
    ensures |r| <= |s|
    ensures forall y :: y in r ==> y in s && y != x
    ensures forall y :: y in s && y != x ==> y in r
    decreases s, x
  {
    if s == [] then [] else if s[0] == x then Without(s[1..], x) else [s[0]] + Without(s[1..], x)
  }

  /** Position of an element known to occur. */
  function IndexOf<T(==)>(s: seq<T>, x: T): (i: nat)
    requires x in s
    ensures i < |s| && s[i] == x && x !in s[..i]
    decreases s, x
  {
    if s[0] == x then 0 else 1 + IndexOf(s[1..], x)
  }

  lemma WithoutIsSlice<T>(s: seq<T>, x: T, i: nat)
    requires i < |s| && s[i] == x && NoDup(s)
    ensures Without(s, x) == s[..i] + s[i+1..]
  {
    if i == 0 {
      WithoutAbsent(s[1..], x);
    } else {
      WithoutIsSlice(s[1..], x, i - 1);
      assert s[..i] == [s[0]] + s[1..][..i-1];
    }
  }

  lemma WithoutAbsent<T>(s: seq<T>, x: T)
    requires x !in s
    ensures Without(s, x) == s
  {
  }

  lemma {:induction false} WithoutNoDup<T>(s: seq<T>, x: T)
    requires NoDup(s)
    ensures NoDup(Without(s, x))
  {
    if s != [] {
      WithoutNoDup(s[1..], x);
      assert s[0] !in s[1..];
      var rest := Without(s[1..], x);
      assert forall i :: 0 <= i < |rest| ==> rest[i] in rest && rest[i] != s[0];
    }
  }

  lemma NoDupSize<T>(s: seq<T>)
    requires NoDup(s)
    ensures |Elems(s)| == |s|
  {
    if s != [] {
      NoDupSize(s[1..]);
      assert Elems(s) == {s[0]} + Elems(s[1..]);
      assert s[0] !in s[1..];
    }
  }
}
