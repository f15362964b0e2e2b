/** Top-K and bottom-K selection (heap.go), on the array heap of container/heap. */
module TimebasedHeap {
  import opened Common
  import opened Float64

  datatype FilterResult = FilterResult(values: string, operationResult: real)
  datatype HeapItem = HeapItem(value: real, result: FilterResult)
  type Items = seq<HeapItem>

  /** The rank of a value: a bottom-K heap orders values the other way round. */
  function Rank(reversed: bool, value: real): real { if reversed then -value else value }

  function Parent(j: nat): nat { if j == 0 then 0 else (j - 1) / 2 }

  /** No element up to n ranks below its parent, except possibly the one at hole. */
  predicate HeapBut(rev: bool, s: Items, n: nat, hole: nat)
    requires n <= |s|
  {
    forall j :: 1 <= j < n && j != hole ==> Rank(rev, s[Parent(j)].value) <= Rank(rev, s[j].value)
  }

  predicate IsHeap(rev: bool, s: Items) { HeapBut(rev, s, |s|, |s|) }

  function Swapped(s: Items, i: nat, j: nat): Items
    requires i < |s| && j < |s|
  {
    s[i := s[j]][j := s[i]]
  }

  lemma SwapKeepsItems(s: Items, i: nat, j: nat)
    requires i < |s| && j < |s|
    ensures multiset(Swapped(s, i, j)) == multiset(s)
  {
  }

  /** The root of a heap has the least rank. */
  lemma {:induction false} RootIsLeast(rev: bool, s: Items, j: nat)
    requires IsHeap(rev, s) && j < |s|
    ensures Rank(rev, s[0].value) <= Rank(rev, s[j].value)
    decreases j
  {
    if j > 0 {
      RootIsLeast(rev, s, Parent(j));
    }
  }

  /** Sifting up: only j may rank below its parent, and its children do not rank below that parent either. */
  predicate Rising(rev: bool, s: Items, j: nat) {
    && j < |s| && HeapBut(rev, s, |s|, j)
    && (forall k :: 1 <= k < |s| && j >= 1 && Parent(k) == j ==> Rank(rev, s[Parent(j)].value) <= Rank(rev, s[k].value))
  }

  lemma RiseStep(rev: bool, s: Items, j: nat)
    requires Rising(rev, s, j) && j > 0 && Rank(rev, s[j].value) < Rank(rev, s[Parent(j)].value)
    ensures Rising(rev, Swapped(s, Parent(j), j), Parent(j))
  {
    var i, s' := Parent(j), Swapped(s, Parent(j), j);
    forall k | 1 <= k < |s| && k != i ensures Rank(rev, s'[Parent(k)].value) <= Rank(rev, s'[k].value) {
      if k != j && Parent(k) == i {
        assert Rank(rev, s[i].value) <= Rank(rev, s[k].value);
      }
    }
    if i >= 1 {
      assert Rank(rev, s[Parent(i)].value) <= Rank(rev, s[i].value);
      forall k | 1 <= k < |s| && Parent(k) == i ensures Rank(rev, s'[Parent(i)].value) <= Rank(rev, s'[k].value) {
        if k != j {
          assert Rank(rev, s[i].value) <= Rank(rev, s[k].value);
        }
      }
    }
  }

  /** Sifting down in the first n elements: only the children of i may rank below it, none below its parent. */
  predicate Sinking(rev: bool, s: Items, n: nat, i: nat) {
    && n <= |s|
    && (forall k :: 1 <= k < n && Parent(k) != i ==> Rank(rev, s[Parent(k)].value) <= Rank(rev, s[k].value))
    && (forall k :: 1 <= k < n && Parent(k) == i && i >= 1 ==> Rank(rev, s[Parent(i)].value) <= Rank(rev, s[k].value))
  }

  /** c is the child of i to descend to: no sibling ranks below it. */
  predicate LeastChild(rev: bool, s: Items, n: nat, i: nat, c: nat) {
    i < c < n <= |s| && Parent(c) == i &&
    forall k :: 1 <= k < n && Parent(k) == i ==> Rank(rev, s[c].value) <= Rank(rev, s[k].value)
  }

  lemma SinkStep(rev: bool, s: Items, n: nat, i: nat, c: nat)
    requires Sinking(rev, s, n, i) && LeastChild(rev, s, n, i, c) && Rank(rev, s[c].value) < Rank(rev, s[i].value)
    ensures Sinking(rev, Swapped(s, i, c), n, c)
  {
    var s' := Swapped(s, i, c);
    forall k | 1 <= k < n && Parent(k) != c ensures Rank(rev, s'[Parent(k)].value) <= Rank(rev, s'[k].value) {
      if Parent(k) == i {
        assert Rank(rev, s[c].value) <= Rank(rev, s[k].value);
      } else if k == i {
        assert Rank(rev, s[Parent(i)].value) <= Rank(rev, s[c].value);
      }
    }
    forall k | 1 <= k < n && Parent(k) == c ensures Rank(rev, s'[i].value) <= Rank(rev, s'[k].value) {
      assert Rank(rev, s[c].value) <= Rank(rev, s[k].value);
    }
  }

  lemma SinkEnds(rev: bool, s: Items, n: nat, i: nat)
    requires Sinking(rev, s, n, i)
    requires
      || 2 * i + 1 >= n
      || exists c: nat :: LeastChild(rev, s, n, i, c) && Rank(rev, s[i].value) <= Rank(rev, s[c].value)
    ensures HeapBut(rev, s, n, n)
  {
  }

  predicate LeastOf(rev: bool, x: HeapItem, all: multiset<HeapItem>) {
    forall y :: y in all ==> Rank(rev, x.value) <= Rank(rev, y.value)
  }

  class BoundedHeap {
    const reversed: bool
    var items: Items

    constructor (reversed: bool)
      ensures this.reversed == reversed && items == []
    {
      this.reversed, items := reversed, [];
    }

    function Less(i: nat, j: nat): bool
      requires i < |items| && j < |items|
      reads this
    {
      if reversed then items[i].value > items[j].value else items[i].value < items[j].value
    }

    method Swap(i: nat, j: nat)
      requires i < |items| && j < |items|
      modifies this
      ensures items == Swapped(old(items), i, j) && multiset(items) == multiset(old(items))
    {
      SwapKeepsItems(items, i, j);
      items := items[i := items[j]][j := items[i]];
    }

    /** up of container/heap. */
    method Up(j0: nat)
      requires Rising(reversed, items, j0)
      modifies this
      ensures IsHeap(reversed, items) && multiset(items) == multiset(old(items))
    {
      var j := j0;
      while true
        invariant 0 <= j && Rising(reversed, items, j) && multiset(items) == multiset(old(items))
        decreases j
      {
        var i := Parent(j);
        if i == j || !Less(j, i) {
          break;
        }
        RiseStep(reversed, items, j);
        Swap(i, j);
        j := i;
      }
    }

    /** down of container/heap, on the first n elements. */
    method Down(n: nat)
      requires n < |items| && Sinking(reversed, items, n, 0)
      modifies this
      ensures |items| == |old(items)| && HeapBut(reversed, items, n, n)
      ensures items[n] == old(items)[n] && multiset(items) == multiset(old(items))
    {
      var i := 0;
      while true
        invariant 0 <= i <= n && |items| == |old(items)| && Sinking(reversed, items, n, i)
        invariant items[n] == old(items)[n] && multiset(items) == multiset(old(items))
        decreases n - i
      {
        if 2 * i + 1 >= n {
          break;
        }
        var j := LesserChild(i, n);
        if !Less(j, i) {
          break;
        }
        SinkStep(reversed, items, n, i, j);
        Swap(i, j);
        i := j;
      }
      SinkEnds(reversed, items, n, i);
    }

    method LesserChild(i: nat, n: nat) returns (j: nat)
      requires 2 * i + 1 < n <= |items|
      ensures j < n && LeastChild(reversed, items, n, i, j)
    {
      j := 2 * i + 1;
      if j + 1 < n && Less(j + 1, j) {
        j := j + 1;
      }
      Children(i, n);
    }

    lemma Children(i: nat, n: nat)
      ensures Parent(2 * i + 1) == i && Parent(2 * i + 2) == i
      ensures forall k :: 1 <= k < n && Parent(k) == i ==> k == 2 * i + 1 || k == 2 * i + 2
    {
    }

    method Push(x: HeapItem)
      requires IsHeap(reversed, items)
      modifies this
      ensures IsHeap(reversed, items) && multiset(items) == multiset(old(items)) + multiset{x}
    {
      items := items + [x];
      Up(|items| - 1);
    }

    method Pop() returns (x: HeapItem)
      requires IsHeap(reversed, items) && items != []
      modifies this
      ensures IsHeap(reversed, items) && multiset(old(items)) == multiset(items) + multiset{x}
      ensures LeastOf(reversed, x, multiset(old(items)))
      ensures |items| == |old(items)| - 1
    {
      ghost var before := items;
      SinkRoot();
      x := items[|items| - 1];
      SplitLast(reversed, before, items, x);
      items := items[..|items|-1];
    }

    /** The swap and the sift-down with which heap.Pop brings the root to the end. */
    method SinkRoot()
      requires IsHeap(reversed, items) && items != []
      modifies this
      ensures |items| == |old(items)| && multiset(items) == multiset(old(items))
      ensures HeapBut(reversed, items, |items| - 1, |items| - 1)
      ensures LeastOf(reversed, items[|items| - 1], multiset(old(items)))
    {
      RootIsMinimum(reversed, items);
      Swap(0, |items| - 1);
      Down(|items| - 1);
    }
  }

  lemma RootIsMinimum(rev: bool, s: Items)
    requires IsHeap(rev, s) && s != []
    ensures LeastOf(rev, s[0], multiset(s))
    ensures Sinking(rev, Swapped(s, 0, |s| - 1), |s| - 1, 0)
  {
    forall y | y in multiset(s) ensures Rank(rev, s[0].value) <= Rank(rev, y.value) {
      RootIsLeast(rev, s, IndexOf(s, y));
    }
  }

  lemma SplitLast(rev: bool, before: Items, s: Items, x: HeapItem)
    requires s != [] && multiset(s) == multiset(before) && HeapBut(rev, s, |s| - 1, |s| - 1) && x == s[|s|-1]
    ensures multiset(before) == multiset(s[..|s|-1]) + multiset{x} && IsHeap(rev, s[..|s|-1])
  {
    assert s == s[..|s|-1] + [x];
  }

  // ----- selection

  /** The operation results of a rule: every result carries the key it is stored under. */
  predicate Keyed(inputs: map<string, FilterResult>) {
    forall k :: k in inputs ==> inputs[k].values == k
  }

  function ItemOf(r: FilterResult): HeapItem { HeapItem(r.operationResult, r) }

  /** The results that the initial bound of the scan lets through. */
  function Admitted(rev: bool, inputs: map<string, FilterResult>, initial: real): (m: map<string, FilterResult>)
    ensures Keyed(inputs) ==> Keyed(m)
  {
    map key | key in inputs && Rank(rev, initial) <= Rank(rev, inputs[key].operationResult) :: inputs[key]
  }

  /** The scan starts from the largest float of the losing sign. */
  function InitialBound(rev: bool): real { if rev then MAX_FLOAT64 else -MAX_FLOAT64 }

  /** All results are finite doubles. */
  ghost predicate Finite(inputs: map<string, FilterResult>) {
    forall key :: key in inputs ==> IsFloat64(inputs[key].operationResult)
  }

  /** The initial bound lets every finite double through. */
  lemma FiniteAdmitted(rev: bool, inputs: map<string, FilterResult>)
    requires Finite(inputs)
    ensures Admitted(rev, inputs, InitialBound(rev)) == inputs
  {
    forall key | key in inputs ensures Rank(rev, InitialBound(rev)) <= Rank(rev, inputs[key].operationResult) {
      LargestFiniteDouble(inputs[key].operationResult);
    }
  }

  /** Any tighter bound would hold a finite double back. */
  lemma TighterHoldsBack(rev: bool, tighter: real)
    requires Rank(rev, InitialBound(rev)) < Rank(rev, tighter)
    ensures exists v :: IsFloat64(v) && Admitted(rev, map["k" := FilterResult("k", v)], tighter) == map[]
  {
    var initial := InitialBound(rev);
    LargestFiniteDouble(initial);
    assert Admitted(rev, map["k" := FilterResult("k", initial)], tighter) == map[];
  }

  /** The retained items after some keys have been visited: at most k of them, each once, and no visited key that
      was dropped ranks above a retained one. */
  ghost predicate Retains(
    rev: bool, inputs: map<string, FilterResult>, seen: set<string>, kept: multiset<HeapItem>, k: nat) {
    && seen <= inputs.Keys
    && (forall it :: it in kept ==> kept[it] == 1 && it.result.values in seen && it == ItemOf(inputs[it.result.values]))
    && |kept| == (if |seen| < k then |seen| else k)
    && (|kept| < k ==> forall key :: key in seen ==> ItemOf(inputs[key]) in kept)
    && (forall key, it :: key in seen && it in kept && ItemOf(inputs[key]) !in kept ==>
          Rank(rev, inputs[key].operationResult) <= Rank(rev, it.value))
  }

  /** For the top-K a value is at least another one, for the bottom-K at most. */
  predicate NoWorse(reversed: bool, x: real, y: real) { if reversed then x <= y else x >= y }

  /** Selecting k results: ordered, from distinct keys, as many as there are up to k, and none left out is better than
      one that was taken. */
  ghost predicate Selects(rev: bool, inputs: map<string, FilterResult>, out: seq<FilterResult>, k: nat) {
    && (forall i, j :: 0 <= i < j < |out| ==> NoWorse(rev, out[i].operationResult, out[j].operationResult))
    && (forall i, j :: 0 <= i < j < |out| ==> out[i].values != out[j].values)
    && (forall i :: 0 <= i < |out| ==> out[i].values in inputs && inputs[out[i].values] == out[i])
    && |out| == (if |inputs| < k then |inputs| else k)
    && (forall key, i :: key in inputs && 0 <= i < |out| && inputs[key] !in out ==>
          NoWorse(rev, out[i].operationResult, inputs[key].operationResult))
  }

  /** An item that ranks below the last dropped one changes nothing. */
  lemma SkipRetains(
    rev: bool, inputs: map<string, FilterResult>, seen: set<string>, kept: multiset<HeapItem>, k: nat, key: string)
    requires Keyed(inputs) && key in inputs && key !in seen && Retains(rev, inputs, seen, kept, k) && |kept| == k
    requires forall it :: it in kept ==> Rank(rev, inputs[key].operationResult) <= Rank(rev, it.value)
    ensures Retains(rev, inputs, seen + {key}, kept, k)
  {
    assert |seen + {key}| == |seen| + 1;
  }

  lemma PushRetains(
    rev: bool, inputs: map<string, FilterResult>, seen: set<string>, kept: multiset<HeapItem>, k: nat, key: string)
    requires Keyed(inputs) && key in inputs && key !in seen && Retains(rev, inputs, seen, kept, k)
    ensures |kept| < k ==> Retains(rev, inputs, seen + {key}, kept + multiset{ItemOf(inputs[key])}, k)
  {
    assert |seen + {key}| == |seen| + 1;
  }

  /** Pushing a new item over a full heap and dropping the least keeps the k best. */
  lemma ReplaceRetains(
    rev: bool, inputs: map<string, FilterResult>, seen: set<string>, kept: multiset<HeapItem>, k: nat, key: string,
    x: HeapItem, rest: multiset<HeapItem>)
    requires Keyed(inputs) && key in inputs && key !in seen && Retains(rev, inputs, seen, kept, k) && |kept| == k
    requires kept + multiset{ItemOf(inputs[key])} == rest + multiset{x}
    requires LeastOf(rev, x, kept + multiset{ItemOf(inputs[key])})
    ensures Retains(rev, inputs, seen + {key}, rest, k)
    ensures forall it :: it in rest ==> Rank(rev, x.value) <= Rank(rev, it.value)
  {
    var all := kept + multiset{ItemOf(inputs[key])};
    assert |seen + {key}| == |seen| + 1 && |all| == |rest| + 1;
    forall it | it in rest ensures it in all {
    }
    forall k', it | k' in seen + {key} && it in rest && ItemOf(inputs[k']) !in rest
      ensures Rank(rev, inputs[k'].operationResult) <= Rank(rev, it.value)
    {
      if ItemOf(inputs[k']) in all {
        assert ItemOf(inputs[k']) == x;
      } else {
        assert it in kept || x in kept;
      }
    }
  }

  function ItemsOf(out: seq<FilterResult>): Items {
    seq(|out|, i requires 0 <= i < |out| => ItemOf(out[i]))
  }

  predicate Descending(rev: bool, out: seq<FilterResult>) {
    forall i, j :: 0 <= i < j < |out| ==> Rank(rev, out[i].operationResult) >= Rank(rev, out[j].operationResult)
  }

  /** Empties the heap from the least element up, filling the result from its end. */
  method Drain(h: BoundedHeap) returns (out: seq<FilterResult>)
    requires IsHeap(h.reversed, h.items)
    requires forall it :: it in multiset(h.items) ==> it == ItemOf(it.result)
    modifies h
    ensures Descending(h.reversed, out) && multiset(ItemsOf(out)) == multiset(old(h.items))
  {
    out := [];
    ghost var all := multiset(h.items);
    while h.items != []
      invariant IsHeap(h.reversed, h.items) && Descending(h.reversed, out)
      invariant multiset(h.items) + multiset(ItemsOf(out)) == all
      invariant Above(h.reversed, multiset(h.items), out)
      decreases |h.items|
    {
      ghost var before := multiset(h.items);
      var poppedItem := h.Pop();
      assert poppedItem in before && poppedItem in all;
      PrependBest(h.reversed, before, multiset(h.items), poppedItem, out);
      out := [poppedItem.result] + out;
    }
  }

  ghost predicate Above(rev: bool, kept: multiset<HeapItem>, out: seq<FilterResult>) {
    forall it, i :: it in kept && 0 <= i < |out| ==> Rank(rev, out[i].operationResult) <= Rank(rev, it.value)
  }

  lemma PrependBest(
    rev: bool, before: multiset<HeapItem>, after: multiset<HeapItem>, x: HeapItem, out: seq<FilterResult>)
    requires before == after + multiset{x} && x == ItemOf(x.result)
    requires LeastOf(rev, x, before)
    requires Above(rev, before, out) && Descending(rev, out)
    ensures Above(rev, after, [x.result] + out) && Descending(rev, [x.result] + out)
    ensures multiset(ItemsOf([x.result] + out)) == multiset(ItemsOf(out)) + multiset{x}
  {
    assert x in before && forall y :: y in after ==> y in before;
    assert ItemsOf([x.result] + out) == [x] + ItemsOf(out);
  }

  lemma DrainedSelects(
    rev: bool, inputs: map<string, FilterResult>, kept: multiset<HeapItem>, out: seq<FilterResult>, k: nat)
    requires Keyed(inputs) && Retains(rev, inputs, inputs.Keys, kept, k)
    requires Descending(rev, out) && multiset(ItemsOf(out)) == kept
    ensures Selects(rev, inputs, out, k)
  {
    DrainedItems(rev, inputs, kept, out, k);
    DrainedDistinct(inputs, kept, out);
    var items := ItemsOf(out);
    assert |out| == |multiset(items)| && |inputs.Keys| == |inputs|;
    forall i, j | 0 <= i < j < |out| ensures NoWorse(rev, out[i].operationResult, out[j].operationResult) {
      assert Rank(rev, out[i].operationResult) >= Rank(rev, out[j].operationResult);
    }
    forall key, i | key in inputs && 0 <= i < |out| && inputs[key] !in out
      ensures NoWorse(rev, out[i].operationResult, inputs[key].operationResult)
    {
      LeftOutIsWorse(rev, inputs, kept, out, k, key, i);
    }
  }

  lemma LeftOutIsWorse(
    rev: bool, inputs: map<string, FilterResult>, kept: multiset<HeapItem>, out: seq<FilterResult>, k: nat, key: string,
    i: nat)
    requires Retains(rev, inputs, inputs.Keys, kept, k) && multiset(ItemsOf(out)) == kept
    requires key in inputs && i < |out| && inputs[key] !in out
    ensures NoWorse(rev, out[i].operationResult, inputs[key].operationResult)
  {
    if ItemOf(inputs[key]) in kept {
      DrainedHolds(kept, out, inputs[key]);
    }
    assert ItemsOf(out)[i] in kept;
    assert Rank(rev, inputs[key].operationResult) <= Rank(rev, ItemsOf(out)[i].value);
  }

  /** What comes out of the heap is what was retained, under its own key. */
  lemma DrainedItems(
    rev: bool, inputs: map<string, FilterResult>, kept: multiset<HeapItem>, out: seq<FilterResult>, k: nat)
    requires Retains(rev, inputs, inputs.Keys, kept, k) && multiset(ItemsOf(out)) == kept
    ensures forall i :: 0 <= i < |out| ==> ItemsOf(out)[i] in kept && kept[ItemsOf(out)[i]] == 1
    ensures forall i :: 0 <= i < |out| ==> out[i].values in inputs && inputs[out[i].values] == out[i]
  {
    var items := ItemsOf(out);
    forall i | 0 <= i < |out|
      ensures items[i] in kept && kept[items[i]] == 1 && out[i].values in inputs && inputs[out[i].values] == out[i]
    {
      assert items[i] in multiset(items);
    }
  }

  lemma DrainedDistinct(inputs: map<string, FilterResult>, kept: multiset<HeapItem>, out: seq<FilterResult>)
    requires multiset(ItemsOf(out)) == kept
    requires forall i :: 0 <= i < |out| ==> ItemsOf(out)[i] in kept && kept[ItemsOf(out)[i]] == 1
    requires forall i :: 0 <= i < |out| ==> out[i].values in inputs && inputs[out[i].values] == out[i]
    ensures forall i, j :: 0 <= i < j < |out| ==> out[i].values != out[j].values
  {
    forall i, j | 0 <= i < j < |out| ensures out[i].values != out[j].values {
      if out[i].values == out[j].values {
        TwiceCounts(ItemsOf(out), i, j);
      }
    }
  }

  lemma DrainedHolds(kept: multiset<HeapItem>, out: seq<FilterResult>, r: FilterResult)
    requires multiset(ItemsOf(out)) == kept && ItemOf(r) in kept
    ensures r in out
  {
    var j := IndexOf(ItemsOf(out), ItemOf(r));
    assert out[j] == ItemsOf(out)[j].result;
  }

  lemma TwiceCounts(items: Items, i: nat, j: nat)
    requires i < j < |items| && items[i] == items[j]
    ensures multiset(items)[items[i]] >= 2
  {
    assert items == items[..j] + [items[j]] + items[j+1..];
    assert items[i] in multiset(items[..j]) by {
      assert items[..j][i] == items[i];
    }
  }

  /** Visited so far: the k best are retained, and prev ranks no higher than any of them. */
  ghost predicate Scanning(
    h: BoundedHeap, inputs: map<string, FilterResult>, seen: set<string>, k: nat, initial: real, prev: real)
    reads h
  {
    && IsHeap(h.reversed, h.items) && Retains(h.reversed, inputs, seen, multiset(h.items), k)
    && (forall it :: it in multiset(h.items) ==> Rank(h.reversed, prev) <= Rank(h.reversed, it.value))
    && (|h.items| < k ==> prev == initial)
    && Rank(h.reversed, initial) <= Rank(h.reversed, prev)
  }

  /** One iteration over the results: skip, push, or push and drop the least. */
  method Offer(h: BoundedHeap, r: FilterResult, k: nat, prev: real,
               ghost admitted: map<string, FilterResult>, ghost seen: set<string>, ghost initial: real)
    returns (prev': real)
    requires Keyed(admitted) && r.values !in seen && Scanning(h, admitted, seen, k, initial, prev)
    requires Next(h.reversed, admitted, initial, r)
    modifies h
    ensures Scanning(h, admitted, if r.values in admitted then seen + {r.values} else seen, k, initial, prev')
  {
    ghost var kept := multiset(h.items);
    prev' := prev;
    var val := r.operationResult;
    if (if h.reversed then val > prev else val < prev) {
      if r.values in admitted {
        SkipRetains(h.reversed, admitted, seen, kept, k, r.values);
      }
      return;
    }
    PushRetains(h.reversed, admitted, seen, kept, k, r.values);
    h.Push(ItemOf(r));
    assert |multiset(h.items)| == |kept| + 1;
    if |h.items| > k {
      var x := h.Pop();
      ReplaceRetains(h.reversed, admitted, seen, kept, k, r.values, x, multiset(h.items));
      DroppedRanksAbove(h.reversed, kept, r, x, prev);
      assert |multiset(h.items)| == |kept|;
      prev' := x.value;
    }
  }

  lemma DroppedRanksAbove(rev: bool, kept: multiset<HeapItem>, r: FilterResult, x: HeapItem, prev: real)
    requires x in kept + multiset{ItemOf(r)} && Rank(rev, prev) <= Rank(rev, r.operationResult)
    requires forall it :: it in kept ==> Rank(rev, prev) <= Rank(rev, it.value)
    ensures Rank(rev, prev) <= Rank(rev, x.value)
  {
  }

  /** computeTopK and computeBotK: the k results of highest (lowest) value, best first, whatever the order in which
      the map is traversed. Dropping early what ranks below the last dropped item loses nothing. */
  method ComputeK(reversed: bool, inputs: map<string, FilterResult>, k: nat) returns (out: seq<FilterResult>)
    requires Keyed(inputs) && k > 0
    ensures Finite(inputs) ==> Selects(reversed, inputs, out, k)
    ensures Selects(reversed, Admitted(reversed, inputs, InitialBound(reversed)), out, k)
  {
    if Finite(inputs) {
      FiniteAdmitted(reversed, inputs);
    }
    var h := new BoundedHeap(reversed);
    var initial := InitialBound(reversed);
    ghost var admitted := Admitted(reversed, inputs, initial);
    ScanAll(h, inputs, k, initial);
    out := Drain(h);
    DrainedSelects(reversed, admitted, multiset(ItemsOf(out)), out, k);
  }

  /** Everything admitted has been offered, except what is still to do. */
  ghost predicate Unvisited(
    h: BoundedHeap, inputs: map<string, FilterResult>, todo: set<string>, k: nat, initial: real, prev: real)
    reads h
  {
    var admitted := Admitted(h.reversed, inputs, initial);
    Scanning(h, admitted, admitted.Keys - todo, k, initial, prev)
  }

  method ScanOne(
    h: BoundedHeap, inputs: map<string, FilterResult>, key: string, k: nat, prev: real, ghost todo: set<string>,
    ghost initial: real)
    returns (prev': real)
    requires Keyed(inputs) && key in inputs && key in todo && Unvisited(h, inputs, todo, k, initial, prev)
    modifies h
    ensures Unvisited(h, inputs, todo - {key}, k, initial, prev')
  {
    ghost var admitted := Admitted(h.reversed, inputs, initial);
    Visit(h.reversed, inputs, initial, todo, key);
    prev' := Offer(h, inputs[key], k, prev, admitted, admitted.Keys - todo, initial);
  }

  /** The loop over the results, in any order. */
  method ScanAll(h: BoundedHeap, inputs: map<string, FilterResult>, k: nat, initial: real)
    requires Keyed(inputs) && h.items == []
    modifies h
    ensures AllScanned(h, inputs, k, initial)
  {
    var prev := initial;
    var todo := inputs.Keys;
    ScanStarts(h, inputs, k, initial);
    while todo != {}
      invariant todo <= inputs.Keys && Unvisited(h, inputs, todo, k, initial, prev)
    {
      var key :| key in todo;
      prev := ScanOne(h, inputs, key, k, prev, todo, initial);
      todo := todo - {key};
    }
    ScanEnds(h, inputs, k, initial, prev);
  }

  lemma ScanStarts(h: BoundedHeap, inputs: map<string, FilterResult>, k: nat, initial: real)
    requires h.items == []
    ensures Unvisited(h, inputs, inputs.Keys, k, initial, initial)
  {
    var admitted := Admitted(h.reversed, inputs, initial);
    NothingRetained(h.reversed, admitted, k);
    assert admitted.Keys - inputs.Keys == {};
  }

  lemma ScanEnds(h: BoundedHeap, inputs: map<string, FilterResult>, k: nat, initial: real, prev: real)
    requires Unvisited(h, inputs, {}, k, initial, prev)
    ensures AllScanned(h, inputs, k, initial)
  {
    var admitted := Admitted(h.reversed, inputs, initial);
    assert admitted.Keys - {} == admitted.Keys;
  }

  /** The heap holds the k best of all admitted results. */
  ghost predicate AllScanned(h: BoundedHeap, inputs: map<string, FilterResult>, k: nat, initial: real)
    reads h
  {
    var admitted := Admitted(h.reversed, inputs, initial);
    IsHeap(h.reversed, h.items) && Retains(h.reversed, admitted, admitted.Keys, multiset(h.items), k)
  }

  /** r is a result yet to be visited: it is admitted exactly when it reaches the initial bound. */
  predicate Next(rev: bool, admitted: map<string, FilterResult>, initial: real, r: FilterResult) {
    if r.values in admitted then admitted[r.values] == r && Rank(rev, initial) <= Rank(rev, r.operationResult)
    else Rank(rev, r.operationResult) < Rank(rev, initial)
  }

  lemma Visit(rev: bool, inputs: map<string, FilterResult>, initial: real, todo: set<string>, key: string)
    requires Keyed(inputs) && key in todo && key in inputs
    ensures var admitted := Admitted(rev, inputs, initial);
      && Next(rev, admitted, initial, inputs[key])
      && key !in admitted.Keys - todo
      && admitted.Keys - (todo - {key}) == if key in admitted then admitted.Keys - todo + {key}
        else admitted.Keys - todo
    ensures inputs[key].values == key
  {
  }

  lemma NothingRetained(rev: bool, inputs: map<string, FilterResult>, k: nat)
    ensures Retains(rev, inputs, {}, multiset{}, k)
  {
  }
}
