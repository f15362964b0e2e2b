/** Which resources a store holds: identity by kind, namespace and name, over whole runs (kubernetesstore.go). */
module KubernetesIdentity {
  import opened Common
  import opened KubernetesStores

  /** The same resource, whatever else is said of it. */
  predicate Same(m: Meta, n: Meta) { m.kind == n.kind && m.namespace == n.namespace && m.name == n.name }

  /** Kinds and namespaces hold no slash. */
  predicate Plain(m: Meta) { '/' !in m.kind && '/' !in m.namespace }

  predicate AllPlain(entries: seq<Option<Meta>>) {
    forall i :: 0 <= i < |entries| && entries[i].Some? ==> Plain(entries[i].value)
  }

  /** Two resources occupy one place in the store if and only if kind, namespace and name agree. */
  lemma OnePlace(m: Meta, n: Meta)
    requires Plain(m) && Plain(n)
    ensures StoreKey(m) == StoreKey(n) <==> Same(m, n)
  {
    SeparatedOnce(m.kind, m.namespace + "/" + m.name, n.kind, n.namespace + "/" + n.name);
    SeparatedOnce(m.namespace, m.name, n.namespace, n.name);
    assert StoreKey(m) == m.kind + "/" + (m.namespace + "/" + m.name);
    assert StoreKey(n) == n.kind + "/" + (n.namespace + "/" + n.name);
  }

  // ----- entries of one call

  predicate Mentions(entries: seq<Option<Meta>>, m: Meta) {
    exists i :: 0 <= i < |entries| && entries[i].Some? && Same(entries[i].value, m)
  }

  /** The resource is listed as m, and not listed again later. */
  predicate IsLastListed(entries: seq<Option<Meta>>, m: Meta) {
    exists i :: 0 <= i < |entries| && entries[i] == Some(m) && NotLater(entries, i, m)
  }

  predicate NotLater(entries: seq<Option<Meta>>, i: nat, m: Meta) {
    forall j :: i < j < |entries| && entries[j].Some? ==> !Same(entries[j].value, m)
  }

  lemma {:induction false} LastUnderIsLast(entries: seq<Option<Meta>>, m: Meta)
    requires AllPlain(entries) && Plain(m)
    ensures LastUnder(entries, StoreKey(m)) == Some(m) <==> IsLastListed(entries, m)
    ensures LastUnder(entries, StoreKey(m)).Some? <==> Mentions(entries, m)
  {
    if entries != [] {
      var n := |entries| - 1;
      LastUnderIsLast(entries[..n], m);
      if entries[n].Some? {
        OnePlace(entries[n].value, m);
      }
      if entries[n].Some? && Same(entries[n].value, m) {
        if entries[n] == Some(m) {
          assert NotLater(entries, n, m);
        }
        if IsLastListed(entries, m) {
          var i :| 0 <= i < |entries| && entries[i] == Some(m) && NotLater(entries, i, m);
          assert i == n;
        }
      } else {
        ListedEarlier(entries, m);
      }
    }
  }

  lemma ListedEarlier(entries: seq<Option<Meta>>, m: Meta)
    requires entries != []
    requires var last := entries[|entries|-1]; last.None? || !Same(last.value, m)
    ensures IsLastListed(entries, m) <==> IsLastListed(entries[..|entries|-1], m)
    ensures Mentions(entries, m) <==> Mentions(entries[..|entries|-1], m)
  {
    var before := entries[..|entries|-1];
    if IsLastListed(entries, m) {
      var i :| 0 <= i < |entries| && entries[i] == Some(m) && NotLater(entries, i, m);
      assert before[i] == Some(m) && NotLater(before, i, m);
    }
    if IsLastListed(before, m) {
      var i :| 0 <= i < |before| && before[i] == Some(m) && NotLater(before, i, m);
      assert entries[i] == Some(m) && NotLater(entries, i, m);
    }
    if Mentions(entries, m) {
      var i :| 0 <= i < |entries| && entries[i].Some? && Same(entries[i].value, m);
      assert before[i].Some? && Same(before[i].value, m);
    }
    if Mentions(before, m) {
      var i :| 0 <= i < |before| && before[i].Some? && Same(before[i].value, m);
      assert entries[i].Some? && Same(entries[i].value, m);
    }
  }

  /** What a call leaves under a key. */
  lemma {:induction false} UnderAfter(st: State, op: Operation, entries: seq<Option<Meta>>, key: string)
    ensures At(DoAll(st, op, entries).byKey, key) ==
      if LastUnder(entries, key).None? then At(st.byKey, key)
      else if op == DropOp then None
      else LastUnder(entries, key)
  {
    if entries != [] {
      UnderAfter(st, op, entries[..|entries|-1], key);
    }
  }

  // ----- runs

  /** The call says something new of the resource: it lists it, or replaces all. */
  predicate Renews(call: Call, m: Meta) { call.Replace? || Mentions(call.entries, m) }

  /** The latest call about the resource is a replacement or an update, and lists it last as m. */
  ghost predicate Stands(calls: seq<Call>, m: Meta) {
    exists i :: 0 <= i < |calls| && !calls[i].Delete? && IsLastListed(calls[i].entries, m) && NotRenewed(calls, i, m)
  }

  predicate NotRenewed(calls: seq<Call>, i: nat, m: Meta) { forall j :: i < j < |calls| ==> !Renews(calls[j], m) }

  predicate PlainCalls(calls: seq<Call>) { forall i :: 0 <= i < |calls| ==> AllPlain(calls[i].entries) }

  /** In every run the resources held are those whose latest replacement or update was not followed by a deletion, nor
      by a replacement that lacks them; each as it was listed last. */
  lemma {:induction false} CurrentStands(calls: seq<Call>, m: Meta)
    requires PlainCalls(calls) && Plain(m)
    ensures Current(Run(calls), m) <==> Stands(calls, m)
  {
    if calls != [] {
      var n := |calls| - 1;
      var call := calls[n];
      assert PlainCalls(calls[..n]);
      CurrentStands(calls[..n], m);
      LastUnderIsLast(call.entries, m);
      AppliedUnder(Run(calls[..n]), call, m);
      StandsStep(calls, m);
    }
  }

  lemma AppliedUnder(st: State, call: Call, m: Meta)
    requires AllPlain(call.entries) && Plain(m)
    ensures Current(Apply(st, call), m) <==>
      (if Mentions(call.entries, m) then !call.Delete? && IsLastListed(call.entries, m)
       else !call.Replace? && Current(st, m))
  {
    LastUnderIsLast(call.entries, m);
    match call
    case Replace(entries) => UnderAfter(EMPTY, AddOp, entries, StoreKey(m));
    case AddOrUpdate(entries) => UnderAfter(st, PutOp, entries, StoreKey(m));
    case Delete(entries) => UnderAfter(st, DropOp, entries, StoreKey(m));
  }

  lemma StandsStep(calls: seq<Call>, m: Meta)
    requires calls != []
    ensures var (before, last) := (calls[..|calls|-1], calls[|calls|-1]);
      Stands(calls, m) <==>
        (if Mentions(last.entries, m) then !last.Delete? && IsLastListed(last.entries, m)
         else !last.Replace? && Stands(before, m))
  {
    var n := |calls| - 1;
    var before, last := calls[..n], calls[n];
    if IsLastListed(last.entries, m) {
      var k :| 0 <= k < |last.entries| && last.entries[k] == Some(m) && NotLater(last.entries, k, m);
      assert Same(last.entries[k].value, m) && Mentions(last.entries, m);
      assert NotRenewed(calls, n, m);
    }
    if Stands(calls, m) {
      var i :| 0 <= i < |calls| && !calls[i].Delete? && IsLastListed(calls[i].entries, m) && NotRenewed(calls, i, m);
      if i < n {
        assert !Renews(calls[n], m);
        assert before[i] == calls[i] && NotRenewed(before, i, m);
      }
    }
    if !Renews(last, m) && Stands(before, m) {
      var i :| 0 <= i < n && !before[i].Delete? && IsLastListed(before[i].entries, m) && NotRenewed(before, i, m);
      assert calls[i] == before[i] && NotRenewed(calls, i, m);
    }
  }

  ghost function Standing(calls: seq<Call>): iset<Meta> { iset m | Stands(calls, m) && Plain(m) }

  /** In every run whose changes keep IPs and secondary keys disjoint, a lookup is the linear search through the
      resources that stand. */
  lemma LookupFindsStanding(calls: seq<Call>, keys: seq<string>, ip: string)
    requires AlwaysDisjoint(calls, ByIP) && AlwaysDisjoint(calls, BySecondary)
    requires PlainCalls(calls)
    ensures Finds(Standing(calls), keys, ip, LookedUp(Run(calls), keys, ip))
  {
    AlwaysFound(calls, keys, ip);
    var live := Standing(calls);
    forall m ensures m in live <==> m in Resources(Run(calls)) {
      if Current(Run(calls), m) {
        HeldIsPlain(calls, m);
      }
      if Plain(m) {
        CurrentStands(calls, m);
      }
    }
    assert live == Resources(Run(calls));
  }

  lemma {:induction false} HeldIsPlain(calls: seq<Call>, m: Meta)
    requires PlainCalls(calls) && Current(Run(calls), m)
    ensures Plain(m)
  {
    var n := |calls| - 1;
    var call, before := calls[n], Run(calls[..n]);
    var key := StoreKey(m);
    assert At(Run(calls).byKey, key) == Some(m);
    match call {
      case Replace(entries) => UnderAfter(EMPTY, AddOp, entries, key);
      case AddOrUpdate(entries) => UnderAfter(before, PutOp, entries, key);
      case Delete(entries) => UnderAfter(before, DropOp, entries, key);
    }
    if LastUnder(call.entries, key).Some? {
      UnderIsListed(call.entries, key);
      var i := IndexOf(call.entries, Some(m));
      assert AllPlain(call.entries) && call.entries[i] == Some(m);
    } else {
      assert PlainCalls(calls[..n]) && Current(before, m);
      HeldIsPlain(calls[..n], m);
    }
  }

  lemma {:induction false} UnderIsListed(entries: seq<Option<Meta>>, key: string)
    requires LastUnder(entries, key).Some?
    ensures LastUnder(entries, key) in entries
  {
    if LastUnder(entries, key) != entries[|entries|-1] {
      UnderIsListed(entries[..|entries|-1], key);
    }
  }

  /** Resources that differ in kind, namespace or name have different places. */
  lemma TriplesDiffer(entries: seq<Option<Meta>>)
    requires AllPlain(entries)
    ensures DistinctKeys(entries) <==>
      forall i, j :: 0 <= i < j < |entries| && entries[i].Some? && entries[j].Some? ==>
        !Same(entries[i].value, entries[j].value)
  {
    forall i, j | 0 <= i < j < |entries| && entries[i].Some? && entries[j].Some?
      ensures StoreKey(entries[i].value) == StoreKey(entries[j].value) <==> Same(entries[i].value, entries[j].value)
    {
      OnePlace(entries[i].value, entries[j].value);
    }
  }
}
