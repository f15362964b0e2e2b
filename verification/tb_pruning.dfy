/** Deleting old history is invisible: what rules report is a function of everything ever received. */
module TimebasedPruning {
  import opened Common
  import opened TimebasedHeap
  import opened TimebasedSpec

  predicate Chronological(l: seq<TableEntry>, latest: int) {
    && (forall i, j :: 0 <= i < j < |l| ==> l[i].timeStamp <= l[j].timeStamp)
    && (forall i :: 0 <= i < |l| ==> l[i].timeStamp <= latest)
  }

  predicate AllAt(l: seq<TableEntry>, now: int) {
    forall i :: 0 <= i < |l| ==> l[i].timeStamp == now
  }

  // ----- lists

  lemma {:induction false} RecentConcat(a: seq<TableEntry>, b: seq<TableEntry>, oldest: int)
    ensures Recent(a + b, oldest) == Recent(a, oldest) + Recent(b, oldest)
  {
    if b == [] {
      assert a + b == a;
    } else {
      var n := |b| - 1;
      assert (a + b)[..|a|+n] == a + b[..n];
      RecentConcat(a, b[..n], oldest);
    }
  }

  lemma {:induction false} RecentTwice(l: seq<TableEntry>, older: int, oldest: int)
    requires older <= oldest
    ensures Recent(Recent(l, older), oldest) == Recent(l, oldest)
  {
    if l != [] {
      var n := |l| - 1;
      RecentTwice(l[..n], older, oldest);
      if l[n].timeStamp >= older {
        var r := Recent(l[..n], older);
        assert (r + [l[n]])[..|r|] == r;
      } else {
        assert Recent(l, older) == Recent(l[..n], older);
      }
    }
  }

  /** A window inside what was kept sees the same numbers. */
  lemma {:induction false} RecentNumbers(lib: FilterLib, key: string, l: seq<TableEntry>, older: int, oldest: int)
    requires older <= oldest
    ensures Numbers(lib, key, Recent(l, older), oldest) == Numbers(lib, key, l, oldest)
  {
    if l != [] {
      var n := |l| - 1;
      RecentNumbers(lib, key, l[..n], older, oldest);
      if l[n].timeStamp >= older {
        var r := Recent(l[..n], older);
        assert (r + [l[n]])[..|r|] == r;
      } else {
        assert Recent(l, older) == Recent(l[..n], older);
      }
    }
  }

  lemma {:induction false} RecentKeepsAll(l: seq<TableEntry>, oldest: int)
    requires forall i :: 0 <= i < |l| ==> l[i].timeStamp >= oldest
    ensures Recent(l, oldest) == l
  {
    if l != [] {
      RecentKeepsAll(l[..|l|-1], oldest);
    }
  }

  /** In a chronological list, deleting from the front deletes exactly the old entries. */
  lemma {:induction false} DropOldIsRecent(l: seq<TableEntry>, latest: int, oldest: int)
    requires Chronological(l, latest)
    ensures DropOld(l, oldest) == Recent(l, oldest)
  {
    if l != [] && l[0].timeStamp < oldest {
      DropOldIsRecent(l[1..], latest, oldest);
      RecentConcat([l[0]], l[1..], oldest);
      assert l == [l[0]] + l[1..] && Recent([l[0]], oldest) == [];
    } else {
      RecentKeepsAll(l, oldest);
    }
  }

  /** What is kept of a chronological list is chronological. */
  lemma {:induction false} RecentOfChronological(l: seq<TableEntry>, latest: int, oldest: int)
    requires Chronological(l, latest)
    ensures Chronological(Recent(l, oldest), latest)
  {
    if l != [] {
      var n := |l| - 1;
      RecentOfChronological(l[..n], l[n].timeStamp, oldest);
      AppendNow(Recent(l[..n], oldest), if l[n].timeStamp < oldest then [] else [l[n]], l[n].timeStamp, latest);
    }
  }

  /** It ends with the same entry, unless it is empty. */
  lemma RecentBack(l: seq<TableEntry>, latest: int, oldest: int)
    requires Chronological(l, latest)
    ensures Recent(l, oldest) != [] ==> l != [] && Recent(l, oldest)[|Recent(l, oldest)| - 1] == l[|l| - 1]
  {
    if l != [] && l[|l|-1].timeStamp < oldest {
      NothingRecent(l, oldest);
    }
  }

  lemma {:induction false} NothingRecent(l: seq<TableEntry>, oldest: int)
    requires forall i :: 0 <= i < |l| ==> l[i].timeStamp < oldest
    ensures Recent(l, oldest) == []
  {
    if l != [] {
      NothingRecent(l[..|l|-1], oldest);
    }
  }

  // ----- one evaluation

  /** Inside the window nothing is lost. */
  lemma KeptNumbers(lib: FilterLib, key: string, h: seq<TableEntry>, m: seq<TableEntry>, older: int, oldest: int)
    requires older <= oldest
    ensures Numbers(lib, key, Recent(h, older) + m, oldest) == Numbers(lib, key, h + m, oldest)
  {
    RecentConcat(h, m, oldest);
    RecentConcat(Recent(h, older), m, oldest);
    RecentTwice(h, older, oldest);
    RecentNumbers(lib, key, Recent(h, older) + m, oldest, oldest);
    RecentNumbers(lib, key, h + m, oldest, oldest);
  }

  lemma KeptBack(h: seq<TableEntry>, m: seq<TableEntry>, older: int, now: int)
    requires Chronological(h, now)
    ensures var kept := Recent(h, older) + m;
      kept != [] ==> h + m != [] && kept[|kept|-1] == (h + m)[|h + m| - 1]
  {
    RecentBack(h, now, older);
  }

  /** Evaluating on the kept part of h followed by the new entries agrees with evaluating on all of h, except that a
      list emptied by deletion leaves a previous result of a "last" rule in place. */
  lemma KeptOutcome(lib: FilterLib, rule: Rule, h: seq<TableEntry>, m: seq<TableEntry>, older: int, now: int)
    requires Chronological(h, now) && older <= now - rule.timeInterval
    ensures var kept := Recent(h, older) + m;
      Outcome(lib, rule, kept, now) == Outcome(lib, rule, h + m, now) || (rule.operation == Last && kept == [])
  {
    KeptNumbers(lib, rule.operationKey, h, m, older, now - rule.timeInterval);
    KeptBack(h, m, older, now);
    SameOutcome(lib, rule, Recent(h, older) + m, h + m, now);
  }

  /** An outcome depends only on the numbers in the window and on the last entry. */
  lemma SameOutcome(lib: FilterLib, rule: Rule, kept: seq<TableEntry>, all: seq<TableEntry>, now: int)
    requires Numbers(lib, rule.operationKey, kept, now - rule.timeInterval)
      == Numbers(lib, rule.operationKey, all, now - rule.timeInterval)
    requires kept != [] ==> all != [] && kept[|kept|-1] == all[|all|-1]
    ensures Outcome(lib, rule, kept, now) == Outcome(lib, rule, all, now) || (rule.operation == Last && kept == [])
  {
  }

  // ----- contents of the tables

  lemma {:induction false} EntriesAppend(
    lib: FilterLib, tableKey: string, data: DataTable, entries: seq<GenericMap>, now: int, k: string)
    ensures ListAt(WithEntries(lib, tableKey, data, entries, now), k)
      == ListAt(data, k) + Matching(lib, tableKey, entries, now, k)
    ensures k in WithEntries(lib, tableKey, data, entries, now) <==>
      k in data || Matching(lib, tableKey, entries, now, k) != []
  {
    if entries != [] {
      EntriesAppend(lib, tableKey, data, entries[..|entries|-1], now, k);
    }
  }

  lemma {:induction false} MatchingTimes(
    lib: FilterLib, tableKey: string, entries: seq<GenericMap>, now: int, k: string)
    ensures AllAt(Matching(lib, tableKey, entries, now, k), now)
  {
    if entries != [] {
      MatchingTimes(lib, tableKey, entries[..|entries|-1], now, k);
    }
  }

  lemma ClockAdvances(history: seq<Batch>)
    requires NonDecreasing(history) && history != [] && Earlier(history) != []
    ensures Final(Earlier(history)).now <= Final(history).now
  {
  }

  lemma {:induction false} ReceivedChronological(
    lib: FilterLib, tableKey: string, history: seq<Batch>, k: string, latest: int)
    requires NonDecreasing(history) && (history != [] ==> Final(history).now <= latest)
    ensures Chronological(Received(lib, tableKey, history, k), latest)
  {
    if history != [] {
      var now := Final(history).now;
      ReceivedChronological(lib, tableKey, Earlier(history), k, now);
      MatchingTimes(lib, tableKey, Final(history).entries, now, k);
      AppendNow(Received(lib, tableKey, Earlier(history), k), Matching(lib, tableKey, Final(history).entries, now, k),
        now, latest);
    }
  }

  lemma AppendNow(a: seq<TableEntry>, b: seq<TableEntry>, now: int, latest: int)
    requires Chronological(a, now) && now <= latest && AllAt(b, now)
    ensures Chronological(a + b, latest)
  {
    var l := a + b;
    forall i | 0 <= i < |l| ensures l[i].timeStamp <= now && (i >= |a| ==> l[i].timeStamp == now) {
      if i >= |a| {
        assert l[i] == b[i - |a|];
      }
    }
  }

  /** What a run leaves in a table under one index value: everything received, or what of it is recent enough for
      the largest window. */
  function Kept(
    lib: FilterLib, tableKey: string, interval: int, prune: bool, history: seq<Batch>, k: string): seq<TableEntry> {
    var received := Received(lib, tableKey, history, k);
    if prune && history != [] then Recent(received, Final(history).now - interval) else received
  }

  lemma {:induction false} TableExact(
    lib: FilterLib, tableKey: string, interval: int, prune: bool, history: seq<Batch>, k: string)
    requires NonDecreasing(history)
    ensures ListAt(TableAfter(lib, tableKey, interval, prune, history), k)
      == Kept(lib, tableKey, interval, prune, history, k)
    ensures k in TableAfter(lib, tableKey, interval, prune, history) <==> Received(lib, tableKey, history, k) != []
    decreases |history|, 1
  {
    if history != [] {
      FilledExact(lib, tableKey, interval, prune, history, k);
      if prune {
        DropsToRecent(lib, tableKey, interval, Earlier(history), Final(history), k);
      }
    }
  }

  lemma TableHoldsRecent(lib: FilterLib, tableKey: string, interval: int, history: seq<Batch>, k: string)
    requires NonDecreasing(history) && history != []
    ensures ListAt(TableAfter(lib, tableKey, interval, true, history), k)
         == Recent(Received(lib, tableKey, history, k), Final(history).now - interval)
  {
    TableExact(lib, tableKey, interval, true, history, k);
  }

  /** The list a rule evaluates. */
  lemma {:induction false} FilledExact(
    lib: FilterLib, tableKey: string, interval: int, prune: bool, history: seq<Batch>, k: string)
    requires NonDecreasing(history) && history != []
    ensures ListAt(Filled(lib, tableKey, interval, prune, history), k) ==
            Kept(lib, tableKey, interval, prune, Earlier(history), k)
              + Matching(lib, tableKey, Final(history).entries, Final(history).now, k)
    ensures k in Filled(lib, tableKey, interval, prune, history) <==> Received(lib, tableKey, history, k) != []
    decreases |history|, 0
  {
    TableExact(lib, tableKey, interval, prune, Earlier(history), k);
    EntriesAppend(lib, tableKey, TableAfter(lib, tableKey, interval, prune, Earlier(history)), Final(history).entries,
      Final(history).now, k);
  }

  /** What the earlier batches left is chronological and holds all that is recent now. */
  lemma KeptRecent(lib: FilterLib, tableKey: string, interval: int, history: seq<Batch>, k: string, now: int)
    requires NonDecreasing(history) && (history != [] ==> Final(history).now <= now)
    ensures HoldsRecent(Kept(lib, tableKey, interval, true, history, k), Received(lib, tableKey, history, k),
      now - interval, now)
  {
    var h := Received(lib, tableKey, history, k);
    if history != [] {
      ReceivedChronological(lib, tableKey, history, k, now);
      RecentOfChronological(h, now, Final(history).now - interval);
      RecentTwice(h, Final(history).now - interval, now - interval);
    }
  }

  /** Deleting from the front of a filled list leaves exactly the recent part of everything received. */
  lemma DropsToRecent(lib: FilterLib, tableKey: string, interval: int, earlier: seq<Batch>, b: Batch, k: string)
    requires NonDecreasing(earlier) && (earlier != [] ==> Final(earlier).now <= b.now)
    ensures DropsTo(Kept(lib, tableKey, interval, true, earlier, k), Received(lib, tableKey, earlier, k),
                    Matching(lib, tableKey, b.entries, b.now, k), b.now - interval)
  {
    KeptRecent(lib, tableKey, interval, earlier, k, b.now);
    MatchingTimes(lib, tableKey, b.entries, b.now, k);
    DropsKept(Received(lib, tableKey, earlier, k), Matching(lib, tableKey, b.entries, b.now, k),
              Kept(lib, tableKey, interval, true, earlier, k), b.now - interval, b.now);
  }

  predicate HoldsRecent(kept: seq<TableEntry>, h: seq<TableEntry>, oldest: int, now: int) {
    Chronological(kept, now) && Recent(kept, oldest) == Recent(h, oldest)
  }

  predicate DropsTo(kept: seq<TableEntry>, h: seq<TableEntry>, m: seq<TableEntry>, oldest: int) {
    DropOld(kept + m, oldest) == Recent(h + m, oldest)
  }

  lemma DropsKept(h: seq<TableEntry>, m: seq<TableEntry>, kept: seq<TableEntry>, oldest: int, now: int)
    requires HoldsRecent(kept, h, oldest, now) && AllAt(m, now)
    ensures DropsTo(kept, h, m, oldest)
  {
    AppendNow(kept, m, now, now);
    DropOldIsRecent(kept + m, now, oldest);
    RecentConcat(kept, m, oldest);
    RecentConcat(h, m, oldest);
  }

  // ----- pruning is invisible

  /** The evaluation of the last batch, with and without deletion. */
  lemma FilledOutcome(lib: FilterLib, rule: Rule, interval: int, history: seq<Batch>, k: string)
    requires NonDecreasing(history) && history != [] && rule.timeInterval <= interval
    ensures var kept := ListAt(Filled(lib, rule.indexKey, interval, true, history), k);
      var all := Received(lib, rule.indexKey, history, k);
      || Outcome(lib, rule, kept, Final(history).now) == Outcome(lib, rule, all, Final(history).now)
      || (rule.operation == Last && kept == [] && all == Received(lib, rule.indexKey, Earlier(history), k))
  {
    var b, earlier := Final(history), Earlier(history);
    FilledExact(lib, rule.indexKey, interval, true, history, k);
    var h, m := Received(lib, rule.indexKey, earlier, k), Matching(lib, rule.indexKey, b.entries, b.now, k);
    if earlier != [] {
      ClockAdvances(history);
      ReceivedChronological(lib, rule.indexKey, earlier, k, b.now);
      KeptOutcome(lib, rule, h, m, Final(earlier).now - interval, b.now);
    }
  }

  /** The result of a "last" rule is current after every batch. */
  lemma LastIsCurrent(lib: FilterLib, rule: Rule, interval: int, history: seq<Batch>, k: string)
    requires NonDecreasing(history) && rule.operation == Last
    ensures var all := Received(lib, rule.indexKey, history, k);
      all != [] && lib.toFloat(Lookup(all[|all|-1].entry, rule.operationKey)).Some? ==>
      k in ResultsAfter(lib, rule, interval, false, history) &&
      ResultsAfter(lib, rule, interval, false, history)[k]
      == FilterResult(k, lib.toFloat(Lookup(all[|all|-1].entry, rule.operationKey)).value)
  {
    if history != [] {
      FilledExact(lib, rule.indexKey, interval, false, history, k);
    }
  }

  /** In every run at non-decreasing times the results of a rule are those of a run that never deletes history, even
      though its table is shared with other rules and deletes by the largest of their windows. */
  lemma {:induction false} PruningInvisible(lib: FilterLib, rule: Rule, interval: int, history: seq<Batch>)
    requires NonDecreasing(history) && rule.timeInterval <= interval
    ensures ResultsAfter(lib, rule, interval, true, history) == ResultsAfter(lib, rule, interval, false, history)
  {
    if history != [] {
      PruningInvisible(lib, rule, interval, Earlier(history));
      forall k ensures k in ResultsAfter(lib, rule, interval, true, history) <==>
        k in ResultsAfter(lib, rule, interval, false, history) {
        PruningInvisibleAt(lib, rule, interval, history, k);
      }
      forall k | k in ResultsAfter(lib, rule, interval, true, history)
        ensures ResultsAfter(lib, rule, interval, true, history)[k]
          == ResultsAfter(lib, rule, interval, false, history)[k]
      {
        PruningInvisibleAt(lib, rule, interval, history, k);
      }
    }
  }

  function ResultAt(results: Results, k: string): Option<FilterResult> {
    if k in results then Some(results[k]) else None
  }

  /** Lists with the same outcome give the same result; so does a list without outcome when the result is current. */
  lemma SameResult(lib: FilterLib, rule: Rule, d1: DataTable, d2: DataTable, results: Results, now: int, k: string)
    requires k in d1 <==> k in d2
    requires var o1, o2 := Outcome(lib, rule, ListAt(d1, k), now), Outcome(lib, rule, ListAt(d2, k), now);
      o1 == o2 || (o1 == None && (o2.Some? ==> ResultAt(results, k) == Some(FilterResult(k, o2.value))))
    ensures ResultAt(Recalculated(lib, rule, d1, d1.Keys, results, now), k)
      == ResultAt(Recalculated(lib, rule, d2, d2.Keys, results, now), k)
  {
  }

  lemma PruningInvisibleAt(lib: FilterLib, rule: Rule, interval: int, history: seq<Batch>, k: string)
    requires NonDecreasing(history) && rule.timeInterval <= interval && history != []
    requires ResultsAfter(lib, rule, interval, true, Earlier(history))
      == ResultsAfter(lib, rule, interval, false, Earlier(history))
    ensures ResultAt(ResultsAfter(lib, rule, interval, true, history), k)
      == ResultAt(ResultsAfter(lib, rule, interval, false, history), k)
  {
    FilledExact(lib, rule.indexKey, interval, true, history, k);
    FilledExact(lib, rule.indexKey, interval, false, history, k);
    OutcomeOrCurrent(lib, rule, interval, history, k);
    SameResult(lib, rule, Filled(lib, rule.indexKey, interval, true, history),
      Filled(lib, rule.indexKey, interval, false, history),
               ResultsAfter(lib, rule, interval, false, Earlier(history)), Final(history).now, k);
  }

  lemma OutcomeOrCurrent(lib: FilterLib, rule: Rule, interval: int, history: seq<Batch>, k: string)
    requires NonDecreasing(history) && rule.timeInterval <= interval && history != []
    ensures var o1 := Outcome(lib, rule, ListAt(Filled(lib, rule.indexKey, interval, true, history), k),
      Final(history).now);
      var o2 := Outcome(lib, rule, Received(lib, rule.indexKey, history, k), Final(history).now);
      || o1 == o2
      || (o1 == None && (o2.Some? ==>
        ResultAt(ResultsAfter(lib, rule, interval, false, Earlier(history)), k) == Some(FilterResult(k, o2.value))))
  {
    FilledOutcome(lib, rule, interval, history, k);
    if rule.operation == Last {
      LastIsCurrent(lib, rule, interval, Earlier(history), k);
    }
  }

  /** What a rule reports, in terms of everything received: every index value ever seen has a result, which is the
      operation over the entries of the window; for "last" it is the newest entry's number. */
  lemma ResultsExact(lib: FilterLib, rule: Rule, interval: int, history: seq<Batch>, k: string)
    requires NonDecreasing(history) && rule.timeInterval <= interval && history != []
    ensures var all := Received(lib, rule.indexKey, history, k);
      var r := ResultsAfter(lib, rule, interval, true, history);
      && (k in r ==> all != [])
      && (all != [] && Outcome(lib, rule, all, Final(history).now).Some? ==>
            k in r && r[k] == FilterResult(k, Outcome(lib, rule, all, Final(history).now).value))
  {
    PruningInvisible(lib, rule, interval, history);
    FilledExact(lib, rule.indexKey, interval, false, history, k);
    if k in ResultsAfter(lib, rule, interval, false, history) {
      OnlySeen(lib, rule, interval, history, k);
    }
  }

  lemma {:induction false} OnlySeen(lib: FilterLib, rule: Rule, interval: int, history: seq<Batch>, k: string)
    requires NonDecreasing(history) && k in ResultsAfter(lib, rule, interval, false, history)
    ensures Received(lib, rule.indexKey, history, k) != []
  {
    if history != [] {
      FilledExact(lib, rule.indexKey, interval, false, history, k);
      if k in ResultsAfter(lib, rule, interval, false, Earlier(history)) {
        OnlySeen(lib, rule, interval, Earlier(history), k);
      }
    }
  }
}
