/** Scanning with a filter that keeps state from one response to the next, and when that equals a scan with a fixed
    filter. */
module StatefulScan {
  import opened Wrappers
  import opened Lists
  import opened Pagination

  /** A filter with state: the state after looking at a response, and the verdict. */
  type Filter<!C, !R, D, E> = (C, R) -> (C, Verdict<D, E>)

  /** Takes responses in order until the limit is reached or an error occurs. */
  function CollectFrom<C, R, D, E>(filter: Filter<C, R, D, E>, limit: nat, c: C, dels: seq<D>, items: seq<R>)
    : (C, Progress<D, E>)
    decreases |items|
  {
    if items == [] then (c, More(dels))
    else
      var (next, verdict) := filter(c, items[0]);
      match verdict
      case Drop => CollectFrom(filter, limit, next, dels, items[1..])
      case Abort(e) => (next, Failed(e))
      case Keep(d) =>
        if |dels| + 1 == limit then (next, Full(dels + [d]))
        else CollectFrom(filter, limit, next, dels + [d], items[1..])
  }

  /** The scan of a whole store. */
  function ScanFrom<C, R, D, E>(filter: Filter<C, R, D, E>, limit: nat, c: C, store: seq<R>): (C, Result<seq<D>, E>) {
    if limit == 0 then (c, Success([]))
    else
      var (after, progress) := CollectFrom(filter, limit, c, [], Stream(store, limit));
      (after, Close(progress))
  }

  lemma {:induction false} CollectFromAppend<C, R, D, E>(
    filter: Filter<C, R, D, E>, limit: nat, c: C, dels: seq<D>, a: seq<R>, b: seq<R>)
    ensures CollectFrom(filter, limit, c, dels, a + b) ==
            var (next, progress) := CollectFrom(filter, limit, c, dels, a);
            if progress.More? then CollectFrom(filter, limit, next, progress.dels, b) else (next, progress)
    decreases |a|
  {
    if a == [] {
      assert a + b == b;
    } else {
      assert (a + b)[1..] == a[1..] + b;
      var (next, verdict) := filter(c, a[0]);
      match verdict
      case Drop => CollectFromAppend(filter, limit, next, dels, a[1..], b);
      case Abort(_) =>
      case Keep(d) => CollectFromAppend(filter, limit, next, dels + [d], a[1..], b);
    }
  }

  lemma {:induction false} CollectFromBelowLimit<C, R, D, E>(
    filter: Filter<C, R, D, E>, limit: nat, c: C, dels: seq<D>, items: seq<R>)
    requires |dels| < limit && CollectFrom(filter, limit, c, dels, items).1.More?
    ensures |dels| <= |CollectFrom(filter, limit, c, dels, items).1.dels| < limit
    decreases |items|
  {
    if items != [] {
      var (next, verdict) := filter(c, items[0]);
      match verdict
      case Drop => CollectFromBelowLimit(filter, limit, next, dels, items[1..]);
      case Keep(d) => CollectFromBelowLimit(filter, limit, next, dels + [d], items[1..]);
    }
  }

  // ---------- the state keeps an invariant ----------

  ghost predicate Keeps<C(!new), R(!new), D, E>(filter: Filter<C, R, D, E>, inv: C -> bool) {
    forall c: C, r: R :: inv(c) ==> inv(filter(c, r).0)
  }

  lemma {:induction false} CollectFromKeeps<C(!new), R(!new), D, E>(
    filter: Filter<C, R, D, E>, inv: C -> bool, limit: nat, c: C, dels: seq<D>, items: seq<R>)
    requires Keeps(filter, inv) && inv(c)
    ensures inv(CollectFrom(filter, limit, c, dels, items).0)
    decreases |items|
  {
    if items != [] {
      var (next, verdict) := filter(c, items[0]);
      match verdict
      case Drop => CollectFromKeeps(filter, inv, limit, next, dels, items[1..]);
      case Abort(_) =>
      case Keep(d) => CollectFromKeeps(filter, inv, limit, next, dels + [d], items[1..]);
    }
  }

  // ---------- against a fixed filter ----------

  /** `judge(c)` is the fixed filter that goes with state `c`: it agrees with the verdict just given, and a verdict
      that is not an error stays as the state goes on. */
  ghost predicate Settles<C(!new), R(!new), D, E>(
    filter: Filter<C, R, D, E>, judge: C -> R -> Verdict<D, E>)
  {
    && (forall c: C, r: R :: judge(filter(c, r).0)(r) == filter(c, r).1)
    && (forall c: C, r: R, s: R :: !judge(c)(s).Abort? ==> judge(filter(c, r).0)(s) == judge(c)(s))
  }

  lemma {:induction false} VerdictStaysSettled<C(!new), R(!new), D, E>(
    filter: Filter<C, R, D, E>, judge: C -> R -> Verdict<D, E>, limit: nat, c: C, dels: seq<D>, items: seq<R>, s: R)
    requires Settles(filter, judge) && !judge(c)(s).Abort?
    ensures judge(CollectFrom(filter, limit, c, dels, items).0)(s) == judge(c)(s)
    decreases |items|
  {
    if items != [] {
      var (next, verdict) := filter(c, items[0]);
      assert judge(filter(c, items[0]).0)(s) == judge(c)(s);
      match verdict
      case Drop => VerdictStaysSettled(filter, judge, limit, next, dels, items[1..], s);
      case Abort(_) =>
      case Keep(d) => VerdictStaysSettled(filter, judge, limit, next, dels + [d], items[1..], s);
    }
  }

  /** A scan with state is the scan with the fixed filter of the state it ends in. */
  lemma {:induction false} CollectFromIsCollect<C(!new), R(!new), D, E>(
    filter: Filter<C, R, D, E>, judge: C -> R -> Verdict<D, E>, limit: nat, c: C, dels: seq<D>, items: seq<R>)
    requires Settles(filter, judge)
    ensures var (after, progress) := CollectFrom(filter, limit, c, dels, items);
            Collect(judge(after), limit, dels, items) == progress
    decreases |items|
  {
    if items != [] {
      var (next, verdict) := filter(c, items[0]);
      assert judge(filter(c, items[0]).0)(items[0]) == verdict;
      match verdict
      case Drop =>
        VerdictStaysSettled(filter, judge, limit, next, dels, items[1..], items[0]);
        CollectFromIsCollect(filter, judge, limit, next, dels, items[1..]);
      case Abort(_) =>
      case Keep(d) =>
        VerdictStaysSettled(filter, judge, limit, next, dels + [d], items[1..], items[0]);
        CollectFromIsCollect(filter, judge, limit, next, dels + [d], items[1..]);
    }
  }

  lemma ScanFromIsAnswer<C(!new), R(!new), D, E>(
    filter: Filter<C, R, D, E>, judge: C -> R -> Verdict<D, E>, limit: nat, c: C, store: seq<R>)
    requires Settles(filter, judge)
    ensures var (after, r) := ScanFrom(filter, limit, c, store); Answer(store, judge(after), limit) == r
  {
    if limit > 0 {
      CollectFromIsCollect(filter, judge, limit, c, [], Stream(store, limit));
    }
  }

  // ---------- page by page ----------

  lemma {:induction false} RepeatPrefix<T>(s: seq<T>, n: nat, m: nat)
    requires n < m
    ensures exists rest :: Repeat(s, m) == Repeat(s, n) + s + rest
    decreases m
  {
    if n + 1 == m {
      assert Repeat(s, m) == Repeat(s, n) + s + [];
    } else {
      RepeatPrefix(s, n, m - 1);
      var rest :| Repeat(s, m - 1) == Repeat(s, n) + s + rest;
      assert Repeat(s, m) == Repeat(s, n) + s + (rest + s);
    }
  }

  /** Where the page loop is: `passes` whole passes led to `base` and `found`, and the current pass so far to `now` and
      `dels`. */
  ghost predicate OnPage<C, R, D, E>(
    filter: Filter<C, R, D, E>, limit: nat, c: C, store: seq<R>, passes: nat, base: C, found: seq<D>, start: nat,
    now: C, dels: seq<D>)
  {
    && limit > 0 && start <= |store|
    && WholePages(start, PageLimit(limit))
    && passes <= |found| < limit && |dels| < limit
    && (passes > 0 ==> Wraps(|store|, limit))
    && CollectFrom(filter, limit, c, [], Repeat(store, passes)) == (base, More(found))
    && CollectFrom(filter, limit, base, found, store[..start]) == (now, More(dels))
  }

  /** The stream begins with the passes so far and any front part of the store. */
  lemma StreamBegins<R>(store: seq<R>, limit: nat, passes: nat, n: nat) returns (rest: seq<R>)
    requires n <= |store| && (if Wraps(|store|, limit) then passes < limit else passes == 0)
    ensures Stream(store, limit) == Repeat(store, passes) + store[..n] + rest
    ensures n == |store| && !Wraps(|store|, limit) ==> rest == []
  {
    assert store[..n] + store[n..] == store;
    if Wraps(|store|, limit) {
      RepeatPrefix(store, passes, limit);
      var more :| Repeat(store, limit) == Repeat(store, passes) + store + more;
      rest := store[n..] + more;
      assert Repeat(store, passes) + (store[..n] + store[n..]) + more == Repeat(store, passes) + store[..n] + rest;
    } else {
      rest := store[n..];
      assert Repeat(store, 0) == [];
    }
  }

  lemma CollectFromFront<C, R, D, E>(
    filter: Filter<C, R, D, E>, limit: nat, c: C, store: seq<R>, passes: nat, base: C, found: seq<D>, start: nat,
    now: C, dels: seq<D>, n: nat)
    requires OnPage(filter, limit, c, store, passes, base, found, start, now, dels) && start <= n <= |store|
    ensures CollectFrom(filter, limit, c, [], Repeat(store, passes) + store[..n]) ==
            CollectFrom(filter, limit, now, dels, store[start..n])
  {
    CollectFromAppend(filter, limit, base, found, store[..start], store[start..n]);
    assert store[..start] + store[start..n] == store[..n];
    CollectFromAppend(filter, limit, c, [], Repeat(store, passes), store[..n]);
  }

  /** A page that decides the scan decides it as the stream does, and so does a last page. */
  lemma StreamAhead<C, R, D, E>(
    filter: Filter<C, R, D, E>, limit: nat, c: C, store: seq<R>, passes: nat, base: C, found: seq<D>, start: nat,
    now: C, dels: seq<D>, n: nat)
    requires OnPage(filter, limit, c, store, passes, base, found, start, now, dels) && start <= n <= |store|
    requires CollectFrom(filter, limit, now, dels, store[start..n]).1.More? ==> n == |store| && !Wraps(|store|, limit)
    ensures CollectFrom(filter, limit, c, [], Stream(store, limit)) ==
            CollectFrom(filter, limit, now, dels, store[start..n])
  {
    var rest := StreamBegins(store, limit, passes, n);
    CollectFromFront(filter, limit, c, store, passes, base, found, start, now, dels, n);
    CollectFromAppend(filter, limit, c, [], Repeat(store, passes) + store[..n], rest);
  }

  lemma OnNextPage<C, R, D, E>(
    filter: Filter<C, R, D, E>, limit: nat, c: C, store: seq<R>, passes: nat, base: C, found: seq<D>, start: nat,
    now: C, dels: seq<D>, after: C, more: seq<D>)
    requires OnPage(filter, limit, c, store, passes, base, found, start, now, dels)
    requires start + PageLimit(limit) <= |store|
    requires CollectFrom(filter, limit, now, dels, store[start..start + PageLimit(limit)]) == (after, More(more))
    ensures OnPage(filter, limit, c, store, passes, base, found, start + PageLimit(limit), after, more)
  {
    var n := start + PageLimit(limit);
    NextPage(start, PageLimit(limit));
    CollectFromAppend(filter, limit, base, found, store[..start], store[start..n]);
    assert store[..start] + store[start..n] == store[..n];
    CollectFromBelowLimit(filter, limit, now, dels, store[start..n]);
  }

  // ---------- when the scan comes to an end ----------

  /** The scan comes to an end: the store does not make it start over, or the first pass finds something or fails. */
  predicate Ends<C, R, D(==), E(==)>(filter: Filter<C, R, D, E>, limit: nat, c: C, store: seq<R>) {
    !Wraps(|store|, limit) || CollectFrom(filter, limit, c, [], store).1 != More([])
  }

  lemma {:induction false} RepeatFront<T>(s: seq<T>, n: nat)
    requires n > 0
    ensures Repeat(s, n) == s + Repeat(s, n - 1)
  {
    if n > 1 {
      RepeatFront(s, n - 1);
      assert Repeat(s, n) == s + Repeat(s, n - 2) + s;
    } else {
      assert Repeat(s, 0) == [] && Repeat(s, 1) == s;
    }
  }

  /** A verdict that is not an error is the verdict the filter gives. */
  lemma SettledVerdict<C(!new), R(!new), D, E>(
    filter: Filter<C, R, D, E>, judge: C -> R -> Verdict<D, E>, c: C, r: R)
    requires Settles(filter, judge) && !judge(c)(r).Abort?
    ensures filter(c, r).1 == judge(c)(r)
  {
    assert judge(filter(c, r).0)(r) == filter(c, r).1;
    assert judge(filter(c, r).0)(r) == judge(c)(r);
  }

  /** Something found in a pass is found again in every later pass. */
  lemma {:induction false} LaterPassGrows<C(!new), R(!new), D, E>(
    filter: Filter<C, R, D, E>, judge: C -> R -> Verdict<D, E>, limit: nat, c: C, dels: seq<D>, items: seq<R>, i: nat)
    requires Settles(filter, judge) && i < |items| && judge(c)(items[i]).Keep? && |dels| < limit
    requires CollectFrom(filter, limit, c, dels, items).1.More?
    ensures |CollectFrom(filter, limit, c, dels, items).1.dels| > |dels|
    decreases |items|
  {
    var (next, verdict) := filter(c, items[0]);
    SettledVerdict(filter, judge, c, items[i]);
    assert judge(filter(c, items[0]).0)(items[i]) == judge(c)(items[i]);
    match verdict
    case Drop =>
      assert i > 0;
      LaterPassGrows(filter, judge, limit, next, dels, items[1..], i - 1);
    case Keep(d) => CollectFromBelowLimit(filter, limit, next, dels + [d], items[1..]);
  }

  /** A first pass that finds something has a response that stays kept. */
  lemma KeptInFirstPass<C(!new), R(!new), D, E>(
    filter: Filter<C, R, D, E>, judge: C -> R -> Verdict<D, E>, limit: nat, c: C, store: seq<R>) returns (i: nat)
    requires Settles(filter, judge) && CollectFrom(filter, limit, c, [], store).1.More?
    requires CollectFrom(filter, limit, c, [], store).1.dels != []
    ensures i < |store| && judge(CollectFrom(filter, limit, c, [], store).0)(store[i]).Keep?
  {
    var (after, progress) := CollectFrom(filter, limit, c, [], store);
    CollectFromIsCollect(filter, judge, limit, c, [], store);
    CollectedWereKept(judge(after), limit, [], store, progress.dels[0]);
    i :| 0 <= i < |store| && judge(after)(store[i]) == Keep(progress.dels[0]);
  }

  lemma PassFindsMore<C(!new), R(!new), D, E>(
    filter: Filter<C, R, D, E>, judge: C -> R -> Verdict<D, E>, limit: nat, c: C, store: seq<R>, passes: nat, base: C,
    found: seq<D>, now: C, dels: seq<D>)
    requires Settles(filter, judge) && Ends(filter, limit, c, store) && |store| > 0
    requires OnPage(filter, limit, c, store, passes, base, found, |store|, now, dels)
    ensures |dels| > |found|
  {
    assert store[..|store|] == store;
    if passes == 0 {
      assert Repeat(store, 0) == [];
    } else {
      RepeatFront(store, passes);
      CollectFromAppend(filter, limit, c, [], store, Repeat(store, passes - 1));
      var (first, progress) := CollectFrom(filter, limit, c, [], store);
      var i := KeptInFirstPass(filter, judge, limit, c, store);
      VerdictStaysSettled(filter, judge, limit, first, progress.dels, Repeat(store, passes - 1), store[i]);
      LaterPassGrows(filter, judge, limit, base, found, store, i);
    }
  }

  /** A whole pass is over and the next one begins. */
  lemma OnNextPass<C(!new), R(!new), D, E>(
    filter: Filter<C, R, D, E>, judge: C -> R -> Verdict<D, E>, limit: nat, c: C, store: seq<R>, passes: nat, base: C,
    found: seq<D>, now: C, dels: seq<D>)
    requires Settles(filter, judge) && Ends(filter, limit, c, store) && |store| > 0
    requires OnPage(filter, limit, c, store, passes, base, found, |store|, now, dels)
    ensures OnPage(filter, limit, c, store, passes + 1, now, dels, 0, now, dels) && passes + 1 < limit
  {
    PassFindsMore(filter, judge, limit, c, store, passes, base, found, now, dels);
    assert store[..|store|] == store;
    CollectFromAppend(filter, limit, c, [], Repeat(store, passes), store);
    assert store[..0] == [];
  }

  // ---------- and when it does not ----------

  lemma {:induction false} NothingFoundIsDropped<R, D, E>(
    judge: R -> Verdict<D, E>, limit: nat, items: seq<R>, i: nat)
    requires limit > 0 && Collect(judge, limit, [], items) == More([]) && i < |items|
    ensures judge(items[i]).Drop?
    decreases |items|
  {
    if judge(items[0]).Keep? {
      if limit > 1 {
        CollectGrows(judge, limit, [] + [judge(items[0]).del], items[1..]);
      }
    } else if i > 0 {
      NothingFoundIsDropped(judge, limit, items[1..], i - 1);
    }
  }

  lemma {:induction false} DroppedPass<C(!new), R(!new), D, E>(
    filter: Filter<C, R, D, E>, judge: C -> R -> Verdict<D, E>, limit: nat, c: C, items: seq<R>)
    requires Settles(filter, judge) && forall i | 0 <= i < |items| :: judge(c)(items[i]).Drop?
    ensures CollectFrom(filter, limit, c, [], items).1 == More([])
    decreases |items|
  {
    if items != [] {
      var (next, verdict) := filter(c, items[0]);
      assert judge(c)(items[0]).Drop?;
      SettledVerdict(filter, judge, c, items[0]);
      forall i | 0 <= i < |items[1..]| ensures judge(next)(items[1..][i]).Drop? {
        assert judge(c)(items[i + 1]).Drop?;
        assert judge(filter(c, items[0]).0)(items[i + 1]) == judge(c)(items[i + 1]);
      }
      DroppedPass(filter, judge, limit, next, items[1..]);
    }
  }

  lemma SettledDrops<C(!new), R(!new), D, E>(
    filter: Filter<C, R, D, E>, judge: C -> R -> Verdict<D, E>, limit: nat, c: C, store: seq<R>)
    requires Settles(filter, judge) && limit > 0 && CollectFrom(filter, limit, c, [], store).1 == More([])
    ensures forall i | 0 <= i < |store| :: judge(CollectFrom(filter, limit, c, [], store).0)(store[i]).Drop?
  {
    var after := CollectFrom(filter, limit, c, [], store).0;
    CollectFromIsCollect(filter, judge, limit, c, [], store);
    forall i | 0 <= i < |store| ensures judge(after)(store[i]).Drop? {
      NothingFoundIsDropped(judge(after), limit, store, i);
    }
  }

  /** A scan that starts over after a pass that found nothing is still looking after any number of passes. */
  lemma {:induction false} StillLooking<C(!new), R(!new), D, E>(
    filter: Filter<C, R, D, E>, judge: C -> R -> Verdict<D, E>, limit: nat, c: C, store: seq<R>, n: nat)
    requires Settles(filter, judge) && limit > 0 && !Ends(filter, limit, c, store)
    ensures CollectFrom(filter, limit, c, [], Repeat(store, n)).1 == More([])
    ensures var after := CollectFrom(filter, limit, c, [], Repeat(store, n)).0;
            n > 0 ==> forall i | 0 <= i < |store| :: judge(after)(store[i]).Drop?
  {
    if n == 1 {
      assert Repeat(store, 0) == [] && Repeat(store, 1) == store;
      SettledDrops(filter, judge, limit, c, store);
    } else if n > 1 {
      StillLooking(filter, judge, limit, c, store, n - 1);
      var before := CollectFrom(filter, limit, c, [], Repeat(store, n - 1)).0;
      CollectFromAppend(filter, limit, c, [], Repeat(store, n - 1), store);
      DroppedPass(filter, judge, limit, before, store);
      SettledDrops(filter, judge, limit, before, store);
    }
  }

  /** A scan that comes to an end has a response that the fixed filter of its final state does not drop. */
  lemma EndsIsFinishes<C(!new), R(!new), D, E>(
    filter: Filter<C, R, D, E>, judge: C -> R -> Verdict<D, E>, limit: nat, c: C, store: seq<R>)
    requires Settles(filter, judge) && Ends(filter, limit, c, store)
    ensures Finishes(store, judge(ScanFrom(filter, limit, c, store).0), limit)
  {
    if Wraps(|store|, limit) {
      var after := ScanFrom(filter, limit, c, store).0;
      var rest := StreamBegins(store, limit, 0, |store|);
      assert Repeat(store, 0) + store[..|store|] == store;
      CollectFromAppend(filter, limit, c, [], store, rest);
      ScanFindsSomething(filter, limit, c, store, rest);
      CollectFromIsCollect(filter, judge, limit, c, [], Stream(store, limit));
      SomethingIsNotDropped(judge(after), limit, store);
    }
  }

  lemma ScanFindsSomething<C, R, D, E>(
    filter: Filter<C, R, D, E>, limit: nat, c: C, store: seq<R>, rest: seq<R>)
    requires limit > 0 && CollectFrom(filter, limit, c, [], store).1 != More([])
    ensures CollectFrom(filter, limit, c, [], store + rest).1 != More([])
  {
    CollectFromAppend(filter, limit, c, [], store, rest);
    var (next, progress) := CollectFrom(filter, limit, c, [], store);
    if progress.More? {
      CollectFromBelowLimit(filter, limit, c, [], store);
      if CollectFrom(filter, limit, next, progress.dels, rest).1.More? {
        CollectFromBelowLimit(filter, limit, next, progress.dels, rest);
      }
    }
  }

  lemma SomethingIsNotDropped<R, D, E>(judge: R -> Verdict<D, E>, limit: nat, store: seq<R>)
    requires Wraps(|store|, limit) && Collect(judge, limit, [], Stream(store, limit)) != More([])
    ensures exists i | 0 <= i < |store| :: !judge(store[i]).Drop?
  {
    var stream := Stream(store, limit);
    if forall i | 0 <= i < |stream| :: judge(stream[i]).Drop? {
      AllDropped(judge, limit, stream);
    }
    var i :| 0 <= i < |stream| && !judge(stream[i]).Drop?;
    RepeatMember(store, limit, i);
    var k :| 0 <= k < |store| && store[k] == stream[i];
  }

  // ---------- a filter whose verdicts do not depend on its state ----------

  ghost predicate Fixed<C(!new), R(!new), D, E>(
    filter: Filter<C, R, D, E>, inv: C -> bool, judge: R -> Verdict<D, E>)
  {
    Keeps(filter, inv) && forall c: C, r: R | inv(c) :: filter(c, r).1 == judge(r)
  }

  lemma {:induction false} FixedCollect<C(!new), R(!new), D, E>(
    filter: Filter<C, R, D, E>, inv: C -> bool, judge: R -> Verdict<D, E>, limit: nat, c: C, dels: seq<D>,
    items: seq<R>)
    requires Fixed(filter, inv, judge) && inv(c)
    ensures CollectFrom(filter, limit, c, dels, items).1 == Collect(judge, limit, dels, items)
    decreases |items|
  {
    if items != [] {
      var (next, verdict) := filter(c, items[0]);
      assert filter(c, items[0]).1 == judge(items[0]);
      match verdict
      case Drop => FixedCollect(filter, inv, judge, limit, next, dels, items[1..]);
      case Abort(_) =>
      case Keep(d) => FixedCollect(filter, inv, judge, limit, next, dels + [d], items[1..]);
    }
  }

  lemma FixedScan<C(!new), R(!new), D, E>(
    filter: Filter<C, R, D, E>, inv: C -> bool, judge: R -> Verdict<D, E>, limit: nat, c: C, store: seq<R>)
    requires Fixed(filter, inv, judge) && inv(c)
    ensures ScanFrom(filter, limit, c, store).1 == Answer(store, judge, limit)
    ensures Ends(filter, limit, c, store) <==> Finishes(store, judge, limit)
  {
    FixedCollect(filter, inv, judge, limit, c, [], Stream(store, limit));
    FixedCollect(filter, inv, judge, limit, c, [], store);
    if Wraps(|store|, limit) {
      if Collect(judge, limit, [], store) == More([]) {
        forall i | 0 <= i < |store| ensures judge(store[i]).Drop? {
          NothingFoundIsDropped(judge, limit, store, i);
        }
      } else if forall i | 0 <= i < |store| :: judge(store[i]).Drop? {
        AllDropped(judge, limit, store);
      }
    }
  }

  /** A scan decided by its first pass needs no second one under the fixed filter of its final state. */
  lemma DecidedInOnePass<C(!new), R(!new), D, E>(
    filter: Filter<C, R, D, E>, judge: C -> R -> Verdict<D, E>, limit: nat, c: C, store: seq<R>)
    requires Settles(filter, judge) && limit > 0 && !CollectFrom(filter, limit, c, [], store).1.More?
    ensures OnePass(store, judge(ScanFrom(filter, limit, c, store).0), limit)
  {
    if Wraps(|store|, limit) {
      var rest := StreamBegins(store, limit, 0, |store|);
      assert Repeat(store, 0) + store[..|store|] == store;
      CollectFromAppend(filter, limit, c, [], store, rest);
      CollectFromIsCollect(filter, judge, limit, c, [], store);
      var last := judge(CollectFrom(filter, limit, c, [], store).0);
      if NoAbort(last, store) {
        CollectIsFilter(last, limit, store);
      }
    }
  }
}
