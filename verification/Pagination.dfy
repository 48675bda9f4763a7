/** Scanning the chain's delegations page by page, through a filter, up to a limit. */
module Pagination {
  import opened Wrappers
  import opened Lists

  const MAX_PAGINATION_LIMIT: nat := 1000

  /** What happens to one stored response: converted and accepted, filtered out, or an error that ends the scan. */
  datatype Verdict<D, E> = Keep(del: D) | Drop | Abort(error: E)

  /** Progress over a stretch of the store: room for more, limit reached, or an error. */
  datatype Progress<D, E> = More(dels: seq<D>) | Full(dels: seq<D>) | Failed(error: E)

  function PageLimit(limit: nat): (page: nat)
    ensures page <= limit && page <= 1000
    ensures page == limit || page == 1000
  {
    if limit < MAX_PAGINATION_LIMIT then limit else MAX_PAGINATION_LIMIT
  }

  /** How many whole pages fit into `size` elements. */
  function FullPages(size: nat, page: nat): nat
    requires page > 0
  {
    if size < page then 0 else 1 + FullPages(size - page, page)
  }

  /** `size` elements fill whole pages, with nothing left over. */
  predicate WholePages(size: nat, page: nat)
    requires page > 0
  {
    size == 0 || (size >= page && WholePages(size - page, page))
  }

  lemma {:induction false} PagesAreDivision(size: nat, page: nat)
    requires page > 0
    ensures FullPages(size, page) == size / page
    ensures WholePages(size, page) <==> size % page == 0
  {
    if size >= page {
      PagesAreDivision(size - page, page);
      var q, r := (size - page) / page, (size - page) % page;
      assert size == (q + 1) * page + r;
      ModInBlock(size, q + 1, page);
    }
  }

  lemma MulMonotonic(a: nat, b: nat, page: nat)
    ensures a <= b ==> a * page <= b * page
  {
  }

  lemma ModInBlock(i: nat, k: nat, size: nat)
    requires size > 0 && k * size <= i < k * size + size
    ensures i % size == i - k * size && i / size == k
  {
    var q, r := i / size, i % size;
    assert i == q * size + r;
    MulMonotonic(q + 1, k, size);
    MulMonotonic(k + 1, q, size);
  }

  lemma {:induction false} NextPage(start: nat, page: nat)
    requires page > 0 && WholePages(start, page)
    ensures WholePages(start + page, page) && FullPages(start + page, page) == FullPages(start, page) + 1
  {
  }

  lemma {:induction false} MorePages(a: nat, b: nat, page: nat)
    requires page > 0 && a <= b
    ensures FullPages(a, page) <= FullPages(b, page)
    decreases a
  {
    if a >= page {
      MorePages(a - page, b - page, page);
    }
  }

  /** A page cut short by the end of the store leaves an element over. */
  lemma {:induction false} ShortPage(start: nat, size: nat, page: nat)
    requires page > 0 && WholePages(start, page) && start <= size < start + page && (start == size ==> size == 0)
    ensures size == 0 || !WholePages(size, page)
    decreases start
  {
    if start >= page {
      ShortPage(start - page, size - page, page);
    }
  }

  datatype PageResponse<R> = PageResponse(items: seq<R>, next: Option<nat>)

  /** The chain's answer to one page query. The absent key stands both for "from the start" in a request and for
      "nothing follows" in an answer. */
  function PageAt<R>(store: seq<R>, key: Option<nat>, page: nat): PageResponse<R>
    requires key.Some? ==> key.value <= |store|
  {
    var start := if key.Some? then key.value else 0;
    if start + page < |store| then PageResponse(store[start..start + page], Some(start + page))
    else PageResponse(store[start..], None)
  }

  /** Takes responses in order until the limit is reached or an error occurs. */
  function Collect<R, D, E>(judge: R -> Verdict<D, E>, limit: nat, dels: seq<D>, items: seq<R>): Progress<D, E>
    decreases |items|
  {
    if items == [] then More(dels)
    else
      match judge(items[0])
      case Drop => Collect(judge, limit, dels, items[1..])
      case Abort(e) => Failed(e)
      case Keep(d) =>
        if |dels| + 1 == limit then Full(dels + [d]) else Collect(judge, limit, dels + [d], items[1..])
  }

  lemma {:induction false} CollectAppend<R, D, E>(
    judge: R -> Verdict<D, E>, limit: nat, dels: seq<D>, a: seq<R>, b: seq<R>)
    ensures Collect(judge, limit, dels, a + b) ==
            match Collect(judge, limit, dels, a)
            case More(more) => Collect(judge, limit, more, b)
            case done => done
    decreases |a|
  {
    if a == [] {
      assert a + b == b;
    } else {
      assert (a + b)[1..] == a[1..] + b;
      match judge(a[0])
      case Drop => CollectAppend(judge, limit, dels, a[1..], b);
      case Abort(_) =>
      case Keep(d) => CollectAppend(judge, limit, dels + [d], a[1..], b);
    }
  }

  lemma {:induction false} CollectOne<R, D, E>(
    judge: R -> Verdict<D, E>, limit: nat, dels: seq<D>, store: seq<R>, n: nat, more: seq<D>)
    requires n < |store| && Collect(judge, limit, dels, store[..n]) == More(more)
    ensures Collect(judge, limit, dels, store[..n + 1]) ==
            match judge(store[n])
            case Drop => More(more)
            case Abort(e) => Failed(e)
            case Keep(d) => if |more| + 1 == limit then Full(more + [d]) else More(more + [d])
  {
    CollectAppend(judge, limit, dels, store[..n], [store[n]]);
    assert store[..n + 1] == store[..n] + [store[n]];
  }

  /** Once a stretch ends the scan, nothing after it matters. */
  lemma CollectDecided<R, D, E>(judge: R -> Verdict<D, E>, limit: nat, dels: seq<D>, store: seq<R>, n: nat)
    requires n <= |store| && !Collect(judge, limit, dels, store[..n]).More?
    ensures Collect(judge, limit, dels, store) == Collect(judge, limit, dels, store[..n])
  {
    CollectAppend(judge, limit, dels, store[..n], store[n..]);
    assert store == store[..n] + store[n..];
  }

  lemma {:induction false} CollectDecidedByRepeat<R, D, E>(
    judge: R -> Verdict<D, E>, limit: nat, store: seq<R>, m: nat, n: nat)
    requires m <= n && !Collect(judge, limit, [], Repeat(store, m)).More?
    ensures Collect(judge, limit, [], Repeat(store, n)) == Collect(judge, limit, [], Repeat(store, m))
    decreases n
  {
    if m < n {
      CollectDecidedByRepeat(judge, limit, store, m, n - 1);
      CollectAppend(judge, limit, [], Repeat(store, n - 1), store);
    }
  }

  lemma {:induction false} CollectGrows<R, D, E>(
    judge: R -> Verdict<D, E>, limit: nat, dels: seq<D>, items: seq<R>)
    requires Collect(judge, limit, dels, items).More?
    ensures |Collect(judge, limit, dels, items).dels| >= |dels|
    ensures (exists i | 0 <= i < |items| :: !judge(items[i]).Drop?) ==>
              |Collect(judge, limit, dels, items).dels| > |dels|
    decreases |items|
  {
    if items != [] {
      match judge(items[0])
      case Drop => CollectGrows(judge, limit, dels, items[1..]);
      case Keep(d) => CollectGrows(judge, limit, dels + [d], items[1..]);
    }
  }

  /** The last page is full, so its absent next key makes the scan start over. */
  predicate Wraps(size: nat, limit: nat) {
    limit > 0 && size > 0 && WholePages(size, PageLimit(limit))
  }

  lemma WrapsIff(size: nat, limit: nat)
    ensures Wraps(size, limit) <==> limit > 0 && size > 0 && size % PageLimit(limit) == 0
  {
    if limit > 0 {
      PagesAreDivision(size, PageLimit(limit));
    }
  }

  /** The scan comes to an end on this store. */
  predicate Finishes<R, D, E>(store: seq<R>, judge: R -> Verdict<D, E>, limit: nat) {
    !Wraps(|store|, limit) || exists i | 0 <= i < |store| :: !judge(store[i]).Drop?
  }

  /** Every response the scan may see, in order: the store once or, when it wraps, over and over. */
  function Stream<R>(store: seq<R>, limit: nat): seq<R> {
    if Wraps(|store|, limit) then Repeat(store, limit) else store
  }

  function Close<D, E>(progress: Progress<D, E>): Result<seq<D>, E> {
    match progress
    case More(dels) => Success(dels)
    case Full(dels) => Success(dels)
    case Failed(e) => Failure(e)
  }

  function Answer<R, D, E>(store: seq<R>, judge: R -> Verdict<D, E>, limit: nat): Result<seq<D>, E> {
    if limit == 0 then Success([]) else Close(Collect(judge, limit, [], Stream(store, limit)))
  }

  // ---------- the scan, query by query ----------

  datatype State<D, E> = Asking(key: Option<nat>, dels: seq<D>) | Done(result: Result<seq<D>, E>)

  function Step<R, D, E>(store: seq<R>, judge: R -> Verdict<D, E>, limit: nat, st: State<D, E>): State<D, E>
    requires st.Asking? && st.key.Some? ==> st.key.value <= |store|
  {
    match st
    case Done(_) => st
    case Asking(key, dels) =>
      var page := PageAt(store, key, PageLimit(limit));
      match Collect(judge, limit, dels, page.items)
      case Full(all) => Done(Success(all))
      case Failed(e) => Done(Failure(e))
      case More(all) =>
        if |page.items| != PageLimit(limit) then Done(Success(all)) else Asking(page.next, all)
  }

  function AfterQueries<R, D, E>(store: seq<R>, judge: R -> Verdict<D, E>, limit: nat, n: nat): (st: State<D, E>)
    ensures st.Asking? && st.key.Some? ==> st.key.value <= |store|
  {
    if n == 0 then (if limit == 0 then Done(Success([])) else Asking(None, []))
    else Step(store, judge, limit, AfterQueries(store, judge, limit, n - 1))
  }

  /** The inner loop: takes the responses of one page. */
  method TakePage<R, D, E>(judge: R -> Verdict<D, E>, limit: nat, dels: seq<D>, items: seq<R>)
    returns (progress: Progress<D, E>)
    ensures progress == Collect(judge, limit, dels, items)
  {
    var all, j := dels, 0;
    while j < |items|
      invariant 0 <= j <= |items|
      invariant Collect(judge, limit, dels, items[..j]) == More(all)
    {
      CollectOne(judge, limit, dels, items, j, all);
      match judge(items[j]) {
        case Drop =>
        case Abort(e) =>
          CollectDecided(judge, limit, dels, items, j + 1);
          return Failed(e);
        case Keep(d) =>
          all := all + [d];
          if |all| == limit {
            CollectDecided(judge, limit, dels, items, j + 1);
            return Full(all);
          }
      }
      j := j + 1;
    }
    assert items[..j] == items;
    progress := More(all);
  }

  /** Where the scan stands: `passes` full passes gave `base`, the current pass has read `store[..start]`. */
  ghost predicate InPass<R, D, E>(
    store: seq<R>, judge: R -> Verdict<D, E>, limit: nat, passes: nat, base: seq<D>, start: nat, dels: seq<D>)
  {
    && 0 < limit && start <= |store| && WholePages(start, PageLimit(limit)) && (start == |store| ==> store == [])
    && passes <= |base| <= |dels| < limit
    && (!Wraps(|store|, limit) ==> passes == 0)
    && Collect(judge, limit, [], Repeat(store, passes)) == More(base)
    && Collect(judge, limit, base, store[..start]) == More(dels)
  }

  lemma ThroughStart<R, D, E>(
    store: seq<R>, judge: R -> Verdict<D, E>, limit: nat, base: seq<D>, start: nat, dels: seq<D>, end: nat)
    requires start <= end <= |store| && Collect(judge, limit, base, store[..start]) == More(dels)
    ensures Collect(judge, limit, base, store[..end]) == Collect(judge, limit, dels, store[start..end])
  {
    CollectAppend(judge, limit, base, store[..start], store[start..end]);
    assert store[..end] == store[..start] + store[start..end];
  }

  /** The limit or an error met in the current pass is the answer. */
  lemma DecidedInPass<R, D, E>(
    store: seq<R>, judge: R -> Verdict<D, E>, limit: nat, passes: nat, base: seq<D>, start: nat, dels: seq<D>, end: nat)
    requires InPass(store, judge, limit, passes, base, start, dels) && start <= end <= |store|
    requires !Collect(judge, limit, dels, store[start..end]).More?
    ensures Answer(store, judge, limit) == Close(Collect(judge, limit, dels, store[start..end]))
  {
    ThroughStart(store, judge, limit, base, start, dels, end);
    CollectDecided(judge, limit, base, store, end);
    CollectAppend(judge, limit, [], Repeat(store, passes), store);
    if Wraps(|store|, limit) {
      CollectDecidedByRepeat(judge, limit, store, passes + 1, limit);
    } else {
      assert Repeat(store, 0) + store == store;
    }
  }

  /** A short page ends the scan, and only of a store that does not wrap. */
  lemma EndedInPass<R, D, E>(
    store: seq<R>, judge: R -> Verdict<D, E>, limit: nat, passes: nat, base: seq<D>, start: nat, dels: seq<D>)
    requires InPass(store, judge, limit, passes, base, start, dels)
    requires start + PageLimit(limit) > |store|
    ensures Answer(store, judge, limit) == Close(Collect(judge, limit, dels, store[start..|store|]))
  {
    ShortPage(start, |store|, PageLimit(limit));
    ThroughStart(store, judge, limit, base, start, dels, |store|);
    assert store[..|store|] == store;
  }

  /** One more full page inside the store. */
  lemma NextInPass<R, D, E>(
    store: seq<R>, judge: R -> Verdict<D, E>, limit: nat, passes: nat, base: seq<D>, start: nat, dels: seq<D>,
    all: seq<D>)
    requires InPass(store, judge, limit, passes, base, start, dels)
    requires start + PageLimit(limit) < |store|
    requires Collect(judge, limit, dels, store[start..start + PageLimit(limit)]) == More(all)
    ensures InPass(store, judge, limit, passes, base, start + PageLimit(limit), all)
  {
    var end := start + PageLimit(limit);
    ThroughStart(store, judge, limit, base, start, dels, end);
    NextPage(start, PageLimit(limit));
    CollectGrows(judge, limit, dels, store[start..end]);
    CollectBelowLimit(judge, limit, dels, store[start..end]);
  }

  /** A full page that ends where the store ends: the store wraps, a pass is over and it kept something. */
  lemma PassOver<R, D, E>(
    store: seq<R>, judge: R -> Verdict<D, E>, limit: nat, passes: nat, base: seq<D>, start: nat, dels: seq<D>,
    all: seq<D>)
    requires InPass(store, judge, limit, passes, base, start, dels) && Finishes(store, judge, limit)
    requires start + PageLimit(limit) == |store|
    requires Collect(judge, limit, dels, store[start..|store|]) == More(all)
    ensures Wraps(|store|, limit)
    ensures InPass(store, judge, limit, passes + 1, all, 0, all)
  {
    NextPage(start, PageLimit(limit));
    ThroughStart(store, judge, limit, base, start, dels, |store|);
    assert store[..|store|] == store;
    CollectAppend(judge, limit, [], Repeat(store, passes), store);
    CollectGrows(judge, limit, base, store);
    CollectBelowLimit(judge, limit, base, store);
    assert store[..0] == [];
  }

  datatype Position<D> = Position(passes: nat, base: seq<D>, start: nat)

  function KeyAt(start: nat): Option<nat> {
    if start == 0 then None else Some(start)
  }

  ghost predicate At<R, D, E>(
    store: seq<R>, judge: R -> Verdict<D, E>, limit: nat, queries: nat, pos: Position<D>, dels: seq<D>)
  {
    && InPass(store, judge, limit, pos.passes, pos.base, pos.start, dels)
    && queries == pos.passes * FullPages(|store|, PageLimit(limit)) + FullPages(pos.start, PageLimit(limit))
  }

  function Next<R, D>(store: seq<R>, limit: nat, pos: Position<D>, all: seq<D>): Position<D> {
    if pos.start + PageLimit(limit) < |store| then pos.(start := pos.start + PageLimit(limit))
    else Position(pos.passes + 1, all, 0)
  }

  /** One query, read off the store: the page from `start` on, cut at the end of the store. */
  lemma StepFrom<R, D, E>(
    store: seq<R>, judge: R -> Verdict<D, E>, limit: nat, start: nat, end: nat, dels: seq<D>)
    requires start <= |store|
    requires end == if start + PageLimit(limit) < |store| then start + PageLimit(limit) else |store|
    ensures Step(store, judge, limit, Asking(KeyAt(start), dels)) ==
            match Collect(judge, limit, dels, store[start..end])
            case More(all) =>
              if end - start != PageLimit(limit) then Done(Success(all))
              else Asking(if end < |store| then Some(end) else None, all)
            case done => Done(Close(done))
  {
    assert PageAt(store, KeyAt(start), PageLimit(limit)).items == store[start..end];
  }

  /** One query either ends the scan with the answer or moves it to the next position. */
  lemma Advance<R, D, E>(
    store: seq<R>, judge: R -> Verdict<D, E>, limit: nat, queries: nat, pos: Position<D>, dels: seq<D>)
    requires Finishes(store, judge, limit) && At(store, judge, limit, queries, pos, dels)
    ensures match Step(store, judge, limit, Asking(KeyAt(pos.start), dels))
            case Done(result) => result == Answer(store, judge, limit)
            case Asking(key, all) =>
              var next := Next(store, limit, pos, all);
              key == KeyAt(next.start) && At(store, judge, limit, queries + 1, next, all)
  {
    var page, start := PageLimit(limit), pos.start;
    var end := if start + page < |store| then start + page else |store|;
    StepFrom(store, judge, limit, start, end, dels);
    match Collect(judge, limit, dels, store[start..end])
    case More(all) =>
      if end - start != page {
        EndedInPass(store, judge, limit, pos.passes, pos.base, start, dels);
      } else if end < |store| {
        NextInPass(store, judge, limit, pos.passes, pos.base, start, dels, all);
        NextPage(start, page);
      } else {
        PassOver(store, judge, limit, pos.passes, pos.base, start, dels, all);
        NextPage(start, page);
        OneMorePass(pos.passes, FullPages(|store|, page));
      }
    case _ =>
      DecidedInPass(store, judge, limit, pos.passes, pos.base, start, dels, end);
  }

  ghost function PositionAfter<R, D, E>(store: seq<R>, judge: R -> Verdict<D, E>, limit: nat, n: nat): Position<D> {
    if n == 0 then Position(0, [], 0)
    else
      match AfterQueries(store, judge, limit, n)
      case Done(_) => PositionAfter(store, judge, limit, n - 1)
      case Asking(_, all) => Next(store, limit, PositionAfter(store, judge, limit, n - 1), all)
  }

  /** The query machine is always at its position, or done with the answer. */
  lemma {:induction false} MachineOnTrack<R, D, E>(store: seq<R>, judge: R -> Verdict<D, E>, limit: nat, n: nat)
    requires Finishes(store, judge, limit)
    ensures match AfterQueries(store, judge, limit, n)
            case Done(result) => result == Answer(store, judge, limit)
            case Asking(key, dels) =>
              var pos := PositionAfter(store, judge, limit, n);
              key == KeyAt(pos.start) && At(store, judge, limit, n, pos, dels)
  {
    if n == 0 {
      assert store[..0] == [];
    } else {
      MachineOnTrack(store, judge, limit, n - 1);
      match AfterQueries(store, judge, limit, n - 1)
      case Done(_) =>
      case Asking(_, dels) =>
        Advance(store, judge, limit, n - 1, PositionAfter(store, judge, limit, n - 1), dels);
    }
  }

  lemma MachineAnswers<R, D, E>(store: seq<R>, judge: R -> Verdict<D, E>, limit: nat, n: nat)
    requires Finishes(store, judge, limit)
    ensures var st := AfterQueries(store, judge, limit, n);
            st.Done? ==> st.result == Answer(store, judge, limit)
  {
    MachineOnTrack(store, judge, limit, n);
  }

  /** While it asks, the machine has room below the limit and has made a bounded number of queries: one pass at most
      on a store that does not wrap, one pass per returned delegation on a store that does. */
  lemma MachineBounded<R, D, E>(store: seq<R>, judge: R -> Verdict<D, E>, limit: nat, n: nat)
    requires Finishes(store, judge, limit) && AfterQueries(store, judge, limit, n).Asking?
    ensures |AfterQueries(store, judge, limit, n).dels| < limit
    ensures n <= MaxQueries(|store|, limit)
  {
    MachineOnTrack(store, judge, limit, n);
    AtBounded(store, judge, limit, n, PositionAfter(store, judge, limit, n),
              AfterQueries(store, judge, limit, n).dels);
  }

  lemma AtBounded<R, D, E>(
    store: seq<R>, judge: R -> Verdict<D, E>, limit: nat, queries: nat, pos: Position<D>, dels: seq<D>)
    requires At(store, judge, limit, queries, pos, dels)
    ensures |dels| < limit && queries <= MaxQueries(|store|, limit)
  {
    MorePages(pos.start, |store|, PageLimit(limit));
    PassesBounded(pos.passes, limit, FullPages(|store|, PageLimit(limit)));
  }

  lemma PassesBounded(passes: nat, limit: nat, pages: nat)
    requires passes < limit
    ensures passes * pages + pages <= limit * pages
  {
    MulMonotonic(passes + 1, limit, pages);
  }

  lemma OneMorePass(passes: nat, pages: nat)
    ensures (passes + 1) * pages == passes * pages + pages
  {
  }

  /** A bound on the page queries after which the scan still goes on. */
  function MaxQueries(size: nat, limit: nat): nat {
    if limit == 0 then 0
    else if Wraps(size, limit) then limit * FullPages(size, PageLimit(limit))
    else FullPages(size, PageLimit(limit))
  }

  /** One turn of the outer loop: query a page, take its responses, decide whether and where to continue. */
  method QueryPage<R, D, E>(store: seq<R>, judge: R -> Verdict<D, E>, limit: nat, key: Option<nat>, dels: seq<D>)
    returns (st: State<D, E>)
    requires key.Some? ==> key.value <= |store|
    ensures st == Step(store, judge, limit, Asking(key, dels))
  {
    var page := PageLimit(limit);
    var res := PageAt(store, key, page);
    var progress := TakePage(judge, limit, dels, res.items);
    match progress
    case Full(all) => st := Done(Success(all));
    case Failed(e) => st := Done(Failure(e));
    case More(all) => st := if |res.items| != page then Done(Success(all)) else Asking(res.next, all);
  }

  /** The outer loop. Each turn is one `Step` of the query machine, so it stops where the machine is first done. */
  method ScanPages<R, D, E>(store: seq<R>, judge: R -> Verdict<D, E>, limit: nat)
    returns (result: Result<seq<D>, E>, queries: nat)
    requires Finishes(store, judge, limit)
    ensures AfterQueries(store, judge, limit, queries) == Done(result)
    ensures queries > 0 ==> AfterQueries(store, judge, limit, queries - 1).Asking?
  {
    var key: Option<nat>, dels: seq<D> := None, [];
    queries := 0;
    while |dels| < limit
      invariant limit == 0 ==> queries == 0 && dels == []
      invariant limit > 0 ==> AfterQueries(store, judge, limit, queries) == Asking(key, dels) && |dels| < limit
      decreases MaxQueries(|store|, limit) - queries
    {
      MachineBounded(store, judge, limit, queries);
      var st := QueryPage(store, judge, limit, key, dels);
      queries := queries + 1;
      if st.Done? {
        return st.result, queries;
      }
      MachineBounded(store, judge, limit, queries);
      key, dels := st.key, st.dels;
    }
    result := Success(dels);
  }

  /** The whole scan returns exactly `Answer`, within a bounded number of page queries. */
  method QueryDelegationsWithStatus<R, D, E>(store: seq<R>, judge: R -> Verdict<D, E>, limit: nat)
    returns (result: Result<seq<D>, E>, queries: nat)
    requires Finishes(store, judge, limit)
    ensures result == Answer(store, judge, limit)
    ensures queries <= MaxQueries(|store|, limit) + 1
  {
    result, queries := ScanPages(store, judge, limit);
    MachineAnswers(store, judge, limit, queries);
    if queries > 0 {
      MachineBounded(store, judge, limit, queries - 1);
    }
  }

  lemma {:induction false} CollectBelowLimit<R, D, E>(
    judge: R -> Verdict<D, E>, limit: nat, dels: seq<D>, items: seq<R>)
    requires |dels| < limit && Collect(judge, limit, dels, items).More?
    ensures |Collect(judge, limit, dels, items).dels| < limit
    decreases |items|
  {
    if items != [] {
      match judge(items[0])
      case Drop => CollectBelowLimit(judge, limit, dels, items[1..]);
      case Keep(d) => CollectBelowLimit(judge, limit, dels + [d], items[1..]);
    }
  }

  // ---------- what the scan returns ----------

  predicate NoAbort<R, D, E>(judge: R -> Verdict<D, E>, items: seq<R>) {
    forall i | 0 <= i < |items| :: !judge(items[i]).Abort?
  }

  /** The reference filter: the accepted delegations in store order. */
  function Accepted<R, D, E>(judge: R -> Verdict<D, E>, items: seq<R>): seq<D> {
    if items == [] then []
    else
      var last := judge(items[|items| - 1]);
      Accepted(judge, items[..|items| - 1]) + (if last.Keep? then [last.del] else [])
  }

  function Take<T>(n: nat, s: seq<T>): seq<T> {
    if n < |s| then s[..n] else s
  }

  lemma {:induction false} CollectIsFilter<R, D, E>(judge: R -> Verdict<D, E>, limit: nat, items: seq<R>)
    requires limit > 0 && NoAbort(judge, items)
    ensures var all := Accepted(judge, items);
            Collect(judge, limit, [], items) == if |all| < limit then More(all) else Full(all[..limit])
    decreases |items|
  {
    if items != [] {
      var n := |items| - 1;
      CollectIsFilter(judge, limit, items[..n]);
      assert items[..n + 1] == items;
      var sofar := Collect(judge, limit, [], items[..n]);
      if sofar.More? {
        CollectOne(judge, limit, [], items, n, sofar.dels);
        var all := Accepted(judge, items);
        assert |all| == limit ==> all[..limit] == all;
      } else {
        CollectDecided(judge, limit, [], items, n);
      }
    }
  }

  lemma {:induction false} AcceptedAppend<R, D, E>(judge: R -> Verdict<D, E>, a: seq<R>, b: seq<R>)
    ensures Accepted(judge, a + b) == Accepted(judge, a) + Accepted(judge, b)
    decreases |b|
  {
    if b == [] {
      assert a + b == a;
    } else {
      var n := |b| - 1;
      AcceptedAppend(judge, a, b[..n]);
      assert (a + b)[..|a + b| - 1] == a + b[..n];
    }
  }

  lemma {:induction false} AcceptedRepeat<R, D, E>(judge: R -> Verdict<D, E>, store: seq<R>, n: nat)
    requires NoAbort(judge, store)
    ensures Accepted(judge, Repeat(store, n)) == Repeat(Accepted(judge, store), n)
    ensures NoAbort(judge, Repeat(store, n))
  {
    if n > 0 {
      AcceptedRepeat(judge, store, n - 1);
      AcceptedAppend(judge, Repeat(store, n - 1), store);
    }
  }

  lemma {:induction false} RepeatIndex<T>(s: seq<T>, n: nat)
    requires s != []
    ensures |Repeat(s, n)| == n * |s|
    ensures forall i | 0 <= i < |Repeat(s, n)| :: Repeat(s, n)[i] == s[i % |s|]
  {
    if n > 0 {
      RepeatIndex(s, n - 1);
      var prefix := Repeat(s, n - 1);
      assert n * |s| == (n - 1) * |s| + |s|;
      forall i | |prefix| <= i < |Repeat(s, n)| ensures Repeat(s, n)[i] == s[i % |s|] {
        ModInBlock(i, n - 1, |s|);
      }
    }
  }

  lemma AnswerOfStream<R, D, E>(judge: R -> Verdict<D, E>, limit: nat, items: seq<R>)
    requires limit > 0 && NoAbort(judge, items)
    ensures Close(Collect(judge, limit, [], items)) == Success(Take(limit, Accepted(judge, items)))
  {
    CollectIsFilter(judge, limit, items);
    var all := Accepted(judge, items);
    assert |all| == limit ==> all[..limit] == all;
  }

  /** Without errors, the scan returns the first `limit` elements of the accepted list or, when the store wraps,
      of the accepted list repeated for ever. */
  lemma ScanIsFilteredStream<R, D, E>(store: seq<R>, judge: R -> Verdict<D, E>, limit: nat)
    requires NoAbort(judge, store)
    ensures var all := Accepted(judge, store);
            Answer(store, judge, limit) ==
            Success(Take(limit, if Wraps(|store|, limit) then Repeat(all, limit) else all))
  {
    if limit > 0 {
      AcceptedRepeat(judge, store, limit);
      AnswerOfStream(judge, limit, Stream(store, limit));
    }
  }

  lemma TakeOfRepeat<T>(all: seq<T>, limit: nat)
    requires all != []
    ensures var taken := Take(limit, Repeat(all, limit));
            && |taken| == limit
            && (forall i | 0 <= i < limit :: taken[i] == all[i % |all|])
            && (|all| >= limit ==> taken == all[..limit])
  {
    RepeatIndex(all, limit);
    MulMonotonic(1, |all|, limit);
    forall i | 0 <= i < limit && |all| >= limit ensures Take(limit, Repeat(all, limit))[i] == all[i] {
      ModInBlock(i, 0, |all|);
    }
  }

  /** A scan that does not start over returns the first `limit` accepted delegations; one that starts over returns
      them again and again. */
  lemma ScanIsPrefixOrRepeats<R, D, E>(store: seq<R>, judge: R -> Verdict<D, E>, limit: nat)
    requires NoAbort(judge, store) && Finishes(store, judge, limit)
    ensures var all := Accepted(judge, store);
            var answer := Answer(store, judge, limit);
            && answer.Success?
            && (answer == Success(Take(limit, all)) <==> |all| >= limit || !Wraps(|store|, limit))
            && (answer != Success(Take(limit, all)) ==>
                  && 0 < |all| < |answer.value| == limit
                  && forall i | 0 <= i < limit :: answer.value[i] == all[i % |all|])
  {
    ScanIsFilteredStream(store, judge, limit);
    if Wraps(|store|, limit) {
      SomeAccepted(judge, store);
      var all := Accepted(judge, store);
      TakeOfRepeat(all, limit);
      assert |all| == limit ==> all[..limit] == all;
    }
  }

  /** The scan returns the first `limit` accepted delegations exactly when that many are accepted or the store size is
      not a positive multiple of the page limit. Otherwise it starts over and returns delegations twice: element `i`
      is accepted delegation `i` modulo their number. */
  lemma ScanIsPrefixIffNoWrap<R, D, E>(store: seq<R>, judge: R -> Verdict<D, E>, limit: nat)
    requires NoAbort(judge, store) && Finishes(store, judge, limit)
    ensures var all := Accepted(judge, store);
            var answer := Answer(store, judge, limit);
            && answer.Success?
            && (answer == Success(Take(limit, all)) <==>
                  |all| >= limit || |store| == 0 || |store| % PageLimit(limit) != 0)
            && (answer != Success(Take(limit, all)) ==>
                  && 0 < |all| < |answer.value| == limit
                  && forall i | 0 <= i < limit :: answer.value[i] == all[i % |all|])
  {
    ScanIsPrefixOrRepeats(store, judge, limit);
    WrapsIff(|store|, limit);
  }

  lemma {:induction false} SomeAccepted<R, D, E>(judge: R -> Verdict<D, E>, items: seq<R>)
    requires NoAbort(judge, items) && exists i | 0 <= i < |items| :: !judge(items[i]).Drop?
    ensures Accepted(judge, items) != []
  {
    var n := |items| - 1;
    if judge(items[n]).Drop? {
      SomeAccepted(judge, items[..n]);
    }
  }

  /** An error ends the scan exactly when the limit was not reached before it; nothing collected is returned then. */
  lemma ScanAtFirstError<R, D, E>(store: seq<R>, judge: R -> Verdict<D, E>, limit: nat, j: nat)
    requires limit > 0 && j < |store| && judge(store[j]).Abort? && NoAbort(judge, store[..j])
    ensures var before := Accepted(judge, store[..j]);
            Answer(store, judge, limit) ==
            if |before| < limit then Failure(judge(store[j]).error) else Success(before[..limit])
  {
    CollectIsFilter(judge, limit, store[..j]);
    var sofar := Collect(judge, limit, [], store[..j]);
    if sofar.More? {
      CollectOne(judge, limit, [], store, j, sofar.dels);
      CollectDecided(judge, limit, [], store, j + 1);
    } else {
      CollectDecided(judge, limit, [], store, j);
    }
    assert Repeat(store, 1) == store;
    CollectDecidedByRepeat(judge, limit, store, 1, limit);
  }

  /** On a store that wraps and from which nothing is accepted, the scan never ends: after any number of page queries
      it is still asking. */
  lemma {:induction false} ScanNeverEnds<R, D, E>(store: seq<R>, judge: R -> Verdict<D, E>, limit: nat, n: nat)
    requires !Finishes(store, judge, limit)
    ensures var st := AfterQueries(store, judge, limit, n);
            st.Asking? && st.dels == [] && Aligned(store, limit, st.key)
  {
    if n > 0 {
      ScanNeverEnds(store, judge, limit, n - 1);
      var st := AfterQueries(store, judge, limit, n - 1);
      StepWithoutAccepted(store, judge, limit, st.key);
    }
  }

  /** The key points at the start of a page. */
  ghost predicate Aligned<R>(store: seq<R>, limit: nat, key: Option<nat>)
    requires limit > 0
  {
    key.Some? ==> key.value < |store| && WholePages(key.value, PageLimit(limit))
  }

  lemma StepWithoutAccepted<R, D, E>(store: seq<R>, judge: R -> Verdict<D, E>, limit: nat, key: Option<nat>)
    requires !Finishes(store, judge, limit) && Aligned(store, limit, key)
    ensures var st := Step(store, judge, limit, Asking(key, []));
            st.Asking? && st.dels == [] && Aligned(store, limit, st.key)
  {
    var page := PageLimit(limit);
    var start := if key.Some? then key.value else 0;
    if start + page > |store| {
      ShortPage(start, |store|, page);
      assert false;
    }
    NextPage(start, page);
    var res := PageAt(store, key, page);
    assert res.items == store[start..start + page];
    AllDropped(judge, limit, res.items);
  }

  lemma {:induction false} AllDropped<R, D, E>(judge: R -> Verdict<D, E>, limit: nat, items: seq<R>)
    requires forall i | 0 <= i < |items| :: judge(items[i]).Drop?
    ensures Collect(judge, limit, [], items) == More([])
    decreases |items|
  {
    if items != [] {
      AllDropped(judge, limit, items[1..]);
    }
  }

  // ---------- where returned delegations come from ----------

  lemma {:induction false} CollectedWereKept<R, D, E>(
    judge: R -> Verdict<D, E>, limit: nat, dels: seq<D>, items: seq<R>, d: D)
    requires !Collect(judge, limit, dels, items).Failed? && d in Collect(judge, limit, dels, items).dels
    ensures d in dels || exists i | 0 <= i < |items| :: judge(items[i]) == Keep(d)
    decreases |items|
  {
    if items != [] {
      var next := match judge(items[0]) case Keep(k) => dels + [k] case _ => dels;
      if judge(items[0]).Drop? || |next| != limit {
        CollectedWereKept(judge, limit, next, items[1..], d);
      }
      if d !in dels && d in next {
        assert judge(items[0]) == Keep(d);
      } else if d !in next {
        var i :| 0 <= i < |items[1..]| && judge(items[1..][i]) == Keep(d);
        assert judge(items[i + 1]) == Keep(d);
      }
    }
  }

  lemma {:induction false} RepeatMember<T>(s: seq<T>, n: nat, i: nat)
    requires i < |Repeat(s, n)|
    ensures Repeat(s, n)[i] in s
  {
    if i < |Repeat(s, n - 1)| {
      RepeatMember(s, n - 1, i);
    }
  }

  /** Every returned delegation was kept by the filter, wrapped or not. */
  lemma ReturnedWereKept<R, D, E>(store: seq<R>, judge: R -> Verdict<D, E>, limit: nat, d: D)
    requires Answer(store, judge, limit).Success? && d in Answer(store, judge, limit).value
    ensures exists r | r in store :: judge(r) == Keep(d)
  {
    var stream := Stream(store, limit);
    CollectedWereKept(judge, limit, [], stream, d);
    var i :| 0 <= i < |stream| && judge(stream[i]) == Keep(d);
    if Wraps(|store|, limit) {
      RepeatMember(store, limit, i);
    }
    assert stream[i] in store;
  }

  lemma {:induction false} CollectWithinLimit<R, D, E>(
    judge: R -> Verdict<D, E>, limit: nat, dels: seq<D>, items: seq<R>)
    requires |dels| < limit && !Collect(judge, limit, dels, items).Failed?
    ensures |Collect(judge, limit, dels, items).dels| <= limit
    decreases |items|
  {
    if items != [] {
      match judge(items[0]) {
        case Drop => CollectWithinLimit(judge, limit, dels, items[1..]);
        case Keep(d) =>
          if |dels| + 1 < limit {
            CollectWithinLimit(judge, limit, dels + [d], items[1..]);
          }
      }
    }
  }

  lemma AnswerWithinLimit<R, D, E>(store: seq<R>, judge: R -> Verdict<D, E>, limit: nat)
    requires Answer(store, judge, limit).Success?
    ensures |Answer(store, judge, limit).value| <= limit
  {
    if limit > 0 {
      CollectWithinLimit(judge, limit, [], Stream(store, limit));
    }
  }

  ghost predicate KeysIn<R, D>(key: D -> Option<R>, dels: seq<D>, items: seq<R>) {
    forall i | 0 <= i < |dels| :: key(dels[i]).Some? && key(dels[i]).value in items
  }

  ghost predicate KeysDiffer<R, D>(key: D -> Option<R>, dels: seq<D>) {
    forall i, j | 0 <= i < j < |dels| :: key(dels[i]) != key(dels[j])
  }

  lemma OneMoreKey<R, D>(key: D -> Option<R>, dels: seq<D>, items: seq<R>, d: D, r: R)
    requires KeysIn(key, dels, items) && KeysDiffer(key, dels) && key(d) == Some(r) && r !in items
    ensures KeysIn(key, dels + [d], items + [r]) && KeysDiffer(key, dels + [d])
  {
  }

  /** When every kept delegation identifies the response it came from, keeping from a list without repetition gives
      delegations that are all different. */
  lemma {:induction false} AcceptedKeys<R, D, E>(judge: R -> Verdict<D, E>, key: D -> Option<R>, items: seq<R>)
    requires Distinct(items)
    requires forall i | 0 <= i < |items| && judge(items[i]).Keep? :: key(judge(items[i]).del) == Some(items[i])
    ensures KeysIn(key, Accepted(judge, items), items) && KeysDiffer(key, Accepted(judge, items))
    decreases |items|
  {
    if items != [] {
      var n := |items| - 1;
      var front := Accepted(judge, items[..n]);
      AcceptedKeys(judge, key, items[..n]);
      assert items == items[..n] + [items[n]];
      if judge(items[n]).Keep? {
        OneMoreKey(key, front, items[..n], judge(items[n]).del, items[n]);
      } else {
        assert Accepted(judge, items) == front;
      }
    }
  }

  /** The scan is over after its first pass. */
  predicate OnePass<R, D, E>(store: seq<R>, judge: R -> Verdict<D, E>, limit: nat) {
    !Wraps(|store|, limit) || |Accepted(judge, store)| >= limit || !NoAbort(judge, store)
  }

  /** A wrapped answer repeats with the period of the accepted list. */
  lemma Periodic<T>(all: seq<T>, dels: seq<T>, p: nat)
    requires all != [] && |all| <= p < |dels| && forall i | 0 <= i < |dels| :: dels[i] == all[i % |all|]
    ensures dels[p] == dels[p - |all|]
  {
    var size := |all|;
    var q, r := (p - size) / size, (p - size) % size;
    assert p == (q + 1) * size + r;
    ModInBlock(p, q + 1, size);
  }

  /** An answer that took more than one pass holds some delegation both among its first `size` and after them. */
  lemma WrappedRepeats<R, D, E>(store: seq<R>, judge: R -> Verdict<D, E>, limit: nat, size: nat)
    returns (p: nat, q: nat)
    requires NoAbort(judge, store) && Finishes(store, judge, limit) && !OnePass(store, judge, limit) && 0 < size < limit
    ensures Answer(store, judge, limit).Success?
    ensures var dels := Answer(store, judge, limit).value; q < size <= p < |dels| && dels[p] == dels[q]
  {
    ScanIsPrefixOrRepeats(store, judge, limit);
    var all := Accepted(judge, store);
    p := if size < |all| then |all| else size;
    q := p - |all|;
    Periodic(all, Answer(store, judge, limit).value, p);
  }

  /** A scan that needs one pass returns accepted delegations of some front part of the store, each once. */
  lemma OnePassAnswer<R, D, E>(store: seq<R>, judge: R -> Verdict<D, E>, limit: nat)
    requires OnePass(store, judge, limit) && Answer(store, judge, limit).Success?
    ensures exists n: nat ::
              n <= |store| && Answer(store, judge, limit).value == Take(limit, Accepted(judge, store[..n]))
  {
    if limit == 0 {
      assert Answer(store, judge, limit).value == Take(limit, Accepted(judge, store[..0]));
    } else if NoAbort(judge, store) {
      ScanIsFilteredStream(store, judge, limit);
      if Wraps(|store|, limit) {
        TakeOfRepeat(Accepted(judge, store), limit);
      }
      assert store[..|store|] == store;
      var all := Accepted(judge, store);
      assert |all| == limit ==> all[..limit] == all;
      assert Answer(store, judge, limit).value == Take(limit, Accepted(judge, store[..|store|]));
    } else {
      var j := FirstAbort(judge, store);
      ScanAtFirstError(store, judge, limit, j);
      var before := Accepted(judge, store[..j]);
      assert |before| == limit ==> before[..limit] == before;
    }
  }

  /** The smallest store on which the scan repeats itself: two responses, one accepted, and a limit of two. */
  lemma OneOfTwoRepeats<R, D, E>(judge: R -> Verdict<D, E>, x: R, y: R, d: D)
    requires judge(x) == Keep(d) && judge(y) == Drop
    ensures Answer([x, y], judge, 2) == Success([d, d])
    ensures Finishes([x, y], judge, 2) && !OnePass([x, y], judge, 2)
  {
    var store := [x, y];
    assert judge(store[0]) == Keep(d) && judge(store[1]) == Drop;
    assert store[..1] == [x] && Accepted(judge, [x][..0]) == [];
    assert Accepted(judge, [x]) == [] + [d] && Accepted(judge, store) == [d] + [];
    assert WholePages(0, 2);
    ScanIsPrefixOrRepeats(store, judge, 2);
    assert Answer(store, judge, 2).value == [d, d];
  }

  /** The smallest store on which the scan never ends: one response, not accepted, and a limit of one. */
  lemma OneDroppedNeverEnds<R, D, E>(judge: R -> Verdict<D, E>, x: R)
    requires judge(x) == Drop
    ensures !Finishes([x], judge, 1) && forall n: nat :: AfterQueries([x], judge, 1, n).Asking?
  {
    assert WholePages(0, 1);
    assert forall i | 0 <= i < |[x]| :: judge([x][i]).Drop?;
    forall n: nat ensures AfterQueries([x], judge, 1, n).Asking? {
      ScanNeverEnds([x], judge, 1, n);
    }
  }

  ghost function FirstAbort<R, D, E>(judge: R -> Verdict<D, E>, store: seq<R>): (j: nat)
    requires !NoAbort(judge, store)
    ensures j < |store| && judge(store[j]).Abort? && NoAbort(judge, store[..j])
  {
    var n := |store| - 1;
    if NoAbort(judge, store[..n]) then
      assert forall i | 0 <= i < n :: store[..n][i] == store[i];
      n
    else
      assert forall i | 0 <= i < n :: store[..n][i] == store[i];
      var j := FirstAbort(judge, store[..n]);
      assert store[..n][..j] == store[..j];
      j
  }
}
