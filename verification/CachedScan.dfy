/** The scan for pending delegations with the parameter cache behind its filter. */
module CachedScan {
  import opened Wrappers
  import opened Lists
  import opened Btc
  import opened Types
  import opened Covenant
  import opened Submission
  import opened Chain
  import opened Emulator
  import opened CachedFilter
  import P = Pagination
  import PC = ParamsCache
  import S = StatefulScan
  import V = SigningService

  /** A deployment: the chain and the configuration, the parameter queries, and the channel to the signer. */
  datatype Site = Site(sys: System, params: PC.Chain, channel: V.Channel)

  /** The parameter queries answer what the chain published, and the signer's ring holds this member's key. */
  ghost predicate Linked(site: Site) {
    && Valid(site.sys)
    && site.params.Honest()
    && (forall v :: site.sys.published(v) == PublishedParams(site.params, v))
    && site.channel.codec.Lawful()
    && site.channel.key == site.sys.key
  }

  /** The outside services at one moment: which delegations can be fetched, and what the signer answers. */
  datatype Remote = Remote(reachable: string -> bool, sign: Signer)

  // ---------- the scan with the cache ----------

  /** The scan's treatment of one pending delegation, with the cache it leaves. */
  function Filter(site: Site, reachable: string -> bool, c: ChainState, cache: PC.State, h: Hash)
    : (PC.State, P.Verdict<Delegation, ()>)
  {
    if h !in c.dels then (cache, P.Drop)
    else
      match Convert(c.dels[h])
      case None => (cache, P.Abort(()))
      case Some(del) =>
        var (next, r) :=
          AcceptFrom(site.sys.st, site.params, cache, Reach(site.sys, reachable, c), site.sys.pk, del);
        (next, match r case None => P.Abort(()) case Some(accept) => if accept then P.Keep(del) else P.Drop)
  }

  function FilterOf(site: Site, reachable: string -> bool, c: ChainState): S.Filter<PC.State, Hash, Delegation, ()> {
    (cache: PC.State, h: Hash) => Filter(site, reachable, c, cache, h)
  }

  /** The pending delegations to sign, with the cache the scan leaves. */
  function ScanWithCache(site: Site, reachable: string -> bool, c: ChainState, cache: PC.State)
    : (PC.State, Result<seq<Delegation>, ()>)
  {
    S.ScanFrom(FilterOf(site, reachable, c), site.sys.limit, cache, c.pending)
  }

  /** The plain surroundings in which lookups find what a cache holds. */
  function HeldEnv(remote: Remote, cache: PC.State): Env {
    Env(Held(cache), remote.reachable, remote.sign)
  }

  function HeldJudge(site: Site, remote: Remote, c: ChainState): PC.State -> Hash -> P.Verdict<Delegation, ()> {
    (cache: PC.State) => ScanJudge(site.sys, HeldEnv(remote, cache), c)
  }

  lemma FilterSettles(site: Site, remote: Remote, c: ChainState)
    ensures S.Settles(FilterOf(site, remote.reachable, c), HeldJudge(site, remote, c))
  {
    var filter, judge := FilterOf(site, remote.reachable, c), HeldJudge(site, remote, c);
    forall cache: PC.State, r: Hash ensures judge(filter(cache, r).0)(r) == filter(cache, r).1 {
      FilterAgrees(site, remote, c, cache, r);
    }
    forall cache: PC.State, r: Hash, s: Hash | !judge(cache)(s).Abort?
      ensures judge(filter(cache, r).0)(s) == judge(cache)(s)
    {
      FilterAgrees(site, remote, c, cache, r);
      VerdictStaysHeld(site, remote, c, cache, filter(cache, r).0, s);
    }
  }

  lemma FilterAgrees(site: Site, remote: Remote, c: ChainState, cache: PC.State, h: Hash)
    ensures var (next, verdict) := Filter(site, remote.reachable, c, cache, h);
            Grown(cache, next) && ScanVerdict(site.sys, HeldEnv(remote, next), c, h) == verdict
  {
    if h in c.dels && Convert(c.dels[h]).Some? {
      AcceptFromIsAccept(
        site.sys.st, site.params, cache, Reach(site.sys, remote.reachable, c), site.sys.pk, Convert(c.dels[h]).value);
    }
  }

  lemma VerdictStaysHeld(site: Site, remote: Remote, c: ChainState, a: PC.State, b: PC.State, h: Hash)
    requires Grown(a, b) && !ScanVerdict(site.sys, HeldEnv(remote, a), c, h).Abort?
    ensures ScanVerdict(site.sys, HeldEnv(remote, b), c, h) == ScanVerdict(site.sys, HeldEnv(remote, a), c, h)
  {
    if h in c.dels {
      AcceptStays(site.sys.st, a, b, Reach(site.sys, remote.reachable, c), site.sys.pk, Convert(c.dels[h]).value);
    }
  }

  /** The scan with the cache is the plain scan in which lookups find what the cache holds in the end. */
  lemma ScanWithCacheIsScan(site: Site, remote: Remote, c: ChainState, cache: PC.State)
    ensures var (after, r) := ScanWithCache(site, remote.reachable, c, cache);
            Scan(site.sys, HeldEnv(remote, after), c) == r
  {
    FilterSettles(site, remote, c);
    S.ScanFromIsAnswer(
      FilterOf(site, remote.reachable, c), HeldJudge(site, remote, c), site.sys.limit, cache, c.pending);
  }

  // ---------- the cache stays sound ----------

  lemma SoundHolds(site: Site, cache: PC.State, v: nat)
    requires Linked(site) && PC.Sound(site.params, cache) && Held(cache)(v).Some?
    ensures Held(cache)(v) == site.sys.published(v)
  {
  }

  lemma FilterKeepsSound(site: Site, reachable: string -> bool, c: ChainState, cache: PC.State, h: Hash)
    requires Linked(site) && PC.Sound(site.params, cache)
    ensures PC.Sound(site.params, Filter(site, reachable, c, cache, h).0)
  {
    if h in c.dels && Convert(c.dels[h]).Some? {
      AcceptFromKeepsSound(
        site.sys.st, site.params, cache, Reach(site.sys, reachable, c), site.sys.pk, Convert(c.dels[h]).value);
    }
  }

  lemma FilterOfKeeps(site: Site, reachable: string -> bool, c: ChainState)
    requires Linked(site)
    ensures S.Keeps(FilterOf(site, reachable, c), (cache: PC.State) => PC.Sound(site.params, cache))
  {
    forall cache: PC.State, h: Hash | PC.Sound(site.params, cache)
      ensures PC.Sound(site.params, FilterOf(site, reachable, c)(cache, h).0)
    {
      FilterKeepsSound(site, reachable, c, cache, h);
    }
  }

  lemma ScanKeepsSound(site: Site, reachable: string -> bool, c: ChainState, cache: PC.State)
    requires Linked(site) && PC.Sound(site.params, cache)
    ensures PC.Sound(site.params, ScanWithCache(site, reachable, c, cache).0)
  {
    FilterOfKeeps(site, reachable, c);
    S.CollectFromKeeps(
      FilterOf(site, reachable, c), (now: PC.State) => PC.Sound(site.params, now), site.sys.limit, cache, [],
      P.Stream(c.pending, site.sys.limit));
  }

  // ---------- the scan, page by page ----------

  /** The scan comes to an end: it does not start over, or its first pass accepts something or fails. */
  predicate ScanEnds(site: Site, reachable: string -> bool, c: ChainState, cache: PC.State) {
    S.Ends(FilterOf(site, reachable, c), site.sys.limit, cache, c.pending)
  }

  /** Otherwise the scan is still looking, with nothing found, after any number of passes. */
  lemma OtherwiseNeverEnds(site: Site, reachable: string -> bool, c: ChainState, cache: PC.State, passes: nat)
    requires !ScanEnds(site, reachable, c, cache)
    ensures S.CollectFrom(FilterOf(site, reachable, c), site.sys.limit, cache, [], Repeat(c.pending, passes)).1 ==
            P.More([])
  {
    var remote := Remote(reachable, _ => None);
    FilterSettles(site, remote, c);
    S.StillLooking(
      FilterOf(site, reachable, c), HeldJudge(site, remote, c), site.sys.limit, cache, c.pending, passes);
  }

  /** The inner loop over one page. */
  method TakePage(
    site: Site, cache: PC.CacheVersionedParams, reachable: string -> bool, c: ChainState, dels: seq<Delegation>,
    items: seq<Hash>)
    returns (progress: P.Progress<Delegation, ()>)
    requires cache.chain == site.params
    modifies cache
    ensures (cache.Now(), progress) ==
            S.CollectFrom(FilterOf(site, reachable, c), site.sys.limit, old(cache.Now()), dels, items)
  {
    var found := dels;
    var i := 0;
    ghost var filter := FilterOf(site, reachable, c);
    while i < |items|
      invariant 0 <= i <= |items|
      invariant S.CollectFrom(filter, site.sys.limit, old(cache.Now()), dels, items) ==
                S.CollectFrom(filter, site.sys.limit, cache.Now(), found, items[i..])
    {
      var h := items[i];
      assert items[i..][0] == h && items[i..][1..] == items[i + 1..];
      i := i + 1;
      if h !in c.dels {
        continue;
      }
      var del := Convert(c.dels[h]);
      if del.None? {
        return P.Failed(());
      }
      var accept := AcceptDelegation(site.sys.st, cache, Reach(site.sys, reachable, c), site.sys.pk, del.value);
      if accept.None? {
        return P.Failed(());
      }
      if !accept.value {
        continue;
      }
      found := found + [del.value];
      if |found| == site.sys.limit {
        return P.Full(found);
      }
    }
    progress := P.More(found);
  }

  /** Where the page loop is: the passes behind it and what they found, and where the next page starts. */
  datatype Place = Place(passes: nat, base: PC.State, found: seq<Delegation>, start: nat)

  ghost predicate At(
    site: Site, reachable: string -> bool, c: ChainState, first: PC.State, place: Place, key: Option<nat>,
    now: PC.State, dels: seq<Delegation>)
  {
    && key == P.KeyAt(place.start) && (place.start == |c.pending| ==> place.start == 0)
    && S.OnPage(FilterOf(site, reachable, c), site.sys.limit, first, c.pending, place.passes, place.base, place.found,
                place.start, now, dels)
  }

  /** One query and its page: the scan's result, or the place it goes on from. */
  method QueryPage(
    site: Site, cache: PC.CacheVersionedParams, reachable: string -> bool, c: ChainState, ghost first: PC.State,
    ghost place: Place, key: Option<nat>, dels: seq<Delegation>)
    returns (done: Option<Result<seq<Delegation>, ()>>, next: Option<nat>, more: seq<Delegation>, ghost there: Place)
    requires cache.chain == site.params
    requires ScanEnds(site, reachable, c, first) && At(site, reachable, c, first, place, key, cache.Now(), dels)
    modifies cache
    ensures done.Some? ==> (cache.Now(), done.value) == ScanWithCache(site, reachable, c, first)
    ensures done.None? ==>
              && At(site, reachable, c, first, there, next, cache.Now(), more)
              && (there.passes == place.passes + 1 < site.sys.limit
                  || (there.passes == place.passes && there.start > place.start))
  {
    var page := P.PageLimit(site.sys.limit);
    var res := P.PageAt(c.pending, key, page);
    ghost var now := cache.Now();
    var progress := TakePage(site, cache, reachable, c, dels, res.items);
    PageStep(site, reachable, c, first, place, key, now, dels, cache.Now(), progress);
    done, next, more, there := None, res.next, [], place;
    if !progress.More? || |res.items| != page {
      done := Some(P.Close(progress));
    } else {
      more := progress.dels;
      there := if next.None? then Place(place.passes + 1, cache.Now(), more, 0)
               else place.(start := place.start + page);
    }
  }

  /** What a page that led from `now` to `after` means for the scan. */
  lemma PageStep(
    site: Site, reachable: string -> bool, c: ChainState, first: PC.State, place: Place, key: Option<nat>,
    now: PC.State, dels: seq<Delegation>, after: PC.State, progress: P.Progress<Delegation, ()>)
    requires ScanEnds(site, reachable, c, first) && At(site, reachable, c, first, place, key, now, dels)
    requires (after, progress) ==
             S.CollectFrom(FilterOf(site, reachable, c), site.sys.limit, now, dels,
                           P.PageAt(c.pending, key, P.PageLimit(site.sys.limit)).items)
    ensures var page := P.PageLimit(site.sys.limit);
            var res := P.PageAt(c.pending, key, page);
            if !progress.More? || |res.items| != page
            then (after, P.Close(progress)) == ScanWithCache(site, reachable, c, first)
            else if res.next.None?
            then && place.passes + 1 < site.sys.limit
                 && At(site, reachable, c, first, Place(place.passes + 1, after, progress.dels, 0), None, after,
                       progress.dels)
            else At(site, reachable, c, first, place.(start := place.start + page), res.next, after, progress.dels)
  {
    var store, limit, filter := c.pending, site.sys.limit, FilterOf(site, reachable, c);
    var res := P.PageAt(store, key, P.PageLimit(limit));
    if !progress.More? || |res.items| != P.PageLimit(limit) {
      PageEnds(filter, limit, first, store, place.passes, place.base, place.found, place.start, now, dels);
    } else {
      PageStepOn(site, reachable, c, first, place, key, now, dels, after, progress.dels);
    }
  }

  lemma PageStepOn(
    site: Site, reachable: string -> bool, c: ChainState, first: PC.State, place: Place, key: Option<nat>,
    now: PC.State, dels: seq<Delegation>, after: PC.State, more: seq<Delegation>)
    requires ScanEnds(site, reachable, c, first) && At(site, reachable, c, first, place, key, now, dels)
    requires |P.PageAt(c.pending, key, P.PageLimit(site.sys.limit)).items| == P.PageLimit(site.sys.limit)
    requires (after, P.More(more)) ==
             S.CollectFrom(FilterOf(site, reachable, c), site.sys.limit, now, dels,
                           P.PageAt(c.pending, key, P.PageLimit(site.sys.limit)).items)
    ensures var page := P.PageLimit(site.sys.limit);
            var res := P.PageAt(c.pending, key, page);
            if res.next.None?
            then && place.passes + 1 < site.sys.limit
                 && At(site, reachable, c, first, Place(place.passes + 1, after, more, 0), None, after, more)
            else At(site, reachable, c, first, place.(start := place.start + page), res.next, after, more)
  {
    var store, limit, filter := c.pending, site.sys.limit, FilterOf(site, reachable, c);
    PageGoesOn(filter, limit, first, store, place.passes, place.base, place.found, place.start, now, dels);
    if P.PageAt(store, key, P.PageLimit(limit)).next.None? {
      NextPass(site, reachable, c, first, place.passes, place.base, place.found, after, more);
    }
  }

  lemma AtStart(site: Site, reachable: string -> bool, c: ChainState, first: PC.State)
    requires site.sys.limit > 0
    ensures At(site, reachable, c, first, Place(0, first, [], 0), None, first, [])
  {
    assert c.pending[..0] == [] && Repeat(c.pending, 0) == [];
  }

  /** QueryPendingDelegations, with the emulator's filter and cache. */
  method QueryPendingDelegations(
    site: Site, cache: PC.CacheVersionedParams, reachable: string -> bool, c: ChainState)
    returns (r: Result<seq<Delegation>, ()>)
    requires cache.chain == site.params && ScanEnds(site, reachable, c, cache.Now())
    modifies cache
    ensures (cache.Now(), r) == ScanWithCache(site, reachable, c, old(cache.Now()))
  {
    if site.sys.limit == 0 {
      return Success([]);
    }
    var key: Option<nat>, dels: seq<Delegation> := None, [];
    ghost var first, place := cache.Now(), Place(0, cache.Now(), [], 0);
    AtStart(site, reachable, c, first);
    while true
      invariant At(site, reachable, c, first, place, key, cache.Now(), dels)
      decreases site.sys.limit - place.passes, |c.pending| - place.start
    {
      var done;
      done, key, dels, place := QueryPage(site, cache, reachable, c, first, place, key, dels);
      if done.Some? {
        return done.value;
      }
    }
  }

  /** A page that decides the scan or is not full ends it. */
  lemma PageEnds<C, R, D, E>(
    filter: S.Filter<C, R, D, E>, limit: nat, c: C, store: seq<R>, passes: nat, base: C, found: seq<D>, start: nat,
    now: C, dels: seq<D>)
    requires S.OnPage(filter, limit, c, store, passes, base, found, start, now, dels)
    requires start == |store| ==> start == 0
    requires var items := P.PageAt(store, P.KeyAt(start), P.PageLimit(limit)).items;
             |items| != P.PageLimit(limit) || !S.CollectFrom(filter, limit, now, dels, items).1.More?
    ensures var (after, progress) :=
              S.CollectFrom(filter, limit, now, dels, P.PageAt(store, P.KeyAt(start), P.PageLimit(limit)).items);
            S.ScanFrom(filter, limit, c, store) == (after, P.Close(progress))
  {
    var page := P.PageLimit(limit);
    var items := P.PageAt(store, P.KeyAt(start), page).items;
    var end := start + |items|;
    assert items == store[start..end];
    if |items| != page {
      P.ShortPage(start, |store|, page);
    }
    S.StreamAhead(filter, limit, c, store, passes, base, found, start, now, dels, end);
  }

  /** A full page that does not decide the scan leads to the next page. */
  lemma PageGoesOn<C, R, D, E>(
    filter: S.Filter<C, R, D, E>, limit: nat, c: C, store: seq<R>, passes: nat, base: C, found: seq<D>, start: nat,
    now: C, dels: seq<D>)
    requires S.OnPage(filter, limit, c, store, passes, base, found, start, now, dels)
    requires start == |store| ==> start == 0
    requires var items := P.PageAt(store, P.KeyAt(start), P.PageLimit(limit)).items;
             |items| == P.PageLimit(limit) && S.CollectFrom(filter, limit, now, dels, items).1.More?
    ensures var res := P.PageAt(store, P.KeyAt(start), P.PageLimit(limit));
            var (after, progress) := S.CollectFrom(filter, limit, now, dels, res.items);
            && start + P.PageLimit(limit) <= |store|
            && S.OnPage(filter, limit, c, store, passes, base, found, start + P.PageLimit(limit), after, progress.dels)
            && res.next == if start + P.PageLimit(limit) < |store| then Some(start + P.PageLimit(limit)) else None
  {
    var page := P.PageLimit(limit);
    var items := P.PageAt(store, P.KeyAt(start), page).items;
    assert items == store[start..start + page];
    var (after, progress) := S.CollectFrom(filter, limit, now, dels, items);
    S.OnNextPage(filter, limit, c, store, passes, base, found, start, now, dels, after, progress.dels);
  }

  lemma NextPass(
    site: Site, reachable: string -> bool, c: ChainState, first: PC.State, passes: nat, base: PC.State,
    found: seq<Delegation>, now: PC.State, dels: seq<Delegation>)
    requires ScanEnds(site, reachable, c, first) && |c.pending| > 0
    requires S.OnPage(FilterOf(site, reachable, c), site.sys.limit, first, c.pending, passes, base, found,
                      |c.pending|, now, dels)
    ensures S.OnPage(FilterOf(site, reachable, c), site.sys.limit, first, c.pending, passes + 1, now, dels, 0, now,
                     dels)
    ensures passes + 1 < site.sys.limit
  {
    var remote := Remote(reachable, _ => None);
    FilterSettles(site, remote, c);
    S.OnNextPass(
      FilterOf(site, reachable, c), HeldJudge(site, remote, c), site.sys.limit, first, c.pending, passes, base, found,
      now, dels);
  }

  // ---------- when every lookup succeeds ----------

  /** Lookups that find whatever the chain published. */
  function PlainEnv(site: Site, remote: Remote): Env {
    Env(site.sys.published, remote.reachable, remote.sign)
  }

  lemma ReliableCommittee(site: Site, w: World, cache: PC.State, x: nat, del: Delegation)
    requires Linked(site) && PC.Sound(site.params, cache) && Reliable(site.params) && w.params == site.sys.published
    ensures InCommitteeFrom(site.params, cache, x, del).1 == Covenant.IsKeyInCommittee(w, x, del)
  {
    ReliableLook(site.params, cache, del.paramsVersion);
  }

  lemma ReliableValidate(
    site: Site, w: World, cache: PC.State, x: nat, exp: StakeExpansion, prev: Delegation)
    requires Linked(site) && PC.Sound(site.params, cache) && Reliable(site.params) && w.params == site.sys.published
    ensures ValidateFrom(site.sys.st, site.params, cache, x, exp, prev).1 ==
            ValidateStakeExpansion(site.sys.st, w, x, exp, Some(prev))
  {
    ReliableCommittee(site, w, cache, x, prev);
  }

  lemma ReliableAccept(site: Site, w: World, cache: PC.State, pk: PubKey, del: Delegation)
    requires Linked(site) && PC.Sound(site.params, cache) && Reliable(site.params) && w.params == site.sys.published
    ensures AcceptFrom(site.sys.st, site.params, cache, w.delegation, pk, del).1 == Accept(site.sys.st, w, pk, del)
  {
    ReliableCommittee(site, w, cache, XOnly(pk), del);
    PC.GetIsSound(site.params, cache, del.paramsVersion);
    if del.stakeExpansion.Some? {
      var exp := del.stakeExpansion.value;
      var prev := w.delegation(exp.previousStakingTxHashHex);
      if prev.Some? {
        ReliableValidate(site, w, PC.GetParams(site.params, cache, del.paramsVersion).0, XOnly(pk), exp, prev.value);
      }
    }
  }

  lemma ReliableFilter(site: Site, remote: Remote, c: ChainState, cache: PC.State, h: Hash)
    requires Linked(site) && PC.Sound(site.params, cache) && Reliable(site.params)
    ensures Filter(site, remote.reachable, c, cache, h).1 == ScanVerdict(site.sys, PlainEnv(site, remote), c, h)
  {
    if h in c.dels && Convert(c.dels[h]).Some? {
      ReliableAccept(site, WorldAt(site.sys, PlainEnv(site, remote), c), cache, site.sys.pk, Convert(c.dels[h]).value);
    }
  }

  /** When every lookup succeeds, the scan with the cache is the plain scan, whatever the cache holds. */
  lemma ReliableScan(site: Site, remote: Remote, c: ChainState, cache: PC.State)
    requires Linked(site) && PC.Sound(site.params, cache) && Reliable(site.params)
    ensures ScanWithCache(site, remote.reachable, c, cache).1 == Scan(site.sys, PlainEnv(site, remote), c)
    ensures ScanEnds(site, remote.reachable, c, cache) <==>
            P.Finishes(c.pending, ScanJudge(site.sys, PlainEnv(site, remote), c), site.sys.limit)
  {
    var filter, judge := FilterOf(site, remote.reachable, c), ScanJudge(site.sys, PlainEnv(site, remote), c);
    var sound := (now: PC.State) => PC.Sound(site.params, now);
    FilterOfKeeps(site, remote.reachable, c);
    forall now: PC.State, h: Hash | sound(now) ensures filter(now, h).1 == judge(h) {
      ReliableFilter(site, remote, c, now, h);
    }
    S.FixedScan(filter, sound, judge, site.sys.limit, cache, c.pending);
  }
}
