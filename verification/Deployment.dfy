/** The emulator put together: the submission loop with its parameter cache and the shared remote signer. */
module Deployment {
  import opened Wrappers
  import opened Lists
  import opened Btc
  import opened Types
  import opened Covenant
  import opened Submission
  import opened Chain
  import opened Emulator
  import opened CachedScan
  import opened Safety
  import opened Quorum
  import opened Runs
  import B = Batches
  import F = Freshness
  import P = Pagination
  import PC = ParamsCache
  import RS = RemoteSigning
  import S = StatefulScan
  import V = SigningService

  /** Whatever the signer answers was obtained over the channel. */
  ghost predicate Genuine(site: Site, remote: Remote) {
    forall req :: remote.sign(req).Some? ==>
      V.Obtained(site.sys.st.lib, site.channel, req, remote.sign(req).value)
  }

  ghost predicate AllGenuine(site: Site, remotes: nat -> nat -> Remote) {
    forall k: nat, i: nat :: Genuine(site, remotes(k)(i))
  }

  lemma GenuineIsHonest(site: Site, remote: Remote, req: SigningRequest)
    requires Linked(site) && Genuine(site, remote) && remote.sign(req).Some?
    ensures RS.Answers(site.sys.st.lib, site.sys.key, req, remote.sign(req).value)
  {
    V.ObtainedAnswers(site.sys.st.lib, site.channel, req, remote.sign(req).value);
  }

  // ---------- signing and submitting with the cache ----------

  function ServiceAt(site: Site, remote: Remote, c: ChainState): Service {
    Service(Reach(site.sys, remote.reachable, c), remote.sign)
  }

  function ServicesAt(site: Site, remotes: nat -> Remote, c: ChainState): nat -> Service {
    (i: nat) => ServiceAt(site, remotes(i), c)
  }

  /** One batch, with the cache it leaves. */
  function SubmitWithCache(site: Site, remotes: nat -> Remote, cache: PC.State, s: State, batch: seq<Delegation>)
    : (PC.State, State)
    requires site.sys.st.Lawful()
  {
    var (after, r) :=
      AddWithCache(site.sys.st, site.params, cache, ServicesAt(site, remotes, s.chain), site.sys.pk, batch);
    (after, SubmitResult(site.sys, s, r))
  }

  function SubmitAllWithCache(
    site: Site, remotes: nat -> nat -> Remote, k: nat, cache: PC.State, s: State, batches: seq<seq<Delegation>>)
    : (PC.State, State)
    requires site.sys.st.Lawful()
    decreases |batches|
  {
    if batches == [] then (cache, s)
    else
      var (next, t) := SubmitWithCache(site, remotes(k), cache, s, batches[0]);
      SubmitAllWithCache(site, remotes, k + 1, next, t, batches[1..])
  }

  /** One tick, with the cache it leaves. */
  function TickWithCache(site: Site, remotes: nat -> nat -> Remote, cache: PC.State, s: State): (PC.State, State)
    requires Valid(site.sys)
  {
    var (next, r) := ScanWithCache(site, remotes(0)(0).reachable, s.chain, cache);
    match r
    case Failure(_) => (next, s)
    case Success(dels) => SubmitAllWithCache(site, remotes, 1, next, s, B.Split(dels, site.sys.batchSize))
  }

  ghost function SubmitWithCacheIn(site: Site, remotes: nat -> nat -> Remote)
    : (nat, (PC.State, State), seq<Delegation>) -> (PC.State, State)
  {
    (k: nat, now: (PC.State, State), batch: seq<Delegation>) =>
      if site.sys.st.Lawful() then SubmitWithCache(site, remotes(k), now.0, now.1, batch) else now
  }

  /** `states[j]` are the cache and the state before batch `j`, which is submitted on them whatever became of the
      batches before. */
  ghost predicate InTurnWithCache(
    site: Site, remotes: nat -> nat -> Remote, k: nat, batches: seq<seq<Delegation>>, states: seq<(PC.State, State)>)
    requires site.sys.st.Lawful()
  {
    && |states| == |batches| + 1
    && forall j: nat | j < |batches| ::
         states[j + 1] == SubmitWithCache(site, remotes(k + j), states[j].0, states[j].1, batches[j])
  }

  lemma {:induction false} EveryBatchIsNextWithCache(
    site: Site, remotes: nat -> nat -> Remote, k: nat, cache: PC.State, s: State, batches: seq<seq<Delegation>>)
    returns (states: seq<(PC.State, State)>)
    requires site.sys.st.Lawful()
    ensures Chained(SubmitWithCacheIn(site, remotes), k, batches, states)
    ensures states[0] == (cache, s)
    ensures states[|batches|] == SubmitAllWithCache(site, remotes, k, cache, s, batches)
    decreases |batches|
  {
    if batches == [] {
      states := [(cache, s)];
    } else {
      var (next, t) := SubmitWithCache(site, remotes(k), cache, s, batches[0]);
      var rest := EveryBatchIsNextWithCache(site, remotes, k + 1, next, t, batches[1..]);
      ChainedMore(SubmitWithCacheIn(site, remotes), k, (cache, s), batches, rest);
      states := [(cache, s)] + rest;
    }
  }

  lemma EveryBatchHasItsTurnWithCache(
    site: Site, remotes: nat -> nat -> Remote, k: nat, cache: PC.State, s: State, batches: seq<seq<Delegation>>)
    returns (states: seq<(PC.State, State)>)
    requires site.sys.st.Lawful()
    ensures InTurnWithCache(site, remotes, k, batches, states)
    ensures states[0] == (cache, s)
    ensures states[|batches|] == SubmitAllWithCache(site, remotes, k, cache, s, batches)
  {
    states := EveryBatchIsNextWithCache(site, remotes, k, cache, s, batches);
    forall j: nat | j < |batches|
      ensures states[j + 1] == SubmitWithCache(site, remotes(k + j), states[j].0, states[j].1, batches[j])
    {
      assert states[j + 1] == SubmitWithCacheIn(site, remotes)(k + j, states[j], batches[j]);
    }
  }

  /** A tick whose scan fails changes nothing but the cache; any other submits every batch of the scan's answer, one
      after the other, each with the cache the one before left. */
  lemma TockTakesTurns(site: Site, remotes: nat -> nat -> Remote, cache: PC.State, s: State)
    returns (states: seq<(PC.State, State)>)
    requires Valid(site.sys)
    ensures var (next, r) := ScanWithCache(site, remotes(0)(0).reachable, s.chain, cache);
            match r
            case Failure(_) => TickWithCache(site, remotes, cache, s) == (next, s)
            case Success(dels) =>
              var batches := B.Split(dels, site.sys.batchSize);
              && InTurnWithCache(site, remotes, 1, batches, states)
              && states[0] == (next, s) && states[|batches|] == TickWithCache(site, remotes, cache, s)
  {
    var (next, r) := ScanWithCache(site, remotes(0)(0).reachable, s.chain, cache);
    states := [];
    if r.Success? {
      states := EveryBatchHasItsTurnWithCache(site, remotes, 1, next, s, B.Split(r.value, site.sys.batchSize));
    }
  }

  // ---------- which is the plain tick in honest surroundings ----------

  lemma HeldEnvIsHonest(site: Site, remote: Remote, cache: PC.State)
    requires Linked(site) && PC.Sound(site.params, cache) && Genuine(site, remote)
    ensures HonestEnv(site.sys, HeldEnv(remote, cache))
  {
    var env := HeldEnv(remote, cache);
    forall v | env.params(v).Some? ensures env.params(v) == site.sys.published(v) {
      SoundHolds(site, cache, v);
    }
    forall req | env.sign(req).Some?
      ensures RS.Answers(site.sys.st.lib, site.sys.key, req, env.sign(req).value)
    {
      GenuineIsHonest(site, remote, req);
    }
  }

  /** What the scan with the cache returns. */
  lemma AnswerIsScanned(site: Site, reachable: string -> bool, c: ChainState, cache: PC.State)
    requires Linked(site) && PC.Sound(site.params, cache) && WellFormed(site.sys, c)
    requires ScanWithCache(site, reachable, c, cache).1.Success?
    ensures var dels := ScanWithCache(site, reachable, c, cache).1.value;
            |dels| <= site.sys.limit && AllScanned(site.sys, c, dels)
  {
    var remote := Remote(reachable, _ => None);
    var after := ScanWithCache(site, reachable, c, cache).0;
    ScanWithCacheIsScan(site, remote, c, cache);
    ScanKeepsSound(site, reachable, c, cache);
    HeldEnvIsHonest(site, remote, after);
    ScanReturnsScanned(site.sys, HeldEnv(remote, after), c);
    P.AnswerWithinLimit(c.pending, ScanJudge(site.sys, HeldEnv(remote, after), c), site.sys.limit);
  }

  /** The surroundings that the loop's turns amount to. */
  function EnvAt(
    site: Site, remotes: nat -> Remote, cache: PC.State, c: ChainState, batch: seq<Delegation>, i: nat): Env
    requires site.sys.st.Lawful()
  {
    if i < |batch| then
      var turn := TurnAt(site.sys.st, site.params, cache, ServicesAt(site, remotes, c), site.sys.pk, batch, i);
      Env(turn.world.params, remotes(i).reachable, remotes(i).sign)
    else Env(_ => None, _ => false, _ => None)
  }

  function EnvsAt(site: Site, remotes: nat -> Remote, cache: PC.State, c: ChainState, batch: seq<Delegation>)
    : nat -> Env
    requires site.sys.st.Lawful()
  {
    (i: nat) requires site.sys.st.Lawful() => EnvAt(site, remotes, cache, c, batch, i)
  }

  lemma SubmitWithCacheIsSubmit(
    site: Site, remotes: nat -> Remote, cache: PC.State, s: State, batch: seq<Delegation>)
    requires site.sys.st.Lawful()
    ensures SubmitWithCache(site, remotes, cache, s, batch).1 ==
            SubmitBatch(site.sys, EnvsAt(site, remotes, cache, s.chain, batch), s, batch)
  {
    var services, env := ServicesAt(site, remotes, s.chain), EnvsAt(site, remotes, cache, s.chain, batch);
    var turns := TurnsOf(site.sys.st, site.params, cache, services, site.sys.pk, batch);
    forall i | 0 <= i < |batch| ensures turns[i] == TurnsAt(site.sys, env, s.chain, batch)[i] {
      SameTurn(site, remotes, cache, s.chain, batch, i);
    }
    assert turns == TurnsAt(site.sys, env, s.chain, batch);
    LoopIsImage(site.sys.st, site.params, cache, services, site.sys.pk, batch);
  }

  lemma SameTurn(
    site: Site, remotes: nat -> Remote, cache: PC.State, c: ChainState, batch: seq<Delegation>, i: nat)
    requires site.sys.st.Lawful() && i < |batch|
    ensures var env := EnvAt(site, remotes, cache, c, batch, i);
            TurnAt(site.sys.st, site.params, cache, ServicesAt(site, remotes, c), site.sys.pk, batch, i) ==
            Turn(batch[i], WorldAt(site.sys, env, c), env.sign)
  {
  }

  lemma EnvIsHonest(
    site: Site, remotes: nat -> Remote, cache: PC.State, c: ChainState, batch: seq<Delegation>, i: nat)
    requires Linked(site) && PC.Sound(site.params, cache) && Genuine(site, remotes(i))
    ensures HonestEnv(site.sys, EnvAt(site, remotes, cache, c, batch, i))
  {
    var env := EnvAt(site, remotes, cache, c, batch, i);
    forall v | env.params(v).Some? ensures env.params(v) == site.sys.published(v) {
      TurnsSeePublished(
        site.sys.st, site.params, cache, ServicesAt(site, remotes, c), site.sys.pk, batch, i, v);
    }
    forall req | env.sign(req).Some?
      ensures RS.Answers(site.sys.st.lib, site.sys.key, req, env.sign(req).value)
    {
      GenuineIsHonest(site, remotes(i), req);
    }
  }

  lemma SubmitKeepsSound(
    site: Site, remotes: nat -> Remote, cache: PC.State, s: State, batch: seq<Delegation>)
    requires Linked(site) && PC.Sound(site.params, cache)
    ensures PC.Sound(site.params, SubmitWithCache(site, remotes, cache, s, batch).0)
  {
    TurnsKeepSound(
      site.sys.st, site.params, cache, ServicesAt(site, remotes, s.chain), site.sys.pk, batch);
  }

  /** Only the surroundings of the phases still to come matter. */
  lemma {:induction false} SameSubmission(
    sys: System, env: nat -> nat -> Env, other: nat -> nat -> Env, k: nat, s: State, batches: seq<seq<Delegation>>)
    requires sys.st.Lawful() && forall j: nat | k <= j :: env(j) == other(j)
    ensures SubmitBatches(sys, env, k, s, batches) == SubmitBatches(sys, other, k, s, batches)
    decreases |batches|
  {
    if batches != [] {
      SameSubmission(sys, env, other, k + 1, SubmitBatch(sys, env(k), s, batches[0]), batches[1..]);
    }
  }

  function Replace(env: nat -> nat -> Env, k: nat, here: nat -> Env): nat -> nat -> Env {
    (j: nat) => if j == k then here else env(j)
  }

  function Silent(): nat -> nat -> Env {
    (k: nat) => (i: nat) => Env(_ => None, _ => false, _ => None)
  }

  /** The batches of a tick with the cache are plain batches in honest surroundings. */
  lemma {:induction false} SubmissionRefines(
    site: Site, remotes: nat -> nat -> Remote, k: nat, cache: PC.State, s: State, batches: seq<seq<Delegation>>)
    returns (env: nat -> nat -> Env)
    requires Linked(site) && PC.Sound(site.params, cache) && AllGenuine(site, remotes)
    ensures HonestEnvs(site.sys, env)
    ensures var (after, t) := SubmitAllWithCache(site, remotes, k, cache, s, batches);
            PC.Sound(site.params, after) && t == SubmitBatches(site.sys, env, k, s, batches)
    decreases |batches|
  {
    if batches == [] {
      env := Silent();
    } else {
      var here := EnvsAt(site, remotes(k), cache, s.chain, batches[0]);
      var (next, t) := SubmitWithCache(site, remotes(k), cache, s, batches[0]);
      SubmitKeepsSound(site, remotes(k), cache, s, batches[0]);
      SubmitWithCacheIsSubmit(site, remotes(k), cache, s, batches[0]);
      var rest := SubmissionRefines(site, remotes, k + 1, next, t, batches[1..]);
      env := Replace(rest, k, here);
      forall i: nat ensures HonestEnv(site.sys, here(i)) {
        EnvIsHonest(site, remotes(k), cache, s.chain, batches[0], i);
      }
      SameSubmission(site.sys, env, rest, k + 1, t, batches[1..]);
    }
  }

  /** The scan does not start over, its first pass decides it, or its answer fits into a single batch. */
  predicate CalmTick(site: Site, reachable: string -> bool, c: ChainState, cache: PC.State) {
    || site.sys.limit <= site.sys.batchSize
    || !P.Wraps(|c.pending|, site.sys.limit)
    || !S.CollectFrom(FilterOf(site, reachable, c), site.sys.limit, cache, [], c.pending).1.More?
  }

  lemma CalmIsOnePass(site: Site, remote: Remote, c: ChainState, cache: PC.State)
    requires CalmTick(site, remote.reachable, c, cache)
    ensures F.NoRepeats(site.sys, HeldEnv(remote, ScanWithCache(site, remote.reachable, c, cache).0), c)
  {
    if site.sys.limit > site.sys.batchSize && P.Wraps(|c.pending|, site.sys.limit) {
      FilterSettles(site, remote, c);
      S.DecidedInOnePass(
        FilterOf(site, remote.reachable, c), HeldJudge(site, remote, c), site.sys.limit, cache, c.pending);
    }
  }

  /** A tick with the cache and the shared signer is a plain tick in honest surroundings, and its scan comes to an
      end. */
  lemma TickRefines(site: Site, remotes: nat -> nat -> Remote, cache: PC.State, s: State)
    returns (env: nat -> nat -> Env)
    requires Linked(site) && PC.Sound(site.params, cache) && AllGenuine(site, remotes)
    requires ScanEnds(site, remotes(0)(0).reachable, s.chain, cache)
    ensures HonestEnvs(site.sys, env)
    ensures P.Finishes(s.chain.pending, ScanJudge(site.sys, env(0)(0), s.chain), site.sys.limit)
    ensures var (after, t) := TickWithCache(site, remotes, cache, s);
            PC.Sound(site.params, after) && t == Tick(site.sys, env, s)
    ensures CalmTick(site, remotes(0)(0).reachable, s.chain, cache) ==> F.NoRepeats(site.sys, env(0)(0), s.chain)
  {
    var remote := remotes(0)(0);
    var (next, r) := ScanWithCache(site, remote.reachable, s.chain, cache);
    var held := HeldEnv(remote, next);
    ScanWithCacheIsScan(site, remote, s.chain, cache);
    ScanKeepsSound(site, remote.reachable, s.chain, cache);
    assert Genuine(site, remotes(0)(0));
    HeldEnvIsHonest(site, remote, next);
    FilterSettles(site, remote, s.chain);
    S.EndsIsFinishes(
      FilterOf(site, remote.reachable, s.chain), HeldJudge(site, remote, s.chain), site.sys.limit, cache,
      s.chain.pending);
    if CalmTick(site, remote.reachable, s.chain, cache) {
      CalmIsOnePass(site, remote, s.chain, cache);
    }
    var rest := Silent();
    if r.Success? {
      rest := SubmissionRefines(site, remotes, 1, next, s, B.Split(r.value, site.sys.batchSize));
      env := Replace(rest, 0, Steady(held));
      SameSubmission(site.sys, env, rest, 1, s, B.Split(r.value, site.sys.batchSize));
    } else {
      env := Replace(rest, 0, Steady(held));
    }
  }

  // ---------- the reaction to the ticker ----------

  lemma FetchedIsSane(sys: System, c: ChainState, text: string)
    requires WellFormed(sys, c) && Fetch(sys, c, text).Some?
    ensures Fetch(sys, c, text).value.stakingTime <= MAX_UINT16
  {
    var h := sys.st.parseHash(text).value;
    assert c.dels[h].stakingTime <= MAX_UINT16;
  }

  lemma ReachIsSane(sys: System, reachable: string -> bool, c: ChainState)
    requires WellFormed(sys, c)
    ensures Sane(Reach(sys, reachable, c))
  {
    var query := Reach(sys, reachable, c);
    forall text: string | query(text).Some? ensures query(text).value.stakingTime <= MAX_UINT16 {
      FetchedIsSane(sys, c, text);
    }
  }

  /** Staking times that the Go code can represent. */
  ghost predicate BatchSane(batch: seq<Delegation>) {
    forall i | 0 <= i < |batch| :: batch[i].stakingTime <= MAX_UINT16
  }

  lemma ScannedAreSane(sys: System, c: ChainState, batches: seq<seq<Delegation>>)
    requires WellFormed(sys, c) && BatchesScanned(sys, c, batches)
    ensures forall k | 0 <= k < |batches| :: BatchSane(batches[k])
  {
    forall k, i | 0 <= k < |batches| && 0 <= i < |batches[k]| ensures batches[k][i].stakingTime <= MAX_UINT16 {
      assert AllScanned(sys, c, batches[k]);
      assert IsScanned(sys, c, batches[k][i]);
    }
  }

  /** Scan, split, sign and submit, all lookups through the one cache. */
  method RunTick(site: Site, cache: PC.CacheVersionedParams, remotes: nat -> nat -> Remote, s: State)
    returns (after: State)
    requires Linked(site) && site.sys.batchSize < B.TWO_64 && site.sys.limit < B.TWO_63
    requires cache.chain == site.params && PC.Sound(site.params, cache.Now())
    requires WellFormed(site.sys, s.chain) && ScanEnds(site, remotes(0)(0).reachable, s.chain, cache.Now())
    modifies cache
    ensures (cache.Now(), after) == TickWithCache(site, remotes, old(cache.Now()), s)
  {
    var r := QueryPendingDelegations(site, cache, remotes(0)(0).reachable, s.chain);
    if r.Failure? {
      return s;
    }
    AnswerIsScanned(site, remotes(0)(0).reachable, s.chain, old(cache.Now()));
    SplitScanned(site.sys, s.chain, r.value, site.sys.batchSize);
    var batches := B.DelegationsToBatches(r.value, site.sys.batchSize);
    ScannedAreSane(site.sys, s.chain, batches);
    after := SubmitAll(site, cache, remotes, s, batches);
  }

  /** The loop over the batches of a tick. */
  method SubmitAll(
    site: Site, cache: PC.CacheVersionedParams, remotes: nat -> nat -> Remote, s: State, batches: seq<seq<Delegation>>)
    returns (after: State)
    requires Linked(site) && cache.chain == site.params
    requires WellFormed(site.sys, s.chain) && forall k | 0 <= k < |batches| :: BatchSane(batches[k])
    modifies cache
    ensures (cache.Now(), after) == SubmitAllWithCache(site, remotes, 1, old(cache.Now()), s, batches)
  {
    after := s;
    var i := 0;
    while i < |batches|
      invariant 0 <= i <= |batches| && WellFormed(site.sys, after.chain)
      invariant SubmitAllWithCache(site, remotes, 1, old(cache.Now()), s, batches) ==
                SubmitAllWithCache(site, remotes, 1 + i, cache.Now(), after, batches[i..])
    {
      assert batches[i..][0] == batches[i] && batches[i..][1..] == batches[i + 1..];
      after := SubmitOne(site, cache, remotes(1 + i), after, batches[i]);
      i := i + 1;
    }
  }

  /** AddCovenantSignatures of one batch, and the submission of what it signed. */
  method SubmitOne(
    site: Site, cache: PC.CacheVersionedParams, remotes: nat -> Remote, s: State, batch: seq<Delegation>)
    returns (after: State)
    requires site.sys.st.Lawful() && cache.chain == site.params && WellFormed(site.sys, s.chain)
    requires BatchSane(batch)
    modifies cache
    ensures (cache.Now(), after) == SubmitWithCache(site, remotes, old(cache.Now()), s, batch)
    ensures WellFormed(site.sys, after.chain)
  {
    var services := ServicesAt(site, remotes, s.chain);
    forall j: nat ensures Sane(services(j).query) {
      ReachIsSane(site.sys, remotes(j).reachable, s.chain);
    }
    var result := AddCovenantSignatures(site.sys.st, cache, services, site.sys.pk, batch);
    SubmitExtends(site.sys, s, result);
    after := SubmitResult(site.sys, s, result);
  }

  // ---------- deployed runs ----------

  /** What happens to a deployment: the rest of the world acts, a tick with the services it meets, a late execution, the
      emulator starts again with an empty cache. */
  datatype Event =
    | Growth(next: ChainState)
    | Tock(remotes: nat -> nat -> Remote)
    | LateExecution(sent: nat)
    | Restart(attempt: (nat, nat) -> PC.Attempt)

  const EMPTY := PC.State(map[], [])

  /** The deployment after an event: the emulator that starts again has its queries answered anew. */
  function SiteAfter(site: Site, e: Event): Site {
    if e.Restart? then site.(params := site.params.(attempt := e.attempt)) else site
  }

  function StepWithCache(site: Site, cache: PC.State, s: State, e: Event): (PC.State, State)
    requires Valid(site.sys)
  {
    match e
    case Growth(next) => (cache, s.(chain := next))
    case Tock(remotes) => TickWithCache(site, remotes, cache, s)
    case LateExecution(j) => (cache, Step(site.sys, s, Late(j)))
    case Restart(_) => (EMPTY, s)
  }

  function RunWithCache(site: Site, cache: PC.State, s: State, events: seq<Event>): (PC.State, State)
    requires Valid(site.sys)
    decreases |events|
  {
    if events == [] then (cache, s)
    else
      var (next, t) := StepWithCache(site, cache, s, events[0]);
      RunWithCache(SiteAfter(site, events[0]), next, t, events[1..])
  }

  ghost predicate Possible(site: Site, cache: PC.State, s: State, e: Event) {
    match e
    case Growth(next) => Grows(site.sys, s.chain, next)
    case Tock(remotes) => AllGenuine(site, remotes) && ScanEnds(site, remotes(0)(0).reachable, s.chain, cache)
    case LateExecution(_) => true
    case Restart(_) => SiteAfter(site, e).params.Honest()
  }

  ghost predicate PossibleRun(site: Site, cache: PC.State, s: State, events: seq<Event>)
    requires Valid(site.sys)
    decreases |events|
  {
    events == [] ||
    (&& Possible(site, cache, s, events[0])
     && var (next, t) := StepWithCache(site, cache, s, events[0]);
        PossibleRun(SiteAfter(site, events[0]), next, t, events[1..]))
  }

  predicate CalmEvent(site: Site, cache: PC.State, s: State, e: Event) {
    e.Tock? ==> CalmTick(site, e.remotes(0)(0).reachable, s.chain, cache)
  }

  /** Every tick of the run scans in one pass or submits a single batch. */
  predicate Calm(site: Site, cache: PC.State, s: State, events: seq<Event>)
    requires Valid(site.sys)
    decreases |events|
  {
    events == [] ||
    (&& CalmEvent(site, cache, s, events[0])
     && var (next, t) := StepWithCache(site, cache, s, events[0]);
        Calm(SiteAfter(site, events[0]), next, t, events[1..]))
  }

  predicate Punctual(events: seq<Event>) {
    forall i | 0 <= i < |events| :: !events[i].LateExecution?
  }

  /** A step of a deployment is a step of the plain loop, or none. */
  lemma StepRefines(site: Site, cache: PC.State, s: State, e: Event) returns (a: Action)
    requires Linked(site) && PC.Sound(site.params, cache) && Possible(site, cache, s, e) && !e.Restart?
    ensures Legal(site.sys, s, a) && (a.Late? ==> e.LateExecution?)
    ensures var (next, t) := StepWithCache(site, cache, s, e);
            PC.Sound(site.params, next) && t == Step(site.sys, s, a)
    ensures CalmEvent(site, cache, s, e) && a.Ticks? ==> F.NoRepeats(site.sys, a.env(0)(0), s.chain)
  {
    match e
    case Growth(next) => a := Grow(next);
    case LateExecution(j) => a := Late(j);
    case Tock(remotes) =>
      var env := TickRefines(site, remotes, cache, s);
      a := Ticks(env);
  }

  /** Starting again leaves the deployment linked and the rest of the world as it is. */
  lemma RestartIsHarmless(site: Site, cache: PC.State, s: State, e: Event)
    requires Linked(site) && Possible(site, cache, s, e) && e.Restart?
    ensures Linked(SiteAfter(site, e)) && PC.Sound(SiteAfter(site, e).params, EMPTY)
    ensures StepWithCache(site, cache, s, e) == (EMPTY, s)
  {
    forall v: nat ensures site.sys.published(v) == PublishedParams(SiteAfter(site, e).params, v) {
      assert site.sys.published(v) == PublishedParams(site.params, v);
    }
  }

  /** Every run of a deployment is a run of the plain loop. */
  lemma {:induction false} RunRefines(site: Site, cache: PC.State, s: State, events: seq<Event>)
    returns (actions: seq<Action>)
    requires Linked(site) && PC.Sound(site.params, cache) && PossibleRun(site, cache, s, events)
    ensures LegalRun(site.sys, s, actions)
    ensures RunWithCache(site, cache, s, events).1 == Run(site.sys, s, actions)
    ensures Punctual(events) ==> NoLate(actions)
    ensures Calm(site, cache, s, events) ==> F.NeverRepeats(site.sys, s, actions)
    decreases |events|
  {
    if events == [] {
      actions := [];
    } else if events[0].Restart? {
      RestartIsHarmless(site, cache, s, events[0]);
      actions := RunRefines(SiteAfter(site, events[0]), EMPTY, s, events[1..]);
    } else {
      var (next, t) := StepWithCache(site, cache, s, events[0]);
      var a := StepRefines(site, cache, s, events[0]);
      var rest := RunRefines(site, next, t, events[1..]);
      actions := [a] + rest;
      assert actions[1..] == rest;
    }
  }

  /** Every run of a deployment that starts with an empty cache, whatever queries fail, however the signer is locked,
      unlocked and shared, and whenever the emulator starts again: every signature stored was sent, everything sent was
      made by the rules and while the quorum was open to this member, and no delegation is signed twice. Without late
      executions this member's signatures are among those that make up the quorum; with ticks that scan in one pass or
      submit a single batch, nothing is sent for a delegation after this member's signature on it is recorded or its
      quorum is reached. */
  lemma DeployedRunIsSafe(site: Site, s: State, events: seq<Event>)
    requires Linked(site) && Start(site.sys, s) && PossibleRun(site, EMPTY, s, events)
    ensures var t := RunWithCache(site, EMPTY, s, events).1;
            && Runs.Sound(site.sys, t)
            && (Punctual(events) ==> WithinQuorum(site.sys, t.chain))
            && (Calm(site, EMPTY, s, events) ==> F.AllFresh(site.sys, t.sends) && F.AllOpen(site.sys, t.sends))
  {
    var actions := RunRefines(site, EMPTY, s, events);
    RunIsSafe(site.sys, s, actions);
    if Calm(site, EMPTY, s, events) {
      StartIsInv(site.sys, s);
      F.RunSendsFresh(site.sys, s, actions);
    }
  }

  // ---------- when every lookup succeeds ----------

  function PlainEnvs(site: Site, remotes: nat -> nat -> Remote): nat -> nat -> Env {
    (k: nat) => (i: nat) => PlainEnv(site, remotes(k)(i))
  }

  lemma PlainEnvsAreHonest(site: Site, remotes: nat -> nat -> Remote)
    requires Linked(site) && AllGenuine(site, remotes)
    ensures HonestEnvs(site.sys, PlainEnvs(site, remotes))
  {
    forall k: nat, i: nat, req | remotes(k)(i).sign(req).Some?
      ensures RS.Answers(site.sys.st.lib, site.sys.key, req, remotes(k)(i).sign(req).value)
    {
      assert Genuine(site, remotes(k)(i));
      GenuineIsHonest(site, remotes(k)(i), req);
    }
  }

  function JobsAt(site: Site, remotes: nat -> Remote, c: ChainState, batch: seq<Delegation>): (jobs: seq<Job>)
    ensures |jobs| == |batch|
    ensures forall i | 0 <= i < |batch| :: jobs[i] == Job(batch[i], ServiceAt(site, remotes(i), c))
  {
    seq(|batch|, i requires 0 <= i < |batch| => Job(batch[i], ServiceAt(site, remotes(i), c)))
  }

  lemma ReliableSubmit(site: Site, remotes: nat -> Remote, cache: PC.State, s: State, batch: seq<Delegation>)
    requires Linked(site) && PC.Sound(site.params, cache) && Reliable(site.params)
    ensures SubmitWithCache(site, remotes, cache, s, batch).1 ==
            SubmitBatch(site.sys, (i: nat) => PlainEnv(site, remotes(i)), s, batch)
  {
    var env := (i: nat) => PlainEnv(site, remotes(i));
    var jobs := JobsAt(site, remotes, s.chain, batch);
    ReliableLoopIsPlain(
      site.sys.st, site.params, cache, ServicesAt(site, remotes, s.chain), site.sys.pk, batch, jobs);
    var plain, turns := PlainTurns(site.params, jobs), TurnsAt(site.sys, env, s.chain, batch);
    forall i | 0 <= i < |batch|
      ensures LacksParams(plain[i]) == LacksParams(turns[i])
      ensures VerdictIn(site.sys.st, site.sys.pk, plain[i]) == VerdictIn(site.sys.st, site.sys.pk, turns[i])
    {
      ReliableVerdict(site, remotes(i), s.chain, batch[i]);
    }
    SameSigning(site.sys.st, site.sys.pk, plain, turns);
  }

  lemma ReliableVerdict(site: Site, remote: Remote, c: ChainState, del: Delegation)
    requires Linked(site)
    ensures var plain := PlainTurn(site.params, Job(del, ServiceAt(site, remote, c)));
            var turn := Turn(del, WorldAt(site.sys, PlainEnv(site, remote), c), remote.sign);
            && LacksParams(plain) == LacksParams(turn)
            && VerdictIn(site.sys.st, site.sys.pk, plain) == VerdictIn(site.sys.st, site.sys.pk, turn)
  {
    var plain := PlainTurn(site.params, Job(del, ServiceAt(site, remote, c)));
    var w := WorldAt(site.sys, PlainEnv(site, remote), c);
    if del.btcUndelegation.Some? && w.params(del.paramsVersion).Some? {
      SameJudge(
        site.sys.st, plain.world, w, remote.sign, site.sys.pk, del, w.params(del.paramsVersion).value);
    }
  }

  lemma {:induction false} ReliableSubmission(
    site: Site, remotes: nat -> nat -> Remote, k: nat, cache: PC.State, s: State, batches: seq<seq<Delegation>>)
    requires Linked(site) && PC.Sound(site.params, cache) && Reliable(site.params)
    ensures SubmitAllWithCache(site, remotes, k, cache, s, batches).1 ==
            SubmitBatches(site.sys, PlainEnvs(site, remotes), k, s, batches)
    decreases |batches|
  {
    if batches != [] {
      var (next, t) := SubmitWithCache(site, remotes(k), cache, s, batches[0]);
      SubmitKeepsSound(site, remotes(k), cache, s, batches[0]);
      ReliableSubmit(site, remotes(k), cache, s, batches[0]);
      SameTurns(
        site.sys, (i: nat) => PlainEnv(site, remotes(k)(i)), PlainEnvs(site, remotes)(k), s, batches[0]);
      ReliableSubmission(site, remotes, k + 1, next, t, batches[1..]);
    }
  }

  lemma SameTurns(sys: System, a: nat -> Env, b: nat -> Env, s: State, batch: seq<Delegation>)
    requires sys.st.Lawful() && forall i: nat :: a(i) == b(i)
    ensures SubmitBatch(sys, a, s, batch) == SubmitBatch(sys, b, s, batch)
  {
    assert TurnsAt(sys, a, s.chain, batch) == TurnsAt(sys, b, s.chain, batch);
  }

  /** When every lookup succeeds, a tick with the cache is the plain tick, whatever the cache holds. */
  lemma ReliableTick(site: Site, remotes: nat -> nat -> Remote, cache: PC.State, s: State)
    requires Linked(site) && PC.Sound(site.params, cache) && Reliable(site.params)
    ensures TickWithCache(site, remotes, cache, s).1 == Tick(site.sys, PlainEnvs(site, remotes), s)
  {
    var (next, r) := ScanWithCache(site, remotes(0)(0).reachable, s.chain, cache);
    ReliableScan(site, remotes(0)(0), s.chain, cache);
    ScanKeepsSound(site, remotes(0)(0).reachable, s.chain, cache);
    if r.Success? {
      ReliableSubmission(site, remotes, 1, next, s, B.Split(r.value, site.sys.batchSize));
    }
  }

  /** When nothing goes wrong, a tick of a deployment re-sends a recorded delegation exactly when its scan starts over
      and its answer does not fit into one batch. */
  lemma TockResendsIff(site: Site, remotes: nat -> nat -> Remote, cache: PC.State, s: State)
    requires Linked(site) && PC.Sound(site.params, cache) && Reliable(site.params) && AllGenuine(site, remotes)
    requires WellFormed(site.sys, s.chain) && F.AllFresh(site.sys, s.sends)
    requires F.Cooperative(site.sys, PlainEnvs(site, remotes), s.chain)
    requires ScanEnds(site, remotes(0)(0).reachable, s.chain, cache)
    ensures F.AllFresh(site.sys, TickWithCache(site, remotes, cache, s).1.sends) <==>
            F.NoRepeats(site.sys, PlainEnv(site, remotes(0)(0)), s.chain)
  {
    PlainEnvsAreHonest(site, remotes);
    ReliableTick(site, remotes, cache, s);
    ReliableScan(site, remotes(0)(0), s.chain, cache);
    F.TickResendsIff(site.sys, PlainEnvs(site, remotes), s);
  }
}
