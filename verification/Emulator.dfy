/** The submission loop over whole runs: ticks of the emulator interleaved with growth of the chain. */
module Emulator {
  import opened Wrappers
  import opened Lists
  import opened Btc
  import opened Types
  import opened Covenant
  import opened Submission
  import opened Chain
  import P = Pagination
  import B = Batches
  import R = Resend
  import RS = RemoteSigning

  /** A batch handed to the network, and the chain state it was handed to. */
  datatype Send = Send(at: ChainState, batch: seq<CovenantSigs>)

  datatype State = State(chain: ChainState, sends: seq<Send>)

  /** The services around the emulator at one moment: which parameters and delegations can be fetched, and the
      signer. */
  datatype Env = Env(params: nat -> Option<Versioned>, reachable: string -> bool, sign: Signer)

  /** The delegations of chain `c` that can be fetched. */
  function Reach(sys: System, reachable: string -> bool, c: ChainState): string -> Option<Delegation> {
    (hashHex: string) => if reachable(hashHex) then Fetch(sys, c, hashHex) else None
  }

  /** What the emulator can find out about chain `c`. */
  function WorldAt(sys: System, env: Env, c: ChainState): World {
    World(env.params, Reach(sys, env.reachable, c))
  }

  /** What is true of chain `c`. */
  function TrueWorld(sys: System, c: ChainState): World {
    World(sys.published, (hashHex: string) => Fetch(sys, c, hashHex))
  }

  /** The scan's treatment of one pending delegation: conversion, then the filter. */
  function ScanVerdict(sys: System, env: Env, c: ChainState, h: Hash): P.Verdict<Delegation, ()> {
    if h !in c.dels then P.Drop
    else
      match Convert(c.dels[h])
      case None => P.Abort(())
      case Some(del) =>
        match Accept(sys.st, WorldAt(sys, env, c), sys.pk, del)
        case None => P.Abort(())
        case Some(accept) => if accept then P.Keep(del) else P.Drop
  }

  function ScanJudge(sys: System, env: Env, c: ChainState): Hash -> P.Verdict<Delegation, ()> {
    (h: Hash) => ScanVerdict(sys, env, c, h)
  }

  function Scan(sys: System, env: Env, c: ChainState): Result<seq<Delegation>, ()> {
    P.Answer(c.pending, ScanJudge(sys, env, c), sys.limit)
  }

  function NetAt(sys: System, c: ChainState): R.Network<CovenantSigs> {
    (i: nat, batch: seq<CovenantSigs>) => sys.net(c, i, batch)
  }

  function ResendAt(sys: System, c: ChainState, msgs: seq<CovenantSigs>): R.Run<CovenantSigs> {
    R.Resend(R.NamedMessage, NetAt(sys, c), msgs, sys.cap)
  }

  /** The chain after a batch was executed; unchanged when a message of it fails. */
  function Committing(sys: System, c: ChainState, batch: seq<CovenantSigs>): ChainState {
    match R.Execute(ApplyOf(sys), c, batch)
    case Success(next) => next
    case Failure(_) => c
  }

  /** The chain after a run of the resend loop. */
  function After(sys: System, c: ChainState, run: R.Run<CovenantSigs>): ChainState {
    match run.Committed()
    case None => c
    case Some(batch) => Committing(sys, c, batch)
  }

  function SendsAt(c: ChainState, run: R.Run<CovenantSigs>): seq<Send> {
    Map((batch: seq<CovenantSigs>) => Send(c, batch), run.Sends())
  }

  /** The turns of a batch on chain `c`; `env(i)` surrounds the turn of delegation `i`. */
  function TurnsAt(sys: System, env: nat -> Env, c: ChainState, batch: seq<Delegation>): (turns: seq<Turn>)
    ensures |turns| == |batch|
    ensures forall i | 0 <= i < |batch| :: turns[i] == Turn(batch[i], WorldAt(sys, env(i), c), env(i).sign)
  {
    seq(|batch|, i requires 0 <= i < |batch| => Turn(batch[i], WorldAt(sys, env(i), c), env(i).sign))
  }

  /** The signatures of a batch, or why there are none. */
  function SignBatch(sys: System, env: nat -> Env, c: ChainState, batch: seq<Delegation>): AddResult
    requires sys.st.Lawful()
  {
    AddSignatures(sys.st, sys.pk, TurnsAt(sys, env, c, batch))
  }

  /** Handing the result of signing to the network. Every send of the resend loop meets the same chain state: a batch
      that is rejected takes effect after the tick, if ever. */
  function SubmitResult(sys: System, s: State, r: AddResult): State {
    match r
    case Submit(msgs) =>
      var run := ResendAt(sys, s.chain, msgs);
      State(After(sys, s.chain, run), s.sends + SendsAt(s.chain, run))
    case _ => s
  }

  /** Signing and submitting one batch. */
  function SubmitBatch(sys: System, env: nat -> Env, s: State, batch: seq<Delegation>): State
    requires sys.st.Lawful()
  {
    SubmitResult(sys, s, SignBatch(sys, env, s.chain, batch))
  }

  /** Batch after batch; a batch that fails does not stop the next one. `env(k)` surrounds the tick's phase `k`. */
  function SubmitBatches(sys: System, env: nat -> nat -> Env, k: nat, s: State, batches: seq<seq<Delegation>>): State
    requires sys.st.Lawful()
    decreases |batches|
  {
    if batches == [] then s
    else SubmitBatches(sys, env, k + 1, SubmitBatch(sys, env(k), s, batches[0]), batches[1..])
  }

  /** One tick: scan, split, submit. */
  function Tick(sys: System, env: nat -> nat -> Env, s: State): State
    requires Valid(sys)
  {
    match Scan(sys, env(0)(0), s.chain)
    case Failure(_) => s
    case Success(dels) => SubmitBatches(sys, env, 1, s, B.Split(dels, sys.batchSize))
  }

  // ---------- what submitting does ----------

  /** The sends of a submission and what they leave: the first is all the messages, each further one drops the message
      the answer before named, there are at most as many as the cap allows, and the chain executes the last one exactly
      when it was answered as delivered. */
  ghost predicate Submits(sys: System, s: State, msgs: seq<CovenantSigs>, sent: seq<seq<CovenantSigs>>, after: State) {
    var net := NetAt(sys, s.chain);
    && R.InCourse(R.NamedMessage, net, msgs, sent)
    && |sent| <= (if sys.cap == 0 || sys.cap > |msgs| then |msgs| else sys.cap)
    && |after.sends| == |s.sends| + |sent| && after.sends[..|s.sends|] == s.sends
    && (forall k | 0 <= k < |sent| :: after.sends[|s.sends| + k] == Send(s.chain, sent[k]))
    && after.chain ==
       if sent != [] && sys.net(s.chain, |sent| - 1, sent[|sent| - 1]).Delivered?
       then Committing(sys, s.chain, sent[|sent| - 1]) else s.chain
  }

  lemma SubmittingMeans(sys: System, s: State, msgs: seq<CovenantSigs>) returns (sent: seq<seq<CovenantSigs>>)
    ensures Submits(sys, s, msgs, sent, SubmitResult(sys, s, Submit(msgs)))
  {
    sent := ResendAt(sys, s.chain, msgs).Sends();
    R.SendsMean(R.NamedMessage, NetAt(sys, s.chain), msgs, sys.cap);
    AppendedSends(s.sends, s.chain, sent);
  }

  lemma AppendedSends(sends: seq<Send>, c: ChainState, sent: seq<seq<CovenantSigs>>)
    ensures var after := sends + Map((batch: seq<CovenantSigs>) => Send(c, batch), sent);
            && |after| == |sends| + |sent| && after[..|sends|] == sends
            && forall k | 0 <= k < |sent| :: after[|sends| + k] == Send(c, sent[k])
  {
  }

  // ---------- every batch has its turn ----------

  ghost function SubmitIn(sys: System, env: nat -> nat -> Env): (nat, State, seq<Delegation>) -> State {
    (k: nat, s: State, batch: seq<Delegation>) => if sys.st.Lawful() then SubmitBatch(sys, env(k), s, batch) else s
  }

  /** `states[j]` is the state before batch `j`, which is submitted on it whatever became of the batches before. */
  ghost predicate InTurn(
    sys: System, env: nat -> nat -> Env, k: nat, batches: seq<seq<Delegation>>, states: seq<State>)
    requires sys.st.Lawful()
  {
    && |states| == |batches| + 1
    && forall j: nat | j < |batches| :: states[j + 1] == SubmitBatch(sys, env(k + j), states[j], batches[j])
  }

  lemma {:induction false} EveryBatchIsNext(
    sys: System, env: nat -> nat -> Env, k: nat, s: State, batches: seq<seq<Delegation>>)
    returns (states: seq<State>)
    requires sys.st.Lawful()
    ensures Chained(SubmitIn(sys, env), k, batches, states)
    ensures states[0] == s && states[|batches|] == SubmitBatches(sys, env, k, s, batches)
    decreases |batches|
  {
    if batches == [] {
      states := [s];
    } else {
      var rest := EveryBatchIsNext(sys, env, k + 1, SubmitBatch(sys, env(k), s, batches[0]), batches[1..]);
      ChainedMore(SubmitIn(sys, env), k, s, batches, rest);
      states := [s] + rest;
    }
  }

  lemma EveryBatchHasItsTurn(sys: System, env: nat -> nat -> Env, k: nat, s: State, batches: seq<seq<Delegation>>)
    returns (states: seq<State>)
    requires sys.st.Lawful()
    ensures InTurn(sys, env, k, batches, states)
    ensures states[0] == s && states[|batches|] == SubmitBatches(sys, env, k, s, batches)
  {
    states := EveryBatchIsNext(sys, env, k, s, batches);
    forall j: nat | j < |batches| ensures states[j + 1] == SubmitBatch(sys, env(k + j), states[j], batches[j]) {
      assert states[j + 1] == SubmitIn(sys, env)(k + j, states[j], batches[j]);
    }
  }

  /** A tick whose scan fails does nothing; any other submits every batch of the scan's answer, one after the other. */
  lemma TickTakesTurns(sys: System, env: nat -> nat -> Env, s: State) returns (states: seq<State>)
    requires Valid(sys)
    ensures match Scan(sys, env(0)(0), s.chain)
            case Failure(_) => Tick(sys, env, s) == s
            case Success(dels) =>
              var batches := B.Split(dels, sys.batchSize);
              && InTurn(sys, env, 1, batches, states)
              && states[0] == s && states[|batches|] == Tick(sys, env, s)
  {
    var r := Scan(sys, env(0)(0), s.chain);
    states := [];
    if r.Success? {
      states := EveryBatchHasItsTurn(sys, env, 1, s, B.Split(r.value, sys.batchSize));
    }
  }

  // ---------- runs ----------

  /** What happens between two moments of a run: the rest of the world acts, the emulator ticks, or a batch that was
      sent before is executed late, whatever its sender was told. */
  datatype Action = Grow(next: ChainState) | Ticks(env: nat -> nat -> Env) | Late(sent: nat)

  function Step(sys: System, s: State, a: Action): State
    requires Valid(sys)
  {
    match a
    case Grow(next) => s.(chain := next)
    case Ticks(env) => Tick(sys, env, s)
    case Late(j) => if j < |s.sends| then s.(chain := Committing(sys, s.chain, s.sends[j].batch)) else s
  }

  function Run(sys: System, s: State, actions: seq<Action>): State
    requires Valid(sys)
    decreases |actions|
  {
    if actions == [] then s else Run(sys, Step(sys, s, actions[0]), actions[1..])
  }

  /** Lookups may fail but never lie; the signer may refuse but otherwise signs with this member's key. */
  ghost predicate HonestEnv(sys: System, env: Env) {
    && (forall v :: env.params(v).Some? ==> env.params(v) == sys.published(v))
    && (forall req :: env.sign(req).Some? ==> RS.Answers(sys.st.lib, sys.key, req, env.sign(req).value))
  }

  ghost predicate HonestTurns(sys: System, env: nat -> Env) {
    forall i: nat :: HonestEnv(sys, env(i))
  }

  ghost predicate HonestEnvs(sys: System, env: nat -> nat -> Env) {
    forall k: nat :: HonestTurns(sys, env(k))
  }

  /** The same services at every turn. */
  function Steady(env: Env): nat -> Env { (i: nat) => env }

  /** A tick that takes place has a scan that comes to an end. */
  ghost predicate Legal(sys: System, s: State, a: Action) {
    match a
    case Grow(next) => Grows(sys, s.chain, next)
    case Late(_) => true
    case Ticks(env) =>
      HonestEnvs(sys, env) && P.Finishes(s.chain.pending, ScanJudge(sys, env(0)(0), s.chain), sys.limit)
  }

  ghost predicate LegalRun(sys: System, s: State, actions: seq<Action>)
    requires Valid(sys)
    decreases |actions|
  {
    actions == [] || (Legal(sys, s, actions[0]) && LegalRun(sys, Step(sys, s, actions[0]), actions[1..]))
  }

  /** A run starts on a well-formed chain that holds no signature of this member. */
  ghost predicate Start(sys: System, s: State) {
    WellFormed(sys, s.chain) && s.sends == [] && forall h | h in s.chain.dels :: OthersSince(sys, s.chain.dels[h], 0)
  }

  // ---------- scanned delegations ----------

  /** `del` is what chain `c` stores under its hash, passes the conversion, and the filter accepts it there. */
  ghost predicate IsScanned(sys: System, c: ChainState, del: Delegation) {
    && HashOf(sys.st, del).Some?
    && HashOf(sys.st, del).value in c.dels
    && c.dels[HashOf(sys.st, del).value] == del
    && Convert(del) == Some(del)
    && Accept(sys.st, TrueWorld(sys, c), sys.pk, del) == Some(true)
  }

  ghost predicate AllScanned(sys: System, c: ChainState, dels: seq<Delegation>) {
    forall i | 0 <= i < |dels| :: IsScanned(sys, c, dels[i])
  }

  /** Whatever `w` answers, `u` answers the same. */
  ghost predicate Tells(w: World, u: World) {
    && (forall v :: w.params(v).Some? ==> u.params(v) == w.params(v))
    && (forall h :: w.delegation(h).Some? ==> u.delegation(h) == w.delegation(h))
  }

  lemma HonestTells(sys: System, env: Env, c: ChainState)
    requires HonestEnv(sys, env)
    ensures Tells(WorldAt(sys, env, c), TrueWorld(sys, c))
  {
  }

  lemma AcceptTells(st: Staking, w: World, u: World, pk: PubKey, del: Delegation)
    requires Tells(w, u) && Accept(st, w, pk, del).Some?
    ensures Accept(st, u, pk, del) == Accept(st, w, pk, del)
  {
  }

  lemma RulesTell(st: Staking, w: World, u: World, del: Delegation, p: Versioned, req: SigningRequest)
    requires Tells(w, u) && MeetsRules(st, w, del, p, req)
    ensures MeetsRules(st, u, del, p, req)
  {
  }

  /** What the scan does with a stored delegation: it is kept as it is exactly when it can be read and is acceptable,
      and it ends the scan exactly when it cannot be read or the filter fails on it. */
  lemma ScanVerdictIff(sys: System, env: Env, c: ChainState, h: Hash, del: Delegation)
    requires h in c.dels
    ensures var w, d := WorldAt(sys, env, c), c.dels[h];
            && (ScanVerdict(sys, env, c, h) == P.Keep(del) <==>
                  del == d && Readable(d) && Acceptable(sys.st, w, sys.pk, d))
            && (ScanVerdict(sys, env, c, h).Abort? <==> !Readable(d) || Undecidable(sys.st, w, sys.pk, d))
  {
    ConvertIff(c.dels[h]);
    AcceptedIff(sys.st, WorldAt(sys, env, c), sys.pk, c.dels[h]);
  }

  /** The scan, wrapped or not, returns stored delegations that the filter accepts. */
  lemma ScanReturnsScanned(sys: System, env: Env, c: ChainState)
    requires WellFormed(sys, c) && HonestEnv(sys, env) && Scan(sys, env, c).Success?
    ensures AllScanned(sys, c, Scan(sys, env, c).value)
  {
    var dels := Scan(sys, env, c).value;
    forall i | 0 <= i < |dels| ensures IsScanned(sys, c, dels[i]) {
      P.ReturnedWereKept(c.pending, ScanJudge(sys, env, c), sys.limit, dels[i]);
      var h :| h in c.pending && ScanJudge(sys, env, c)(h) == P.Keep(dels[i]);
      KeptIsScanned(sys, env, c, h, dels[i]);
    }
  }

  lemma KeptIsScanned(sys: System, env: Env, c: ChainState, h: Hash, del: Delegation)
    requires WellFormed(sys, c) && HonestEnv(sys, env) && ScanVerdict(sys, env, c, h) == P.Keep(del)
    ensures IsScanned(sys, c, del) && HashOf(sys.st, del) == Some(h)
  {
    HonestTells(sys, env, c);
    AcceptTells(sys.st, WorldAt(sys, env, c), TrueWorld(sys, c), sys.pk, del);
  }

  /** Every delegation of every batch was accepted on chain `c`. */
  ghost predicate BatchesScanned(sys: System, c: ChainState, batches: seq<seq<Delegation>>) {
    forall j | 0 <= j < |batches| :: AllScanned(sys, c, batches[j])
  }

  lemma {:induction false} SplitScanned(sys: System, c: ChainState, dels: seq<Delegation>, size: nat)
    requires size > 0 && AllScanned(sys, c, dels)
    ensures BatchesScanned(sys, c, B.Split(dels, size))
    decreases |dels|
  {
    if |dels| > size {
      SplitScanned(sys, c, dels[size..], size);
      assert AllScanned(sys, c, dels[..size]);
    }
  }

  // ---------- what a batch does to the chain ----------

  lemma SubsequenceMembers<T>(a: seq<T>, b: seq<T>, k: nat)
    requires Subsequence(a, b) && k < |a|
    ensures exists i | 0 <= i < |b| :: b[i] == a[k]
  {
    var at :| Places(a, b, at);
    assert b[at[k]] == a[k];
  }

  /** Every message of every batch sent, and of the batch committed, comes from the list given to the resend loop. */
  lemma SentAreSubmitted(sys: System, c: ChainState, msgs: seq<CovenantSigs>, batch: seq<CovenantSigs>, k: nat)
    requires batch in ResendAt(sys, c, msgs).Sends() || ResendAt(sys, c, msgs).Committed() == Some(batch)
    requires k < |batch|
    ensures exists i | 0 <= i < |msgs| :: msgs[i] == batch[k]
  {
    R.ResendConserves(R.NamedMessage, NetAt(sys, c), msgs, sys.cap);
    SubsequenceMembers(batch, msgs, k);
  }

  lemma CommittingExtends(sys: System, c: ChainState, batch: seq<CovenantSigs>)
    requires WellFormed(sys, c)
    ensures WellFormed(sys, Committing(sys, c, batch)) && Extends(c, Committing(sys, c, batch))
  {
    if R.Execute(ApplyOf(sys), c, batch).Success? {
      ExecuteExtends(sys, c, batch);
    } else {
      ExtendsItself(c);
    }
  }

  lemma SubmitExtends(sys: System, s: State, r: AddResult)
    requires WellFormed(sys, s.chain)
    ensures var after := SubmitResult(sys, s, r).chain; WellFormed(sys, after) && Extends(s.chain, after)
  {
    match r {
      case Submit(msgs) =>
        var run := ResendAt(sys, s.chain, msgs);
        if run.Committed().Some? {
          CommittingExtends(sys, s.chain, run.Committed().value);
        } else {
          ExtendsItself(s.chain);
        }
      case _ => ExtendsItself(s.chain);
    }
  }

  lemma SubmitBatchExtends(sys: System, env: nat -> Env, scanned: ChainState, s: State, batch: seq<Delegation>)
    requires sys.st.Lawful() && WellFormed(sys, s.chain) && Extends(scanned, s.chain)
    ensures var after := SubmitBatch(sys, env, s, batch).chain;
            WellFormed(sys, after) && Extends(s.chain, after) && Extends(scanned, after)
  {
    SubmitExtends(sys, s, SignBatch(sys, env, s.chain, batch));
    ExtendsTransitive(scanned, s.chain, SubmitBatch(sys, env, s, batch).chain);
  }

  // ---------- terms stay ----------

  /** Fetching the same hash later gives the same delegation, up to signatures. */
  lemma FetchStays(sys: System, c: ChainState, d: ChainState, hashHex: string)
    requires Within(c, d) && Fetch(sys, c, hashHex).Some?
    ensures Fetch(sys, d, hashHex).Some?
    ensures Terms(Fetch(sys, c, hashHex).value) == Terms(Fetch(sys, d, hashHex).value)
  {
    var h := sys.st.parseHash(hashHex).value;
    ConvertTerms(c.dels[h], d.dels[h]);
  }

  lemma ConvertTerms(a: Delegation, b: Delegation)
    requires Terms(a) == Terms(b)
    ensures Convert(a).Some? <==> Convert(b).Some?
  {
    var t := Terms(a);
    assert a.slashingTxHex == t.slashingTxHex == b.slashingTxHex;
    assert a.stakingTxHex == t.stakingTxHex == b.stakingTxHex;
    assert a.unbondingTime == t.unbondingTime == b.unbondingTime;
    assert a.totalSat == t.totalSat == b.totalSat;
    assert a.btcUndelegation.Some? == t.btcUndelegation.Some? == b.btcUndelegation.Some?;
    if a.btcUndelegation.Some? {
      assert a.btcUndelegation.value.unbondingTxHex == t.btcUndelegation.value.unbondingTxHex;
      assert a.btcUndelegation.value.slashingTxHex == t.btcUndelegation.value.slashingTxHex;
    }
  }

  lemma PathsOfTerms(st: Staking, a: Delegation, b: Delegation)
    requires Terms(a) == Terms(b)
    ensures a.stakingTxHex == b.stakingTxHex && a.stakingOutputIdx == b.stakingOutputIdx
    ensures a.paramsVersion == b.paramsVersion && a.stakeExpansion == b.stakeExpansion
    ensures forall p :: StakingPaths(st, a, p) == StakingPaths(st, b, p)
  {
    var t := Terms(a);
    HashOfTerms(st, a, b);
    assert a.btcPk == t.btcPk == b.btcPk;
    assert a.fpBtcPks == t.fpBtcPks == b.fpBtcPks;
    assert a.totalSat == t.totalSat == b.totalSat;
  }

  lemma TermRulesOfTerms(st: Staking, a: Delegation, b: Delegation, p: Versioned, req: SigningRequest)
    requires Terms(a) == Terms(b) && MeetsTermRules(st, a, p, req)
    ensures MeetsTermRules(st, b, p, req)
  {
    var t := Terms(a);
    PathsOfTerms(st, a, b);
    assert a.btcPk == t.btcPk == b.btcPk;
    assert a.fpBtcPks == t.fpBtcPks == b.fpBtcPks;
    assert a.totalSat == t.totalSat == b.totalSat;
    assert a.stakingTime == t.stakingTime == b.stakingTime;
    assert a.unbondingTime == t.unbondingTime == b.unbondingTime;
    assert a.slashingTxHex == t.slashingTxHex == b.slashingTxHex;
    assert a.btcUndelegation.Some? == t.btcUndelegation.Some? == b.btcUndelegation.Some?;
    assert a.btcUndelegation.value.unbondingTxHex == t.btcUndelegation.value.unbondingTxHex;
    assert a.btcUndelegation.value.slashingTxHex == t.btcUndelegation.value.slashingTxHex;
  }
}
