/** What every run keeps: why each message was sent, and why each signature is on the chain. */
module Safety {
  import opened Wrappers
  import opened Lists
  import opened Btc
  import opened Types
  import opened Covenant
  import opened Submission
  import opened Chain
  import opened Emulator
  import B = Batches
  import R = Resend
  import RS = RemoteSigning

  // ---------- requests and messages ----------

  /** The delegation that chain `c` stores under `h` meets every rule under its own parameter version, its expansion
      does so on chain `c` itself, and `req` is the request the rules describe. */
  ghost predicate Asked(sys: System, c: ChainState, h: Hash, req: SigningRequest) {
    && h in c.dels
    && var d := c.dels[h];
    && HashOf(sys.st, d) == Some(h)
    && Convert(d) == Some(d)
    && sys.published(d.paramsVersion).Some?
    && var p := sys.published(d.paramsVersion).value;
    && InCommittee(XOnly(sys.pk), p)
    && MeetsTermRules(sys.st, d, p, req)
    && (d.stakeExpansion.Some? <==> req.stakeExp.Some?)
    && (d.stakeExpansion.Some? ==>
          && MeetsExpansionRules(sys.st, TrueWorld(sys, c), d, d.stakeExpansion.value, req.stakeExp.value)
          && Validated(sys, c, d.stakeExpansion.value))
  }

  /** The previous delegation that chain `c` holds hashes to the named hash, and its own version lists the key. */
  ghost predicate Validated(sys: System, c: ChainState, exp: StakeExpansion) {
    var prev := Fetch(sys, c, exp.previousStakingTxHashHex);
    && prev.Some?
    && sys.st.lib.TxFromHex(prev.value.stakingTxHex).Some?
    && sys.st.hashText(sys.st.txHash(sys.st.lib.TxFromHex(prev.value.stakingTxHex).value)) ==
       exp.previousStakingTxHashHex
    && sys.published(prev.value.paramsVersion).Some?
    && InCommittee(XOnly(sys.pk), sys.published(prev.value.paramsVersion).value)
  }

  /** Message `msg` holds what this member's key makes of request `req`, which is asked for its own delegation. */
  ghost predicate Rightful(
    sys: System, c: ChainState, msg: CovenantSigs, req: SigningRequest, resp: SignaturesResponse)
  {
    && Asked(sys, c, msg.stakingTxHash, req)
    && RS.Answers(sys.st.lib, sys.key, req, resp)
    && msg == CovenantSigsOf(sys.st, sys.pk, req, resp)
  }

  ghost predicate Made(sys: System, c: ChainState, msg: CovenantSigs) {
    exists req, resp :: Rightful(sys, c, msg, req, resp)
  }

  ghost predicate BatchMade(sys: System, c: ChainState, batch: seq<CovenantSigs>) {
    forall k | 0 <= k < |batch| :: Made(sys, c, batch[k])
  }

  /** Everything ever sent was made for what the chain stores. */
  ghost predicate SendsMade(sys: System, c: ChainState, sends: seq<Send>) {
    forall j | 0 <= j < |sends| :: BatchMade(sys, c, sends[j].batch)
  }

  /** The message is part of a send. */
  ghost predicate Sent(sends: seq<Send>, msg: CovenantSigs) {
    exists j | 0 <= j < |sends| :: msg in sends[j].batch
  }

  ghost predicate BatchSent(sends: seq<Send>, batch: seq<CovenantSigs>) {
    forall k | 0 <= k < |batch| :: Sent(sends, batch[k])
  }

  ghost predicate BatchOwn(sys: System, batch: seq<CovenantSigs>) {
    forall k | 0 <= k < |batch| :: batch[k].publicKey == sys.pk
  }

  // ---------- signatures on the chain ----------

  /** Position `i` of all signature lists of `del` holds the signatures of `msg`. */
  ghost predicate HeldAt(del: Delegation, i: nat, msg: CovenantSigs) {
    && i < |del.covenantSigs| && del.covenantSigs[i].sigs == msg.slashingSigs
    && (del.btcUndelegation.Some? ==>
          var u := del.btcUndelegation.value;
          && i < |u.covenantSlashingSigs| && u.covenantSlashingSigs[i].sigs == msg.slashingUnbondingSigs
          && i < |u.covenantUnbondingSigs| && u.covenantUnbondingSigs[i].sig == msg.unbondingSig)
  }

  /** The signatures at position `i` of the delegation stored under `h` are those of a message sent for it. */
  ghost predicate Traced(sys: System, c: ChainState, sends: seq<Send>, h: Hash, i: nat)
    requires h in c.dels
  {
    exists msg :: HeldAt(c.dels[h], i, msg) && msg.stakingTxHash == h && Sent(sends, msg)
  }

  predicate OwnAt(sys: System, del: Delegation, i: nat) {
    i < |del.covenantSigs| && XOnly(del.covenantSigs[i].pk) == XOnly(sys.pk)
  }

  /** Every signature of this member on the delegation stored under `h` was sent for it, and there is at most one. */
  ghost predicate SoundlySigned(sys: System, c: ChainState, sends: seq<Send>, h: Hash)
    requires h in c.dels
  {
    && (forall i: nat | OwnAt(sys, c.dels[h], i) :: Traced(sys, c, sends, h, i))
    && (forall i: nat, j: nat | OwnAt(sys, c.dels[h], i) && OwnAt(sys, c.dels[h], j) :: i == j)
  }

  ghost predicate Safe(sys: System, c: ChainState, sends: seq<Send>) {
    WellFormed(sys, c) && forall h | h in c.dels :: SoundlySigned(sys, c, sends, h)
  }

  ghost predicate Inv(sys: System, s: State) {
    Safe(sys, s.chain, s.sends) && SendsMade(sys, s.chain, s.sends)
  }

  // ---------- what is asked and made stays so ----------

  lemma ExpansionRulesStay(
    sys: System, c: ChainState, d: ChainState, a: Delegation, b: Delegation, exp: StakeExpansion,
    e: SigningRequestStkExp)
    requires Within(c, d) && Terms(a) == Terms(b)
    requires MeetsExpansionRules(sys.st, TrueWorld(sys, c), a, exp, e)
    ensures MeetsExpansionRules(sys.st, TrueWorld(sys, d), b, exp, e)
  {
    var hash := exp.previousStakingTxHashHex;
    FetchStays(sys, c, d, hash);
    PathsOfTerms(sys.st, a, b);
    PathsOfTerms(sys.st, Fetch(sys, c, hash).value, Fetch(sys, d, hash).value);
  }

  lemma ValidatedStays(sys: System, c: ChainState, d: ChainState, exp: StakeExpansion)
    requires Within(c, d) && Validated(sys, c, exp)
    ensures Validated(sys, d, exp)
  {
    var hash := exp.previousStakingTxHashHex;
    FetchStays(sys, c, d, hash);
    PathsOfTerms(sys.st, Fetch(sys, c, hash).value, Fetch(sys, d, hash).value);
  }

  lemma AskedStays(sys: System, c: ChainState, d: ChainState, h: Hash, req: SigningRequest)
    requires Within(c, d) && Asked(sys, c, h, req)
    ensures Asked(sys, d, h, req)
  {
    var a, b := c.dels[h], d.dels[h];
    PathsOfTerms(sys.st, a, b);
    HashOfTerms(sys.st, a, b);
    ConvertTerms(a, b);
    TermRulesOfTerms(sys.st, a, b, sys.published(a.paramsVersion).value, req);
    if a.stakeExpansion.Some? {
      ExpansionRulesStay(sys, c, d, a, b, a.stakeExpansion.value, req.stakeExp.value);
      ValidatedStays(sys, c, d, a.stakeExpansion.value);
    }
  }

  lemma MadeStays(sys: System, c: ChainState, d: ChainState, msg: CovenantSigs)
    requires Within(c, d) && Made(sys, c, msg)
    ensures Made(sys, d, msg)
  {
    var req, resp :| Rightful(sys, c, msg, req, resp);
    AskedStays(sys, c, d, msg.stakingTxHash, req);
    assert Rightful(sys, d, msg, req, resp);
  }

  lemma MadeIsOwn(sys: System, c: ChainState, msg: CovenantSigs)
    requires Made(sys, c, msg)
    ensures msg.publicKey == sys.pk
  {
    var req, resp :| Rightful(sys, c, msg, req, resp);
  }

  lemma BatchMadeStays(sys: System, c: ChainState, d: ChainState, batch: seq<CovenantSigs>)
    requires Within(c, d) && BatchMade(sys, c, batch)
    ensures BatchMade(sys, d, batch)
  {
    forall k | 0 <= k < |batch| ensures Made(sys, d, batch[k]) {
      MadeStays(sys, c, d, batch[k]);
    }
  }

  lemma BatchMadeIsOwn(sys: System, c: ChainState, batch: seq<CovenantSigs>)
    requires BatchMade(sys, c, batch)
    ensures BatchOwn(sys, batch)
  {
    forall k | 0 <= k < |batch| ensures batch[k].publicKey == sys.pk {
      MadeIsOwn(sys, c, batch[k]);
    }
  }

  lemma SendsMadeStay(sys: System, c: ChainState, d: ChainState, sends: seq<Send>)
    requires Within(c, d) && SendsMade(sys, c, sends)
    ensures SendsMade(sys, d, sends)
  {
    forall j | 0 <= j < |sends| ensures BatchMade(sys, d, sends[j].batch) {
      BatchMadeStays(sys, c, d, sends[j].batch);
    }
  }

  lemma SendsMadeAppend(sys: System, c: ChainState, a: seq<Send>, b: seq<Send>)
    requires SendsMade(sys, c, a) && SendsMade(sys, c, b)
    ensures SendsMade(sys, c, a + b)
  {
  }

  // ---------- signing makes ----------

  lemma AcceptedIsValidated(sys: System, c: ChainState, del: Delegation)
    requires Accept(sys.st, TrueWorld(sys, c), sys.pk, del) == Some(true) && del.stakeExpansion.Some?
    ensures Validated(sys, c, del.stakeExpansion.value)
  {
    AcceptedIff(sys.st, TrueWorld(sys, c), sys.pk, del);
  }

  /** Every request the loop puts together for a scanned delegation, answered or not, follows the rules on the chain it
      is put together on, and its quorum was open when it was scanned. */
  lemma RequestIsAsked(
    sys: System, env: Env, scanned: ChainState, at: ChainState, del: Delegation, p: Versioned, req: SigningRequest)
    requires Valid(sys) && HonestEnv(sys, env) && IsScanned(sys, scanned, del) && Extends(scanned, at)
    requires env.params(del.paramsVersion) == Some(p)
    requires BuildRequest(sys.st, WorldAt(sys, env, at), del, p) == Success(req)
    ensures HashOf(sys.st, del).Some? && Asked(sys, at, HashOf(sys.st, del).value, req)
    ensures del.btcUndelegation.Some? && !HasCovenantQuorum(del, p.covenantQuorum)
  {
    var w := WorldAt(sys, env, at);
    BuildRequestIff(sys.st, w, del, p, req);
    HonestTells(sys, env, at);
    RulesTell(sys.st, w, TrueWorld(sys, at), del, p, req);
    RulesAreAsked(sys, scanned, at, del, req);
  }

  lemma RulesAreAsked(sys: System, scanned: ChainState, at: ChainState, del: Delegation, req: SigningRequest)
    requires IsScanned(sys, scanned, del) && Extends(scanned, at) && sys.published(del.paramsVersion).Some?
    requires MeetsRules(sys.st, TrueWorld(sys, at), del, sys.published(del.paramsVersion).value, req)
    ensures Asked(sys, at, HashOf(sys.st, del).value, req)
  {
    var h := HashOf(sys.st, del).value;
    var d := at.dels[h];
    AcceptedIff(sys.st, TrueWorld(sys, scanned), sys.pk, del);
    PathsOfTerms(sys.st, del, d);
    HashOfTerms(sys.st, del, d);
    ConvertTerms(del, d);
    TermRulesOfTerms(sys.st, del, d, sys.published(del.paramsVersion).value, req);
    if del.stakeExpansion.Some? {
      var exp := del.stakeExpansion.value;
      ExtendsItself(at);
      ExpansionRulesStay(sys, at, at, del, d, exp, req.stakeExp.value);
      AcceptedIsValidated(sys, scanned, del);
      ValidatedStays(sys, scanned, at, exp);
    }
  }

  /** The message was made, and is for a delegation of the batch. */
  ghost predicate MadeFor(sys: System, c: ChainState, batch: seq<Delegation>, msg: CovenantSigs) {
    Made(sys, c, msg) && exists i | 0 <= i < |batch| :: HashOf(sys.st, batch[i]) == Some(msg.stakingTxHash)
  }

  lemma VerdictIsMade(
    sys: System, env: Env, scanned: ChainState, at: ChainState, del: Delegation, msg: CovenantSigs)
    requires Valid(sys) && HonestEnv(sys, env) && IsScanned(sys, scanned, del) && Extends(scanned, at)
    requires VerdictOn(sys.st, WorldAt(sys, env, at), env.sign, sys.pk, del) == Success(msg)
    ensures Made(sys, at, msg) && HashOf(sys.st, del) == Some(msg.stakingTxHash)
  {
    var p := env.params(del.paramsVersion).value;
    var req := BuildRequest(sys.st, WorldAt(sys, env, at), del, p).value;
    RequestIsAsked(sys, env, scanned, at, del, p, req);
    assert sys.st.lib.TxFromHex(at.dels[HashOf(sys.st, del).value].stakingTxHex) == Some(req.stakingTx);
    assert Rightful(sys, at, msg, req, env.sign(req).value);
  }

  lemma SubmittedAreMade(
    sys: System, env: nat -> Env, scanned: ChainState, at: ChainState, batch: seq<Delegation>,
    msgs: seq<CovenantSigs>, k: nat)
    requires Valid(sys) && HonestTurns(sys, env) && AllScanned(sys, scanned, batch) && Extends(scanned, at)
    requires SignBatch(sys, env, at, batch) == Submit(msgs) && k < |msgs|
    ensures MadeFor(sys, at, batch, msgs[k])
  {
    var i := SubmittedIsSigned(sys, env, at, batch, msgs, k);
    VerdictIsMade(sys, env(i), scanned, at, batch[i], msgs[k]);
  }

  /** Every submitted message is the verdict on some delegation of the batch. */
  lemma SubmittedIsSigned(
    sys: System, env: nat -> Env, at: ChainState, batch: seq<Delegation>, msgs: seq<CovenantSigs>, k: nat)
    returns (i: nat)
    requires sys.st.Lawful() && SignBatch(sys, env, at, batch) == Submit(msgs) && k < |msgs|
    ensures i < |batch|
    ensures VerdictOn(sys.st, WorldAt(sys, env(i), at), env(i).sign, sys.pk, batch[i]) == Success(msgs[k])
  {
    var turns := TurnsAt(sys, env, at, batch);
    var verdicts := Verdicts(sys.st, sys.pk, turns);
    SignedIsImage(verdicts);
    var places :| Selects(verdicts, msgs, places);
    i := places[k];
    assert verdicts[i] == Success(msgs[k]);
    assert verdicts[i] == VerdictIn(sys.st, sys.pk, turns[i]);
  }

  lemma AllSubmittedAreMade(
    sys: System, env: nat -> Env, scanned: ChainState, at: ChainState, batch: seq<Delegation>, msgs: seq<CovenantSigs>)
    requires Valid(sys) && HonestTurns(sys, env) && AllScanned(sys, scanned, batch) && Extends(scanned, at)
    requires SignBatch(sys, env, at, batch) == Submit(msgs)
    ensures BatchMade(sys, at, msgs) && forall k | 0 <= k < |msgs| :: MadeFor(sys, at, batch, msgs[k])
  {
    forall k | 0 <= k < |msgs| ensures MadeFor(sys, at, batch, msgs[k]) {
      SubmittedAreMade(sys, env, scanned, at, batch, msgs, k);
    }
  }

  lemma SentAreMade(sys: System, c: ChainState, msgs: seq<CovenantSigs>, batch: seq<CovenantSigs>)
    requires BatchMade(sys, c, msgs) && batch in ResendAt(sys, c, msgs).Sends()
    ensures BatchMade(sys, c, batch)
  {
    forall k | 0 <= k < |batch| ensures Made(sys, c, batch[k]) {
      SentAreSubmitted(sys, c, msgs, batch, k);
    }
  }

  lemma NewSendsMade(sys: System, c: ChainState, msgs: seq<CovenantSigs>)
    requires BatchMade(sys, c, msgs)
    ensures SendsMade(sys, c, SendsAt(c, ResendAt(sys, c, msgs)))
  {
    var run := ResendAt(sys, c, msgs);
    forall j | 0 <= j < |run.Sends()| ensures BatchMade(sys, c, run.Sends()[j]) {
      SentAreMade(sys, c, msgs, run.Sends()[j]);
    }
  }

  // ---------- recording ----------

  lemma HeldStays(a: Delegation, b: Delegation, i: nat, msg: CovenantSigs)
    requires Keeps(a, b) && HeldAt(a, i, msg)
    ensures HeldAt(b, i, msg)
  {
    assert a.btcUndelegation.Some? <==> Terms(a).btcUndelegation.Some?;
    assert b.btcUndelegation.Some? <==> Terms(b).btcUndelegation.Some?;
  }

  lemma TracedStays(sys: System, c: ChainState, d: ChainState, sends: seq<Send>, h: Hash, i: nat)
    requires Within(c, d) && h in c.dels && Traced(sys, c, sends, h, i)
    ensures h in d.dels && Traced(sys, d, sends, h, i)
  {
    var msg :| HeldAt(c.dels[h], i, msg) && msg.stakingTxHash == h && Sent(sends, msg);
    HeldStays(c.dels[h], d.dels[h], i, msg);
  }

  lemma TracedInMore(sys: System, c: ChainState, sends: seq<Send>, more: seq<Send>, h: Hash, i: nat)
    requires h in c.dels && Traced(sys, c, sends, h, i)
    ensures Traced(sys, c, sends + more, h, i)
  {
    var msg :| HeldAt(c.dels[h], i, msg) && msg.stakingTxHash == h && Sent(sends, msg);
    SentInMore(sends, more, msg);
  }

  lemma SentInMore(sends: seq<Send>, more: seq<Send>, msg: CovenantSigs)
    requires Sent(sends, msg) || Sent(more, msg)
    ensures Sent(sends + more, msg)
  {
    if Sent(sends, msg) {
      var j :| 0 <= j < |sends| && msg in sends[j].batch;
      assert (sends + more)[j] == sends[j];
    } else {
      var j :| 0 <= j < |more| && msg in more[j].batch;
      assert (sends + more)[|sends| + j] == more[j];
    }
  }

  lemma SafeWithMore(sys: System, c: ChainState, sends: seq<Send>, more: seq<Send>)
    requires Safe(sys, c, sends)
    ensures Safe(sys, c, sends + more)
  {
    forall h | h in c.dels ensures SoundlySigned(sys, c, sends + more, h) {
      forall i: nat | OwnAt(sys, c.dels[h], i) ensures Traced(sys, c, sends + more, h, i) {
        assert SoundlySigned(sys, c, sends, h);
        TracedInMore(sys, c, sends, more, h, i);
      }
      assert SoundlySigned(sys, c, sends, h);
    }
  }

  /** More signatures of others leave a delegation soundly signed. */
  lemma OthersKeepSound(sys: System, c: ChainState, d: ChainState, sends: seq<Send>, h: Hash)
    requires Within(c, d) && h in c.dels && SoundlySigned(sys, c, sends, h)
    requires OthersSince(sys, d.dels[h], |c.dels[h].covenantSigs|)
    ensures SoundlySigned(sys, d, sends, h)
  {
    forall i: nat | OwnAt(sys, d.dels[h], i) ensures OwnAt(sys, c.dels[h], i) && Traced(sys, d, sends, h, i) {
      assert i < |c.dels[h].covenantSigs|;
      assert c.dels[h].covenantSigs[i] == d.dels[h].covenantSigs[i];
      TracedStays(sys, c, d, sends, h, i);
    }
  }

  lemma RecordIsHeld(del: Delegation, msg: CovenantSigs)
    requires WholeSets(del)
    ensures HeldAt(Record(del, msg), |del.covenantSigs|, msg)
  {
  }

  lemma RecordedOwnAt(sys: System, del: Delegation, msg: CovenantSigs)
    requires !AlreadySigned(XOnly(sys.pk), del)
    ensures forall i: nat | OwnAt(sys, Record(del, msg), i) :: i == |del.covenantSigs|
  {
    var before, after := del.covenantSigs, Record(del, msg).covenantSigs;
    assert forall i | 0 <= i < |before| :: after[i] == before[i] && XOnly(before[i].pk) != XOnly(sys.pk);
  }

  lemma RecordKeepsSound(
    sys: System, c: ChainState, d: ChainState, sends: seq<Send>, h: Hash, msg: CovenantSigs)
    requires h in c.dels && WholeSets(c.dels[h]) && !AlreadySigned(XOnly(sys.pk), c.dels[h])
    requires h in d.dels && d.dels[h] == Record(c.dels[h], msg) && msg.stakingTxHash == h && Sent(sends, msg)
    ensures SoundlySigned(sys, d, sends, h)
  {
    RecordIsHeld(c.dels[h], msg);
    RecordedOwnAt(sys, c.dels[h], msg);
    assert Traced(sys, d, sends, h, |c.dels[h].covenantSigs|);
  }

  lemma OthersStaySound(sys: System, c: ChainState, d: ChainState, sends: seq<Send>, own: Hash)
    requires Within(c, d) && d.dels.Keys == c.dels.Keys
    requires forall h | h in c.dels && h != own :: d.dels[h] == c.dels[h]
    requires forall h | h in c.dels :: SoundlySigned(sys, c, sends, h)
    ensures forall h | h in d.dels && h != own :: SoundlySigned(sys, d, sends, h)
  {
    forall h | h in d.dels && h != own ensures SoundlySigned(sys, d, sends, h) {
      OthersKeepSound(sys, c, d, sends, h);
    }
  }

  lemma ApplyKeepsSafe(sys: System, c: ChainState, sends: seq<Send>, msg: CovenantSigs)
    requires Safe(sys, c, sends) && Sent(sends, msg) && msg.publicKey == sys.pk && Apply(sys, c, msg).Some?
    ensures Safe(sys, Apply(sys, c, msg).value, sends)
  {
    var d := Apply(sys, c, msg).value;
    ApplyKeepsWellFormed(sys, c, msg);
    ApplyExtends(sys, c, msg);
    RecordKeepsSound(sys, c, d, sends, msg.stakingTxHash, msg);
    OthersStaySound(sys, c, d, sends, msg.stakingTxHash);
  }

  /** Executing messages that were sent keeps every signature traced. */
  lemma {:induction false} ExecuteKeepsSafe(
    sys: System, c: ChainState, sends: seq<Send>, batch: seq<CovenantSigs>)
    requires Safe(sys, c, sends) && BatchSent(sends, batch) && BatchOwn(sys, batch)
    requires R.Execute(ApplyOf(sys), c, batch).Success?
    ensures Safe(sys, R.Execute(ApplyOf(sys), c, batch).value, sends)
    decreases |batch|
  {
    if batch != [] {
      ApplyKeepsSafe(sys, c, sends, batch[0]);
      ExecuteKeepsSafe(sys, Apply(sys, c, batch[0]).value, sends, batch[1..]);
    }
  }

  lemma CommittingKeepsSafe(sys: System, c: ChainState, sends: seq<Send>, batch: seq<CovenantSigs>)
    requires Safe(sys, c, sends) && BatchSent(sends, batch) && BatchOwn(sys, batch)
    ensures Safe(sys, Committing(sys, c, batch), sends)
  {
    if R.Execute(ApplyOf(sys), c, batch).Success? {
      ExecuteKeepsSafe(sys, c, sends, batch);
    }
  }

  // ---------- ticks ----------

  lemma {:induction false} CommittedWasSent<M>(run: R.Run<M>)
    requires run.Committed().Some?
    ensures run.Committed().value in run.Sends()
  {
    if run.Retry? {
      CommittedWasSent(run.rest);
    }
  }

  lemma CommittedIsSent(c: ChainState, run: R.Run<CovenantSigs>)
    requires run.Committed().Some?
    ensures BatchSent(SendsAt(c, run), run.Committed().value)
  {
    CommittedWasSent(run);
    var batch := run.Committed().value;
    var j :| 0 <= j < |run.Sends()| && run.Sends()[j] == batch;
    assert SendsAt(c, run)[j] == Send(c, batch);
  }

  lemma BatchSentInMore(sends: seq<Send>, more: seq<Send>, batch: seq<CovenantSigs>)
    requires BatchSent(more, batch)
    ensures BatchSent(sends + more, batch)
  {
    forall k | 0 <= k < |batch| ensures Sent(sends + more, batch[k]) {
      SentInMore(sends, more, batch[k]);
    }
  }

  /** Submitting messages that were made keeps every signature traced to a send. */
  lemma SubmittingKeepsSafe(sys: System, s: State, msgs: seq<CovenantSigs>)
    requires Safe(sys, s.chain, s.sends) && BatchMade(sys, s.chain, msgs)
    ensures var after := SubmitResult(sys, s, Submit(msgs)); Safe(sys, after.chain, after.sends)
  {
    var run := ResendAt(sys, s.chain, msgs);
    var recent := SendsAt(s.chain, run);
    SafeWithMore(sys, s.chain, s.sends, recent);
    if run.Committed().Some? {
      var batch := run.Committed().value;
      CommittedWasSent(run);
      SentAreMade(sys, s.chain, msgs, batch);
      BatchMadeIsOwn(sys, s.chain, batch);
      CommittedIsSent(s.chain, run);
      BatchSentInMore(s.sends, recent, batch);
      CommittingKeepsSafe(sys, s.chain, s.sends + recent, batch);
    }
  }

  lemma SubmittingKeepsMade(sys: System, s: State, msgs: seq<CovenantSigs>)
    requires WellFormed(sys, s.chain) && SendsMade(sys, s.chain, s.sends) && BatchMade(sys, s.chain, msgs)
    ensures var after := SubmitResult(sys, s, Submit(msgs)); SendsMade(sys, after.chain, after.sends)
  {
    var run := ResendAt(sys, s.chain, msgs);
    NewSendsMade(sys, s.chain, msgs);
    SendsMadeAppend(sys, s.chain, s.sends, SendsAt(s.chain, run));
    SubmitExtends(sys, s, Submit(msgs));
    SendsMadeStay(sys, s.chain, After(sys, s.chain, run), s.sends + SendsAt(s.chain, run));
  }

  lemma SubmitBatchKeepsInv(sys: System, env: nat -> Env, scanned: ChainState, s: State, batch: seq<Delegation>)
    requires Valid(sys) && HonestTurns(sys, env) && AllScanned(sys, scanned, batch)
    requires Inv(sys, s) && Extends(scanned, s.chain)
    ensures Inv(sys, SubmitBatch(sys, env, s, batch))
  {
    match SignBatch(sys, env, s.chain, batch) {
      case Submit(msgs) =>
        AllSubmittedAreMade(sys, env, scanned, s.chain, batch, msgs);
        SubmittingKeepsSafe(sys, s, msgs);
        SubmittingKeepsMade(sys, s, msgs);
      case _ =>
    }
  }

  lemma {:induction false} SubmitBatchesKeepInv(
    sys: System, env: nat -> nat -> Env, k: nat, scanned: ChainState, s: State, batches: seq<seq<Delegation>>)
    requires Valid(sys) && HonestEnvs(sys, env) && BatchesScanned(sys, scanned, batches)
    requires Inv(sys, s) && Extends(scanned, s.chain)
    ensures Inv(sys, SubmitBatches(sys, env, k, s, batches))
    decreases |batches|
  {
    if batches != [] {
      SubmitBatchKeepsInv(sys, env(k), scanned, s, batches[0]);
      SubmitBatchExtends(sys, env(k), scanned, s, batches[0]);
      SubmitBatchesKeepInv(sys, env, k + 1, scanned, SubmitBatch(sys, env(k), s, batches[0]), batches[1..]);
    }
  }

  lemma TickKeepsInv(sys: System, env: nat -> nat -> Env, s: State)
    requires Valid(sys) && HonestEnvs(sys, env) && Inv(sys, s)
    ensures Inv(sys, Tick(sys, env, s))
  {
    var r := Scan(sys, env(0)(0), s.chain);
    if r.Success? {
      assert HonestTurns(sys, env(0));
      ScanReturnsScanned(sys, env(0)(0), s.chain);
      SplitScanned(sys, s.chain, r.value, sys.batchSize);
      ExtendsItself(s.chain);
      SubmitBatchesKeepInv(sys, env, 1, s.chain, s, B.Split(r.value, sys.batchSize));
    }
  }

  // ---------- runs ----------

  lemma GrowKeepsInv(sys: System, s: State, d: ChainState)
    requires Inv(sys, s) && Grows(sys, s.chain, d)
    ensures Inv(sys, s.(chain := d))
  {
    forall h | h in d.dels ensures SoundlySigned(sys, d, s.sends, h) {
      if h in s.chain.dels {
        OthersKeepSound(sys, s.chain, d, s.sends, h);
      } else {
        assert OthersSince(sys, d.dels[h], 0);
      }
    }
    SendsMadeStay(sys, s.chain, d, s.sends);
  }

  /** A batch that was sent may be executed at any later moment. */
  lemma LateKeepsInv(sys: System, s: State, j: nat)
    requires Inv(sys, s) && j < |s.sends|
    ensures Inv(sys, s.(chain := Committing(sys, s.chain, s.sends[j].batch)))
  {
    var batch := s.sends[j].batch;
    assert BatchMade(sys, s.chain, batch) && BatchSent(s.sends, batch);
    BatchMadeIsOwn(sys, s.chain, batch);
    CommittingKeepsSafe(sys, s.chain, s.sends, batch);
    CommittingExtends(sys, s.chain, batch);
    SendsMadeStay(sys, s.chain, Committing(sys, s.chain, batch), s.sends);
  }

  lemma StepKeepsInv(sys: System, s: State, a: Action)
    requires Valid(sys) && Inv(sys, s) && Legal(sys, s, a)
    ensures Inv(sys, Step(sys, s, a))
  {
    match a {
      case Grow(next) => GrowKeepsInv(sys, s, next);
      case Ticks(env) => TickKeepsInv(sys, env, s);
      case Late(j) =>
        if j < |s.sends| {
          LateKeepsInv(sys, s, j);
        }
    }
  }

  lemma {:induction false} RunKeepsInv(sys: System, s: State, actions: seq<Action>)
    requires Valid(sys) && Inv(sys, s) && LegalRun(sys, s, actions)
    ensures Inv(sys, Run(sys, s, actions))
    decreases |actions|
  {
    if actions != [] {
      StepKeepsInv(sys, s, actions[0]);
      RunKeepsInv(sys, Step(sys, s, actions[0]), actions[1..]);
    }
  }

  lemma StartIsInv(sys: System, s: State)
    requires Start(sys, s)
    ensures Inv(sys, s)
  {
    forall h | h in s.chain.dels ensures SoundlySigned(sys, s.chain, s.sends, h) {
      assert OthersSince(sys, s.chain.dels[h], 0);
    }
  }

  // ---------- what being rightful says ----------

  /** A request asked for the delegation the chain stores: its transactions are the delegation's own, both slashing
      transactions pass the check under the delegation's own parameter version, and the three scripts are those of its
      staker, its finality providers and that version's committee and quorum. */
  lemma AskedMeans(sys: System, c: ChainState, h: Hash, req: SigningRequest)
    requires Valid(sys) && Asked(sys, c, h, req)
    ensures var d, st := c.dels[h], sys.st;
            && sys.published(d.paramsVersion).Some? && d.btcUndelegation.Some?
            && var p, u := sys.published(d.paramsVersion).value, d.btcUndelegation.value;
            && Readable(d) && HasKey(p.covenantPks, sys.pk.x)
            && st.lib.TxFromHex(d.stakingTxHex) == Some(req.stakingTx) && st.txHash(req.stakingTx) == h
            && st.decodeSlashingTx(d.slashingTxHex) == Some(req.slashingTx)
            && st.lib.TxFromHex(u.unbondingTxHex) == Some(req.unbondingTx)
            && st.lib.TxFromHex(u.slashingTxHex) == Some(req.slashUnbondingTx)
            && req.stakingOutputIdx == d.stakingOutputIdx < |req.stakingTx.outs| && 0 < |req.unbondingTx.outs|
            && st.slashingMatches(req.slashingTx, req.stakingTx, d.stakingOutputIdx, p.minSlashingTxFeeSat,
                                  p.slashingRate, p.slashingPkScript, d.btcPk, d.unbondingTime)
            && st.slashingMatches(req.slashUnbondingTx, req.unbondingTx, 0, p.minSlashingTxFeeSat,
                                  p.slashingRate, p.slashingPkScript, d.btcPk, d.unbondingTime)
            && st.stakingPaths(d.btcPk, d.fpBtcPks, p.covenantPks, p.covenantQuorum, d.stakingTime, d.totalSat) ==
               Some((req.slashingPkScriptPath, req.stakingTxUnbondingPkScriptPath))
            && st.unbondingPath(d.btcPk, d.fpBtcPks, p.covenantPks, p.covenantQuorum, d.unbondingTime,
                                req.unbondingTx.outs[0].value) == Some(req.unbondingTxSlashingPkScriptPath)
  {
    ConvertIff(c.dels[h]);
    InCommitteeIff(XOnly(sys.pk), sys.published(c.dels[h].paramsVersion).value);
  }

  /** The delegation the chain stores and the message sent for it: the key is in the committee of the delegation's own
      parameter version, signature `j` of both adaptor lists is the one for the delegation's finality provider `j`, the
      unbonding signature is by the same key, and the staked amount is the unbonded amount plus the fee. */
  lemma RightfulMeans(
    sys: System, c: ChainState, msg: CovenantSigs, req: SigningRequest, resp: SignaturesResponse)
    requires Valid(sys) && Rightful(sys, c, msg, req, resp)
    ensures var d := c.dels[msg.stakingTxHash];
            && sys.published(d.paramsVersion).Some? && d.btcUndelegation.Some?
            && var p, u := sys.published(d.paramsVersion).value, d.btcUndelegation.value;
            && HasKey(p.covenantPks, sys.pk.x) && msg.publicKey == sys.pk
            && p.minStakingTime <= d.stakingTime <= p.maxStakingTime
            && p.minStakingValue <= d.totalSat <= p.maxStakingValue
            && d.unbondingTime == p.unbondingTimeBlocks <= MAX_UINT16
            && sys.st.lib.TxFromHex(d.stakingTxHex) == Some(req.stakingTx)
            && msg.stakingTxHash == sys.st.txHash(req.stakingTx)
            && sys.st.lib.TxFromHex(u.unbondingTxHex) == Some(req.unbondingTx)
            && d.stakingOutputIdx < |req.stakingTx.outs| && 0 < |req.unbondingTx.outs|
            && var staked, unbonded := req.stakingTx.outs[d.stakingOutputIdx].value, req.unbondingTx.outs[0].value;
            && (FitsInt64(staked - unbonded) ==> staked == unbonded + p.unbondingFee)
            && |msg.slashingSigs| == |msg.slashingUnbondingSigs| == |d.fpBtcPks|
            && (forall j | 0 <= j < |d.fpBtcPks| ::
                  && sys.st.encKey(d.fpBtcPks[j]).Some?
                  && var ek := sys.st.encKey(d.fpBtcPks[j]).value;
                  && Some(msg.slashingSigs[j]) ==
                     sys.st.lib.encSign(req.slashingTx, req.stakingTx, d.stakingOutputIdx, req.slashingPkScriptPath,
                                        sys.key, ek)
                  && Some(msg.slashingUnbondingSigs[j]) ==
                     sys.st.lib.encSign(req.slashUnbondingTx, req.unbondingTx, 0, req.unbondingTxSlashingPkScriptPath,
                                        sys.key, ek))
            && Some(msg.unbondingSig) ==
               sys.st.lib.sign(req.unbondingTx, req.stakingTx, d.stakingOutputIdx, req.stakingTxUnbondingPkScriptPath,
                               sys.key)
            && (msg.stkExpSig.Some? <==> d.stakeExpansion.Some?)
  {
    InCommitteeIff(XOnly(sys.pk), sys.published(c.dels[msg.stakingTxHash].paramsVersion).value);
  }

  /** A request for an expansion: the staking transaction has two inputs, the first spends the very transaction the
      filter validated, the other funding output is positive, the key is in the committees of both stored delegations,
      and the previous stake is unlocked by the script of its own parameter version. */
  lemma AskedExpansionMeans(sys: System, c: ChainState, h: Hash, req: SigningRequest)
    requires Valid(sys) && Asked(sys, c, h, req) && c.dels[h].stakeExpansion.Some?
    ensures var hash := c.dels[h].stakeExpansion.value.previousStakingTxHashHex;
            && req.stakeExp.Some?
            && var e := req.stakeExp.value;
            && |req.stakingTx.ins| == 2
            && req.stakingTx.ins[0].prevHash == sys.st.txHash(e.previousActiveStakeTx)
            && sys.st.hashText(sys.st.txHash(e.previousActiveStakeTx)) == hash
            && e.otherFundingOutput.value > 0
            && req.stakingTx.ins[0].prevHash in c.dels
            && var prev := c.dels[req.stakingTx.ins[0].prevHash];
            && Readable(prev)
            && sys.st.lib.TxFromHex(prev.stakingTxHex) == Some(e.previousActiveStakeTx)
            && e.previousStakingOutputIdx == prev.stakingOutputIdx
            && sys.published(c.dels[h].paramsVersion).Some?
            && HasKey(sys.published(c.dels[h].paramsVersion).value.covenantPks, sys.pk.x)
            && sys.published(prev.paramsVersion).Some?
            && var q := sys.published(prev.paramsVersion).value;
            && HasKey(q.covenantPks, sys.pk.x)
            && var paths := sys.st.stakingPaths(prev.btcPk, prev.fpBtcPks, q.covenantPks, q.covenantQuorum,
                                                prev.stakingTime, prev.totalSat);
            && paths.Some? && paths.value.1 == e.previousActiveStakeUnbondingPkScriptPath
  {
    var prev := Fetch(sys, c, c.dels[h].stakeExpansion.value.previousStakingTxHashHex).value;
    ConvertIff(c.dels[req.stakingTx.ins[0].prevHash]);
    InCommitteeIff(XOnly(sys.pk), sys.published(c.dels[h].paramsVersion).value);
    InCommitteeIff(XOnly(sys.pk), sys.published(prev.paramsVersion).value);
  }

  /** The expansion signature of a message that was made is the one this member's key makes over the previous stake's
      output. */
  lemma RightfulExpansionMeans(
    sys: System, c: ChainState, msg: CovenantSigs, req: SigningRequest, resp: SignaturesResponse)
    requires Valid(sys) && Rightful(sys, c, msg, req, resp) && c.dels[msg.stakingTxHash].stakeExpansion.Some?
    ensures req.stakeExp.Some?
    ensures var e := req.stakeExp.value;
            && e.previousStakingOutputIdx < |e.previousActiveStakeTx.outs|
            && msg.stkExpSig.Some?
            && msg.stkExpSig ==
               sys.st.lib.signTwoInputs(
                 req.stakingTx, e.previousActiveStakeTx.outs[e.previousStakingOutputIdx], e.otherFundingOutput,
                 e.previousActiveStakeUnbondingPkScriptPath, sys.key)
  {
  }
}
