/** Signing only while the quorum is open. */
module Quorum {
  import opened Wrappers
  import opened Lists
  import opened Btc
  import opened Types
  import opened Covenant
  import opened Submission
  import opened Chain
  import opened Emulator
  import opened Safety
  import B = Batches
  import R = Resend

  /** The quorum of the delegation's own parameter version is not reached. */
  predicate QuorumOpen(sys: System, d: Delegation) {
    && d.btcUndelegation.Some?
    && sys.published(d.paramsVersion).Some?
    && !HasCovenantQuorum(d, sys.published(d.paramsVersion).value.covenantQuorum)
  }

  /** The delegation carries this member's signature already, or its quorum is open. */
  predicate Ripe(sys: System, c: ChainState, h: Hash) {
    h in c.dels && (AlreadySigned(XOnly(sys.pk), c.dels[h]) || QuorumOpen(sys, c.dels[h]))
  }

  ghost predicate BatchRipe(sys: System, c: ChainState, batch: seq<CovenantSigs>) {
    forall k | 0 <= k < |batch| :: Ripe(sys, c, batch[k].stakingTxHash)
  }

  /** Nothing was sent for a delegation whose quorum was reached by others. */
  ghost predicate SendsRipe(sys: System, sends: seq<Send>) {
    forall j | 0 <= j < |sends| :: BatchRipe(sys, sends[j].at, sends[j].batch)
  }

  predicate Below(sys: System, d: Delegation, n: nat) {
    sys.published(d.paramsVersion).Some? && n < sys.published(d.paramsVersion).value.covenantQuorum
  }

  /** Every signature of this member is among the first that make up the quorum. */
  ghost predicate WithinQuorum(sys: System, c: ChainState) {
    forall h, i: nat | h in c.dels && OwnAt(sys, c.dels[h], i) :: Below(sys, c.dels[h], i)
  }

  // ---------- what this member alone does to the chain ----------

  /** From `a` to `b` a delegation is unchanged or carries this member's signature. */
  ghost predicate OnlyOwn(sys: System, a: ChainState, b: ChainState) {
    forall h | h in a.dels :: h in b.dels && (b.dels[h] == a.dels[h] || AlreadySigned(XOnly(sys.pk), b.dels[h]))
  }

  lemma OnlyOwnTransitive(sys: System, a: ChainState, b: ChainState, c: ChainState)
    requires OnlyOwn(sys, a, b) && OnlyOwn(sys, b, c) && Within(b, c)
    ensures OnlyOwn(sys, a, c)
  {
    forall h | h in a.dels ensures h in c.dels && (c.dels[h] == a.dels[h] || AlreadySigned(XOnly(sys.pk), c.dels[h])) {
      if AlreadySigned(XOnly(sys.pk), b.dels[h]) {
        SignedStays(XOnly(sys.pk), b.dels[h], c.dels[h]);
      }
    }
  }

  lemma ApplyOnlyOwn(sys: System, c: ChainState, msg: CovenantSigs)
    requires msg.publicKey == sys.pk && Apply(sys, c, msg).Some?
    ensures OnlyOwn(sys, c, Apply(sys, c, msg).value)
  {
    RecordKeepsTerms(c.dels[msg.stakingTxHash], msg);
  }

  lemma {:induction false} ExecuteOnlyOwn(sys: System, c: ChainState, batch: seq<CovenantSigs>)
    requires WellFormed(sys, c) && BatchOwn(sys, batch) && R.Execute(ApplyOf(sys), c, batch).Success?
    ensures OnlyOwn(sys, c, R.Execute(ApplyOf(sys), c, batch).value)
    decreases |batch|
  {
    if batch != [] {
      var next := Apply(sys, c, batch[0]).value;
      ApplyOnlyOwn(sys, c, batch[0]);
      ApplyKeepsWellFormed(sys, c, batch[0]);
      ExecuteOnlyOwn(sys, next, batch[1..]);
      ExecuteExtends(sys, next, batch[1..]);
      OnlyOwnTransitive(sys, c, next, R.Execute(ApplyOf(sys), c, batch).value);
    }
  }

  lemma OnlyOwnItself(sys: System, c: ChainState)
    ensures OnlyOwn(sys, c, c)
  {
  }

  lemma CommittingOnlyOwn(sys: System, c: ChainState, batch: seq<CovenantSigs>)
    requires WellFormed(sys, c) && BatchOwn(sys, batch)
    ensures OnlyOwn(sys, c, Committing(sys, c, batch))
  {
    if R.Execute(ApplyOf(sys), c, batch).Success? {
      ExecuteOnlyOwn(sys, c, batch);
    }
  }

  // ---------- recording while the quorum is open ----------

  lemma OpenIsBelow(sys: System, d: Delegation)
    requires QuorumOpen(sys, d) && WholeSets(d)
    ensures Below(sys, d, |d.covenantSigs|)
  {
  }

  /** Recording keeps to the quorum exactly when it was open, that is, when the new position is below it. */
  lemma ApplyWithinIff(sys: System, c: ChainState, msg: CovenantSigs)
    requires msg.publicKey == sys.pk && Apply(sys, c, msg).Some? && WithinQuorum(sys, c)
    ensures var d := c.dels[msg.stakingTxHash];
            WithinQuorum(sys, Apply(sys, c, msg).value) <==> Below(sys, d, |d.covenantSigs|)
  {
    var h, next := msg.stakingTxHash, Apply(sys, c, msg).value;
    var d, e := c.dels[h], next.dels[h];
    RecordedOwnAt(sys, d, msg);
    RecordKeepsTerms(d, msg);
    HashOfTerms(sys.st, d, e);
    assert OwnAt(sys, e, |d.covenantSigs|);
    assert forall g | g in next.dels && g != h :: next.dels[g] == c.dels[g];
    if Below(sys, d, |d.covenantSigs|) {
      forall g, i: nat | g in next.dels && OwnAt(sys, next.dels[g], i) ensures Below(sys, next.dels[g], i) {
        if g != h {
          assert OwnAt(sys, c.dels[g], i);
        }
      }
    }
  }

  lemma RipeStays(sys: System, c: ChainState, d: ChainState, batch: seq<CovenantSigs>)
    requires OnlyOwn(sys, c, d) && Within(c, d) && BatchRipe(sys, c, batch)
    ensures BatchRipe(sys, d, batch)
  {
    forall k | 0 <= k < |batch| ensures Ripe(sys, d, batch[k].stakingTxHash) {
      var h := batch[k].stakingTxHash;
      assert Ripe(sys, c, h);
      if AlreadySigned(XOnly(sys.pk), c.dels[h]) {
        SignedStays(XOnly(sys.pk), c.dels[h], d.dels[h]);
      }
    }
  }

  lemma ApplyRipeIsWithin(sys: System, c: ChainState, msg: CovenantSigs)
    requires WellFormed(sys, c) && WithinQuorum(sys, c) && msg.publicKey == sys.pk
    requires Ripe(sys, c, msg.stakingTxHash) && Apply(sys, c, msg).Some?
    ensures WithinQuorum(sys, Apply(sys, c, msg).value)
  {
    OpenIsBelow(sys, c.dels[msg.stakingTxHash]);
    ApplyWithinIff(sys, c, msg);
  }

  lemma {:induction false} ExecuteRipeIsWithin(sys: System, c: ChainState, batch: seq<CovenantSigs>)
    requires WellFormed(sys, c) && WithinQuorum(sys, c) && BatchOwn(sys, batch) && BatchRipe(sys, c, batch)
    requires R.Execute(ApplyOf(sys), c, batch).Success?
    ensures WithinQuorum(sys, R.Execute(ApplyOf(sys), c, batch).value)
    decreases |batch|
  {
    if batch != [] {
      var next := Apply(sys, c, batch[0]).value;
      assert Ripe(sys, c, batch[0].stakingTxHash);
      ApplyRipeIsWithin(sys, c, batch[0]);
      ApplyKeepsWellFormed(sys, c, batch[0]);
      ApplyExtends(sys, c, batch[0]);
      ApplyOnlyOwn(sys, c, batch[0]);
      RipeStays(sys, c, next, batch[1..]);
      ExecuteRipeIsWithin(sys, next, batch[1..]);
    }
  }

  // ---------- what a tick sends is ripe ----------

  lemma VerdictIsRipe(
    sys: System, env: Env, scanned: ChainState, at: ChainState, del: Delegation, msg: CovenantSigs)
    requires Valid(sys) && HonestEnv(sys, env) && IsScanned(sys, scanned, del) && Extends(scanned, at)
    requires OnlyOwn(sys, scanned, at)
    requires VerdictOn(sys.st, WorldAt(sys, env, at), env.sign, sys.pk, del) == Success(msg)
    ensures Ripe(sys, at, msg.stakingTxHash)
  {
    var p := env.params(del.paramsVersion).value;
    RequestIsAsked(
      sys, env, scanned, at, del, p, BuildRequest(sys.st, WorldAt(sys, env, at), del, p).value);
    VerdictIsMade(sys, env, scanned, at, del, msg);
  }

  lemma SubmittedAreRipe(
    sys: System, env: nat -> Env, scanned: ChainState, at: ChainState, batch: seq<Delegation>, msgs: seq<CovenantSigs>)
    requires Valid(sys) && HonestTurns(sys, env) && AllScanned(sys, scanned, batch) && Extends(scanned, at)
    requires OnlyOwn(sys, scanned, at) && SignBatch(sys, env, at, batch) == Submit(msgs)
    ensures BatchRipe(sys, at, msgs)
  {
    forall k | 0 <= k < |msgs| ensures Ripe(sys, at, msgs[k].stakingTxHash) {
      var i := SubmittedIsSigned(sys, env, at, batch, msgs, k);
      VerdictIsRipe(sys, env(i), scanned, at, batch[i], msgs[k]);
    }
  }

  lemma SentAreRipe(sys: System, c: ChainState, msgs: seq<CovenantSigs>, batch: seq<CovenantSigs>)
    requires BatchRipe(sys, c, msgs) && batch in ResendAt(sys, c, msgs).Sends()
    ensures BatchRipe(sys, c, batch)
  {
    forall k | 0 <= k < |batch| ensures Ripe(sys, c, batch[k].stakingTxHash) {
      SentAreSubmitted(sys, c, msgs, batch, k);
    }
  }

  lemma NewSendsRipe(sys: System, c: ChainState, msgs: seq<CovenantSigs>)
    requires BatchRipe(sys, c, msgs)
    ensures SendsRipe(sys, SendsAt(c, ResendAt(sys, c, msgs)))
  {
    var run := ResendAt(sys, c, msgs);
    forall j | 0 <= j < |run.Sends()| ensures BatchRipe(sys, c, run.Sends()[j]) {
      SentAreRipe(sys, c, msgs, run.Sends()[j]);
    }
  }

  lemma SendsRipeAppend(sys: System, a: seq<Send>, b: seq<Send>)
    requires SendsRipe(sys, a) && SendsRipe(sys, b)
    ensures SendsRipe(sys, a + b)
  {
  }

  /** The state in the middle of a tick that scanned `scanned`. */
  ghost predicate Ripening(sys: System, scanned: ChainState, s: State) {
    && WellFormed(sys, s.chain) && Extends(scanned, s.chain) && OnlyOwn(sys, scanned, s.chain)
    && SendsRipe(sys, s.sends)
  }

  lemma SubmittingRipens(sys: System, scanned: ChainState, s: State, msgs: seq<CovenantSigs>)
    requires Ripening(sys, scanned, s) && BatchMade(sys, s.chain, msgs) && BatchRipe(sys, s.chain, msgs)
    ensures var after := SubmitResult(sys, s, Submit(msgs));
            Ripening(sys, scanned, after) && (WithinQuorum(sys, s.chain) ==> WithinQuorum(sys, after.chain))
  {
    var run := ResendAt(sys, s.chain, msgs);
    NewSendsRipe(sys, s.chain, msgs);
    SendsRipeAppend(sys, s.sends, SendsAt(s.chain, run));
    SubmitExtends(sys, s, Submit(msgs));
    ExtendsTransitive(scanned, s.chain, After(sys, s.chain, run));
    if run.Committed().Some? {
      CommittedRipens(sys, s.chain, msgs);
      OnlyOwnTransitive(sys, scanned, s.chain, After(sys, s.chain, run));
    }
  }

  lemma CommittedRipens(sys: System, c: ChainState, msgs: seq<CovenantSigs>)
    requires WellFormed(sys, c) && BatchMade(sys, c, msgs) && BatchRipe(sys, c, msgs)
    requires ResendAt(sys, c, msgs).Committed().Some?
    ensures var after := After(sys, c, ResendAt(sys, c, msgs));
            OnlyOwn(sys, c, after) && (WithinQuorum(sys, c) ==> WithinQuorum(sys, after))
  {
    var batch := ResendAt(sys, c, msgs).Committed().value;
    CommittedWasSent(ResendAt(sys, c, msgs));
    SentAreMade(sys, c, msgs, batch);
    BatchMadeIsOwn(sys, c, batch);
    SentAreRipe(sys, c, msgs, batch);
    CommittingOnlyOwn(sys, c, batch);
    if WithinQuorum(sys, c) && R.Execute(ApplyOf(sys), c, batch).Success? {
      ExecuteRipeIsWithin(sys, c, batch);
    }
  }

  lemma SubmitBatchRipens(sys: System, env: nat -> Env, scanned: ChainState, s: State, batch: seq<Delegation>)
    requires Valid(sys) && HonestTurns(sys, env) && AllScanned(sys, scanned, batch) && Ripening(sys, scanned, s)
    ensures var after := SubmitBatch(sys, env, s, batch);
            Ripening(sys, scanned, after) && (WithinQuorum(sys, s.chain) ==> WithinQuorum(sys, after.chain))
  {
    match SignBatch(sys, env, s.chain, batch) {
      case Submit(msgs) =>
        AllSubmittedAreMade(sys, env, scanned, s.chain, batch, msgs);
        SubmittedAreRipe(sys, env, scanned, s.chain, batch, msgs);
        SubmittingRipens(sys, scanned, s, msgs);
      case _ =>
    }
  }

  lemma SubmitBatchesRipen(
    sys: System, env: nat -> nat -> Env, k: nat, scanned: ChainState, s: State, batches: seq<seq<Delegation>>)
    requires Valid(sys) && HonestEnvs(sys, env) && BatchesScanned(sys, scanned, batches) && Ripening(sys, scanned, s)
    ensures var after := SubmitBatches(sys, env, k, s, batches);
            SendsRipe(sys, after.sends) && (WithinQuorum(sys, s.chain) ==> WithinQuorum(sys, after.chain))
  {
    var step, inv := SubmitIn(sys, env), (t: State) => RipensFrom(sys, scanned, s, t);
    var states := EveryBatchIsNext(sys, env, k, s, batches);
    forall j: nat, t: State | j < |batches| && inv(t) ensures inv(step(k + j, t, batches[j])) {
      assert AllScanned(sys, scanned, batches[j]) && HonestTurns(sys, env(k + j));
      SubmitBatchRipens(sys, env(k + j), scanned, t, batches[j]);
    }
    ChainedKeeps(step, k, batches, states, inv, |batches|);
  }

  ghost predicate RipensFrom(sys: System, scanned: ChainState, s: State, t: State) {
    Ripening(sys, scanned, t) && (WithinQuorum(sys, s.chain) ==> WithinQuorum(sys, t.chain))
  }

  /** A tick sends nothing for a delegation whose quorum others have reached, and signs within the quorum. */
  lemma TickRipens(sys: System, env: nat -> nat -> Env, s: State)
    requires Valid(sys) && HonestEnvs(sys, env) && WellFormed(sys, s.chain) && SendsRipe(sys, s.sends)
    ensures var after := Tick(sys, env, s);
            SendsRipe(sys, after.sends) && (WithinQuorum(sys, s.chain) ==> WithinQuorum(sys, after.chain))
  {
    var r := Scan(sys, env(0)(0), s.chain);
    if r.Success? {
      assert HonestTurns(sys, env(0));
      ScanReturnsScanned(sys, env(0)(0), s.chain);
      SplitScanned(sys, s.chain, r.value, sys.batchSize);
      ExtendsItself(s.chain);
      OnlyOwnItself(sys, s.chain);
      SubmitBatchesRipen(sys, env, 1, s.chain, s, B.Split(r.value, sys.batchSize));
    }
  }

  // ---------- runs ----------

  lemma GrowKeepsWithin(sys: System, c: ChainState, d: ChainState)
    requires WithinQuorum(sys, c) && Grows(sys, c, d)
    ensures WithinQuorum(sys, d)
  {
    forall h | h in d.dels && h !in c.dels ensures forall i: nat :: !OwnAt(sys, d.dels[h], i) {
      assert OthersSince(sys, d.dels[h], 0);
    }
    forall h, i: nat | h in c.dels && OwnAt(sys, d.dels[h], i) ensures Below(sys, d.dels[h], i) {
      assert OthersSince(sys, d.dels[h], |c.dels[h].covenantSigs|) && Keeps(c.dels[h], d.dels[h]);
      assert i < |c.dels[h].covenantSigs| && c.dels[h].covenantSigs[i] == d.dels[h].covenantSigs[i];
      assert OwnAt(sys, c.dels[h], i);
      HashOfTerms(sys.st, c.dels[h], d.dels[h]);
    }
  }

  lemma StepKeepsQuorum(sys: System, s: State, a: Action)
    requires Valid(sys) && WellFormed(sys, s.chain) && SendsRipe(sys, s.sends) && Legal(sys, s, a)
    ensures SendsRipe(sys, Step(sys, s, a).sends)
    ensures !a.Late? && WithinQuorum(sys, s.chain) ==> WithinQuorum(sys, Step(sys, s, a).chain)
  {
    match a {
      case Grow(next) =>
        if WithinQuorum(sys, s.chain) {
          GrowKeepsWithin(sys, s.chain, next);
        }
      case Ticks(env) => TickRipens(sys, env, s);
      case Late(_) =>
    }
  }

  predicate NoLate(actions: seq<Action>) { forall i | 0 <= i < |actions| :: !actions[i].Late? }

  lemma {:induction false} RunKeepsQuorum(sys: System, s: State, actions: seq<Action>)
    requires Valid(sys) && Inv(sys, s) && SendsRipe(sys, s.sends) && LegalRun(sys, s, actions)
    ensures SendsRipe(sys, Run(sys, s, actions).sends)
    ensures NoLate(actions) && WithinQuorum(sys, s.chain) ==> WithinQuorum(sys, Run(sys, s, actions).chain)
    decreases |actions|
  {
    if actions != [] {
      StepKeepsInv(sys, s, actions[0]);
      StepKeepsQuorum(sys, s, actions[0]);
      RunKeepsQuorum(sys, Step(sys, s, actions[0]), actions[1..]);
    }
  }

  // ---------- late executions ----------

  /** A batch that succeeds names no delegation that carries this member's signature. */
  lemma {:induction false} SuccessAvoidsSigned(sys: System, c: ChainState, batch: seq<CovenantSigs>, h: Hash)
    requires WellFormed(sys, c) && BatchOwn(sys, batch) && R.Execute(ApplyOf(sys), c, batch).Success?
    requires h in c.dels && AlreadySigned(XOnly(sys.pk), c.dels[h])
    ensures !Names(batch, h)
    decreases |batch|
  {
    if batch != [] {
      var next := Apply(sys, c, batch[0]).value;
      ApplyKeepsWellFormed(sys, c, batch[0]);
      ApplyExtends(sys, c, batch[0]);
      SignedStays(XOnly(sys.pk), c.dels[h], next.dels[h]);
      SuccessAvoidsSigned(sys, next, batch[1..], h);
      assert batch[0].stakingTxHash != h;
      assert forall k | 0 < k < |batch| :: batch[k] == batch[1..][k - 1];
    }
  }

  /** The quorum of the delegation stored under `h` is open. */
  predicate OpenAt(sys: System, c: ChainState, h: Hash) {
    h in c.dels && Below(sys, c.dels[h], |c.dels[h].covenantSigs|)
  }

  /** Every delegation the batch names has its quorum open. */
  ghost predicate BatchBelow(sys: System, c: ChainState, batch: seq<CovenantSigs>) {
    forall k | 0 <= k < |batch| :: OpenAt(sys, c, batch[k].stakingTxHash)
  }

  lemma BatchBelowSplit(sys: System, c: ChainState, batch: seq<CovenantSigs>)
    requires batch != []
    ensures BatchBelow(sys, c, batch) <==>
            OpenAt(sys, c, batch[0].stakingTxHash) && BatchBelow(sys, c, batch[1..])
  {
    assert forall k | 0 < k < |batch| :: batch[k] == batch[1..][k - 1];
  }

  lemma BatchBelowSame(sys: System, c: ChainState, d: ChainState, batch: seq<CovenantSigs>, h: Hash)
    requires !Names(batch, h) && c.dels.Keys == d.dels.Keys
    requires forall g | g in c.dels && g != h :: d.dels[g] == c.dels[g]
    ensures BatchBelow(sys, c, batch) <==> BatchBelow(sys, d, batch)
  {
    assert forall k | 0 <= k < |batch| :: batch[k].stakingTxHash != h;
    assert forall k | 0 <= k < |batch| ::
        OpenAt(sys, c, batch[k].stakingTxHash) <==> OpenAt(sys, d, batch[k].stakingTxHash);
  }

  lemma BeyondStays(sys: System, c: ChainState, d: ChainState)
    requires Within(c, d) && !WithinQuorum(sys, c)
    ensures !WithinQuorum(sys, d)
  {
    var h, i: nat :| h in c.dels && OwnAt(sys, c.dels[h], i) && !Below(sys, c.dels[h], i);
    assert Keeps(c.dels[h], d.dels[h]);
    assert d.dels[h].covenantSigs[i] == c.dels[h].covenantSigs[i];
    HashOfTerms(sys.st, c.dels[h], d.dels[h]);
    assert OwnAt(sys, d.dels[h], i) && !Below(sys, d.dels[h], i);
  }

  lemma RestBelowIff(sys: System, c: ChainState, batch: seq<CovenantSigs>)
    requires WellFormed(sys, c) && BatchOwn(sys, batch) && R.Execute(ApplyOf(sys), c, batch).Success? && batch != []
    ensures BatchBelow(sys, c, batch) <==>
            && OpenAt(sys, c, batch[0].stakingTxHash)
            && BatchBelow(sys, Apply(sys, c, batch[0]).value, batch[1..])
  {
    var h, next := batch[0].stakingTxHash, Apply(sys, c, batch[0]).value;
    ApplyKeepsWellFormed(sys, c, batch[0]);
    RecordKeepsTerms(c.dels[h], batch[0]);
    SuccessAvoidsSigned(sys, next, batch[1..], h);
    BatchBelowSplit(sys, c, batch);
    BatchBelowSame(sys, c, next, batch[1..], h);
  }

  /** Executing a batch late keeps to the quorum exactly when the quorum of every delegation it names is still open. */
  lemma {:induction false} LateKeepsQuorumIff(sys: System, c: ChainState, batch: seq<CovenantSigs>)
    requires WellFormed(sys, c) && WithinQuorum(sys, c) && BatchOwn(sys, batch)
    requires R.Execute(ApplyOf(sys), c, batch).Success?
    ensures WithinQuorum(sys, R.Execute(ApplyOf(sys), c, batch).value) <==> BatchBelow(sys, c, batch)
    decreases |batch|
  {
    if batch != [] {
      var next := Apply(sys, c, batch[0]).value;
      ApplyWithinIff(sys, c, batch[0]);
      ApplyKeepsWellFormed(sys, c, batch[0]);
      RestBelowIff(sys, c, batch);
      if WithinQuorum(sys, next) {
        LateKeepsQuorumIff(sys, next, batch[1..]);
      } else {
        ExecuteExtends(sys, next, batch[1..]);
        BeyondStays(sys, next, R.Execute(ApplyOf(sys), c, batch).value);
      }
    }
  }
}
