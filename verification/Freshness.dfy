/** When the emulator sends signatures for a delegation that already carries its signature. */
module Freshness {
  import opened Wrappers
  import opened Lists
  import opened Btc
  import opened Types
  import opened Covenant
  import opened Submission
  import opened Chain
  import opened Emulator
  import opened Safety
  import opened Quorum
  import P = Pagination
  import B = Batches
  import R = Resend

  /** The chain knows the message's delegation and holds no signature of this member for it. */
  ghost predicate FreshMsg(sys: System, c: ChainState, msg: CovenantSigs) {
    Unsigned(sys, c, msg.stakingTxHash)
  }

  predicate Unsigned(sys: System, c: ChainState, h: Hash) {
    h in c.dels && !AlreadySigned(XOnly(sys.pk), c.dels[h])
  }

  ghost predicate FreshSend(sys: System, send: Send) {
    forall k | 0 <= k < |send.batch| :: FreshMsg(sys, send.at, send.batch[k])
  }

  ghost predicate AllFresh(sys: System, sends: seq<Send>) {
    forall j | 0 <= j < |sends| :: FreshSend(sys, sends[j])
  }

  predicate UnsignedDel(sys: System, c: ChainState, del: Delegation) {
    HashOf(sys.st, del).Some? && Unsigned(sys, c, HashOf(sys.st, del).value)
  }

  ghost predicate AllUnsigned(sys: System, c: ChainState, dels: seq<Delegation>) {
    forall i | 0 <= i < |dels| :: UnsignedDel(sys, c, dels[i])
  }

  ghost predicate DistinctHashes(sys: System, dels: seq<Delegation>) {
    forall i, j | 0 <= i < j < |dels| :: HashOf(sys.st, dels[i]) != HashOf(sys.st, dels[j])
  }

  // ---------- a scan of one pass, or a single batch, never re-sends ----------

  lemma ScannedIsUnsigned(sys: System, c: ChainState, dels: seq<Delegation>)
    requires AllScanned(sys, c, dels)
    ensures AllUnsigned(sys, c, dels)
  {
    forall i | 0 <= i < |dels| ensures UnsignedDel(sys, c, dels[i]) {
      assert IsScanned(sys, c, dels[i]);
      AcceptedIff(sys.st, TrueWorld(sys, c), sys.pk, dels[i]);
    }
  }

  lemma SubmissionIsFresh(
    sys: System, env: nat -> Env, scanned: ChainState, at: ChainState, batch: seq<Delegation>, msgs: seq<CovenantSigs>)
    requires Valid(sys) && HonestTurns(sys, env) && AllScanned(sys, scanned, batch) && Extends(scanned, at)
    requires SignBatch(sys, env, at, batch) == Submit(msgs)
    requires AllUnsigned(sys, at, batch)
    ensures AllFresh(sys, SendsAt(at, ResendAt(sys, at, msgs)))
  {
    var run := ResendAt(sys, at, msgs);
    AllSubmittedAreMade(sys, env, scanned, at, batch, msgs);
    forall j | 0 <= j < |run.Sends()| ensures FreshSend(sys, Send(at, run.Sends()[j])) {
      var sent := run.Sends()[j];
      forall k | 0 <= k < |sent| ensures FreshMsg(sys, at, sent[k]) {
        SentAreSubmitted(sys, at, msgs, sent, k);
        var i :| 0 <= i < |msgs| && msgs[i] == sent[k];
        MadeForUnsigned(sys, at, batch, msgs[i]);
      }
    }
  }

  lemma MadeForUnsigned(sys: System, c: ChainState, batch: seq<Delegation>, msg: CovenantSigs)
    requires AllUnsigned(sys, c, batch) && MadeFor(sys, c, batch, msg)
    ensures FreshMsg(sys, c, msg)
  {
    var i :| 0 <= i < |batch| && HashOf(sys.st, batch[i]) == Some(msg.stakingTxHash);
    assert UnsignedDel(sys, c, batch[i]);
  }

  lemma SubmissionLeavesOthers(
    sys: System, env: nat -> Env, scanned: ChainState, at: ChainState, batch: seq<Delegation>,
    msgs: seq<CovenantSigs>, h: Hash)
    requires Valid(sys) && HonestTurns(sys, env) && AllScanned(sys, scanned, batch) && Extends(scanned, at)
    requires SignBatch(sys, env, at, batch) == Submit(msgs)
    requires Unsigned(sys, at, h) && forall i | 0 <= i < |batch| :: HashOf(sys.st, batch[i]) != Some(h)
    ensures Unsigned(sys, After(sys, at, ResendAt(sys, at, msgs)), h)
  {
    var run := ResendAt(sys, at, msgs);
    if run.Committed().Some? {
      var sent := run.Committed().value;
      AllSubmittedAreMade(sys, env, scanned, at, batch, msgs);
      forall k | 0 <= k < |sent| ensures sent[k].stakingTxHash != h {
        SentAreSubmitted(sys, at, msgs, sent, k);
      }
      if R.Execute(ApplyOf(sys), at, sent).Success? {
        ExecuteLeavesOthers(sys, at, sent, h);
      }
    }
  }

  lemma FreshAppend(sys: System, a: seq<Send>, b: seq<Send>)
    requires AllFresh(sys, a) && AllFresh(sys, b)
    ensures AllFresh(sys, a + b)
  {
  }

  /** One batch of unsigned delegations: every send is fresh, and unsigned delegations outside the batch stay so. */
  lemma SubmitBatchIsFresh(
    sys: System, env: nat -> Env, scanned: ChainState, s: State, batch: seq<Delegation>, rest: seq<Delegation>)
    requires Valid(sys) && HonestTurns(sys, env) && AllScanned(sys, scanned, batch) && Extends(scanned, s.chain)
    requires AllUnsigned(sys, s.chain, batch) && AllUnsigned(sys, s.chain, rest) && DistinctHashes(sys, batch + rest)
    requires AllFresh(sys, s.sends)
    ensures AllFresh(sys, SubmitBatch(sys, env, s, batch).sends)
    ensures AllUnsigned(sys, SubmitBatch(sys, env, s, batch).chain, rest)
  {
    match SignBatch(sys, env, s.chain, batch) {
      case Submit(msgs) =>
        SubmissionIsFresh(sys, env, scanned, s.chain, batch, msgs);
        FreshAppend(sys, s.sends, SendsAt(s.chain, ResendAt(sys, s.chain, msgs)));
        forall j | 0 <= j < |rest| ensures UnsignedDel(sys, SubmitBatch(sys, env, s, batch).chain, rest[j]) {
          assert UnsignedDel(sys, s.chain, rest[j]);
          DistinctAcross(sys, batch, rest, j);
          SubmissionLeavesOthers(sys, env, scanned, s.chain, batch, msgs, HashOf(sys.st, rest[j]).value);
        }
      case _ =>
    }
  }

  lemma DistinctAcross(sys: System, a: seq<Delegation>, b: seq<Delegation>, j: nat)
    requires DistinctHashes(sys, a + b) && j < |b|
    ensures forall i | 0 <= i < |a| :: HashOf(sys.st, a[i]) != HashOf(sys.st, b[j])
  {
    assert (a + b)[|a| + j] == b[j];
    assert forall i | 0 <= i < |a| :: (a + b)[i] == a[i];
  }

  /** What every batch keeps about the delegations still to come, the whole tick keeps. */
  lemma {:induction false} SubmitSplitKeeps(
    sys: System, env: nat -> nat -> Env, k: nat, s: State, dels: seq<Delegation>, inv: (State, seq<Delegation>) -> bool)
    requires sys.st.Lawful() && sys.batchSize > 0 && inv(s, dels)
    requires forall i: nat, t: State, ds: seq<Delegation>, n: nat |
               k <= i && n <= |ds| && n <= sys.batchSize && inv(t, ds) ::
               inv(SubmitBatch(sys, env(i), t, ds[..n]), ds[n..])
    ensures inv(SubmitBatches(sys, env, k, s, B.Split(dels, sys.batchSize)), [])
    decreases |dels|
  {
    if dels != [] {
      var n := if sys.batchSize < |dels| then sys.batchSize else |dels|;
      B.SplitFront(dels, sys.batchSize, n);
      SubmitSplitKeeps(sys, env, k + 1, SubmitBatch(sys, env(k), s, dels[..n]), dels[n..], inv);
      SubmitFront(sys, env, k, s, dels[..n], B.Split(dels[n..], sys.batchSize));
    }
  }

  /** State `s` in the middle of a tick that scanned `scanned` and still has to submit `dels`. */
  ghost predicate OnTrack(sys: System, scanned: ChainState, s: State, dels: seq<Delegation>) {
    && WellFormed(sys, s.chain) && Extends(scanned, s.chain) && AllFresh(sys, s.sends)
    && AllScanned(sys, scanned, dels) && AllUnsigned(sys, s.chain, dels) && DistinctHashes(sys, dels)
  }

  lemma ScannedParts(sys: System, scanned: ChainState, c: ChainState, dels: seq<Delegation>, n: nat)
    requires n <= |dels| && AllScanned(sys, scanned, dels) && AllUnsigned(sys, c, dels)
    ensures AllScanned(sys, scanned, dels[..n]) && AllScanned(sys, scanned, dels[n..])
    ensures AllUnsigned(sys, c, dels[..n]) && AllUnsigned(sys, c, dels[n..])
  {
  }

  lemma DistinctParts(sys: System, dels: seq<Delegation>, n: nat)
    requires n <= |dels| && DistinctHashes(sys, dels)
    ensures DistinctHashes(sys, dels[..n] + dels[n..]) && DistinctHashes(sys, dels[n..])
  {
    assert dels[..n] + dels[n..] == dels;
  }

  lemma StaysOnTrack(sys: System, env: nat -> Env, scanned: ChainState, s: State, dels: seq<Delegation>, n: nat)
    requires Valid(sys) && HonestTurns(sys, env) && OnTrack(sys, scanned, s, dels) && n <= |dels|
    ensures OnTrack(sys, scanned, SubmitBatch(sys, env, s, dels[..n]), dels[n..])
  {
    var batch, rest := dels[..n], dels[n..];
    ScannedParts(sys, scanned, s.chain, dels, n);
    DistinctParts(sys, dels, n);
    SubmitBatchIsFresh(sys, env, scanned, s, batch, rest);
    SubmitBatchExtends(sys, env, scanned, s, batch);
  }

  lemma SubmitSplitIsFresh(sys: System, env: nat -> nat -> Env, s: State, dels: seq<Delegation>)
    requires Valid(sys) && HonestEnvs(sys, env) && OnTrack(sys, s.chain, s, dels)
    ensures AllFresh(sys, SubmitBatches(sys, env, 1, s, B.Split(dels, sys.batchSize)).sends)
  {
    forall i: nat, t: State, ds: seq<Delegation>, n: nat | n <= |ds| && OnTrack(sys, s.chain, t, ds)
      ensures OnTrack(sys, s.chain, SubmitBatch(sys, env(i), t, ds[..n]), ds[n..])
    {
      StaysOnTrack(sys, env(i), s.chain, t, ds, n);
    }
    SubmitSplitKeeps(sys, env, 1, s, dels, (t, ds) => OnTrack(sys, s.chain, t, ds));
  }

  lemma SubmitFront(
    sys: System, env: nat -> nat -> Env, k: nat, s: State, batch: seq<Delegation>, batches: seq<seq<Delegation>>)
    requires sys.st.Lawful()
    ensures SubmitBatches(sys, env, k, s, [batch] + batches) ==
            SubmitBatches(sys, env, k + 1, SubmitBatch(sys, env(k), s, batch), batches)
  {
    assert ([batch] + batches)[1..] == batches;
  }

  /** The delegations a filter keeps from a list without repetition have different hashes. */
  lemma AcceptedHashes(sys: System, env: Env, c: ChainState, items: seq<Hash>)
    requires WellFormed(sys, c) && HonestEnv(sys, env) && Distinct(items)
    ensures DistinctHashes(sys, P.Accepted(ScanJudge(sys, env, c), items))
  {
    var judge := ScanJudge(sys, env, c);
    forall i | 0 <= i < |items| && judge(items[i]).Keep? ensures HashOf(sys.st, judge(items[i]).del) == Some(items[i]) {
      KeptIsScanned(sys, env, c, items[i], judge(items[i]).del);
    }
    P.AcceptedKeys(judge, (del: Delegation) => HashOf(sys.st, del), items);
  }

  lemma TakeDistinct(sys: System, n: nat, dels: seq<Delegation>)
    requires DistinctHashes(sys, dels)
    ensures DistinctHashes(sys, P.Take(n, dels))
  {
  }

  lemma OnePassDistinct(sys: System, env: Env, c: ChainState)
    requires WellFormed(sys, c) && HonestEnv(sys, env) && Scan(sys, env, c).Success?
    requires P.OnePass(c.pending, ScanJudge(sys, env, c), sys.limit)
    ensures DistinctHashes(sys, Scan(sys, env, c).value)
  {
    var judge := ScanJudge(sys, env, c);
    P.OnePassAnswer(c.pending, judge, sys.limit);
    var n: nat :| n <= |c.pending| && Scan(sys, env, c).value == P.Take(sys.limit, P.Accepted(judge, c.pending[..n]));
    AcceptedHashes(sys, env, c, c.pending[..n]);
    TakeDistinct(sys, sys.limit, P.Accepted(judge, c.pending[..n]));
  }

  /** The scan needs a single pass, or its answer fits into a single batch. */
  ghost predicate NoRepeats(sys: System, env: Env, c: ChainState) {
    P.OnePass(c.pending, ScanJudge(sys, env, c), sys.limit) || sys.limit <= sys.batchSize
  }

  lemma SingleBatchIsFresh(sys: System, env: nat -> nat -> Env, s: State, dels: seq<Delegation>)
    requires Valid(sys) && HonestEnvs(sys, env) && AllScanned(sys, s.chain, dels)
    requires AllFresh(sys, s.sends) && dels != [] && |dels| <= sys.batchSize
    ensures AllFresh(sys, SubmitBatches(sys, env, 1, s, B.Split(dels, sys.batchSize)).sends)
  {
    OneBatchIsFresh(sys, env(1), s, dels);
    SubmitOne(sys, env, 1, s, dels);
  }

  lemma SubmitOne(sys: System, env: nat -> nat -> Env, k: nat, s: State, dels: seq<Delegation>)
    requires sys.st.Lawful() && dels != [] && |dels| <= sys.batchSize
    ensures SubmitBatches(sys, env, k, s, B.Split(dels, sys.batchSize)) == SubmitBatch(sys, env(k), s, dels)
  {
    assert B.Split(dels, sys.batchSize) == [dels];
    assert [dels][1..] == [];
  }

  lemma OneBatchIsFresh(sys: System, env: nat -> Env, s: State, dels: seq<Delegation>)
    requires Valid(sys) && HonestTurns(sys, env) && AllScanned(sys, s.chain, dels) && AllFresh(sys, s.sends)
    ensures AllFresh(sys, SubmitBatch(sys, env, s, dels).sends)
  {
    ScannedIsUnsigned(sys, s.chain, dels);
    ExtendsItself(s.chain);
    match SignBatch(sys, env, s.chain, dels) {
      case Submit(msgs) =>
        SubmissionIsFresh(sys, env, s.chain, s.chain, dels, msgs);
        FreshAppend(sys, s.sends, SendsAt(s.chain, ResendAt(sys, s.chain, msgs)));
      case _ =>
    }
  }

  lemma TickSendsFresh(sys: System, env: nat -> nat -> Env, s: State)
    requires Valid(sys) && HonestEnvs(sys, env) && WellFormed(sys, s.chain) && AllFresh(sys, s.sends)
    requires NoRepeats(sys, env(0)(0), s.chain)
    ensures AllFresh(sys, Tick(sys, env, s).sends)
  {
    assert HonestTurns(sys, env(0));
    var r := Scan(sys, env(0)(0), s.chain);
    if r.Success? && r.value != [] {
      ScanReturnsScanned(sys, env(0)(0), s.chain);
      if P.OnePass(s.chain.pending, ScanJudge(sys, env(0)(0), s.chain), sys.limit) {
        OnePassDistinct(sys, env(0)(0), s.chain);
        ScannedIsUnsigned(sys, s.chain, r.value);
        ExtendsItself(s.chain);
        SubmitSplitIsFresh(sys, env, s, r.value);
      } else {
        P.AnswerWithinLimit(s.chain.pending, ScanJudge(sys, env(0)(0), s.chain), sys.limit);
        SingleBatchIsFresh(sys, env, s, r.value);
      }
    }
  }

  /** Every tick of the run scans in one pass or submits a single batch. */
  ghost predicate NeverRepeats(sys: System, s: State, actions: seq<Action>)
    requires Valid(sys)
    decreases |actions|
  {
    actions == [] ||
    (&& (actions[0].Ticks? ==> NoRepeats(sys, actions[0].env(0)(0), s.chain))
     && NeverRepeats(sys, Step(sys, s, actions[0]), actions[1..]))
  }

  /** Nothing was sent for a delegation whose quorum was reached at the time of the send. */
  ghost predicate AllOpen(sys: System, sends: seq<Send>) {
    forall j, k | 0 <= j < |sends| && 0 <= k < |sends[j].batch| ::
      var h := sends[j].batch[k].stakingTxHash; h in sends[j].at.dels && QuorumOpen(sys, sends[j].at.dels[h])
  }

  lemma FreshAndRipeIsOpen(sys: System, sends: seq<Send>)
    requires AllFresh(sys, sends) && SendsRipe(sys, sends)
    ensures AllOpen(sys, sends)
  {
    forall j, k | 0 <= j < |sends| && 0 <= k < |sends[j].batch|
      ensures var h := sends[j].batch[k].stakingTxHash; h in sends[j].at.dels && QuorumOpen(sys, sends[j].at.dels[h])
    {
      assert FreshSend(sys, sends[j]) && BatchRipe(sys, sends[j].at, sends[j].batch);
      assert FreshMsg(sys, sends[j].at, sends[j].batch[k]) && Ripe(sys, sends[j].at, sends[j].batch[k].stakingTxHash);
    }
  }

  lemma StepSendsFresh(sys: System, s: State, a: Action)
    requires Valid(sys) && WellFormed(sys, s.chain) && AllFresh(sys, s.sends) && Legal(sys, s, a)
    requires a.Ticks? ==> NoRepeats(sys, a.env(0)(0), s.chain)
    ensures AllFresh(sys, Step(sys, s, a).sends)
  {
    if a.Ticks? {
      TickSendsFresh(sys, a.env, s);
    }
  }

  /** Over every run whose ticks scan in one pass or submit a single batch, nothing is sent for a delegation after this
      member's signature on it is recorded or after its quorum is reached. */
  lemma {:induction false} RunSendsFresh(sys: System, s: State, actions: seq<Action>)
    requires Valid(sys) && Inv(sys, s) && AllFresh(sys, s.sends) && SendsRipe(sys, s.sends)
    requires LegalRun(sys, s, actions) && NeverRepeats(sys, s, actions)
    ensures AllFresh(sys, Run(sys, s, actions).sends) && AllOpen(sys, Run(sys, s, actions).sends)
    decreases |actions|
  {
    if actions == [] {
      FreshAndRipeIsOpen(sys, s.sends);
    } else {
      StepKeepsInv(sys, s, actions[0]);
      StepKeepsQuorum(sys, s, actions[0]);
      StepSendsFresh(sys, s, actions[0]);
      RunSendsFresh(sys, Step(sys, s, actions[0]), actions[1..]);
    }
  }

  // ---------- otherwise, when nothing goes wrong, it does ----------

  /** Surroundings in which nothing goes wrong: the chain reports the first failing message of a batch and verifies
      every properly made signature set, the attempts suffice, the scan meets no error, and every accepted delegation
      is signed. */
  ghost predicate Cooperative(sys: System, env: nat -> nat -> Env, c: ChainState)
    requires Valid(sys)
  {
    && (forall d: ChainState :: R.Honest(R.NamedMessage, NetAt(sys, d), ApplyOf(sys), d, sys.batchSize))
    && (forall d: ChainState, msg: CovenantSigs | Made(sys, d, msg) && msg.stakingTxHash in d.dels ::
          Verifies(sys, d, msg))
    && (sys.cap == 0 || sys.batchSize <= sys.cap)
    && P.NoAbort(ScanJudge(sys, env(0)(0), c), c.pending)
    && (forall h | h in c.pending && ScanVerdict(sys, env(0)(0), c, h).Keep? ::
          Willing(sys, env, c, ScanVerdict(sys, env(0)(0), c, h).del))
  }

  /** The chain verifies the message for its delegation, whatever further signatures the delegation carries. */
  ghost predicate Verifies(sys: System, c: ChainState, msg: CovenantSigs) {
    && msg.stakingTxHash in c.dels
    && forall del | Keeps(c.dels[msg.stakingTxHash], del) :: sys.verifies(del, msg)
  }

  predicate Signs(sys: System, env: Env, c: ChainState, del: Delegation)
    requires sys.st.Lawful()
  {
    VerdictOn(sys.st, WorldAt(sys, env, c), env.sign, sys.pk, del).Success?
  }

  /** The delegation is signed whenever its turn comes. */
  ghost predicate Willing(sys: System, env: nat -> nat -> Env, c: ChainState, del: Delegation)
    requires sys.st.Lawful()
  {
    forall k: nat, i: nat | k >= 1 :: Signs(sys, env(k)(i), c, del)
  }

  ghost predicate AllSigned(sys: System, env: nat -> nat -> Env, c: ChainState, dels: seq<Delegation>)
    requires sys.st.Lawful()
  {
    forall i | 0 <= i < |dels| :: Willing(sys, env, c, dels[i])
  }

  predicate SignedDel(sys: System, c: ChainState, del: Delegation) {
    && HashOf(sys.st, del).Some?
    && HashOf(sys.st, del).value in c.dels
    && AlreadySigned(XOnly(sys.pk), c.dels[HashOf(sys.st, del).value])
  }

  /** A verdict depends on the chain only through terms, which recording does not touch. */
  lemma VerdictStays(sys: System, env: Env, c: ChainState, d: ChainState, del: Delegation)
    requires sys.st.Lawful() && Extends(c, d)
    ensures VerdictOn(sys.st, WorldAt(sys, env, c), env.sign, sys.pk, del) ==
            VerdictOn(sys.st, WorldAt(sys, env, d), env.sign, sys.pk, del)
  {
    if del.stakeExpansion.Some? {
      ExpansionStays(sys, env, c, d, del, del.stakeExpansion.value);
    }
    SameVerdict(sys.st, WorldAt(sys, env, c), WorldAt(sys, env, d), env.sign, sys.pk, del);
  }

  lemma SameVerdict(st: Staking, w: World, u: World, sign: Signer, pk: PubKey, del: Delegation)
    requires st.Lawful() && w.params(del.paramsVersion) == u.params(del.paramsVersion)
    requires del.stakeExpansion.Some? ==>
               var exp := del.stakeExpansion.value; StkExpRequest(st, w, del, exp) == StkExpRequest(st, u, del, exp)
    ensures VerdictOn(st, w, sign, pk, del) == VerdictOn(st, u, sign, pk, del)
  {
  }

  lemma FetchSame(sys: System, c: ChainState, d: ChainState, hashHex: string)
    requires Extends(c, d)
    ensures Fetch(sys, c, hashHex).Some? <==> Fetch(sys, d, hashHex).Some?
    ensures Fetch(sys, c, hashHex).Some? ==> Terms(Fetch(sys, c, hashHex).value) == Terms(Fetch(sys, d, hashHex).value)
  {
    var h := sys.st.parseHash(hashHex);
    if h.Some? && h.value in c.dels {
      ConvertTerms(c.dels[h.value], d.dels[h.value]);
    }
  }

  lemma ExpansionStays(sys: System, env: Env, c: ChainState, d: ChainState, del: Delegation, exp: StakeExpansion)
    requires Extends(c, d)
    ensures StkExpRequest(sys.st, WorldAt(sys, env, c), del, exp) ==
            StkExpRequest(sys.st, WorldAt(sys, env, d), del, exp)
  {
    var hash := exp.previousStakingTxHashHex;
    FetchSame(sys, c, d, hash);
    if Fetch(sys, c, hash).Some? {
      PathsOfTerms(sys.st, Fetch(sys, c, hash).value, Fetch(sys, d, hash).value);
    }
  }

  lemma {:induction false} SignedAll(verdicts: seq<Verdict>)
    requires forall k | 0 <= k < |verdicts| :: verdicts[k].Success?
    ensures |Signed(verdicts)| == |verdicts|
    ensures forall k | 0 <= k < |verdicts| :: Signed(verdicts)[k] == verdicts[k].value
  {
    if verdicts != [] {
      SignedAll(verdicts[..|verdicts| - 1]);
    }
  }

  /** The messages of a batch whose every delegation is signed: one each, in order. */
  lemma MessagesOf(
    sys: System, env: nat -> nat -> Env, k: nat, scanned: ChainState, at: ChainState, batch: seq<Delegation>)
    returns (msgs: seq<CovenantSigs>)
    requires Valid(sys) && HonestEnvs(sys, env) && AllScanned(sys, scanned, batch) && Extends(scanned, at)
    requires batch != [] && AllSigned(sys, env, scanned, batch) && k >= 1
    ensures SignBatch(sys, env(k), at, batch) == Submit(msgs)
    ensures |msgs| == |batch|
    ensures forall j | 0 <= j < |msgs| :: MadeAs(sys, at, batch[j], msgs[j])
  {
    var turns := TurnsAt(sys, env(k), at, batch);
    var verdicts := Verdicts(sys.st, sys.pk, turns);
    assert HonestTurns(sys, env(k));
    forall j | 0 <= j < |batch|
      ensures verdicts[j].Success? && MadeAs(sys, at, batch[j], verdicts[j].value) && !LacksParams(turns[j])
    {
      assert IsScanned(sys, scanned, batch[j]) && Willing(sys, env, scanned, batch[j]);
      assert turns[j] == Turn(batch[j], WorldAt(sys, env(k)(j), at), env(k)(j).sign);
      SignsMessage(sys, env(k)(j), scanned, at, batch[j]);
    }
    SignedAll(verdicts);
    msgs := Signed(verdicts);
    forall j | 0 <= j < |msgs| ensures MadeAs(sys, at, batch[j], msgs[j]) {
      assert msgs[j] == verdicts[j].value;
    }
  }

  ghost predicate MadeAs(sys: System, at: ChainState, del: Delegation, msg: CovenantSigs) {
    Made(sys, at, msg) && HashOf(sys.st, del) == Some(msg.stakingTxHash)
  }

  lemma SignsMessage(sys: System, env: Env, scanned: ChainState, at: ChainState, del: Delegation)
    requires Valid(sys) && HonestEnv(sys, env) && IsScanned(sys, scanned, del) && Extends(scanned, at)
    requires Signs(sys, env, scanned, del)
    ensures Signs(sys, env, at, del)
    ensures MadeAs(sys, at, del, VerdictOn(sys.st, WorldAt(sys, env, at), env.sign, sys.pk, del).value)
    ensures !LacksParams(Turn(del, WorldAt(sys, env, at), env.sign))
  {
    VerdictStays(sys, env, scanned, at, del);
    VerdictIsMade(sys, env, scanned, at, del, VerdictOn(sys.st, WorldAt(sys, env, at), env.sign, sys.pk, del).value);
  }

  /** A message the chain accepts unless its delegation is signed already. */
  ghost predicate Recordable(sys: System, c: ChainState, msg: CovenantSigs) {
    msg.publicKey == sys.pk && Verifies(sys, c, msg)
  }

  lemma RecordableStays(sys: System, c: ChainState, d: ChainState, msg: CovenantSigs)
    requires Within(c, d) && Recordable(sys, c, msg)
    ensures Recordable(sys, d, msg)
  {
    var h := msg.stakingTxHash;
    forall del | Keeps(d.dels[h], del) ensures sys.verifies(del, msg) {
      KeepsTransitive(c.dels[h], d.dels[h], del);
    }
  }

  predicate SignedMsg(sys: System, c: ChainState, msg: CovenantSigs) {
    msg.stakingTxHash in c.dels && AlreadySigned(XOnly(sys.pk), c.dels[msg.stakingTxHash])
  }

  lemma SignedMsgStays(sys: System, c: ChainState, d: ChainState, msg: CovenantSigs)
    requires Extends(c, d) && SignedMsg(sys, c, msg)
    ensures SignedMsg(sys, d, msg)
  {
    SignedStays(XOnly(sys.pk), c.dels[msg.stakingTxHash], d.dels[msg.stakingTxHash]);
  }

  /** The chain after trying one recordable message. */
  lemma TryRecord(sys: System, c: ChainState, msg: CovenantSigs)
    requires WellFormed(sys, c) && Recordable(sys, c, msg)
    ensures var next := Apply(sys, c, msg);
            if next.Some? then WellFormed(sys, next.value) && Extends(c, next.value) && SignedMsg(sys, next.value, msg)
            else SignedMsg(sys, c, msg)
    ensures Unsigned(sys, c, msg.stakingTxHash) ==> Apply(sys, c, msg).Some?
  {
    var h := msg.stakingTxHash;
    assert Keeps(c.dels[h], c.dels[h]);
    if Apply(sys, c, msg).Some? {
      ApplyKeepsWellFormed(sys, c, msg);
      ApplyExtends(sys, c, msg);
      RecordKeepsTerms(c.dels[h], msg);
    }
  }

  /** After the greedy pass over recordable messages, every one of their delegations is signed. */
  lemma {:induction false} GreedyRecordsAll(sys: System, c: ChainState, msgs: seq<CovenantSigs>)
    requires WellFormed(sys, c) && forall k | 0 <= k < |msgs| :: Recordable(sys, c, msgs[k])
    ensures var end := R.Greedy(ApplyOf(sys), c, msgs).1;
            Extends(c, end) && forall k | 0 <= k < |msgs| :: SignedMsg(sys, end, msgs[k])
    decreases |msgs|
  {
    if msgs == [] {
      ExtendsItself(c);
    } else {
      var end := R.Greedy(ApplyOf(sys), c, msgs).1;
      TryRecord(sys, c, msgs[0]);
      var next := if Apply(sys, c, msgs[0]).Some? then Apply(sys, c, msgs[0]).value else c;
      ExtendsItself(c);
      RestRecordable(sys, c, next, msgs);
      GreedyRecordsAll(sys, next, msgs[1..]);
      SignedMsgStays(sys, next, end, msgs[0]);
      GreedyRestSigned(sys, end, msgs);
      ExtendsTransitive(c, next, end);
    }
  }

  lemma RestRecordable(sys: System, c: ChainState, d: ChainState, msgs: seq<CovenantSigs>)
    requires msgs != [] && Within(c, d) && forall k | 0 <= k < |msgs| :: Recordable(sys, c, msgs[k])
    ensures forall k | 0 <= k < |msgs[1..]| :: Recordable(sys, d, msgs[1..][k])
  {
    forall k | 0 <= k < |msgs[1..]| ensures Recordable(sys, d, msgs[1..][k]) {
      RecordableStays(sys, c, d, msgs[k + 1]);
    }
  }

  lemma GreedyRestSigned(sys: System, end: ChainState, msgs: seq<CovenantSigs>)
    requires msgs != [] && SignedMsg(sys, end, msgs[0])
    requires forall k | 0 <= k < |msgs[1..]| :: SignedMsg(sys, end, msgs[1..][k])
    ensures forall k | 0 <= k < |msgs| :: SignedMsg(sys, end, msgs[k])
  {
    forall k | 0 <= k < |msgs| ensures SignedMsg(sys, end, msgs[k]) {
      assert k > 0 ==> msgs[k] == msgs[1..][k - 1];
    }
  }

  /** Submitting recordable messages leaves all their delegations signed. */
  lemma SubmissionRecordsAll(sys: System, c: ChainState, msgs: seq<CovenantSigs>)
    requires WellFormed(sys, c) && R.Honest(R.NamedMessage, NetAt(sys, c), ApplyOf(sys), c, |msgs|)
    requires forall k | 0 <= k < |msgs| :: Recordable(sys, c, msgs[k])
    requires sys.cap == 0 || |msgs| <= sys.cap
    ensures forall k | 0 <= k < |msgs| :: SignedMsg(sys, After(sys, c, ResendAt(sys, c, msgs)), msgs[k])
  {
    GreedyRecordsAll(sys, c, msgs);
    SubmissionIsGreedy(sys, c, msgs);
  }

  /** With enough attempts, submitting leaves the chain where the greedy pass does. */
  lemma SubmissionIsGreedy(sys: System, c: ChainState, msgs: seq<CovenantSigs>)
    requires R.Honest(R.NamedMessage, NetAt(sys, c), ApplyOf(sys), c, |msgs|) && (sys.cap == 0 || |msgs| <= sys.cap)
    ensures After(sys, c, ResendAt(sys, c, msgs)) == R.Greedy(ApplyOf(sys), c, msgs).1
  {
    R.ResendIsGreedy(R.NamedMessage, NetAt(sys, c), ApplyOf(sys), c, msgs, sys.cap);
    R.KeepingNothing(ApplyOf(sys), c, msgs);
  }

  lemma FirstSend(sys: System, c: ChainState, msgs: seq<CovenantSigs>)
    requires msgs != []
    ensures ResendAt(sys, c, msgs).Sends() != [] && ResendAt(sys, c, msgs).Sends()[0] == msgs
  {
  }

  lemma StaleStays(sys: System, a: seq<Send>, b: seq<Send>)
    requires !AllFresh(sys, a) || !AllFresh(sys, b)
    ensures !AllFresh(sys, a + b)
  {
    if !AllFresh(sys, a) {
      var j :| 0 <= j < |a| && !FreshSend(sys, a[j]);
      assert (a + b)[j] == a[j];
    } else {
      var j :| 0 <= j < |b| && !FreshSend(sys, b[j]);
      assert (a + b)[|a| + j] == b[j];
    }
  }

  /** A batch holding a delegation that is signed by now is sent all the same. */
  lemma SignedIsSentAgain(
    sys: System, env: nat -> nat -> Env, k: nat, scanned: ChainState, s: State, batch: seq<Delegation>, j: nat)
    requires Valid(sys) && HonestEnvs(sys, env) && AllScanned(sys, scanned, batch) && Extends(scanned, s.chain)
    requires AllSigned(sys, env, scanned, batch) && j < |batch| && SignedDel(sys, s.chain, batch[j]) && k >= 1
    ensures !AllFresh(sys, SubmitBatch(sys, env(k), s, batch).sends)
  {
    var msgs := MessagesOf(sys, env, k, scanned, s.chain, batch);
    assert MadeAs(sys, s.chain, batch[j], msgs[j]);
    StaleSubmission(sys, s, msgs, j);
  }

  lemma StaleSubmission(sys: System, s: State, msgs: seq<CovenantSigs>, j: nat)
    requires j < |msgs| && SignedMsg(sys, s.chain, msgs[j])
    ensures !AllFresh(sys, SubmitResult(sys, s, Submit(msgs)).sends)
  {
    StaleSend(sys, s.chain, msgs, j);
    StaleStays(sys, s.sends, SendsAt(s.chain, ResendAt(sys, s.chain, msgs)));
  }

  lemma StaleSend(sys: System, c: ChainState, msgs: seq<CovenantSigs>, j: nat)
    requires j < |msgs| && SignedMsg(sys, c, msgs[j])
    ensures !AllFresh(sys, SendsAt(c, ResendAt(sys, c, msgs)))
  {
    FirstSend(sys, c, msgs);
    var first := SendsAt(c, ResendAt(sys, c, msgs))[0];
    assert first == Send(c, msgs);
    assert !FreshMsg(sys, c, first.batch[j]);
  }

  /** A re-send has happened, or is bound to happen with the delegations still to submit. */
  ghost predicate Doomed(sys: System, env: nat -> nat -> Env, scanned: ChainState, s: State, dels: seq<Delegation>)
    requires sys.st.Lawful()
  {
    || !AllFresh(sys, s.sends)
    || (&& WellFormed(sys, s.chain) && Extends(scanned, s.chain)
        && AllScanned(sys, scanned, dels) && AllSigned(sys, env, scanned, dels)
        && exists j | 0 <= j < |dels| :: SignedDel(sys, s.chain, dels[j]))
  }

  lemma StaleStaysInBatch(sys: System, env: nat -> Env, s: State, batch: seq<Delegation>)
    requires sys.st.Lawful() && !AllFresh(sys, s.sends)
    ensures !AllFresh(sys, SubmitBatch(sys, env, s, batch).sends)
  {
    match SignBatch(sys, env, s.chain, batch) {
      case Submit(msgs) => StaleStays(sys, s.sends, SendsAt(s.chain, ResendAt(sys, s.chain, msgs)));
      case _ =>
    }
  }

  lemma SignedDelStays(sys: System, c: ChainState, d: ChainState, del: Delegation)
    requires Extends(c, d) && SignedDel(sys, c, del)
    ensures SignedDel(sys, d, del)
  {
    var h := HashOf(sys.st, del).value;
    SignedStays(XOnly(sys.pk), c.dels[h], d.dels[h]);
  }

  lemma SignedParts(sys: System, env: nat -> nat -> Env, scanned: ChainState, dels: seq<Delegation>, n: nat)
    requires sys.st.Lawful() && n <= |dels| && AllScanned(sys, scanned, dels) && AllSigned(sys, env, scanned, dels)
    ensures AllScanned(sys, scanned, dels[..n]) && AllScanned(sys, scanned, dels[n..])
    ensures AllSigned(sys, env, scanned, dels[..n]) && AllSigned(sys, env, scanned, dels[n..])
  {
  }

  lemma StaysDoomed(
    sys: System, env: nat -> nat -> Env, k: nat, scanned: ChainState, s: State, dels: seq<Delegation>, n: nat)
    requires Valid(sys) && HonestEnvs(sys, env) && Doomed(sys, env, scanned, s, dels) && n <= |dels| && k >= 1
    ensures Doomed(sys, env, scanned, SubmitBatch(sys, env(k), s, dels[..n]), dels[n..])
  {
    if !AllFresh(sys, s.sends) {
      StaleStaysInBatch(sys, env(k), s, dels[..n]);
    } else {
      SignedParts(sys, env, scanned, dels, n);
      var j :| 0 <= j < |dels| && SignedDel(sys, s.chain, dels[j]);
      if j < n {
        SignedIsSentAgain(sys, env, k, scanned, s, dels[..n], j);
      } else {
        SubmitBatchExtends(sys, env(k), scanned, s, dels[..n]);
        SignedDelStays(sys, s.chain, SubmitBatch(sys, env(k), s, dels[..n]).chain, dels[j]);
        assert dels[n..][j - n] == dels[j];
      }
    }
  }

  lemma DoomedSendsAgain(
    sys: System, env: nat -> nat -> Env, k: nat, scanned: ChainState, s: State, dels: seq<Delegation>)
    requires Valid(sys) && HonestEnvs(sys, env) && Doomed(sys, env, scanned, s, dels) && k >= 1
    ensures !AllFresh(sys, SubmitBatches(sys, env, k, s, B.Split(dels, sys.batchSize)).sends)
  {
    forall i: nat, t: State, ds: seq<Delegation>, n: nat
      | k <= i && n <= |ds| && n <= sys.batchSize && Doomed(sys, env, scanned, t, ds)
      ensures Doomed(sys, env, scanned, SubmitBatch(sys, env(i), t, ds[..n]), ds[n..])
    {
      StaysDoomed(sys, env, i, scanned, t, ds, n);
    }
    SubmitSplitKeeps(sys, env, k, s, dels, (t, ds) requires sys.st.Lawful() => Doomed(sys, env, scanned, t, ds));
  }

  /** A batch of scanned delegations is recorded whole. */
  lemma BatchIsRecorded(
    sys: System, env: nat -> nat -> Env, k: nat, scanned: ChainState, s: State, batch: seq<Delegation>, j: nat)
    requires Valid(sys) && HonestEnvs(sys, env) && Cooperative(sys, env, scanned) && k >= 1
    requires WellFormed(sys, s.chain) && Extends(scanned, s.chain)
    requires AllScanned(sys, scanned, batch) && AllSigned(sys, env, scanned, batch)
    requires j < |batch| <= sys.batchSize
    ensures SignedDel(sys, SubmitBatch(sys, env(k), s, batch).chain, batch[j])
  {
    var msgs := MessagesOf(sys, env, k, scanned, s.chain, batch);
    MessagesAreRecorded(sys, env, scanned, s.chain, batch, msgs);
    assert SignedMsg(sys, After(sys, s.chain, ResendAt(sys, s.chain, msgs)), msgs[j]);
    assert MadeAs(sys, s.chain, batch[j], msgs[j]);
  }

  lemma MessagesAreRecorded(
    sys: System, env: nat -> nat -> Env, scanned: ChainState, c: ChainState, batch: seq<Delegation>,
    msgs: seq<CovenantSigs>)
    requires Valid(sys) && WellFormed(sys, c) && Cooperative(sys, env, scanned) && Extends(scanned, c)
    requires AllScanned(sys, scanned, batch) && |msgs| == |batch| <= sys.batchSize
    requires forall k | 0 <= k < |msgs| :: MadeAs(sys, c, batch[k], msgs[k])
    ensures forall k | 0 <= k < |msgs| :: SignedMsg(sys, After(sys, c, ResendAt(sys, c, msgs)), msgs[k])
  {
    forall k | 0 <= k < |msgs| ensures Recordable(sys, c, msgs[k]) {
      assert IsScanned(sys, scanned, batch[k]) && MadeAs(sys, c, batch[k], msgs[k]);
      MadeIsOwn(sys, c, msgs[k]);
    }
    assert R.Honest(R.NamedMessage, NetAt(sys, c), ApplyOf(sys), c, sys.batchSize);
    SubmissionRecordsAll(sys, c, msgs);
  }

  lemma ReturnedAreSigned(sys: System, env: nat -> nat -> Env, c: ChainState)
    requires Valid(sys) && Cooperative(sys, env, c) && Scan(sys, env(0)(0), c).Success?
    ensures AllSigned(sys, env, c, Scan(sys, env(0)(0), c).value)
  {
    var judge := ScanJudge(sys, env(0)(0), c);
    var dels := Scan(sys, env(0)(0), c).value;
    forall i | 0 <= i < |dels| ensures Willing(sys, env, c, dels[i]) {
      P.ReturnedWereKept(c.pending, judge, sys.limit, dels[i]);
      var h :| h in c.pending && judge(h) == P.Keep(dels[i]);
      assert ScanVerdict(sys, env(0)(0), c, h) == P.Keep(dels[i]);
    }
  }

  lemma WrappedTickSendsAgain(sys: System, env: nat -> nat -> Env, s: State)
    requires Valid(sys) && HonestEnvs(sys, env) && WellFormed(sys, s.chain) && Cooperative(sys, env, s.chain)
    requires P.Finishes(s.chain.pending, ScanJudge(sys, env(0)(0), s.chain), sys.limit)
    requires !NoRepeats(sys, env(0)(0), s.chain)
    ensures !AllFresh(sys, Tick(sys, env, s).sends)
  {
    var c := s.chain;
    assert HonestTurns(sys, env(0));
    var p, q := P.WrappedRepeats(c.pending, ScanJudge(sys, env(0)(0), c), sys.limit, sys.batchSize);
    ScanReturnsScanned(sys, env(0)(0), c);
    ReturnedAreSigned(sys, env, c);
    var batch, rest, j := FirstBatchOf(sys, env, c, Scan(sys, env(0)(0), c).value, p, q);
    RepeatedIsSentAgain(sys, env, s, batch, rest, j, q);
  }

  lemma FirstBatchOf(sys: System, env: nat -> nat -> Env, c: ChainState, dels: seq<Delegation>, p: nat, q: nat)
    returns (batch: seq<Delegation>, rest: seq<Delegation>, j: nat)
    requires sys.st.Lawful() && AllScanned(sys, c, dels) && AllSigned(sys, env, c, dels)
    requires q < sys.batchSize <= p < |dels| && dels[p] == dels[q]
    ensures B.Split(dels, sys.batchSize) == [batch] + B.Split(rest, sys.batchSize) && |batch| == sys.batchSize
    ensures AllScanned(sys, c, batch) && AllSigned(sys, env, c, batch)
    ensures AllScanned(sys, c, rest) && AllSigned(sys, env, c, rest)
    ensures q < |batch| && j < |rest| && batch[q] == rest[j]
  {
    var ok := (del: Delegation) requires sys.st.Lawful() => IsScanned(sys, c, del) && Willing(sys, env, c, del);
    batch, rest, j := B.FirstBatchAndRest(dels, sys.batchSize, p, q, ok);
    assert forall i | 0 <= i < |batch| :: ok(batch[i]);
    assert forall i | 0 <= i < |rest| :: ok(rest[i]);
  }

  lemma RepeatedIsSentAgain(
    sys: System, env: nat -> nat -> Env, s: State, batch: seq<Delegation>, rest: seq<Delegation>, j: nat, q: nat)
    requires Valid(sys) && HonestEnvs(sys, env) && WellFormed(sys, s.chain) && Cooperative(sys, env, s.chain)
    requires AllScanned(sys, s.chain, batch) && AllSigned(sys, env, s.chain, batch) && |batch| <= sys.batchSize
    requires AllScanned(sys, s.chain, rest) && AllSigned(sys, env, s.chain, rest)
    requires q < |batch| && j < |rest| && batch[q] == rest[j]
    ensures !AllFresh(sys, SubmitBatches(sys, env, 1, s, [batch] + B.Split(rest, sys.batchSize)).sends)
  {
    FirstBatchDooms(sys, env, s, batch, rest, j, q);
    DoomedSendsAgain(sys, env, 2, s.chain, SubmitBatch(sys, env(1), s, batch), rest);
    SubmitFront(sys, env, 1, s, batch, B.Split(rest, sys.batchSize));
  }

  lemma FirstBatchDooms(
    sys: System, env: nat -> nat -> Env, s: State, batch: seq<Delegation>, rest: seq<Delegation>, j: nat, q: nat)
    requires Valid(sys) && HonestEnvs(sys, env) && WellFormed(sys, s.chain) && Cooperative(sys, env, s.chain)
    requires AllScanned(sys, s.chain, batch) && AllSigned(sys, env, s.chain, batch) && |batch| <= sys.batchSize
    requires AllScanned(sys, s.chain, rest) && AllSigned(sys, env, s.chain, rest)
    requires q < |batch| && j < |rest| && batch[q] == rest[j]
    ensures Doomed(sys, env, s.chain, SubmitBatch(sys, env(1), s, batch), rest)
  {
    ExtendsItself(s.chain);
    BatchIsRecorded(sys, env, 1, s.chain, s, batch, q);
    SubmitBatchExtends(sys, env(1), s.chain, s, batch);
    assert SignedDel(sys, SubmitBatch(sys, env(1), s, batch).chain, rest[j]);
  }

  /** When nothing goes wrong, a tick re-sends a recorded delegation exactly when its scan starts over and its answer
      does not fit into one batch. */
  lemma TickResendsIff(sys: System, env: nat -> nat -> Env, s: State)
    requires Valid(sys) && HonestEnvs(sys, env) && WellFormed(sys, s.chain) && Cooperative(sys, env, s.chain)
    requires P.Finishes(s.chain.pending, ScanJudge(sys, env(0)(0), s.chain), sys.limit) && AllFresh(sys, s.sends)
    ensures AllFresh(sys, Tick(sys, env, s).sends) <==> NoRepeats(sys, env(0)(0), s.chain)
  {
    if NoRepeats(sys, env(0)(0), s.chain) {
      TickSendsFresh(sys, env, s);
    } else {
      WrappedTickSendsAgain(sys, env, s);
    }
  }

  // ---------- and, when nothing goes wrong, everything scanned gets signed ----------

  /** Each of `all` is signed by now or still to be submitted. */
  ghost predicate Accounted(sys: System, c: ChainState, all: seq<Delegation>, rest: seq<Delegation>) {
    forall i | 0 <= i < |all| :: SignedDel(sys, c, all[i]) || all[i] in rest
  }

  ghost predicate Progressing(
    sys: System, env: nat -> nat -> Env, scanned: ChainState, all: seq<Delegation>, s: State, rest: seq<Delegation>)
    requires sys.st.Lawful()
  {
    && WellFormed(sys, s.chain) && Extends(scanned, s.chain)
    && AllScanned(sys, scanned, rest) && AllSigned(sys, env, scanned, rest)
    && Accounted(sys, s.chain, all, rest)
  }

  lemma StaysAccounted(
    sys: System, c: ChainState, d: ChainState, all: seq<Delegation>, rest: seq<Delegation>, n: nat)
    requires Extends(c, d) && Accounted(sys, c, all, rest) && n <= |rest|
    requires forall j | 0 <= j < n :: SignedDel(sys, d, rest[..n][j])
    ensures Accounted(sys, d, all, rest[n..])
  {
    forall i | 0 <= i < |all| ensures SignedDel(sys, d, all[i]) || all[i] in rest[n..] {
      if SignedDel(sys, c, all[i]) {
        SignedDelStays(sys, c, d, all[i]);
      } else {
        var j :| 0 <= j < |rest| && rest[j] == all[i];
        assert if j < n then rest[..n][j] == all[i] else rest[n..][j - n] == all[i];
      }
    }
  }

  lemma StaysProgressing(
    sys: System, env: nat -> nat -> Env, k: nat, scanned: ChainState, all: seq<Delegation>, s: State,
    rest: seq<Delegation>, n: nat)
    requires Valid(sys) && HonestEnvs(sys, env) && Cooperative(sys, env, scanned) && k >= 1
    requires n <= |rest| && n <= sys.batchSize && Progressing(sys, env, scanned, all, s, rest)
    ensures Progressing(sys, env, scanned, all, SubmitBatch(sys, env(k), s, rest[..n]), rest[n..])
  {
    var batch := rest[..n];
    SignedParts(sys, env, scanned, rest, n);
    SubmitBatchExtends(sys, env(k), scanned, s, batch);
    forall j | 0 <= j < n ensures SignedDel(sys, SubmitBatch(sys, env(k), s, batch).chain, batch[j]) {
      BatchIsRecorded(sys, env, k, scanned, s, batch, j);
    }
    StaysAccounted(sys, s.chain, SubmitBatch(sys, env(k), s, batch).chain, all, rest, n);
  }

  lemma SubmittingRecordsAll(sys: System, env: nat -> nat -> Env, s: State, dels: seq<Delegation>)
    requires Valid(sys) && HonestEnvs(sys, env) && Cooperative(sys, env, s.chain)
    requires Progressing(sys, env, s.chain, dels, s, dels)
    ensures Accounted(sys, SubmitBatches(sys, env, 1, s, B.Split(dels, sys.batchSize)).chain, dels, [])
  {
    forall i: nat, t: State, ds: seq<Delegation>, n: nat
      | 1 <= i && n <= |ds| && n <= sys.batchSize && Progressing(sys, env, s.chain, dels, t, ds)
      ensures Progressing(sys, env, s.chain, dels, SubmitBatch(sys, env(i), t, ds[..n]), ds[n..])
    {
      StaysProgressing(sys, env, i, s.chain, dels, t, ds, n);
    }
    SubmitSplitKeeps(
      sys, env, 1, s, dels, (t, ds) requires sys.st.Lawful() => Progressing(sys, env, s.chain, dels, t, ds));
  }

  /** When nothing goes wrong, one tick leaves this member's signature on every delegation its scan returned, even when
      the scan starts over. */
  lemma TickRecordsAll(sys: System, env: nat -> nat -> Env, s: State, del: Delegation)
    requires Valid(sys) && HonestEnvs(sys, env) && WellFormed(sys, s.chain) && Cooperative(sys, env, s.chain)
    requires Scan(sys, env(0)(0), s.chain).Success? && del in Scan(sys, env(0)(0), s.chain).value
    ensures SignedDel(sys, Tick(sys, env, s).chain, del)
  {
    var dels := Scan(sys, env(0)(0), s.chain).value;
    assert HonestTurns(sys, env(0));
    ScanReturnsScanned(sys, env(0)(0), s.chain);
    ReturnedAreSigned(sys, env, s.chain);
    ExtendsItself(s.chain);
    SubmittingRecordsAll(sys, env, s, dels);
    var i :| 0 <= i < |dels| && dels[i] == del;
    assert SignedDel(sys, SubmitBatches(sys, env, 1, s, B.Split(dels, sys.batchSize)).chain, dels[i]);
  }
}
