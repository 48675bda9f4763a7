/** Which delegations the covenant member signs, and the signing request each of them becomes. */
module Covenant {
  import opened Wrappers
  import opened Lists
  import opened Hex
  import opened Btc
  import opened Types

  const MAX_INT64: int := 0x7fff_ffff_ffff_ffff

  /** The staking library: script builders, the slashing check, hashes and encryption keys. */
  datatype Staking = Staking(
    lib: Library,
    decodeSlashingTx: string -> Option<Tx>,
    txHash: Tx -> Hash,
    hashText: Hash -> string,
    parseHash: string -> Option<Hash>,
    // slashing tx, funding tx, funding output, min fee, slashing rate, slashing script, staker key, unbonding time
    slashingMatches: (Tx, Tx, nat, int, nat, Bytes, PubKey, nat) -> bool,
    // staker key, finality providers, committee, quorum, staking time, amount: slashing and unbonding script path
    stakingPaths: (PubKey, seq<PubKey>, seq<PubKey>, nat, nat, int) -> Option<(Bytes, Bytes)>,
    // staker key, finality providers, committee, quorum, unbonding time, amount: slashing script path
    unbondingPath: (PubKey, seq<PubKey>, seq<PubKey>, nat, nat, int) -> Option<Bytes>,
    encKey: PubKey -> Option<EncKey>)
  {
    /** The slashing check covers the funding output it names; a printed hash reads back. */
    ghost predicate Lawful() {
      && lib.Lawful()
      && (forall a: Tx, b: Tx, i: nat, f: int, r: nat, s: Bytes, k: PubKey, t: nat ::
            slashingMatches(a, b, i, f, r, s, k, t) ==> i < |b.outs|)
      && (forall h: Hash :: parseHash(hashText(h)) == Some(h))
    }
  }

  /** What the emulator can consult: parameters by version and delegations by staking transaction hash. */
  datatype World = World(params: nat -> Option<Versioned>, delegation: string -> Option<Delegation>)

  // ---------- the filter ----------

  predicate AlreadySigned(x: nat, del: Delegation) {
    exists i | 0 <= i < |del.covenantSigs| :: XOnly(del.covenantSigs[i].pk) == x
  }

  predicate InCommittee(x: nat, params: Versioned) {
    exists i | 0 <= i < |params.covenantPks| :: XOnly(params.covenantPks[i]) == x
  }

  /** `None` when the parameters cannot be looked up. */
  function IsKeyInCommittee(w: World, x: nat, del: Delegation): Option<bool> {
    var params :- w.params(del.paramsVersion);
    Some(InCommittee(x, params))
  }

  function ValidateStakeExpansion(st: Staking, w: World, x: nat, exp: StakeExpansion, prevDel: Option<Delegation>)
    : Option<bool>
  {
    var prev :- prevDel;
    var prevTx :- st.lib.TxFromHex(prev.stakingTxHex);
    if st.hashText(st.txHash(prevTx)) != exp.previousStakingTxHashHex then None
    else IsKeyInCommittee(w, x, prev)
  }

  function AcceptDelegationToSign(st: Staking, w: World, pk: PubKey, del: Delegation, prevDel: Option<Delegation>)
    : Option<bool>
  {
    var x := XOnly(pk);
    if AlreadySigned(x, del) then Some(false)
    else
      var member :- IsKeyInCommittee(w, x, del);
      if !member then Some(false)
      else if del.stakeExpansion.Some? then ValidateStakeExpansion(st, w, x, del.stakeExpansion.value, prevDel)
      else Some(true)
  }

  /** The filter the scan uses: an expansion first fetches the delegation it expands. */
  function Accept(st: Staking, w: World, pk: PubKey, del: Delegation): Option<bool> {
    if del.stakeExpansion.Some? then
      var prev :- w.delegation(del.stakeExpansion.value.previousStakingTxHashHex);
      AcceptDelegationToSign(st, w, pk, del, Some(prev))
    else AcceptDelegationToSign(st, w, pk, del, None)
  }

  /** One of the keys has this x coordinate. */
  ghost predicate HasKey(keys: seq<PubKey>, x: nat) {
    exists key | key in keys :: key.x == x
  }

  lemma InCommitteeIff(x: nat, params: Versioned)
    ensures InCommittee(x, params) <==> HasKey(params.covenantPks, x)
  {
    if InCommittee(x, params) {
      var i :| 0 <= i < |params.covenantPks| && XOnly(params.covenantPks[i]) == x;
      assert params.covenantPks[i] in params.covenantPks;
    }
    if HasKey(params.covenantPks, x) {
      var key :| key in params.covenantPks && key.x == x;
      var i :| 0 <= i < |params.covenantPks| && params.covenantPks[i] == key;
      assert XOnly(params.covenantPks[i]) == x;
    }
  }

  /** The committees that matter to the filter. */
  lemma CommitteesIff(w: World, pk: PubKey, del: Delegation)
    ensures w.params(del.paramsVersion).Some? ==>
              (InCommittee(XOnly(pk), w.params(del.paramsVersion).value) <==>
               HasKey(w.params(del.paramsVersion).value.covenantPks, pk.x))
  {
    if w.params(del.paramsVersion).Some? {
      InCommitteeIff(XOnly(pk), w.params(del.paramsVersion).value);
    }
  }

  /** The delegation carries no signature of the key, its own version lists the key in the committee and, for an
      expansion, the delegation it names has the named hash and its own version lists the key too. */
  ghost predicate Acceptable(st: Staking, w: World, pk: PubKey, del: Delegation) {
    && (forall i | 0 <= i < |del.covenantSigs| :: del.covenantSigs[i].pk.x != pk.x)
    && w.params(del.paramsVersion).Some?
    && HasKey(w.params(del.paramsVersion).value.covenantPks, pk.x)
    && (del.stakeExpansion.Some? ==>
          var hash := del.stakeExpansion.value.previousStakingTxHashHex;
          && w.delegation(hash).Some?
          && var prev := w.delegation(hash).value;
             && st.lib.TxFromHex(prev.stakingTxHex).Some?
             && st.hashText(st.txHash(st.lib.TxFromHex(prev.stakingTxHex).value)) == hash
             && w.params(prev.paramsVersion).Some?
             && HasKey(w.params(prev.paramsVersion).value.covenantPks, pk.x))
  }

  /** The delegation that an expansion names cannot be fetched; or the delegation is not signed yet and its parameters
      are missing; or its committee lists the key and the delegation it names cannot be read, has another hash or lacks
      its parameters. */
  ghost predicate Undecidable(st: Staking, w: World, pk: PubKey, del: Delegation) {
    || (del.stakeExpansion.Some? && w.delegation(del.stakeExpansion.value.previousStakingTxHashHex).None?)
    || (&& (forall i | 0 <= i < |del.covenantSigs| :: del.covenantSigs[i].pk.x != pk.x)
        && (|| w.params(del.paramsVersion).None?
            || (&& HasKey(w.params(del.paramsVersion).value.covenantPks, pk.x)
                && del.stakeExpansion.Some?
                && var hash := del.stakeExpansion.value.previousStakingTxHashHex;
                   var prev := w.delegation(hash).value;
                   || st.lib.TxFromHex(prev.stakingTxHex).None?
                   || st.hashText(st.txHash(st.lib.TxFromHex(prev.stakingTxHex).value)) != hash
                   || w.params(prev.paramsVersion).None?)))
  }

  /** Exactly when the filter accepts, and exactly when it fails, which ends the scan. */
  lemma AcceptedIff(st: Staking, w: World, pk: PubKey, del: Delegation)
    ensures Accept(st, w, pk, del) == Some(true) <==> Acceptable(st, w, pk, del)
    ensures Accept(st, w, pk, del) == None <==> Undecidable(st, w, pk, del)
  {
    CommitteesIff(w, pk, del);
    if del.stakeExpansion.Some? {
      var prev := w.delegation(del.stakeExpansion.value.previousStakingTxHashHex);
      if prev.Some? {
        CommitteesIff(w, pk, prev.value);
      }
    }
  }

  // ---------- x-only keys ----------

  ghost predicate SameKeys(a: seq<PubKey>, b: seq<PubKey>) {
    |a| == |b| && forall i | 0 <= i < |a| :: XOnly(a[i]) == XOnly(b[i])
  }

  ghost predicate SameSigners(a: Delegation, b: Delegation) {
    && |a.covenantSigs| == |b.covenantSigs|
    && (forall i | 0 <= i < |a.covenantSigs| :: XOnly(a.covenantSigs[i].pk) == XOnly(b.covenantSigs[i].pk))
    && a.(covenantSigs := []) == b.(covenantSigs := [])
  }

  /** Two worlds that differ only in the y parity of committee keys. */
  ghost predicate SameCommittees(w: World, u: World) {
    && (forall v :: w.params(v).Some? <==> u.params(v).Some?)
    && (forall v | w.params(v).Some? :: SameKeys(w.params(v).value.covenantPks, u.params(v).value.covenantPks))
    && (forall h :: w.delegation(h) == u.delegation(h))
  }

  lemma SameCommitteeAnswer(w: World, u: World, x: nat, del: Delegation)
    requires SameCommittees(w, u)
    ensures IsKeyInCommittee(w, x, del) == IsKeyInCommittee(u, x, del)
  {
    if w.params(del.paramsVersion).Some? {
      var a, b := w.params(del.paramsVersion).value, u.params(del.paramsVersion).value;
      assert forall i | 0 <= i < |a.covenantPks| :: XOnly(a.covenantPks[i]) == XOnly(b.covenantPks[i]);
      assert InCommittee(x, a) <==> InCommittee(x, b);
    }
  }

  /** Negating any set of committee, signer or own keys never changes the filter's answer, error cases included. */
  lemma AcceptanceIsXOnly(
    st: Staking, w: World, u: World, pk: PubKey, qk: PubKey, del: Delegation, eld: Delegation)
    requires SameCommittees(w, u) && XOnly(pk) == XOnly(qk) && SameSigners(del, eld)
    ensures Accept(st, w, pk, del) == Accept(st, u, qk, eld)
  {
    var x := XOnly(pk);
    assert AlreadySigned(x, del) <==> AlreadySigned(x, eld);
    assert del.stakeExpansion == del.(covenantSigs := []).stakeExpansion == eld.stakeExpansion;
    assert del.paramsVersion == del.(covenantSigs := []).paramsVersion == eld.paramsVersion;
    SameCommitteeAnswer(w, u, x, del);
    if del.stakeExpansion.Some? {
      var prev := w.delegation(del.stakeExpansion.value.previousStakingTxHashHex);
      if prev.Some? {
        SameCommitteeAnswer(w, u, x, prev.value);
      }
    }
  }

  // ---------- the quorum test ----------

  predicate HasCovenantQuorumOnSlashing(u: Undelegation, quorum: nat) { |u.covenantUnbondingSigs| >= quorum }

  predicate HasCovenantQuorumOnUnbonding(u: Undelegation, quorum: nat) { |u.covenantUnbondingSigs| >= quorum }

  predicate HasAllSignatures(u: Undelegation, quorum: nat) {
    HasCovenantQuorumOnUnbonding(u, quorum) && HasCovenantQuorumOnSlashing(u, quorum)
  }

  predicate HasCovenantQuorum(del: Delegation, quorum: nat)
    requires del.btcUndelegation.Some?
  {
    |del.covenantSigs| >= quorum && HasAllSignatures(del.btcUndelegation.value, quorum)
  }

  /** The three signature lists a covenant member extends together. */
  predicate WholeSets(del: Delegation) {
    del.btcUndelegation.Some? ==>
      var u := del.btcUndelegation.value;
      |del.covenantSigs| == |u.covenantSlashingSigs| == |u.covenantUnbondingSigs|
  }

  predicate QuorumOnAllThree(del: Delegation, quorum: nat)
    requires del.btcUndelegation.Some?
  {
    var u := del.btcUndelegation.value;
    && |del.covenantSigs| >= quorum
    && |u.covenantUnbondingSigs| >= quorum
    && |u.covenantSlashingSigs| >= quorum
  }

  /** The slashing half of the test counts the unbonding list. The test agrees with requiring the quorum on all three
      lists, for every quorum, exactly when the slashing list is no shorter than the shorter of the other two. */
  lemma QuorumTestAgreesIff(del: Delegation)
    requires del.btcUndelegation.Some?
    ensures (forall quorum: nat :: HasCovenantQuorum(del, quorum) <==> QuorumOnAllThree(del, quorum)) <==>
            var u := del.btcUndelegation.value;
            |u.covenantSlashingSigs| >= |del.covenantSigs| || |u.covenantSlashingSigs| >= |u.covenantUnbondingSigs|
  {
    var u := del.btcUndelegation.value;
    var least :=
      if |del.covenantSigs| <= |u.covenantUnbondingSigs| then |del.covenantSigs| else |u.covenantUnbondingSigs|;
    assert HasCovenantQuorum(del, least);
    assert QuorumOnAllThree(del, least) <==> |u.covenantSlashingSigs| >= least;
  }

  // ---------- from a delegation to a signing request ----------

  /** Why a delegation is skipped, in the order the checks are made. */
  datatype Skip =
    | EmptyUndelegation
    | ParamsMissing
    | QuorumReached
    | UnbondingTimeMismatch
    | StakingTimeOutOfRange
    | StakingValueOutOfRange
    | InvalidDelegation
    | InvalidUndelegation
    | UnbondingFeeMismatch
    | NoEncryptionKey
    | NoScriptPath
    | InvalidStakeExpansion
    | PreviousDelegationUnavailable
    | PreviousParamsUnavailable
    | SigningFailed

  predicate FitsInt64(x: int) { -0x8000_0000_0000_0000 <= x <= MAX_INT64 }

  /** Subtraction of Go int64 values, which wraps around. */
  function SubInt64(a: Int64, b: Int64): Int64 {
    if a - b > MAX_INT64 then a - b - 0x1_0000_0000_0000_0000
    else if !FitsInt64(a - b) then a - b + 0x1_0000_0000_0000_0000
    else a - b
  }

  /** The fee check, on the outputs of the staking and the unbonding transaction. */
  predicate FeeMatches(staked: Int64, unbonded: Int64, fee: Int64) { SubInt64(staked, unbonded) == fee }

  function DecodeDelegationTransactions(st: Staking, del: Delegation, p: Versioned): Option<(Tx, Tx)> {
    var staking :- st.lib.TxFromHex(del.stakingTxHex);
    var slashing :- st.decodeSlashingTx(del.slashingTxHex);
    if st.slashingMatches(slashing, staking, del.stakingOutputIdx, p.minSlashingTxFeeSat, p.slashingRate,
                          p.slashingPkScript, del.btcPk, del.unbondingTime)
    then Some((staking, slashing)) else None
  }

  function DecodeUndelegationTransactions(st: Staking, del: Delegation, u: Undelegation, p: Versioned)
    : Option<(Tx, Tx)>
  {
    var unbonding :- st.lib.TxFromHex(u.unbondingTxHex);
    var slashing :- st.lib.TxFromHex(u.slashingTxHex);
    if st.slashingMatches(slashing, unbonding, 0, p.minSlashingTxFeeSat, p.slashingRate,
                          p.slashingPkScript, del.btcPk, del.unbondingTime)
    then Some((unbonding, slashing)) else None
  }

  function StakingPaths(st: Staking, del: Delegation, p: Versioned): Option<(Bytes, Bytes)> {
    st.stakingPaths(del.btcPk, del.fpBtcPks, p.covenantPks, p.covenantQuorum, del.stakingTime, del.totalSat)
  }

  /** Steps 0 to 8: everything but stake expansion. */
  function BaseRequest(st: Staking, del: Delegation, p: Versioned): Result<SigningRequest, Skip>
    requires st.Lawful()
  {
    var u :- del.btcUndelegation.ToResult(EmptyUndelegation);
    var _ :- Need(!HasCovenantQuorum(del, p.covenantQuorum), QuorumReached);
    var _ :- Need(del.unbondingTime == p.unbondingTimeBlocks, UnbondingTimeMismatch);
    var _ :- Need(p.minStakingTime <= del.stakingTime <= p.maxStakingTime, StakingTimeOutOfRange);
    var _ :- Need(p.minStakingValue <= del.totalSat <= p.maxStakingValue, StakingValueOutOfRange);
    var (staking, slashing) :- DecodeDelegationTransactions(st, del, p).ToResult(InvalidDelegation);
    var (unbonding, slashUnbonding) :- DecodeUndelegationTransactions(st, del, u, p).ToResult(InvalidUndelegation);
    var _ :- Need(FeeMatches(staking.outs[del.stakingOutputIdx].value, unbonding.outs[0].value, p.unbondingFee),
                  UnbondingFeeMismatch);
    var fpEncKeys :- Traverse(st.encKey, del.fpBtcPks).ToResult(NoEncryptionKey);
    var (slashPath, unbondPath) :- StakingPaths(st, del, p).ToResult(NoScriptPath);
    var unbondSlashPath :-
      st.unbondingPath(del.btcPk, del.fpBtcPks, p.covenantPks, p.covenantQuorum, del.unbondingTime,
                       unbonding.outs[0].value).ToResult(NoScriptPath);
    Success(SigningRequest(
              staking, slashing, unbonding, slashUnbonding, None, del.stakingOutputIdx,
              slashPath, unbondPath, unbondSlashPath, fpEncKeys))
  }

  /** The funding output of a well-formed expansion: two inputs, the first spending the named transaction, and a
      positive other output. */
  function StakeExpValidateBasic(st: Staking, del: Delegation, exp: StakeExpansion): Option<TxOut> {
    var tx :- st.lib.TxFromHex(del.stakingTxHex);
    if |tx.ins| != 2 then None
    else
      var hash :- st.parseHash(exp.previousStakingTxHashHex);
      if tx.ins[0].prevHash != hash then None
      else
        var out :- st.lib.TxOutFromHex(exp.otherFundingTxOutHex);
        if out.value <= 0 then None else Some(out)
  }

  function StkExpRequest(st: Staking, w: World, del: Delegation, exp: StakeExpansion)
    : Result<SigningRequestStkExp, Skip>
  {
    var funding :- StakeExpValidateBasic(st, del, exp).ToResult(InvalidStakeExpansion);
    var prev :- w.delegation(exp.previousStakingTxHashHex).ToResult(PreviousDelegationUnavailable);
    var prevTx :- st.lib.TxFromHex(prev.stakingTxHex).ToResult(InvalidStakeExpansion);
    var prevParams :- w.params(prev.paramsVersion).ToResult(PreviousParamsUnavailable);
    var paths :- StakingPaths(st, prev, prevParams).ToResult(NoScriptPath);
    Success(SigningRequestStkExp(prevTx, funding, prev.stakingOutputIdx, paths.1))
  }

  /** Steps 0 to 9. */
  function BuildRequest(st: Staking, w: World, del: Delegation, p: Versioned): Result<SigningRequest, Skip>
    requires st.Lawful()
  {
    var req :- BaseRequest(st, del, p);
    match del.stakeExpansion
    case None => Success(req)
    case Some(exp) =>
      var stkExp :- StkExpRequest(st, w, del, exp);
      Success(req.(stakeExp := Some(stkExp)))
  }

  /** A signing call: the requests it answers and how. */
  type Signer = SigningRequest -> Option<SignaturesResponse>

  function CovenantSigsOf(st: Staking, pk: PubKey, req: SigningRequest, resp: SignaturesResponse): CovenantSigs {
    CovenantSigs(
      pk, st.txHash(req.stakingTx), resp.slashSigs, resp.unbondingSig, resp.slashUnbondingSigs, resp.stkExtSig)
  }

  /** What happens to one delegation whose parameters are `p`. */
  function Judge(st: Staking, w: World, sign: Signer, pk: PubKey, del: Delegation, p: Versioned)
    : Result<CovenantSigs, Skip>
    requires st.Lawful()
  {
    var req :- BuildRequest(st, w, del, p);
    var resp :- sign(req).ToResult(SigningFailed);
    Success(CovenantSigsOf(st, pk, req, resp))
  }

  // ---------- the rules, independent of the order of the checks ----------

  /** Every rule a delegation must meet to be signed, and what its request consists of. */
  ghost predicate MeetsBaseRules(st: Staking, del: Delegation, p: Versioned, req: SigningRequest) {
    && del.btcUndelegation.Some?
    && !HasCovenantQuorum(del, p.covenantQuorum)
    && MeetsTermRules(st, del, p, req)
  }

  /** The rules that do not depend on the signatures present. */
  ghost predicate MeetsTermRules(st: Staking, del: Delegation, p: Versioned, req: SigningRequest) {
    && del.btcUndelegation.Some?
    && del.unbondingTime == p.unbondingTimeBlocks
    && p.minStakingTime <= del.stakingTime <= p.maxStakingTime
    && p.minStakingValue <= del.totalSat <= p.maxStakingValue
    && var u := del.btcUndelegation.value;
    && st.lib.TxFromHex(del.stakingTxHex) == Some(req.stakingTx)
    && st.decodeSlashingTx(del.slashingTxHex) == Some(req.slashingTx)
    && st.lib.TxFromHex(u.unbondingTxHex) == Some(req.unbondingTx)
    && st.lib.TxFromHex(u.slashingTxHex) == Some(req.slashUnbondingTx)
    && st.slashingMatches(req.slashingTx, req.stakingTx, del.stakingOutputIdx, p.minSlashingTxFeeSat, p.slashingRate,
                          p.slashingPkScript, del.btcPk, del.unbondingTime)
    && st.slashingMatches(req.slashUnbondingTx, req.unbondingTx, 0, p.minSlashingTxFeeSat, p.slashingRate,
                          p.slashingPkScript, del.btcPk, del.unbondingTime)
    && del.stakingOutputIdx < |req.stakingTx.outs|
    && 0 < |req.unbondingTx.outs|
    && FeeMatches(req.stakingTx.outs[del.stakingOutputIdx].value, req.unbondingTx.outs[0].value, p.unbondingFee)
    && req.stakingOutputIdx == del.stakingOutputIdx
    && |req.fpEncKeys| == |del.fpBtcPks|
    && (forall i | 0 <= i < |del.fpBtcPks| :: st.encKey(del.fpBtcPks[i]) == Some(req.fpEncKeys[i]))
    && st.stakingPaths(del.btcPk, del.fpBtcPks, p.covenantPks, p.covenantQuorum, del.stakingTime, del.totalSat) ==
       Some((req.slashingPkScriptPath, req.stakingTxUnbondingPkScriptPath))
    && st.unbondingPath(del.btcPk, del.fpBtcPks, p.covenantPks, p.covenantQuorum, del.unbondingTime,
                        req.unbondingTx.outs[0].value) == Some(req.unbondingTxSlashingPkScriptPath)
  }

  ghost predicate MeetsExpansionRules(
    st: Staking, w: World, del: Delegation, exp: StakeExpansion, e: SigningRequestStkExp)
  {
    && st.lib.TxFromHex(del.stakingTxHex).Some?
    && var tx := st.lib.TxFromHex(del.stakingTxHex).value;
    && |tx.ins| == 2
    && st.parseHash(exp.previousStakingTxHashHex) == Some(tx.ins[0].prevHash)
    && st.lib.TxOutFromHex(exp.otherFundingTxOutHex) == Some(e.otherFundingOutput)
    && e.otherFundingOutput.value > 0
    && w.delegation(exp.previousStakingTxHashHex).Some?
    && var prev := w.delegation(exp.previousStakingTxHashHex).value;
    && st.lib.TxFromHex(prev.stakingTxHex) == Some(e.previousActiveStakeTx)
    && e.previousStakingOutputIdx == prev.stakingOutputIdx
    && w.params(prev.paramsVersion).Some?
    && var q := w.params(prev.paramsVersion).value;
    && var paths :=
         st.stakingPaths(prev.btcPk, prev.fpBtcPks, q.covenantPks, q.covenantQuorum, prev.stakingTime, prev.totalSat);
    && paths.Some? && paths.value.1 == e.previousActiveStakeUnbondingPkScriptPath
  }

  ghost predicate MeetsRules(st: Staking, w: World, del: Delegation, p: Versioned, req: SigningRequest) {
    && MeetsBaseRules(st, del, p, req)
    && (del.stakeExpansion.Some? <==> req.stakeExp.Some?)
    && (del.stakeExpansion.Some? ==> MeetsExpansionRules(st, w, del, del.stakeExpansion.value, req.stakeExp.value))
  }

  lemma BaseRequestIff(st: Staking, del: Delegation, p: Versioned, req: SigningRequest)
    requires st.Lawful()
    ensures BaseRequest(st, del, p) == Success(req) <==> MeetsBaseRules(st, del, p, req) && req.stakeExp.None?
  {
    TraverseIs(st.encKey, del.fpBtcPks, req.fpEncKeys);
    if MeetsBaseRules(st, del, p, req) {
      assert DecodeDelegationTransactions(st, del, p) == Some((req.stakingTx, req.slashingTx));
      assert DecodeUndelegationTransactions(st, del, del.btcUndelegation.value, p) ==
             Some((req.unbondingTx, req.slashUnbondingTx));
    }
    if BaseRequest(st, del, p) == Success(req) {
      var paths := StakingPaths(st, del, p).value;
      assert paths == (req.slashingPkScriptPath, req.stakingTxUnbondingPkScriptPath);
    }
  }

  lemma StkExpRequestIff(st: Staking, w: World, del: Delegation, exp: StakeExpansion, e: SigningRequestStkExp)
    requires st.Lawful()
    ensures StkExpRequest(st, w, del, exp) == Success(e) <==> MeetsExpansionRules(st, w, del, exp, e)
  {
  }

  /** The ordered checks with their early exits build a request exactly for the delegations that meet every rule. */
  lemma BuildRequestIff(st: Staking, w: World, del: Delegation, p: Versioned, req: SigningRequest)
    requires st.Lawful()
    ensures BuildRequest(st, w, del, p) == Success(req) <==> MeetsRules(st, w, del, p, req)
  {
    BaseRequestIff(st, del, p, req.(stakeExp := None));
    assert MeetsBaseRules(st, del, p, req) <==> MeetsBaseRules(st, del, p, req.(stakeExp := None));
    if del.stakeExpansion.Some? && req.stakeExp.Some? {
      StkExpRequestIff(st, w, del, del.stakeExpansion.value, req.stakeExp.value);
    }
    var base := BaseRequest(st, del, p);
    if base.Success? {
      BaseRequestIff(st, del, p, base.value);
      assert BuildRequest(st, w, del, p) == Success(req) ==> base.value == req.(stakeExp := None);
    }
  }

  /** The fee check of the code is the rule "staking output = unbonding output + fee", for every fee, exactly when the
      difference of the outputs fits an int64; outputs that are not negative always do. */
  lemma FeeIsExact(staked: Int64, unbonded: Int64)
    ensures (forall fee: Int64 :: FeeMatches(staked, unbonded, fee) <==> staked == unbonded + fee) <==>
            FitsInt64(staked - unbonded)
    ensures staked >= 0 && unbonded >= 0 ==> FitsInt64(staked - unbonded)
    ensures forall fee: Int64 ::
              FeeMatches(staked, unbonded, fee) <==>
              staked - unbonded - fee in {-0x1_0000_0000_0000_0000, 0, 0x1_0000_0000_0000_0000}
  {
    assert FeeMatches(staked, unbonded, SubInt64(staked, unbonded));
  }
}
