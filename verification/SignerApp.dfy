/** The signer: which signatures a request asks for and how one secret answers all of them. */
module SignerApp {
  import opened Wrappers
  import opened Lists
  import opened Hex
  import opened Btc

  datatype StkExpRequest = StkExpRequest(
    previousActiveStakeTx: Tx,
    otherFundingOutput: TxOut,
    previousStakingOutputIdx: nat,
    previousActiveStakeUnbondingScript: Bytes)

  datatype Request = Request(
    stakingTx: Tx,
    slashingTx: Tx,
    unbondingTx: Tx,
    slashUnbondingTx: Tx,
    stakeExp: Option<StkExpRequest>,
    stakingOutputIdx: nat,
    slashingScript: Bytes,
    unbondingScript: Bytes,
    unbondingSlashingScript: Bytes,
    fpEncKeys: seq<EncKey>)

  datatype Response = Response(
    slashAdaptorSigs: seq<Bytes>,
    unbondingSig: Signature,
    slashUnbondingAdaptorSigs: seq<Bytes>,
    stakeExpSig: Option<Signature>)

  /** The two adaptor signatures for one finality provider. */
  function SlashUnbondSig(lib: Library, key: PrivKey, req: Request, fp: EncKey): Option<(Bytes, Bytes)> {
    var slash :- lib.encSign(req.slashingTx, req.stakingTx, req.stakingOutputIdx, req.slashingScript, key, fp);
    var slashUnbonding :-
      lib.encSign(req.slashUnbondingTx, req.unbondingTx, 0, req.unbondingSlashingScript, key, fp);
    Some((slash, slashUnbonding))
  }

  function UnbondSig(lib: Library, key: PrivKey, req: Request): Option<Signature> {
    lib.sign(req.unbondingTx, req.stakingTx, req.stakingOutputIdx, req.unbondingScript, key)
  }

  /** An output index outside the previous transaction crashes the Go call; the requester sees a failed request. */
  function StkExpSig(lib: Library, key: PrivKey, req: Request, exp: StkExpRequest): Option<Signature> {
    if exp.previousStakingOutputIdx < |exp.previousActiveStakeTx.outs| then
      lib.signTwoInputs(
        req.stakingTx,
        exp.previousActiveStakeTx.outs[exp.previousStakingOutputIdx],
        exp.otherFundingOutput,
        exp.previousActiveStakeUnbondingScript,
        key)
    else None
  }

  function SignTransactions(lib: Library, key: PrivKey, req: Request): Option<Response> {
    var pairs :- Traverse(fp => SlashUnbondSig(lib, key, req, fp), req.fpEncKeys);
    var unbonding :- UnbondSig(lib, key, req);
    var stkExp :- (match req.stakeExp
                   case None => Some(None)
                   case Some(exp) => var sig :- StkExpSig(lib, key, req, exp); Some(Some(sig)));
    Some(Response(
           Map((p: (Bytes, Bytes)) => p.0, pairs),
           unbonding,
           Map((p: (Bytes, Bytes)) => p.1, pairs),
           stkExp))
  }

  /** SignerApp.SignTransactions: fetches the key, then signs for one finality provider after the other. */
  method SignAll(lib: Library, unlocked: Option<PrivKey>, req: Request) returns (r: Option<Response>)
    ensures r == if unlocked.None? then None else SignTransactions(lib, unlocked.value, req)
  {
    if unlocked.None? {
      return None;
    }
    var key := unlocked.value;
    var f := fp => SlashUnbondSig(lib, key, req, fp);
    var slashSigs: seq<Bytes>, slashUnbondingSigs: seq<Bytes> := [], [];
    var i := 0;
    while i < |req.fpEncKeys|
      invariant 0 <= i <= |req.fpEncKeys| && |slashSigs| == |slashUnbondingSigs| == i
      invariant forall j | 0 <= j < i :: f(req.fpEncKeys[j]) == Some((slashSigs[j], slashUnbondingSigs[j]))
    {
      var sigs := SlashUnbondSig(lib, key, req, req.fpEncKeys[i]);
      if sigs.None? {
        assert f(req.fpEncKeys[i]).None?;
        return None;
      }
      slashSigs := slashSigs + [sigs.value.0];
      slashUnbondingSigs := slashUnbondingSigs + [sigs.value.1];
      i := i + 1;
    }
    ghost var pairs := Traverse(f, req.fpEncKeys).value;
    assert Map((p: (Bytes, Bytes)) => p.0, pairs) == slashSigs;
    assert Map((p: (Bytes, Bytes)) => p.1, pairs) == slashUnbondingSigs;
    var unbonding := UnbondSig(lib, key, req);
    if unbonding.None? {
      return None;
    }
    var resp := Response(slashSigs, unbonding.value, slashUnbondingSigs, None);
    if req.stakeExp.Some? {
      var sig := StkExpSig(lib, key, req, req.stakeExp.value);
      if sig.None? {
        return None;
      }
      resp := resp.(stakeExpSig := Some(sig.value));
    }
    r := Some(resp);
  }

  /** What a successful answer holds: for every finality provider, in order, its own two adaptor signatures; the
      unbonding signature; and an expansion signature exactly when expansion was asked for. */
  lemma ResponseIsAligned(lib: Library, key: PrivKey, req: Request)
    requires SignTransactions(lib, key, req).Some?
    ensures var r := SignTransactions(lib, key, req).value;
            && |r.slashAdaptorSigs| == |r.slashUnbondingAdaptorSigs| == |req.fpEncKeys|
            && (forall i | 0 <= i < |req.fpEncKeys| ::
                  && lib.encSign(req.slashingTx, req.stakingTx, req.stakingOutputIdx, req.slashingScript, key,
                                 req.fpEncKeys[i]) == Some(r.slashAdaptorSigs[i])
                  && lib.encSign(req.slashUnbondingTx, req.unbondingTx, 0, req.unbondingSlashingScript, key,
                                 req.fpEncKeys[i]) == Some(r.slashUnbondingAdaptorSigs[i]))
            && lib.sign(req.unbondingTx, req.stakingTx, req.stakingOutputIdx, req.unbondingScript, key) ==
               Some(r.unbondingSig)
            && (r.stakeExpSig.Some? <==> req.stakeExp.Some?)
            && (req.stakeExp.Some? ==>
                  var exp := req.stakeExp.value;
                  && exp.previousStakingOutputIdx < |exp.previousActiveStakeTx.outs|
                  && r.stakeExpSig ==
                     lib.signTwoInputs(req.stakingTx, exp.previousActiveStakeTx.outs[exp.previousStakingOutputIdx],
                                       exp.otherFundingOutput, exp.previousActiveStakeUnbondingScript, key))
  {
    var f := fp => SlashUnbondSig(lib, key, req, fp);
    var pairs := Traverse(f, req.fpEncKeys).value;
    forall i | 0 <= i < |req.fpEncKeys|
      ensures SlashUnbondSig(lib, key, req, req.fpEncKeys[i]) == Some((pairs[i].0, pairs[i].1))
    {
      assert f(req.fpEncKeys[i]) == Some(pairs[i]);
    }
  }

  /** A wiped key answers nothing at all. */
  lemma ZeroKeySignsNothing(lib: Library, req: Request)
    requires lib.Lawful()
    ensures SignTransactions(lib, 0, req) == None
  {
    assert UnbondSig(lib, 0, req).None?;
  }
}
