/** The wire form of signing requests and responses. */
module Wire {
  import opened Wrappers
  import opened Lists
  import opened Hex
  import opened Btc
  import opened SignerApp

  datatype StakeExpansionRequest = StakeExpansionRequest(
    previousActiveStakeTxHex: string,
    otherFundingOutputHex: string,
    prevStakingOutputIdx: nat,
    previousActiveStakeUnbondingScriptHex: string)

  datatype SignTransactionsRequest = SignTransactionsRequest(
    stakingTxHex: string,
    slashingTxHex: string,
    unbondingTxHex: string,
    slashUnbondingTxHex: string,
    stakingOutputIdx: nat,
    slashingScriptHex: string,
    unbondingScriptHex: string,
    unbondingSlashingScriptHex: string,
    fpEncKeys: seq<string>,
    stakeExpansion: Option<StakeExpansionRequest>)

  /** The empty expansion signature stands for none. */
  datatype SignTransactionsResponse = SignTransactionsResponse(
    slashingSignatures: seq<string>,
    unbondingSignature: string,
    slashUnbondingSignatures: seq<string>,
    stakeExpansionSignature: string)

  function EncKeyToHex(lib: Library, k: EncKey): string { EncodeHex(lib.encKeyBytes(k)) }

  function ToStakeExpansionRequest(lib: Library, exp: StkExpRequest): Option<StakeExpansionRequest> {
    var txHex :- lib.TxToHex(exp.previousActiveStakeTx);
    var outHex :- lib.TxOutToHex(exp.otherFundingOutput);
    Some(StakeExpansionRequest(
           txHex, outHex, exp.previousStakingOutputIdx, EncodeHex(exp.previousActiveStakeUnbondingScript)))
  }

  function ToSignTransactionRequest(lib: Library, req: Request): Option<SignTransactionsRequest> {
    var stakingTxHex :- lib.TxToHex(req.stakingTx);
    var slashingTxHex :- lib.TxToHex(req.slashingTx);
    var unbondingTxHex :- lib.TxToHex(req.unbondingTx);
    var slashUnbondingTxHex :- lib.TxToHex(req.slashUnbondingTx);
    var expansion :- (match req.stakeExp
                      case None => Some(None)
                      case Some(exp) => var e :- ToStakeExpansionRequest(lib, exp); Some(Some(e)));
    Some(SignTransactionsRequest(
           stakingTxHex, slashingTxHex, unbondingTxHex, slashUnbondingTxHex,
           req.stakingOutputIdx,
           EncodeHex(req.slashingScript), EncodeHex(req.unbondingScript), EncodeHex(req.unbondingSlashingScript),
           Map(k => EncKeyToHex(lib, k), req.fpEncKeys),
           expansion))
  }

  /** A script that is present: hex that decodes to at least one byte. */
  function ParseScript(text: string): Option<Bytes> {
    var script :- DecodeHex(text);
    if script == [] then None else Some(script)
  }

  function ParseStakeExpansion(lib: Library, exp: StakeExpansionRequest): Option<StkExpRequest> {
    var tx :- lib.TxFromHex(exp.previousActiveStakeTxHex);
    var out :- lib.TxOutFromHex(exp.otherFundingOutputHex);
    var script :- DecodeHex(exp.previousActiveStakeUnbondingScriptHex);
    Some(StkExpRequest(tx, out, exp.prevStakingOutputIdx, script))
  }

  function ParseSigningRequest(lib: Library, req: SignTransactionsRequest): Option<Request> {
    var stakingTx :- lib.TxFromHex(req.stakingTxHex);
    var slashingTx :- lib.TxFromHex(req.slashingTxHex);
    var unbondingTx :- lib.TxFromHex(req.unbondingTxHex);
    var slashUnbondingTx :- lib.TxFromHex(req.slashUnbondingTxHex);
    var slashingScript :- ParseScript(req.slashingScriptHex);
    var unbondingScript :- ParseScript(req.unbondingScriptHex);
    var unbondingSlashingScript :- ParseScript(req.unbondingSlashingScriptHex);
    var fpEncKeys :- Traverse(text => lib.EncKeyFromHex(text), req.fpEncKeys);
    var stakeExp :- (match req.stakeExpansion
                     case None => Some(None)
                     case Some(exp) => var e :- ParseStakeExpansion(lib, exp); Some(Some(e)));
    Some(Request(
           stakingTx, slashingTx, unbondingTx, slashUnbondingTx, stakeExp, req.stakingOutputIdx,
           slashingScript, unbondingScript, unbondingSlashingScript, fpEncKeys))
  }

  function ToResponse(lib: Library, resp: Response): SignTransactionsResponse {
    SignTransactionsResponse(
      Map(EncodeHex, resp.slashAdaptorSigs),
      EncodeHex(lib.sigBytes(resp.unbondingSig)),
      Map(EncodeHex, resp.slashUnbondingAdaptorSigs),
      match resp.stakeExpSig case None => "" case Some(sig) => EncodeHex(lib.sigBytes(sig)))
  }

  function ToParsedSigningResponse(lib: Library, resp: SignTransactionsResponse): Option<Response> {
    if resp.slashingSignatures == [] || resp.slashUnbondingSignatures == [] then None
    else
      var slash :- Traverse(DecodeHex, resp.slashingSignatures);
      var unbonding :- lib.SigFromHex(resp.unbondingSignature);
      var slashUnbonding :- Traverse(DecodeHex, resp.slashUnbondingSignatures);
      var stakeExp :- (if resp.stakeExpansionSignature == "" then Some(None)
                       else var sig :- lib.SigFromHex(resp.stakeExpansionSignature); Some(Some(sig)));
      Some(Response(slash, unbonding, slashUnbonding, stakeExp))
  }

  // ---------- the loops that fill arrays by index ----------

  method MapByIndex<A, B>(f: A -> B, s: seq<A>, zero: B) returns (r: seq<B>)
    ensures r == Map(f, s)
  {
    var filled := new B[|s|](_ => zero);
    var i := 0;
    while i < |s|
      invariant 0 <= i <= |s|
      invariant forall j | 0 <= j < i :: filled[j] == f(s[j])
    {
      filled[i] := f(s[i]);
      i := i + 1;
    }
    r := filled[..];
    assert r == Map(f, s);
  }

  method TraverseByIndex<A, B>(f: A -> Option<B>, s: seq<A>, zero: B) returns (r: Option<seq<B>>)
    ensures r == Traverse(f, s)
  {
    var filled := new B[|s|](_ => zero);
    var i := 0;
    while i < |s|
      invariant 0 <= i <= |s|
      invariant forall j | 0 <= j < i :: f(s[j]) == Some(filled[j])
    {
      var b := f(s[i]);
      if b.None? {
        return None;
      }
      filled[i] := b.value;
      i := i + 1;
    }
    var all := filled[..];
    assert forall j | 0 <= j < |s| :: f(s[j]) == Some(all[j]);
    assert Traverse(f, s).value == all;
    r := Some(all);
  }

  method EncodeRequest(lib: Library, req: Request) returns (r: Option<SignTransactionsRequest>)
    ensures r == ToSignTransactionRequest(lib, req)
  {
    var stakingTxHex :- lib.TxToHex(req.stakingTx);
    var slashingTxHex :- lib.TxToHex(req.slashingTx);
    var unbondingTxHex :- lib.TxToHex(req.unbondingTx);
    var slashUnbondingTxHex :- lib.TxToHex(req.slashUnbondingTx);
    var fpEncKeys := MapByIndex(k => EncKeyToHex(lib, k), req.fpEncKeys, "");
    var wire := SignTransactionsRequest(
      stakingTxHex, slashingTxHex, unbondingTxHex, slashUnbondingTxHex,
      req.stakingOutputIdx,
      EncodeHex(req.slashingScript), EncodeHex(req.unbondingScript), EncodeHex(req.unbondingSlashingScript),
      fpEncKeys,
      None);
    if req.stakeExp.Some? {
      var expansion :- ToStakeExpansionRequest(lib, req.stakeExp.value);
      wire := wire.(stakeExpansion := Some(expansion));
    }
    r := Some(wire);
  }

  method ParseRequest(lib: Library, req: SignTransactionsRequest) returns (r: Option<Request>)
    ensures r == ParseSigningRequest(lib, req)
  {
    var stakingTx :- lib.TxFromHex(req.stakingTxHex);
    var slashingTx :- lib.TxFromHex(req.slashingTxHex);
    var unbondingTx :- lib.TxFromHex(req.unbondingTxHex);
    var slashUnbondingTx :- lib.TxFromHex(req.slashUnbondingTxHex);
    var slashingScript :- ParseScript(req.slashingScriptHex);
    var unbondingScript :- ParseScript(req.unbondingScriptHex);
    var unbondingSlashingScript :- ParseScript(req.unbondingSlashingScriptHex);
    var keys := TraverseByIndex(text => lib.EncKeyFromHex(text), req.fpEncKeys, EncKey(0));
    var fpEncKeys :- keys;
    var parsed := Request(
      stakingTx, slashingTx, unbondingTx, slashUnbondingTx, None, req.stakingOutputIdx,
      slashingScript, unbondingScript, unbondingSlashingScript, fpEncKeys);
    if req.stakeExpansion.Some? {
      var stakeExp :- ParseStakeExpansion(lib, req.stakeExpansion.value);
      parsed := parsed.(stakeExp := Some(stakeExp));
    }
    r := Some(parsed);
  }

  method EncodeResponse(lib: Library, resp: Response) returns (r: SignTransactionsResponse)
    ensures r == ToResponse(lib, resp)
  {
    var slash := MapByIndex(EncodeHex, resp.slashAdaptorSigs, "");
    var slashUnbonding := MapByIndex(EncodeHex, resp.slashUnbondingAdaptorSigs, "");
    r := SignTransactionsResponse(slash, EncodeHex(lib.sigBytes(resp.unbondingSig)), slashUnbonding, "");
    if resp.stakeExpSig.Some? {
      r := r.(stakeExpansionSignature := EncodeHex(lib.sigBytes(resp.stakeExpSig.value)));
    }
  }

  method DecodeResponse(lib: Library, resp: SignTransactionsResponse) returns (r: Option<Response>)
    ensures r == ToParsedSigningResponse(lib, resp)
  {
    if |resp.slashingSignatures| == 0 || |resp.slashUnbondingSignatures| == 0 {
      return None;
    }
    var slashParsed := TraverseByIndex(DecodeHex, resp.slashingSignatures, []);
    var slash :- slashParsed;
    var unbonding :- lib.SigFromHex(resp.unbondingSignature);
    var slashUnbondingParsed := TraverseByIndex(DecodeHex, resp.slashUnbondingSignatures, []);
    var slashUnbonding :- slashUnbondingParsed;
    var parsed := Response(slash, unbonding, slashUnbonding, None);
    if |resp.stakeExpansionSignature| > 0 {
      var sig :- lib.SigFromHex(resp.stakeExpansionSignature);
      parsed := parsed.(stakeExpSig := Some(sig));
    }
    r := Some(parsed);
  }

  // ---------- round trips ----------

  lemma TraverseUndoesMap<A, B>(f: A -> B, g: B -> Option<A>, s: seq<A>)
    requires forall i | 0 <= i < |s| :: g(f(s[i])) == Some(s[i])
    ensures Traverse(g, Map(f, s)) == Some(s)
  {
    assert Traverse(g, Map(f, s)).value == s;
  }

  lemma ScriptRoundTrip(script: Bytes)
    ensures ParseScript(EncodeHex(script)) == if script == [] then None else Some(script)
  {
    DecodeUndoesEncode(script);
  }

  lemma ExpansionRoundTrip(lib: Library, exp: StkExpRequest)
    requires lib.Lawful() && ToStakeExpansionRequest(lib, exp).Some?
    ensures ParseStakeExpansion(lib, ToStakeExpansionRequest(lib, exp).value) == Some(exp)
  {
    lib.TxHexRoundTrip(exp.previousActiveStakeTx);
    lib.TxOutHexRoundTrip(exp.otherFundingOutput);
    DecodeUndoesEncode(exp.previousActiveStakeUnbondingScript);
  }

  lemma KeysRoundTrip(lib: Library, keys: seq<EncKey>)
    requires lib.Lawful()
    ensures Traverse(text => lib.EncKeyFromHex(text), Map(k => EncKeyToHex(lib, k), keys)) == Some(keys)
  {
    forall i | 0 <= i < |keys| ensures lib.EncKeyFromHex(EncKeyToHex(lib, keys[i])) == Some(keys[i]) {
      lib.EncKeyHexRoundTrip(keys[i]);
    }
    TraverseUndoesMap(k => EncKeyToHex(lib, k), text => lib.EncKeyFromHex(text), keys);
  }

  /** Parsing gives back every request that could be written, except one with an empty script, which it refuses. */
  lemma RequestRoundTrip(lib: Library, req: Request)
    requires lib.Lawful() && ToSignTransactionRequest(lib, req).Some?
    ensures ParseSigningRequest(lib, ToSignTransactionRequest(lib, req).value) ==
            if req.slashingScript == [] || req.unbondingScript == [] || req.unbondingSlashingScript == []
            then None else Some(req)
  {
    lib.TxHexRoundTrip(req.stakingTx);
    lib.TxHexRoundTrip(req.slashingTx);
    lib.TxHexRoundTrip(req.unbondingTx);
    lib.TxHexRoundTrip(req.slashUnbondingTx);
    ScriptRoundTrip(req.slashingScript);
    ScriptRoundTrip(req.unbondingScript);
    ScriptRoundTrip(req.unbondingSlashingScript);
    KeysRoundTrip(lib, req.fpEncKeys);
    if req.stakeExp.Some? {
      ExpansionRoundTrip(lib, req.stakeExp.value);
    }
  }

  lemma SignaturesRoundTrip(sigs: seq<Bytes>)
    ensures Traverse(DecodeHex, Map(EncodeHex, sigs)) == Some(sigs)
  {
    forall i | 0 <= i < |sigs| ensures DecodeHex(EncodeHex(sigs[i])) == Some(sigs[i]) {
      DecodeUndoesEncode(sigs[i]);
    }
    TraverseUndoesMap(EncodeHex, DecodeHex, sigs);
  }

  /** Parsing gives back every response, except one without adaptor signatures, which it refuses. */
  lemma ResponseRoundTrip(lib: Library, resp: Response)
    requires lib.Lawful()
    ensures ToParsedSigningResponse(lib, ToResponse(lib, resp)) ==
            if resp.slashAdaptorSigs == [] || resp.slashUnbondingAdaptorSigs == [] then None else Some(resp)
  {
    SignaturesRoundTrip(resp.slashAdaptorSigs);
    SignaturesRoundTrip(resp.slashUnbondingAdaptorSigs);
    lib.SigHexRoundTrip(resp.unbondingSig);
    if resp.stakeExpSig.Some? {
      lib.SigHexRoundTrip(resp.stakeExpSig.value);
    }
  }

  // ---------- which field carries what ----------

  /** Each text of the expansion decodes to the part of the request it is named after. */
  ghost predicate CarriesExpansion(lib: Library, wire: StakeExpansionRequest, exp: StkExpRequest) {
    && lib.TxFromHex(wire.previousActiveStakeTxHex) == Some(exp.previousActiveStakeTx)
    && lib.TxOutFromHex(wire.otherFundingOutputHex) == Some(exp.otherFundingOutput)
    && wire.prevStakingOutputIdx == exp.previousStakingOutputIdx
    && DecodeHex(wire.previousActiveStakeUnbondingScriptHex) == Some(exp.previousActiveStakeUnbondingScript)
  }

  /** Each text of `wire` decodes to the part of the request it is named after. */
  ghost predicate Carries(lib: Library, wire: SignTransactionsRequest, req: Request) {
    && lib.TxFromHex(wire.stakingTxHex) == Some(req.stakingTx)
    && lib.TxFromHex(wire.slashingTxHex) == Some(req.slashingTx)
    && lib.TxFromHex(wire.unbondingTxHex) == Some(req.unbondingTx)
    && lib.TxFromHex(wire.slashUnbondingTxHex) == Some(req.slashUnbondingTx)
    && wire.stakingOutputIdx == req.stakingOutputIdx
    && DecodeHex(wire.slashingScriptHex) == Some(req.slashingScript)
    && DecodeHex(wire.unbondingScriptHex) == Some(req.unbondingScript)
    && DecodeHex(wire.unbondingSlashingScriptHex) == Some(req.unbondingSlashingScript)
    && |wire.fpEncKeys| == |req.fpEncKeys|
    && (forall i | 0 <= i < |req.fpEncKeys| :: lib.EncKeyFromHex(wire.fpEncKeys[i]) == Some(req.fpEncKeys[i]))
    && (wire.stakeExpansion.Some? <==> req.stakeExp.Some?)
    && (req.stakeExp.Some? ==> CarriesExpansion(lib, wire.stakeExpansion.value, req.stakeExp.value))
  }

  /** Parsing gives exactly the request the fields carry, and refuses a missing script. */
  lemma ParseIff(lib: Library, wire: SignTransactionsRequest, req: Request)
    ensures ParseSigningRequest(lib, wire) == Some(req) <==>
            && Carries(lib, wire, req)
            && req.slashingScript != [] && req.unbondingScript != [] && req.unbondingSlashingScript != []
  {
    TraverseIs(text => lib.EncKeyFromHex(text), wire.fpEncKeys, req.fpEncKeys);
  }

  /** Encoding puts each part of the request into the field that carries it. */
  lemma EncodedCarries(lib: Library, req: Request)
    requires lib.Lawful() && ToSignTransactionRequest(lib, req).Some?
    ensures Carries(lib, ToSignTransactionRequest(lib, req).value, req)
  {
    lib.TxHexRoundTrip(req.stakingTx);
    lib.TxHexRoundTrip(req.slashingTx);
    lib.TxHexRoundTrip(req.unbondingTx);
    lib.TxHexRoundTrip(req.slashUnbondingTx);
    DecodeUndoesEncode(req.slashingScript);
    DecodeUndoesEncode(req.unbondingScript);
    DecodeUndoesEncode(req.unbondingSlashingScript);
    forall i | 0 <= i < |req.fpEncKeys|
      ensures lib.EncKeyFromHex(EncKeyToHex(lib, req.fpEncKeys[i])) == Some(req.fpEncKeys[i])
    {
      lib.EncKeyHexRoundTrip(req.fpEncKeys[i]);
    }
    if req.stakeExp.Some? {
      EncodedExpansionCarries(lib, req.stakeExp.value);
    }
  }

  lemma EncodedExpansionCarries(lib: Library, exp: StkExpRequest)
    requires lib.Lawful() && ToStakeExpansionRequest(lib, exp).Some?
    ensures CarriesExpansion(lib, ToStakeExpansionRequest(lib, exp).value, exp)
  {
    lib.TxHexRoundTrip(exp.previousActiveStakeTx);
    lib.TxOutHexRoundTrip(exp.otherFundingOutput);
    DecodeUndoesEncode(exp.previousActiveStakeUnbondingScript);
  }

  /** Each text of `wire` decodes to the part of the response it is named after; the empty text carries no expansion
      signature. */
  ghost predicate CarriesResponse(lib: Library, wire: SignTransactionsResponse, resp: Response) {
    && |wire.slashingSignatures| == |resp.slashAdaptorSigs|
    && (forall i | 0 <= i < |resp.slashAdaptorSigs| ::
          DecodeHex(wire.slashingSignatures[i]) == Some(resp.slashAdaptorSigs[i]))
    && lib.SigFromHex(wire.unbondingSignature) == Some(resp.unbondingSig)
    && |wire.slashUnbondingSignatures| == |resp.slashUnbondingAdaptorSigs|
    && (forall i | 0 <= i < |resp.slashUnbondingAdaptorSigs| ::
          DecodeHex(wire.slashUnbondingSignatures[i]) == Some(resp.slashUnbondingAdaptorSigs[i]))
    && (if wire.stakeExpansionSignature == "" then resp.stakeExpSig.None?
        else resp.stakeExpSig.Some? && lib.SigFromHex(wire.stakeExpansionSignature) == resp.stakeExpSig)
  }

  /** Parsing gives exactly the response the fields carry, and refuses missing adaptor signatures. */
  lemma ParseResponseIff(lib: Library, wire: SignTransactionsResponse, resp: Response)
    ensures ToParsedSigningResponse(lib, wire) == Some(resp) <==>
            && CarriesResponse(lib, wire, resp)
            && resp.slashAdaptorSigs != [] && resp.slashUnbondingAdaptorSigs != []
  {
    TraverseIs(DecodeHex, wire.slashingSignatures, resp.slashAdaptorSigs);
    TraverseIs(DecodeHex, wire.slashUnbondingSignatures, resp.slashUnbondingAdaptorSigs);
  }

  /** Encoding puts each part of the response into the field that carries it. */
  lemma EncodedResponseCarries(lib: Library, resp: Response)
    requires lib.Lawful()
    ensures CarriesResponse(lib, ToResponse(lib, resp), resp)
  {
    forall i | 0 <= i < |resp.slashAdaptorSigs|
      ensures DecodeHex(EncodeHex(resp.slashAdaptorSigs[i])) == Some(resp.slashAdaptorSigs[i])
    {
      DecodeUndoesEncode(resp.slashAdaptorSigs[i]);
    }
    forall i | 0 <= i < |resp.slashUnbondingAdaptorSigs|
      ensures DecodeHex(EncodeHex(resp.slashUnbondingAdaptorSigs[i])) == Some(resp.slashUnbondingAdaptorSigs[i])
    {
      DecodeUndoesEncode(resp.slashUnbondingAdaptorSigs[i]);
    }
    lib.SigHexRoundTrip(resp.unbondingSig);
    if resp.stakeExpSig.Some? {
      lib.SigHexRoundTrip(resp.stakeExpSig.value);
    }
  }
}
