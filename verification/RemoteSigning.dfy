/** Signing over HTTP: the emulator's request travels to the signer and the signatures travel back. */
module RemoteSigning {
  import opened Wrappers
  import opened Lists
  import opened Hex
  import opened Btc
  import S = SignerApp
  import W = Wire
  import opened Types

  const MAX_RESPONSE_SIZE: nat := 0x10_0000

  /** JSON text and SHA-256 HMAC. */
  datatype Codec = Codec(
    marshalRequest: W.SignTransactionsRequest -> Bytes,
    unmarshalRequest: Bytes -> Option<W.SignTransactionsRequest>,
    marshalResponse: W.SignTransactionsResponse -> Bytes,
    unmarshalResponse: Bytes -> Option<W.SignTransactionsResponse>,
    mac: (string, Bytes) -> Bytes)
  {
    ghost predicate Lawful() {
      && (forall r :: unmarshalRequest(marshalRequest(r)) == Some(r))
      && (forall r :: unmarshalResponse(marshalResponse(r)) == Some(r))
      && (forall k, b :: mac(k, b) != [])
    }
  }

  // ---------- request authentication ----------

  function GenerateHMAC(codec: Codec, key: string, body: Bytes): string {
    if key == "" then "" else EncodeHex(codec.mac(key, body))
  }

  predicate ValidateHMAC(codec: Codec, key: string, body: Bytes, received: string) {
    if key == "" then true
    else if received == "" then false
    else GenerateHMAC(codec, key, body) == received
  }

  /** Whatever header comes with a body, it is valid exactly when nothing is checked or it is the hex text of the code
      of this very body. */
  lemma ValidIff(codec: Codec, key: string, body: Bytes, header: string)
    requires codec.Lawful()
    ensures ValidateHMAC(codec, key, body, header) <==> key == "" || header == EncodeHex(codec.mac(key, body))
  {
    assert |EncodeHex(codec.mac(key, body))| > 0;
  }

  /** An incoming HTTP request. `unread` is what is left of its body stream. */
  class HttpRequest {
    const hmacHeader: string
    var unread: Bytes

    constructor (hmacHeader: string, body: Bytes)
      ensures this.hmacHeader == hmacHeader && unread == body
    {
      this.hmacHeader := hmacHeader;
      unread := body;
    }

    method ReadAll() returns (body: Bytes)
      modifies this`unread
      ensures body == old(unread) && unread == []
    {
      body := unread;
      unread := [];
    }
  }

  /** The middleware: it has to read the body to check it, and puts back a fresh stream over the bytes it read. A
      request it lets through is handed on with exactly the body that was authenticated still unread. */
  method HMACAuthMiddleware(codec: Codec, key: string, r: HttpRequest) returns (pass: bool)
    modifies r
    ensures pass <==> ValidateHMAC(codec, key, old(r.unread), r.hmacHeader)
    ensures codec.Lawful() ==> (pass <==> key == "" || r.hmacHeader == EncodeHex(codec.mac(key, old(r.unread))))
    ensures pass ==> r.unread == old(r.unread)
  {
    if codec.Lawful() {
      ValidIff(codec, key, r.unread, r.hmacHeader);
    }
    if key == "" {
      return true;
    }
    if r.hmacHeader == "" {
      return false;
    }
    var body := r.ReadAll();
    r.unread := body;
    pass := ValidateHMAC(codec, key, body, r.hmacHeader);
  }

  /** A request stamped by the client passes the gate exactly when the server checks nothing, or both sides have a key
      and the keys give the same code for this body. In particular equal non-empty keys always pass. */
  lemma StampedRequestPassesIff(codec: Codec, clientKey: string, serverKey: string, body: Bytes)
    requires codec.Lawful()
    ensures ValidateHMAC(codec, serverKey, body, GenerateHMAC(codec, clientKey, body)) <==>
            serverKey == "" || (clientKey != "" && codec.mac(clientKey, body) == codec.mac(serverKey, body))
    ensures clientKey == serverKey ==>
              ValidateHMAC(codec, serverKey, body, GenerateHMAC(codec, clientKey, body))
  {
    if clientKey != "" && serverKey != "" {
      assert |EncodeHex(codec.mac(clientKey, body))| > 0;
      if GenerateHMAC(codec, clientKey, body) == GenerateHMAC(codec, serverKey, body) {
        EncodeIsInjective(codec.mac(clientKey, body), codec.mac(serverKey, body));
      }
    }
  }

  // ---------- the two ends ----------

  datatype Server = Server(hmacKey: string, maxContentLength: nat, unlocked: Option<PrivKey>)

  /** The server's answer to a signing request: the body of a 200 response, or nothing for any other status. */
  function Serve(lib: Library, codec: Codec, server: Server, header: string, body: Bytes): Option<Bytes> {
    if |body| > server.maxContentLength then None
    else if !ValidateHMAC(codec, server.hmacKey, body, header) then None
    else
      var wire :- codec.unmarshalRequest(body);
      var parsed :- W.ParseSigningRequest(lib, wire);
      var key :- server.unlocked;
      var resp :- S.SignTransactions(lib, key, parsed);
      Some(codec.marshalResponse(W.ToResponse(lib, resp)))
  }

  /** Whatever header and body come in, the server answers exactly when the body fits, is authenticated, can be read,
      the signer is unlocked and its key signs the request; and the answer is those signatures. */
  lemma ServeIff(lib: Library, codec: Codec, server: Server, header: string, body: Bytes, answer: Bytes)
    requires codec.Lawful()
    ensures Serve(lib, codec, server, header, body) == Some(answer) <==>
            && |body| <= server.maxContentLength
            && (server.hmacKey == "" || header == EncodeHex(codec.mac(server.hmacKey, body)))
            && codec.unmarshalRequest(body).Some?
            && var parsed := W.ParseSigningRequest(lib, codec.unmarshalRequest(body).value);
            && parsed.Some? && server.unlocked.Some?
            && var signed := S.SignTransactions(lib, server.unlocked.value, parsed.value);
            && signed.Some? && answer == codec.marshalResponse(W.ToResponse(lib, signed.value))
  {
    ValidIff(codec, server.hmacKey, body, header);
  }

  function ToSignerStkExp(req: SigningRequestStkExp): S.StkExpRequest {
    S.StkExpRequest(
      req.previousActiveStakeTx,
      req.otherFundingOutput,
      req.previousStakingOutputIdx,
      req.previousActiveStakeUnbondingPkScriptPath)
  }

  function ToSignerRequest(req: SigningRequest): S.Request {
    S.Request(
      req.stakingTx,
      req.slashingTx,
      req.unbondingTx,
      req.slashUnbondingTx,
      if req.stakeExp.Some? then Some(ToSignerStkExp(req.stakeExp.value)) else None,
      req.stakingOutputIdx,
      req.slashingPkScriptPath,
      req.stakingTxUnbondingPkScriptPath,
      req.unbondingTxSlashingPkScriptPath,
      req.fpEncKeys)
  }

  function ToCovenantResponse(resp: S.Response): SignaturesResponse {
    SignaturesResponse(
      resp.slashAdaptorSigs, resp.unbondingSig, resp.stakeExpSig, resp.slashUnbondingAdaptorSigs)
  }

  /** RemoteSigner.SignTransactions, from the emulator's request to the emulator's response. */
  function RemoteSign(lib: Library, codec: Codec, clientKey: string, server: Server, req: SigningRequest)
    : Option<SignaturesResponse>
  {
    var wire :- W.ToSignTransactionRequest(lib, ToSignerRequest(req));
    var body := codec.marshalRequest(wire);
    var answer :- Serve(lib, codec, server, GenerateHMAC(codec, clientKey, body), body);
    if |answer| > MAX_RESPONSE_SIZE then None
    else
      var wireResp :- codec.unmarshalResponse(answer);
      var resp :- W.ToParsedSigningResponse(lib, wireResp);
      Some(ToCovenantResponse(resp))
  }

  // ---------- the meaning that must survive the trip ----------

  /** `resp` holds exactly the signatures that `key` makes on the transactions of `req`: for finality provider `i`
      the two adaptor signatures at position `i`, one unbonding signature, and an expansion signature iff one was
      asked for. */
  ghost predicate Answers(lib: Library, key: PrivKey, req: SigningRequest, resp: SignaturesResponse) {
    && |resp.slashSigs| == |resp.slashUnbondingSigs| == |req.fpEncKeys|
    && (forall i | 0 <= i < |req.fpEncKeys| ::
          && Some(resp.slashSigs[i]) ==
             lib.encSign(req.slashingTx, req.stakingTx, req.stakingOutputIdx, req.slashingPkScriptPath,
                         key, req.fpEncKeys[i])
          && Some(resp.slashUnbondingSigs[i]) ==
             lib.encSign(req.slashUnbondingTx, req.unbondingTx, 0, req.unbondingTxSlashingPkScriptPath,
                         key, req.fpEncKeys[i]))
    && Some(resp.unbondingSig) ==
       lib.sign(req.unbondingTx, req.stakingTx, req.stakingOutputIdx, req.stakingTxUnbondingPkScriptPath, key)
    && (resp.stkExtSig.Some? <==> req.stakeExp.Some?)
    && (req.stakeExp.Some? ==>
          var exp := req.stakeExp.value;
          && exp.previousStakingOutputIdx < |exp.previousActiveStakeTx.outs|
          && resp.stkExtSig ==
             lib.signTwoInputs(req.stakingTx, exp.previousActiveStakeTx.outs[exp.previousStakingOutputIdx],
                               exp.otherFundingOutput, exp.previousActiveStakeUnbondingPkScriptPath, key))
  }

  lemma SigningAnswers(lib: Library, key: PrivKey, req: SigningRequest)
    ensures match S.SignTransactions(lib, key, ToSignerRequest(req))
            case Some(resp) => Answers(lib, key, req, ToCovenantResponse(resp))
            case None => forall resp :: !Answers(lib, key, req, resp)
  {
    var sreq := ToSignerRequest(req);
    if S.SignTransactions(lib, key, sreq).Some? {
      S.ResponseIsAligned(lib, key, sreq);
      var r := S.SignTransactions(lib, key, sreq).value;
      forall i | 0 <= i < |req.fpEncKeys|
        ensures Some(r.slashAdaptorSigs[i]) ==
                lib.encSign(req.slashingTx, req.stakingTx, req.stakingOutputIdx, req.slashingPkScriptPath,
                            key, req.fpEncKeys[i])
        ensures Some(r.slashUnbondingAdaptorSigs[i]) ==
                lib.encSign(req.slashUnbondingTx, req.unbondingTx, 0, req.unbondingTxSlashingPkScriptPath,
                            key, req.fpEncKeys[i])
      {
        assert sreq.fpEncKeys[i] == req.fpEncKeys[i];
      }
    } else {
      forall resp ensures !Answers(lib, key, req, resp) {
        if Answers(lib, key, req, resp) {
          AnsweredMeansSigned(lib, key, req, resp);
        }
      }
    }
  }

  lemma AnsweredMeansSigned(lib: Library, key: PrivKey, req: SigningRequest, resp: SignaturesResponse)
    requires Answers(lib, key, req, resp)
    ensures S.SignTransactions(lib, key, ToSignerRequest(req)).Some?
  {
    var sreq := ToSignerRequest(req);
    var f := fp => S.SlashUnbondSig(lib, key, sreq, fp);
    forall i | 0 <= i < |sreq.fpEncKeys| ensures f(sreq.fpEncKeys[i]).Some? {
      assert lib.encSign(sreq.slashingTx, sreq.stakingTx, sreq.stakingOutputIdx, sreq.slashingScript,
                         key, sreq.fpEncKeys[i]) == Some(resp.slashSigs[i]);
    }
    assert Traverse(f, sreq.fpEncKeys).Some?;
  }

  lemma AnswerIsUnique(lib: Library, key: PrivKey, req: SigningRequest, a: SignaturesResponse, b: SignaturesResponse)
    requires Answers(lib, key, req, a) && Answers(lib, key, req, b)
    ensures a == b
  {
    assert a.slashSigs == b.slashSigs;
    assert a.slashUnbondingSigs == b.slashUnbondingSigs;
  }

  /** What the channel carries: all transactions can be written, there is a finality provider, no script is empty,
      the body fits the server's limit, the HMAC keys agree on it, and the signer is unlocked. */
  ghost predicate Carried(lib: Library, codec: Codec, clientKey: string, server: Server, req: SigningRequest) {
    var wire := W.ToSignTransactionRequest(lib, ToSignerRequest(req));
    && req.fpEncKeys != []
    && req.slashingPkScriptPath != []
    && req.stakingTxUnbondingPkScriptPath != []
    && req.unbondingTxSlashingPkScriptPath != []
    && server.unlocked.Some?
    && wire.Some?
    && var body := codec.marshalRequest(wire.value);
       && |body| <= server.maxContentLength
       && (server.hmacKey == ""
           || (clientKey != "" && codec.mac(clientKey, body) == codec.mac(server.hmacKey, body)))
  }

  function ResponseSize(lib: Library, codec: Codec, resp: SignaturesResponse): nat {
    |codec.marshalResponse(
       W.ToResponse(lib, S.Response(
         resp.slashSigs, resp.unbondingSig, resp.slashUnbondingSigs, resp.stkExtSig)))|
  }

  lemma ServeCarried(lib: Library, codec: Codec, clientKey: string, server: Server, req: SigningRequest)
    requires lib.Lawful() && codec.Lawful() && Carried(lib, codec, clientKey, server, req)
    ensures var body := codec.marshalRequest(W.ToSignTransactionRequest(lib, ToSignerRequest(req)).value);
            Serve(lib, codec, server, GenerateHMAC(codec, clientKey, body), body) ==
            match S.SignTransactions(lib, server.unlocked.value, ToSignerRequest(req))
            case None => None
            case Some(resp) => Some(codec.marshalResponse(W.ToResponse(lib, resp)))
  {
    var sreq := ToSignerRequest(req);
    var body := codec.marshalRequest(W.ToSignTransactionRequest(lib, sreq).value);
    StampedRequestPassesIff(codec, clientKey, server.hmacKey, body);
    W.RequestRoundTrip(lib, sreq);
  }

  lemma NotCarriedFails(lib: Library, codec: Codec, clientKey: string, server: Server, req: SigningRequest)
    requires lib.Lawful() && codec.Lawful() && !Carried(lib, codec, clientKey, server, req)
    ensures RemoteSign(lib, codec, clientKey, server, req) == None
  {
    var sreq := ToSignerRequest(req);
    var wire := W.ToSignTransactionRequest(lib, sreq);
    if wire.Some? {
      var body := codec.marshalRequest(wire.value);
      StampedRequestPassesIff(codec, clientKey, server.hmacKey, body);
      W.RequestRoundTrip(lib, sreq);
      if req.fpEncKeys == [] && server.unlocked.Some? {
        var signed := S.SignTransactions(lib, server.unlocked.value, sreq);
        if signed.Some? {
          S.ResponseIsAligned(lib, server.unlocked.value, sreq);
          W.ResponseRoundTrip(lib, signed.value);
        }
      }
    }
  }

  lemma RemoteOfCarried(lib: Library, codec: Codec, clientKey: string, server: Server, req: SigningRequest)
    requires lib.Lawful() && codec.Lawful() && Carried(lib, codec, clientKey, server, req)
    ensures RemoteSign(lib, codec, clientKey, server, req) ==
            match S.SignTransactions(lib, server.unlocked.value, ToSignerRequest(req))
            case None => None
            case Some(resp) =>
              if ResponseSize(lib, codec, ToCovenantResponse(resp)) <= MAX_RESPONSE_SIZE
              then Some(ToCovenantResponse(resp)) else None
  {
    ServeCarried(lib, codec, clientKey, server, req);
    var signed := S.SignTransactions(lib, server.unlocked.value, ToSignerRequest(req));
    if signed.Some? {
      W.ResponseRoundTrip(lib, signed.value);
      S.ResponseIsAligned(lib, server.unlocked.value, ToSignerRequest(req));
    }
  }

  /** Remote signing means local signing. A response comes back exactly when the request is carried, the signatures the
      server's key makes on the original request exist, and their JSON fits the client's limit; and the response is
      those signatures. Every other request fails as a whole. */
  lemma RemoteSigningIsLocalSigning(
    lib: Library, codec: Codec, clientKey: string, server: Server, req: SigningRequest, resp: SignaturesResponse)
    requires lib.Lawful() && codec.Lawful()
    ensures RemoteSign(lib, codec, clientKey, server, req) == Some(resp) <==>
            && Carried(lib, codec, clientKey, server, req)
            && Answers(lib, server.unlocked.value, req, resp)
            && ResponseSize(lib, codec, resp) <= 1024 * 1024
  {
    if !Carried(lib, codec, clientKey, server, req) {
      NotCarriedFails(lib, codec, clientKey, server, req);
    } else {
      var key := server.unlocked.value;
      RemoteOfCarried(lib, codec, clientKey, server, req);
      SigningAnswers(lib, key, req);
      var signed := S.SignTransactions(lib, key, ToSignerRequest(req));
      if signed.Some? && Answers(lib, key, req, resp) {
        AnswerIsUnique(lib, key, req, resp, ToCovenantResponse(signed.value));
      }
    }
  }
}
