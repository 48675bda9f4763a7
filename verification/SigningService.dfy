/** The remote signer as a service that many requests, locks and unlocks use at the same time. */
module SigningService {
  import opened Wrappers
  import opened Hex
  import opened Btc
  import opened Types
  import K = KeyProtocol
  import RS = RemoteSigning
  import S = SignerApp
  import W = Wire

  /** The channel between emulator and signer, and the key the signer's ring holds. */
  datatype Channel = Channel(
    codec: RS.Codec, clientKey: string, hmacKey: string, maxContentLength: nat, key: PrivKey)

  /** The server of `RemoteSigning`, unlocked. */
  function Unlocked(ch: Channel): RS.Server { RS.Server(ch.hmacKey, ch.maxContentLength, Some(ch.key)) }

  /** Some interleaving of requests, locks and unlocks completes request `req` with response `resp`. */
  ghost predicate Completes(lib: Library, key: PrivKey, req: S.Request, resp: S.Response) {
    exists actions, t: nat :: CompletedIn(lib, key, actions, t, req, resp)
  }

  ghost predicate CompletedIn(
    lib: Library, key: PrivKey, actions: seq<K.Action>, t: nat, req: S.Request, resp: S.Response)
  {
    var s := K.Run(lib, key, K.INITIAL, actions);
    t < |s.threads| && s.threads[t] == K.Succeeded(req, resp)
  }

  /** Whatever else went on, a completed request was signed whole under the configured key. */
  lemma CompletedIsSigned(lib: Library, key: PrivKey, req: S.Request, resp: S.Response)
    requires lib.Lawful() && Completes(lib, key, req, resp)
    ensures S.SignTransactions(lib, key, req) == Some(resp)
  {
    var actions, t: nat :| CompletedIn(lib, key, actions, t, req, resp);
    K.EveryInterleavingIsSound(lib, key, actions);
  }

  /** The server's answer when the signing itself is one of many requests in flight. */
  ghost predicate ServedAmongMany(lib: Library, ch: Channel, header: string, body: Bytes, answer: Bytes) {
    && |body| <= ch.maxContentLength
    && RS.ValidateHMAC(ch.codec, ch.hmacKey, body, header)
    && ch.codec.unmarshalRequest(body).Some?
    && var parsed := W.ParseSigningRequest(lib, ch.codec.unmarshalRequest(body).value);
    && parsed.Some?
    && exists resp :: Completes(lib, ch.key, parsed.value, resp)
                      && answer == ch.codec.marshalResponse(W.ToResponse(lib, resp))
  }

  /** A completed request answers exactly as an undisturbed server with the configured key does. */
  lemma ServedAsUndisturbed(lib: Library, ch: Channel, header: string, body: Bytes, answer: Bytes)
    requires lib.Lawful() && ServedAmongMany(lib, ch, header, body, answer)
    ensures RS.Serve(lib, ch.codec, Unlocked(ch), header, body) == Some(answer)
  {
    var parsed := W.ParseSigningRequest(lib, ch.codec.unmarshalRequest(body).value).value;
    var resp :| Completes(lib, ch.key, parsed, resp) && answer == ch.codec.marshalResponse(W.ToResponse(lib, resp));
    CompletedIsSigned(lib, ch.key, parsed, resp);
  }

  /** The emulator obtained `resp` for `req` over the channel. */
  ghost predicate Obtained(lib: Library, ch: Channel, req: SigningRequest, resp: SignaturesResponse) {
    var wire := W.ToSignTransactionRequest(lib, RS.ToSignerRequest(req));
    && wire.Some?
    && var body := ch.codec.marshalRequest(wire.value);
    && exists answer: Bytes ::
         && ServedAmongMany(lib, ch, RS.GenerateHMAC(ch.codec, ch.clientKey, body), body, answer)
         && Decoded(lib, ch, answer, resp)
  }

  ghost predicate Decoded(lib: Library, ch: Channel, answer: Bytes, resp: SignaturesResponse) {
    && |answer| <= RS.MAX_RESPONSE_SIZE
    && ch.codec.unmarshalResponse(answer).Some?
    && var parsed := W.ToParsedSigningResponse(lib, ch.codec.unmarshalResponse(answer).value);
    && parsed.Some? && resp == RS.ToCovenantResponse(parsed.value)
  }

  /** What the client makes of the server's answer. */
  lemma DecodedIsRemote(lib: Library, ch: Channel, req: SigningRequest, answer: Bytes, resp: SignaturesResponse)
    requires W.ToSignTransactionRequest(lib, RS.ToSignerRequest(req)).Some? && Decoded(lib, ch, answer, resp)
    requires var body := ch.codec.marshalRequest(W.ToSignTransactionRequest(lib, RS.ToSignerRequest(req)).value);
             RS.Serve(lib, ch.codec, Unlocked(ch), RS.GenerateHMAC(ch.codec, ch.clientKey, body), body) == Some(answer)
    ensures RS.RemoteSign(lib, ch.codec, ch.clientKey, Unlocked(ch), req) == Some(resp)
  {
  }

  lemma ObtainedIsRemote(lib: Library, ch: Channel, req: SigningRequest, resp: SignaturesResponse)
    requires lib.Lawful() && Obtained(lib, ch, req, resp)
    ensures RS.RemoteSign(lib, ch.codec, ch.clientKey, Unlocked(ch), req) == Some(resp)
  {
    var body := ch.codec.marshalRequest(W.ToSignTransactionRequest(lib, RS.ToSignerRequest(req)).value);
    var header := RS.GenerateHMAC(ch.codec, ch.clientKey, body);
    var answer: Bytes :| ServedAmongMany(lib, ch, header, body, answer) && Decoded(lib, ch, answer, resp);
    ServedAsUndisturbed(lib, ch, header, body, answer);
    DecodedIsRemote(lib, ch, req, answer, resp);
  }

  /** An answer of the undisturbed server is one that some interleaving gives. */
  lemma UndisturbedIsServed(lib: Library, ch: Channel, header: string, body: Bytes, answer: Bytes)
    requires RS.Serve(lib, ch.codec, Unlocked(ch), header, body) == Some(answer)
    ensures ServedAmongMany(lib, ch, header, body, answer)
  {
    var parsed := W.ParseSigningRequest(lib, ch.codec.unmarshalRequest(body).value).value;
    var resp := S.SignTransactions(lib, ch.key, parsed).value;
    var actions := K.UndisturbedCompletes(lib, ch.key, parsed, resp);
    assert CompletedIn(lib, ch.key, actions, 0, parsed, resp);
  }

  /** What can be obtained over the shared channel, however requests, locks and unlocks interleave, is exactly what an
      undisturbed unlocked signer answers. */
  lemma ObtainedIff(lib: Library, ch: Channel, req: SigningRequest, resp: SignaturesResponse)
    requires lib.Lawful()
    ensures Obtained(lib, ch, req, resp) <==>
            RS.RemoteSign(lib, ch.codec, ch.clientKey, Unlocked(ch), req) == Some(resp)
  {
    if Obtained(lib, ch, req, resp) {
      ObtainedIsRemote(lib, ch, req, resp);
    }
    if RS.RemoteSign(lib, ch.codec, ch.clientKey, Unlocked(ch), req) == Some(resp) {
      var body := ch.codec.marshalRequest(W.ToSignTransactionRequest(lib, RS.ToSignerRequest(req)).value);
      var header := RS.GenerateHMAC(ch.codec, ch.clientKey, body);
      var answer := RS.Serve(lib, ch.codec, Unlocked(ch), header, body).value;
      UndisturbedIsServed(lib, ch, header, body, answer);
      assert Decoded(lib, ch, answer, resp);
    }
  }

  /** Whatever the emulator obtains are the signatures the configured key makes on the request it meant. */
  lemma ObtainedAnswers(lib: Library, ch: Channel, req: SigningRequest, resp: SignaturesResponse)
    requires lib.Lawful() && ch.codec.Lawful() && Obtained(lib, ch, req, resp)
    ensures RS.Answers(lib, ch.key, req, resp)
  {
    ObtainedIsRemote(lib, ch, req, resp);
    RS.RemoteSigningIsLocalSigning(lib, ch.codec, ch.clientKey, Unlocked(ch), req, resp);
  }
}
