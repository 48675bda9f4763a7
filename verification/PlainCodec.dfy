/** A concrete codec that meets the laws the remote-signing proofs ask of JSON and HMAC: texts and numbers in unary. */
module PlainCodec {
  import opened Wrappers
  import opened Hex
  import RS = RemoteSigning
  import W = Wire

  /** Reads a value off the front of a byte string. */
  type Reader<+T> = Bytes -> Option<(T, Bytes)>

  ghost predicate Inverts<T(!new)>(write: T -> Bytes, read: Reader<T>) {
    forall x: T, rest: Bytes :: read(write(x) + rest) == Some((x, rest))
  }

  // ---------- numbers, characters and lists ----------

  function WriteNat(n: nat): (b: Bytes)
    ensures |b| == n + 1
  {
    if n == 0 then [0] else [1] + WriteNat(n - 1)
  }

  function ReadNat(b: Bytes): Option<(nat, Bytes)> {
    if b == [] then None
    else if b[0] == 0 then Some((0, b[1..]))
    else
      var (n, rest) :- ReadNat(b[1..]);
      Some((n + 1, rest))
  }

  lemma {:induction false} NatTrip(n: nat, rest: Bytes)
    ensures ReadNat(WriteNat(n) + rest) == Some((n, rest))
  {
    if n == 0 {
      assert ([0] + rest)[1..] == rest;
    } else {
      NatTrip(n - 1, rest);
      var tail := WriteNat(n - 1) + rest;
      assert WriteNat(n) + rest == [1] + tail;
      assert ([1] + tail)[1..] == tail;
    }
  }

  function WriteChar(c: char): Bytes { WriteNat(c as nat) }

  function ReadChar(b: Bytes): Option<(char, Bytes)> {
    var (n, rest) :- ReadNat(b);
    if n < 0xD800 || 0xE000 <= n < 0x11_0000 then Some((n as char, rest)) else None
  }

  lemma CharTrip(c: char, rest: Bytes)
    ensures ReadChar(WriteChar(c) + rest) == Some((c, rest))
  {
    NatTrip(c as nat, rest);
  }

  function WriteList<T>(write: T -> Bytes, xs: seq<T>): Bytes {
    if xs == [] then [0] else [1] + write(xs[0]) + WriteList(write, xs[1..])
  }

  function ReadList<T>(read: Reader<T>, b: Bytes): Option<(seq<T>, Bytes)>
    decreases |b|
  {
    if b == [] then None
    else if b[0] == 0 then Some(([], b[1..]))
    else
      var (x, more) :- read(b[1..]);
      if |more| >= |b| then None
      else
        var (xs, rest) :- ReadList(read, more);
        Some(([x] + xs, rest))
  }

  lemma {:induction false} ListTrip<T(!new)>(write: T -> Bytes, read: Reader<T>, xs: seq<T>, rest: Bytes)
    requires Inverts(write, read)
    ensures ReadList(read, WriteList(write, xs) + rest) == Some((xs, rest))
    decreases |xs|
  {
    if xs == [] {
      assert ([0] + rest)[1..] == rest;
    } else {
      var tail := WriteList(write, xs[1..]) + rest;
      assert WriteList(write, xs) + rest == [1] + (write(xs[0]) + tail);
      assert ([1] + (write(xs[0]) + tail))[1..] == write(xs[0]) + tail;
      ListTrip(write, read, xs[1..], rest);
      assert [xs[0]] + xs[1..] == xs;
    }
  }

  function WriteText(s: string): Bytes { WriteList(WriteChar, s) }
  function ReadText(b: Bytes): Option<(string, Bytes)> { ReadList(ReadChar, b) }

  lemma TextTrip(s: string, rest: Bytes)
    ensures ReadText(WriteText(s) + rest) == Some((s, rest))
  {
    forall c: char, more: Bytes ensures ReadChar(WriteChar(c) + more) == Some((c, more)) {
      CharTrip(c, more);
    }
    ListTrip(WriteChar, ReadChar, s, rest);
  }

  // ---------- a form of texts and numbers ----------

  datatype Form = Form(texts: seq<string>, numbers: seq<nat>)

  function Write(form: Form): Bytes { WriteList(WriteText, form.texts) + WriteList(WriteNat, form.numbers) }

  function Read(b: Bytes): Option<Form> {
    var (texts, more) :- ReadList(ReadText, b);
    var (numbers, rest) :- ReadList(ReadNat, more);
    if rest == [] then Some(Form(texts, numbers)) else None
  }

  lemma FormTrip(form: Form)
    ensures Read(Write(form)) == Some(form)
  {
    forall s: string, more: Bytes ensures ReadText(WriteText(s) + more) == Some((s, more)) {
      TextTrip(s, more);
    }
    forall n: nat, more: Bytes ensures ReadNat(WriteNat(n) + more) == Some((n, more)) {
      NatTrip(n, more);
    }
    var numbers := WriteList(WriteNat, form.numbers);
    ListTrip(WriteText, ReadText, form.texts, numbers);
    ListTrip(WriteNat, ReadNat, form.numbers, []);
    assert numbers + [] == numbers;
  }

  // ---------- requests and responses as forms ----------

  function ExpansionTexts(exp: Option<W.StakeExpansionRequest>): seq<string> {
    match exp
    case None => []
    case Some(e) =>
      [e.previousActiveStakeTxHex, e.otherFundingOutputHex, e.previousActiveStakeUnbondingScriptHex]
  }

  function RequestForm(r: W.SignTransactionsRequest): Form {
    Form([r.stakingTxHex, r.slashingTxHex, r.unbondingTxHex, r.slashUnbondingTxHex,
          r.slashingScriptHex, r.unbondingScriptHex, r.unbondingSlashingScriptHex] +
         ExpansionTexts(r.stakeExpansion) + r.fpEncKeys,
         match r.stakeExpansion
         case None => [r.stakingOutputIdx]
         case Some(e) => [r.stakingOutputIdx, e.prevStakingOutputIdx])
  }

  function RequestOf(form: Form): Option<W.SignTransactionsRequest> {
    var t, n := form.texts, form.numbers;
    if |t| < 7 || |n| < 1 then None
    else if |n| == 1 then
      Some(W.SignTransactionsRequest(t[0], t[1], t[2], t[3], n[0], t[4], t[5], t[6], t[7..], None))
    else if |t| < 10 then None
    else
      var expansion := W.StakeExpansionRequest(t[7], t[8], n[1], t[9]);
      Some(W.SignTransactionsRequest(t[0], t[1], t[2], t[3], n[0], t[4], t[5], t[6], t[10..], Some(expansion)))
  }

  lemma RequestTrip(r: W.SignTransactionsRequest)
    ensures RequestOf(RequestForm(r)) == Some(r)
  {
    var t := RequestForm(r).texts;
    match r.stakeExpansion
    case None => assert t[7..] == r.fpEncKeys;
    case Some(_) => assert t[10..] == r.fpEncKeys;
  }

  function ResponseForm(r: W.SignTransactionsResponse): Form {
    Form([r.unbondingSignature, r.stakeExpansionSignature] + r.slashingSignatures + r.slashUnbondingSignatures,
         [|r.slashingSignatures|])
  }

  function ResponseOf(form: Form): Option<W.SignTransactionsResponse> {
    var t, n := form.texts, form.numbers;
    if |n| != 1 || |t| < 2 + n[0] then None
    else Some(W.SignTransactionsResponse(t[2..2 + n[0]], t[0], t[2 + n[0]..], t[1]))
  }

  lemma ResponseTrip(r: W.SignTransactionsResponse)
    ensures ResponseOf(ResponseForm(r)) == Some(r)
  {
    var form := ResponseForm(r);
    var n := form.numbers[0];
    assert form.texts[2..2 + n] == r.slashingSignatures;
    assert form.texts[2 + n..] == r.slashUnbondingSignatures;
  }

  // ---------- the codec ----------

  const CODEC := RS.Codec(
    r => Write(RequestForm(r)),
    b => var form :- Read(b); RequestOf(form),
    r => Write(ResponseForm(r)),
    b => var form :- Read(b); ResponseOf(form),
    (_, _) => [0])

  lemma CodecIsLawful()
    ensures CODEC.Lawful()
  {
    forall r ensures CODEC.unmarshalRequest(CODEC.marshalRequest(r)) == Some(r) {
      FormTrip(RequestForm(r));
      RequestTrip(r);
    }
    forall r ensures CODEC.unmarshalResponse(CODEC.marshalResponse(r)) == Some(r) {
      FormTrip(ResponseForm(r));
      ResponseTrip(r);
    }
  }
}
