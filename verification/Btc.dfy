/** Bitcoin values, and the library calls the program makes on them. The calls are parameters of the model; `Lawful`
    states the facts about them that the proofs use. */
module Btc {
  import opened Wrappers
  import opened Hex

  /** A transaction or block hash, by identity. */
  type Hash = nat

  /** A secp256k1 secret; zero is what a wiped key holds. */
  type PrivKey = nat

  /** A secp256k1 point: its x coordinate and the parity of y. */
  datatype PubKey = PubKey(x: nat, odd: bool)

  /** The x-only form of BIP 340, which is what schnorr.SerializePubKey writes. */
  function XOnly(pk: PubKey): nat { pk.x }

  datatype TxIn = TxIn(prevHash: Hash, prevIndex: nat)
  /** A Go int64. */
  type Int64 = x: int | -0x8000_0000_0000_0000 <= x <= 0x7fff_ffff_ffff_ffff

  datatype TxOut = TxOut(value: Int64, script: Bytes)
  datatype Tx = Tx(ins: seq<TxIn>, outs: seq<TxOut>, rest: Bytes)

  /** The encryption key of a finality provider and a Schnorr signature, by identity. */
  datatype EncKey = EncKey(point: nat)
  datatype Signature = Signature(r: nat, s: nat)

  datatype Library = Library(
    serializeTx: Tx -> Option<Bytes>,
    deserializeTx: Bytes -> Option<Tx>,
    serializeTxOut: TxOut -> Option<Bytes>,
    deserializeTxOut: Bytes -> Option<TxOut>,
    encKeyBytes: EncKey -> Bytes,
    encKeyFromBytes: Bytes -> Option<EncKey>,
    sigBytes: Signature -> Bytes,
    sigFromBytes: Bytes -> Option<Signature>,
    // spending tx, funding tx, funding output, script, secret, encryption key: the marshalled adaptor signature
    encSign: (Tx, Tx, nat, Bytes, PrivKey, EncKey) -> Option<Bytes>,
    // spending tx, funding tx, funding output, script, secret
    sign: (Tx, Tx, nat, Bytes, PrivKey) -> Option<Signature>,
    // spending tx, output spent by input 0, output spent by input 1, script, secret
    signTwoInputs: (Tx, TxOut, TxOut, Bytes, PrivKey) -> Option<Signature>)
  {
    /** Decoders invert encoders, a signature has bytes, and a zero secret signs nothing. */
    ghost predicate Lawful() {
      && (forall tx :: serializeTx(tx).Some? ==> deserializeTx(serializeTx(tx).value) == Some(tx))
      && (forall out :: serializeTxOut(out).Some? ==> deserializeTxOut(serializeTxOut(out).value) == Some(out))
      && (forall k :: encKeyFromBytes(encKeyBytes(k)) == Some(k))
      && (forall sig :: sigBytes(sig) != [] && sigFromBytes(sigBytes(sig)) == Some(sig))
      && (forall a, b, i, s, k :: encSign(a, b, i, s, 0, k) == None)
      && (forall a, b, i, s :: sign(a, b, i, s, 0) == None)
      && (forall a, p, q, s :: signTwoInputs(a, p, q, s, 0) == None)
    }

    function TxToHex(tx: Tx): Option<string> {
      var bytes :- serializeTx(tx);
      Some(EncodeHex(bytes))
    }

    function TxFromHex(text: string): Option<Tx> {
      var bytes :- DecodeHex(text);
      deserializeTx(bytes)
    }

    function TxOutToHex(out: TxOut): Option<string> {
      var bytes :- serializeTxOut(out);
      Some(EncodeHex(bytes))
    }

    function TxOutFromHex(text: string): Option<TxOut> {
      var bytes :- DecodeHex(text);
      deserializeTxOut(bytes)
    }

    function EncKeyFromHex(text: string): Option<EncKey> {
      var bytes :- DecodeHex(text);
      encKeyFromBytes(bytes)
    }

    function SigFromHex(text: string): Option<Signature> {
      var bytes :- DecodeHex(text);
      sigFromBytes(bytes)
    }

    lemma TxHexRoundTrip(tx: Tx)
      requires Lawful() && TxToHex(tx).Some?
      ensures TxFromHex(TxToHex(tx).value) == Some(tx)
    {
      DecodeUndoesEncode(serializeTx(tx).value);
    }

    lemma TxOutHexRoundTrip(out: TxOut)
      requires Lawful() && TxOutToHex(out).Some?
      ensures TxOutFromHex(TxOutToHex(out).value) == Some(out)
    {
      DecodeUndoesEncode(serializeTxOut(out).value);
    }

    lemma EncKeyHexRoundTrip(k: EncKey)
      requires Lawful()
      ensures EncKeyFromHex(EncodeHex(encKeyBytes(k))) == Some(k)
    {
      DecodeUndoesEncode(encKeyBytes(k));
    }

    lemma SigHexRoundTrip(sig: Signature)
      requires Lawful()
      ensures EncodeHex(sigBytes(sig)) != [] && SigFromHex(EncodeHex(sigBytes(sig))) == Some(sig)
    {
      DecodeUndoesEncode(sigBytes(sig));
    }
  }
}
