/** Hexadecimal text, as Go's encoding/hex writes and reads it. */
module Hex {
  import opened Wrappers

  type Byte = b: nat | b < 256
  type Bytes = seq<Byte>

  function NibbleText(n: nat): (c: char)
    requires n < 16
    ensures NibbleValue(c) == Some(n)
  {
    "0123456789abcdef"[n]
  }

  /** Both letter cases are read. */
  function NibbleValue(c: char): (r: Option<nat>)
    ensures r.Some? ==> r.value < 16
  {
    if '0' <= c <= '9' then Some(c as int - '0' as int)
    else if 'a' <= c <= 'f' then Some(c as int - 'a' as int + 10)
    else if 'A' <= c <= 'F' then Some(c as int - 'A' as int + 10)
    else None
  }

  function EncodeHex(bytes: Bytes): (s: string)
    ensures |s| == 2 * |bytes|
  {
    if bytes == [] then [] else [NibbleText(bytes[0] / 16), NibbleText(bytes[0] % 16)] + EncodeHex(bytes[1..])
  }

  function DecodeHex(s: string): Option<Bytes> {
    if s == [] then Some([])
    else if |s| == 1 then None
    else
      var high :- NibbleValue(s[0]);
      var low :- NibbleValue(s[1]);
      var rest :- DecodeHex(s[2..]);
      Some([16 * high + low] + rest)
  }

  /** Reading undoes writing. */
  lemma {:induction false} DecodeUndoesEncode(bytes: Bytes)
    ensures DecodeHex(EncodeHex(bytes)) == Some(bytes)
  {
    if bytes != [] {
      DecodeUndoesEncode(bytes[1..]);
      assert EncodeHex(bytes)[2..] == EncodeHex(bytes[1..]);
      assert [bytes[0]] + bytes[1..] == bytes;
    }
  }

  /** Byte `i` is written as two lower-case digits at position `2 * i`, the high one first. */
  lemma {:induction false} EncodedAt(bytes: Bytes, i: nat)
    requires i < |bytes|
    ensures var s := EncodeHex(bytes);
            && s[2 * i] == "0123456789abcdef"[bytes[i] / 16]
            && s[2 * i + 1] == "0123456789abcdef"[bytes[i] % 16]
  {
    var first, rest := [NibbleText(bytes[0] / 16), NibbleText(bytes[0] % 16)], EncodeHex(bytes[1..]);
    if i > 0 {
      EncodedAt(bytes[1..], i - 1);
      assert (first + rest)[2 * i] == rest[2 * (i - 1)] && (first + rest)[2 * i + 1] == rest[2 * (i - 1) + 1];
      assert bytes[1..][i - 1] == bytes[i];
    }
  }

  lemma EncodeIsInjective(a: Bytes, b: Bytes)
    requires EncodeHex(a) == EncodeHex(b)
    ensures a == b
  {
    DecodeUndoesEncode(a);
    DecodeUndoesEncode(b);
  }
}
