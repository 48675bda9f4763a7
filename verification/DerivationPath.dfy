/** Derivation paths of the form 84h/1h/0h/0/0. */
module DerivationPath {
  import opened Wrappers
  import opened Text

  const HARDENED_KEY_START: nat := 0x8000_0000
  const TWO_32: nat := 0x1_0000_0000
  const DEPTH: nat := 5

  /** Go's strconv.ParseUint in base 10 with 32 bits. */
  function ParseUint32(s: string): (r: Option<nat>)
    ensures r.Some? ==> r.value < TWO_32
  {
    if s != "" && AllDigits(s) && Value(s) < TWO_32 then Some(Value(s)) else None
  }

  function ParseHardened(elem: string): Option<nat> {
    if |elem| < 2 then None
    else
      var number := if elem[|elem| - 1] == 'h' then elem[..|elem| - 1] else elem;
      if number == elem then None
      else
        var num :- ParseUint32(number);
        if num >= HARDENED_KEY_START then None else Some((HARDENED_KEY_START + num) % TWO_32)
  }

  function ParseNormal(elem: string): Option<nat> {
    if |elem| == 0 then None else ParseUint32(elem)
  }

  function ParsePath(path: string): Option<seq<nat>> {
    ParseElems(Split(path, '/'))
  }

  function ParseElems(elems: seq<string>): Option<seq<nat>> {
    if |elems| != DEPTH then None
    else
      var h1 :- ParseHardened(elems[0]);
      var h2 :- ParseHardened(elems[1]);
      var h3 :- ParseHardened(elems[2]);
      var n4 :- ParseNormal(elems[3]);
      var n5 :- ParseNormal(elems[4]);
      Some([h1, h2, h3, n4, n5])
  }

  // ---------- what is accepted ----------

  /** A path element: a decimal number, followed by `h` when hardened. */
  ghost predicate Denotes(elem: string, hardened: bool, value: nat) {
    exists digits: string ::
      && digits != "" && AllDigits(digits)
      && (if hardened
          then elem == digits + "h" && Value(digits) < 0x8000_0000 && value == 0x8000_0000 + Value(digits)
          else elem == digits && Value(digits) < 0x1_0000_0000 && value == Value(digits))
  }

  lemma HardenedIff(elem: string, value: nat)
    ensures ParseHardened(elem) == Some(value) <==> Denotes(elem, true, value)
  {
    if ParseHardened(elem) == Some(value) {
      var digits := elem[..|elem| - 1];
      assert elem == digits + "h";
      assert Value(digits) < HARDENED_KEY_START;
    }
    if Denotes(elem, true, value) {
      var digits: string :| digits != "" && AllDigits(digits) && elem == digits + "h"
                            && Value(digits) < HARDENED_KEY_START && value == HARDENED_KEY_START + Value(digits);
      assert elem[..|elem| - 1] == digits;
    }
  }

  lemma NormalIff(elem: string, value: nat)
    ensures ParseNormal(elem) == Some(value) <==> Denotes(elem, false, value)
  {
  }

  /** The elements of a path, one per value: three hardened, then two normal. */
  ghost predicate Spells(elems: seq<string>, values: seq<nat>) {
    |elems| == |values| == 5 && forall i | 0 <= i < 5 :: Denotes(elems[i], i < 3, values[i])
  }

  lemma SpelledIsFree(elems: seq<string>, values: seq<nat>)
    requires Spells(elems, values)
    ensures Free(elems, '/')
  {
    forall i | 0 <= i < |elems| ensures '/' !in elems[i] {
      assert Denotes(elems[i], i < 3, values[i]);
    }
  }

  /** Five elements with a slash between any two. */
  function Slashed(elems: seq<string>): string
    requires |elems| == 5
  {
    elems[0] + "/" + elems[1] + "/" + elems[2] + "/" + elems[3] + "/" + elems[4]
  }

  lemma JoinIsSlashed(elems: seq<string>)
    requires |elems| == 5
    ensures Join(elems, '/') == Slashed(elems)
  {
    assert elems[..4][..3] == elems[..3] && elems[..3][..2] == elems[..2] && elems[..2][..1] == elems[..1];
    assert Join(elems[..1], '/') == elems[0];
    assert Join(elems[..2], '/') == elems[0] + "/" + elems[1];
    assert Join(elems[..3], '/') == elems[0] + "/" + elems[1] + "/" + elems[2];
    assert Join(elems[..4], '/') == elems[0] + "/" + elems[1] + "/" + elems[2] + "/" + elems[3];
  }

  /** Exactly which texts are accepted, and as what. */
  lemma ParsePathIff(path: string, values: seq<nat>)
    ensures ParsePath(path) == Some(values) <==> exists elems :: Spells(elems, values) && path == Slashed(elems)
  {
    ParsePathJoins(path, values);
    if elems :| Spells(elems, values) && path == Join(elems, '/') {
      JoinIsSlashed(elems);
    }
    if elems :| Spells(elems, values) && path == Slashed(elems) {
      JoinIsSlashed(elems);
    }
  }

  lemma ParsePathJoins(path: string, values: seq<nat>)
    ensures ParsePath(path) == Some(values) <==> exists elems :: Spells(elems, values) && path == Join(elems, '/')
  {
    var elems := Split(path, '/');
    JoinOfSplit(path, '/');
    ElementsIff(elems, values);
    if Spells(elems, values) {
      assert path == Join(elems, '/');
    }
    if parts :| Spells(parts, values) && path == Join(parts, '/') {
      SpelledIsFree(parts, values);
      SplitOfJoin(parts, '/');
      ElementsIff(parts, values);
    }
  }

  lemma ElementsIff(elems: seq<string>, values: seq<nat>)
    ensures ParseElems(elems) == Some(values) <==> Spells(elems, values)
  {
    if |elems| == |values| == DEPTH {
      HardenedIff(elems[0], values[0]);
      HardenedIff(elems[1], values[1]);
      HardenedIff(elems[2], values[2]);
      NormalIff(elems[3], values[3]);
      NormalIff(elems[4], values[4]);
      assert values == [values[0], values[1], values[2], values[3], values[4]];
      EachDenotes(elems, values);
    }
  }

  lemma EachDenotes(elems: seq<string>, values: seq<nat>)
    requires |elems| == |values| == DEPTH
    ensures Spells(elems, values) <==>
            && Denotes(elems[0], true, values[0]) && Denotes(elems[1], true, values[1])
            && Denotes(elems[2], true, values[2])
            && Denotes(elems[3], false, values[3]) && Denotes(elems[4], false, values[4])
  {
  }

  /** Indices a path can carry, in the ranges of BIP 32. */
  ghost predicate InRange(values: seq<nat>) {
    |values| == 5 && forall i | 0 <= i < 5 ::
      if i < 3 then 0x8000_0000 <= values[i] < 0x1_0000_0000 else values[i] < 0x1_0000_0000
  }

  function PrintElem(value: nat, hardened: bool): string
    requires hardened ==> value >= HARDENED_KEY_START
  {
    if hardened then Digits(value - HARDENED_KEY_START) + "h" else Digits(value)
  }

  function PrintPath(values: seq<nat>): string
    requires InRange(values)
  {
    Join(PrintElems(values), '/')
  }

  function PrintElems(values: seq<nat>): (elems: seq<string>)
    requires InRange(values)
    ensures |elems| == DEPTH && forall i | 0 <= i < DEPTH :: elems[i] == PrintElem(values[i], i < 3)
  {
    [PrintElem(values[0], true), PrintElem(values[1], true), PrintElem(values[2], true),
     PrintElem(values[3], false), PrintElem(values[4], false)]
  }

  lemma PrintDenotes(value: nat, hardened: bool)
    requires if hardened then HARDENED_KEY_START <= value < TWO_32 else value < TWO_32
    ensures Denotes(PrintElem(value, hardened), hardened, value)
  {
    var number := if hardened then value - HARDENED_KEY_START else value;
    ValueOfDigits(number);
    assert Digits(number) != "" && AllDigits(Digits(number));
  }

  /** Every accepted path gives indices in range, and printing and parsing are inverse on them. */
  lemma PathRoundTrip(values: seq<nat>)
    ensures InRange(values) <==> exists path :: ParsePath(path) == Some(values)
    ensures InRange(values) ==> ParsePath(PrintPath(values)) == Some(values)
  {
    if InRange(values) {
      var elems := PrintElems(values);
      forall i | 0 <= i < DEPTH ensures Denotes(elems[i], i < 3, values[i]) {
        PrintDenotes(values[i], i < 3);
      }
      assert Spells(elems, values);
      ParsePathJoins(PrintPath(values), values);
    }
    if path :| ParsePath(path) == Some(values) {
      ParsePathJoins(path, values);
      var elems :| Spells(elems, values) && path == Join(elems, '/');
      forall i | 0 <= i < DEPTH
        ensures if i < 3 then HARDENED_KEY_START <= values[i] < TWO_32 else values[i] < TWO_32
      {
        assert Denotes(elems[i], i < 3, values[i]);
      }
    }
  }
}
