/** Text primitives of the Go standard library that the model needs. */
module Text {

  predicate HasAt(s: string, i: nat, pattern: string) {
    i + |pattern| <= |s| && s[i..i + |pattern|] == pattern
  }

  predicate Contains(s: string, pattern: string) {
    exists i | 0 <= i <= |s| :: HasAt(s, i, pattern)
  }

  predicate IsDigit(c: char) { '0' <= c <= '9' }

  /** The character class `\s` of Go's regular expressions. */
  predicate IsSpace(c: char) { c == ' ' || c == '\t' || c == '\n' || c == '\r' || c == '\U{000c}' }

  predicate AllDigits(s: string) { forall i | 0 <= i < |s| :: IsDigit(s[i]) }

  function DigitChar(d: nat): (c: char)
    requires d < 10
    ensures IsDigit(c) && DigitValue(c) == d
  {
    "0123456789"[d]
  }

  function DigitValue(c: char): (d: nat)
    requires IsDigit(c)
    ensures d < 10
  {
    c as int - '0' as int
  }

  /** Decimal rendering without leading zeros. */
  function Digits(n: nat): (s: string)
    ensures s != [] && AllDigits(s)
  {
    if n < 10 then [DigitChar(n)] else Digits(n / 10) + [DigitChar(n % 10)]
  }

  /** The number a digit string denotes in base ten. */
  function Value(s: string): nat
    requires AllDigits(s)
  {
    if s == [] then 0 else 10 * Value(s[..|s| - 1]) + DigitValue(s[|s| - 1])
  }

  lemma {:induction false} ValueOfDigits(n: nat)
    ensures Value(Digits(n)) == n
  {
    if n >= 10 {
      ValueOfDigits(n / 10);
      assert Digits(n)[..|Digits(n)| - 1] == Digits(n / 10);
    }
  }

  // ---------- splitting and joining ----------

  /** The parts with `more` written behind the last one. */
  function Lengthen(parts: seq<string>, more: string): (r: seq<string>)
    requires parts != []
    ensures r != []
  {
    parts[..|parts| - 1] + [parts[|parts| - 1] + more]
  }

  /** One character more: a separator starts a part, any other character lengthens the last one. */
  function Add(parts: seq<string>, c: char, sep: char): (r: seq<string>)
    requires parts != []
    ensures r != []
  {
    if c == sep then parts + [""] else Lengthen(parts, [c])
  }

  function Feed(parts: seq<string>, s: string, sep: char): (r: seq<string>)
    requires parts != []
    ensures r != []
    decreases |s|
  {
    if s == "" then parts else Feed(Add(parts, s[0], sep), s[1..], sep)
  }

  /** Go's strings.Split on one character: always at least one part. */
  function Split(s: string, sep: char): (parts: seq<string>)
    ensures parts != []
  {
    Feed([""], s, sep)
  }

  function Join(parts: seq<string>, sep: char): string
    requires parts != []
  {
    if |parts| == 1 then parts[0] else Join(parts[..|parts| - 1], sep) + [sep] + parts[|parts| - 1]
  }

  ghost predicate Free(parts: seq<string>, sep: char) {
    forall i | 0 <= i < |parts| :: sep !in parts[i]
  }

  lemma LengthenTwice(parts: seq<string>, a: string, b: string)
    requires parts != []
    ensures Lengthen(Lengthen(parts, a), b) == Lengthen(parts, a + b)
  {
    var last := |parts| - 1;
    var once := Lengthen(parts, a);
    assert once[..last] == parts[..last];
    assert once[last] + b == parts[last] + (a + b);
  }

  lemma JoinLengthened(parts: seq<string>, sep: char, more: string)
    requires parts != []
    ensures Join(Lengthen(parts, more), sep) == Join(parts, sep) + more
  {
    var last := |parts| - 1;
    assert Lengthen(parts, more)[..last] == parts[..last];
  }

  lemma JoinOneMore(parts: seq<string>, sep: char, part: string)
    requires parts != []
    ensures Join(parts + [part], sep) == Join(parts, sep) + [sep] + part
  {
    assert (parts + [part])[..|parts|] == parts;
  }

  lemma JoinAdded(parts: seq<string>, c: char, sep: char)
    requires parts != [] && Free(parts, sep)
    ensures Join(Add(parts, c, sep), sep) == Join(parts, sep) + [c] && Free(Add(parts, c, sep), sep)
  {
    if c == sep {
      JoinOneMore(parts, sep, "");
    } else {
      JoinLengthened(parts, sep, [c]);
    }
  }

  lemma {:induction false} JoinFed(parts: seq<string>, s: string, sep: char)
    requires parts != [] && Free(parts, sep)
    ensures Join(Feed(parts, s, sep), sep) == Join(parts, sep) + s && Free(Feed(parts, s, sep), sep)
    decreases |s|
  {
    if s == "" {
      assert Join(parts, sep) + s == Join(parts, sep);
    } else {
      JoinAdded(parts, s[0], sep);
      JoinFed(Add(parts, s[0], sep), s[1..], sep);
      assert Join(parts, sep) + [s[0]] + s[1..] == Join(parts, sep) + s;
    }
  }

  /** Splitting cuts at every separator and loses nothing. */
  lemma JoinOfSplit(s: string, sep: char)
    ensures Join(Split(s, sep), sep) == s && Free(Split(s, sep), sep)
  {
    JoinFed([""], s, sep);
    assert Join([""], sep) + s == s;
  }

  lemma {:induction false} FeedAppend(parts: seq<string>, a: string, b: string, sep: char)
    requires parts != []
    ensures Feed(parts, a + b, sep) == Feed(Feed(parts, a, sep), b, sep)
    decreases |a|
  {
    if a == "" {
      assert a + b == b;
    } else {
      assert (a + b)[1..] == a[1..] + b;
      FeedAppend(Add(parts, a[0], sep), a[1..], b, sep);
    }
  }

  /** Text without a separator only lengthens the last part. */
  lemma {:induction false} FeedWithout(parts: seq<string>, more: string, sep: char)
    requires parts != [] && sep !in more
    ensures Feed(parts, more, sep) == Lengthen(parts, more)
    decreases |more|
  {
    if more == "" {
      assert parts[|parts| - 1] + more == parts[|parts| - 1];
    } else {
      FeedWithout(Lengthen(parts, [more[0]]), more[1..], sep);
      LengthenTwice(parts, [more[0]], more[1..]);
      assert [more[0]] + more[1..] == more;
    }
  }

  /** A separator starts a new part. */
  lemma SplitAfter(s: string, more: string, sep: char)
    requires sep !in more
    ensures Split(s + [sep] + more, sep) == Split(s, sep) + [more]
  {
    var parts := Split(s, sep);
    FeedAppend([""], s + [sep], more, sep);
    FeedAppend([""], s, [sep], sep);
    assert Feed(parts, [sep], sep) == parts + [""];
    FeedWithout(parts + [""], more, sep);
    assert "" + more == more;
  }

  /** Splitting undoes joining. */
  lemma {:induction false} SplitOfJoin(parts: seq<string>, sep: char)
    requires parts != [] && Free(parts, sep)
    ensures Split(Join(parts, sep), sep) == parts
    decreases |parts|
  {
    var n := |parts| - 1;
    if n == 0 {
      FeedWithout([""], parts[0], sep);
      assert "" + parts[0] == parts[0];
    } else {
      SplitOfJoin(parts[..n], sep);
      SplitAfter(Join(parts[..n], sep), parts[n], sep);
      assert parts[..n] + [parts[n]] == parts;
    }
  }
}
