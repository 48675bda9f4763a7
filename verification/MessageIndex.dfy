/** How the failing message of a batch is read out of the chain's error text. */
module MessageIndex {
  import opened Wrappers
  import opened Text

  const PREFIX := "message index:"
  const MARKER := "message index: "
  const MAX_INT: int := 0x7fff_ffff_ffff_ffff

  function SkipSpaces(s: string, i: nat): (j: nat)
    requires i <= |s|
    ensures i <= j <= |s|
    ensures forall k | i <= k < j :: IsSpace(s[k])
    ensures j < |s| ==> !IsSpace(s[j])
    decreases |s| - i
  {
    if i < |s| && IsSpace(s[i]) then SkipSpaces(s, i + 1) else i
  }

  function SkipDigits(s: string, i: nat): (j: nat)
    requires i <= |s|
    ensures i <= j <= |s|
    ensures forall k | i <= k < j :: IsDigit(s[k])
    ensures j < |s| ==> !IsDigit(s[j])
    decreases |s| - i
  {
    if i < |s| && IsDigit(s[i]) then SkipDigits(s, i + 1) else i
  }

  /** The pattern `message index:\s*(\d+)` matches at `p`; its digits are `s[from..to]`, taken greedily. */
  ghost predicate IsMatch(s: string, p: nat, from: nat, to: nat) {
    && p + 14 <= from < to <= |s|
    && HasAt(s, p, "message index:")
    && (forall k | p + 14 <= k < from :: s[k] in [' ', '\t', '\n', '\r', '\U{000c}'])
    && (forall k | from <= k < to :: '0' <= s[k] <= '9')
    && (to < |s| ==> !('0' <= s[to] <= '9'))
  }

  predicate MatchesAt(s: string, p: nat) {
    HasAt(s, p, PREFIX) && var from := SkipSpaces(s, p + |PREFIX|); from < |s| && IsDigit(s[from])
  }

  function FirstMatch(s: string, p: nat): (r: Option<nat>)
    requires p <= |s|
    ensures r.Some? ==> p <= r.value <= |s| && MatchesAt(s, r.value)
    ensures forall q | p <= q <= |s| && (r.Some? ==> q < r.value) :: !MatchesAt(s, q)
    decreases |s| - p
  {
    if MatchesAt(s, p) then Some(p)
    else if p == |s| then None
    else FirstMatch(s, p + 1)
  }

  function MatchedDigits(s: string, p: nat): (digits: string)
    requires MatchesAt(s, p)
    ensures AllDigits(digits) && digits != []
  {
    var from := SkipSpaces(s, p + |PREFIX|);
    s[from..SkipDigits(s, from)]
  }

  /** The leftmost match decides; a number that does not fit a Go int yields nothing, even if a later match would
      fit. */
  function FailedMessageIndex(text: string): Option<nat> {
    var p :- FirstMatch(text, 0);
    var index := Value(MatchedDigits(text, p));
    if index <= MAX_INT then Some(index) else None
  }

  lemma MatchIsUnique(s: string, p: nat, from: nat, to: nat)
    requires IsMatch(s, p, from, to)
    ensures MatchesAt(s, p) && MatchedDigits(s, p) == s[from..to]
  {
    var f := SkipSpaces(s, p + |PREFIX|);
    assert IsDigit(s[from]) && !IsSpace(s[from]);
    assert f == from;
    assert SkipDigits(s, from) == to;
  }

  /** No match starts before `p`. */
  ghost predicate Leftmost(text: string, p: nat) {
    forall q: nat, f: nat, t: nat | IsMatch(text, q, f, t) :: p <= q
  }

  lemma FirstMatchIsLeftmost(text: string)
    requires FirstMatch(text, 0).Some?
    ensures var p := FirstMatch(text, 0).value;
            var from := SkipSpaces(text, p + |PREFIX|);
            && IsMatch(text, p, from, SkipDigits(text, from))
            && Leftmost(text, p)
  {
    forall q: nat, f: nat, t: nat | IsMatch(text, q, f, t) ensures FirstMatch(text, 0).value <= q {
      MatchIsUnique(text, q, f, t);
    }
  }

  lemma LeftmostIsFirstMatch(text: string, p: nat, from: nat, to: nat)
    requires IsMatch(text, p, from, to) && Leftmost(text, p)
    ensures FirstMatch(text, 0) == Some(p) && MatchedDigits(text, p) == text[from..to]
  {
    MatchIsUnique(text, p, from, to);
    FirstMatchIsLeftmost(text);
  }

  /** The index is found exactly when some match that no other match precedes denotes a number fitting an int. */
  lemma FailedIndexIsLeftmostMatch(text: string, index: nat)
    ensures FailedMessageIndex(text) == Some(index) <==>
            exists p: nat, from: nat, to: nat ::
              && IsMatch(text, p, from, to) && Leftmost(text, p)
              && index == Value(text[from..to]) <= 0x7fff_ffff_ffff_ffff
  {
    if FailedMessageIndex(text) == Some(index) {
      FirstMatchIsLeftmost(text);
      var p := FirstMatch(text, 0).value;
      var from := SkipSpaces(text, p + |PREFIX|);
      assert IsMatch(text, p, from, SkipDigits(text, from)) && Leftmost(text, p);
    }
    if p: nat, from: nat, to: nat :|
      IsMatch(text, p, from, to) && Leftmost(text, p) && index == Value(text[from..to]) <= MAX_INT
    {
      LeftmostIsFirstMatch(text, p, from, to);
    }
  }

  /** The text the chain writes: anything, the marker, the index in decimal, then no further digit. */
  function Rendered(before: string, index: nat, after: string): string {
    before + MARKER + Digits(index) + after
  }

  lemma RenderedMatches(before: string, index: nat, after: string)
    requires after != [] ==> !IsDigit(after[0])
    ensures var text, p, from := Rendered(before, index, after), |before|, |before| + |MARKER|;
            var to := from + |Digits(index)|;
            HasAt(text, p, MARKER) && IsMatch(text, p, from, to) && text[from..to] == Digits(index)
  {
    var text, p, from := Rendered(before, index, after), |before|, |before| + |MARKER|;
    var to := from + |Digits(index)|;
    assert text[p..from] == MARKER && text[from..to] == Digits(index) && text[to..] == after;
    assert text[p..p + |PREFIX|] == text[p..from][..|PREFIX|];
    assert MARKER[..|PREFIX|] == PREFIX && text[p + |PREFIX|] == text[p..from][|PREFIX|] == ' ';
    forall k | from <= k < to ensures IsDigit(text[k]) {
      assert text[k] == text[from..to][k - from];
    }
    assert to < |text| ==> text[to] == text[to..][0];
  }

  /** A rendered index is recovered exactly, whatever surrounds it, unless an earlier match hides it. */
  lemma RenderedIndexIsRecovered(before: string, index: nat, after: string)
    requires index <= MAX_INT
    requires after != [] ==> !IsDigit(after[0])
    requires forall q: nat | q < |before| :: !MatchesAt(Rendered(before, index, after), q)
    ensures Contains(Rendered(before, index, after), MARKER)
    ensures FailedMessageIndex(Rendered(before, index, after)) == Some(index)
  {
    var text, from := Rendered(before, index, after), |before| + |MARKER|;
    RenderedMatches(before, index, after);
    MatchIsUnique(text, |before|, from, from + |Digits(index)|);
    assert FirstMatch(text, 0) == Some(|before|);
    ValueOfDigits(index);
  }
}
