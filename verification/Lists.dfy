/** Sequence vocabulary used by several modules. */
module Lists {
  import opened Wrappers

  /** The sequence without its element at `index`; unchanged when the index is out of bounds. */
  function RemoveAt<T>(s: seq<T>, index: int): seq<T> {
    if 0 <= index < |s| then s[..index] + s[index + 1..] else s
  }

  /** `at` places the elements of `a`, in order, at positions of `b` that hold the same elements. */
  ghost predicate Places<T>(a: seq<T>, b: seq<T>, at: seq<nat>) {
    && |at| == |a|
    && (forall i | 0 <= i < |at| :: at[i] < |b| && a[i] == b[at[i]])
    && (forall i, j | 0 <= i < j < |at| :: at[i] < at[j])
  }

  /** `a` can be obtained from `b` by deleting elements, keeping the order of the rest. */
  ghost predicate Subsequence<T>(a: seq<T>, b: seq<T>) {
    exists at :: Places(a, b, at)
  }

  lemma SubsequenceReflexive<T>(a: seq<T>)
    ensures Subsequence(a, a)
  {
    assert Places(a, a, seq(|a|, i => i));
  }

  lemma SubsequenceTransitive<T>(a: seq<T>, b: seq<T>, c: seq<T>)
    requires Subsequence(a, b) && Subsequence(b, c)
    ensures Subsequence(a, c)
  {
    var f :| Places(a, b, f);
    var g :| Places(b, c, g);
    assert Places(a, c, seq(|a|, i requires 0 <= i < |a| => g[f[i]]));
  }

  lemma RemoveAtIsSubsequence<T>(s: seq<T>, index: int)
    ensures Subsequence(RemoveAt(s, index), s)
  {
    if 0 <= index < |s| {
      assert Places(RemoveAt(s, index), s, seq(|s| - 1, i => if i < index then i else i + 1));
    } else {
      SubsequenceReflexive(s);
    }
  }

  /** Keeping or deleting one more element in front. */
  lemma SubsequenceCons<T>(a: seq<T>, b: seq<T>, x: T)
    requires Subsequence(a, b)
    ensures Subsequence([x] + a, [x] + b) && Subsequence(a, [x] + b)
  {
    var f :| Places(a, b, f);
    assert Places(a, [x] + b, seq(|f|, i requires 0 <= i < |f| => f[i] + 1));
    assert Places([x] + a, [x] + b, seq(|f| + 1, i requires 0 <= i <= |f| => if i == 0 then 0 else f[i - 1] + 1));
  }

  lemma RemoveAtConserves<T>(s: seq<T>, index: nat)
    requires index < |s|
    ensures multiset(s) == multiset(RemoveAt(s, index)) + multiset{s[index]}
  {
    assert s == s[..index] + [s[index]] + s[index + 1..];
  }

  lemma ConcatSnoc<T>(a: seq<T>, x: T, b: seq<T>)
    ensures a + ([x] + b) == a + [x] + b
  {
  }

  ghost predicate Distinct<T>(s: seq<T>) {
    forall i, j | 0 <= i < j < |s| :: s[i] != s[j]
  }

  function Map<A, B>(f: A -> B, s: seq<A>): (r: seq<B>)
    ensures |r| == |s|
    ensures forall i | 0 <= i < |s| :: r[i] == f(s[i])
  {
    seq(|s|, i requires 0 <= i < |s| => f(s[i]))
  }

  /** Applies a partial function to every element; fails as soon as one element fails. */
  function Traverse<A, B>(f: A -> Option<B>, s: seq<A>): (r: Option<seq<B>>)
    ensures r.Some? <==> forall i | 0 <= i < |s| :: f(s[i]).Some?
    ensures r.Some? ==> |r.value| == |s| && forall i | 0 <= i < |s| :: f(s[i]) == Some(r.value[i])
  {
    if s == [] then Some([])
    else
      var head :- f(s[0]);
      var tail :- Traverse(f, s[1..]);
      Some([head] + tail)
  }

  lemma TraverseIs<A, B>(f: A -> Option<B>, s: seq<A>, r: seq<B>)
    ensures Traverse(f, s) == Some(r) <==> |r| == |s| && forall i | 0 <= i < |s| :: f(s[i]) == Some(r[i])
  {
    if |r| == |s| && forall i | 0 <= i < |s| :: f(s[i]) == Some(r[i]) {
      assert Traverse(f, s).value == r;
    }
  }

  function Flatten<T>(parts: seq<seq<T>>): seq<T> {
    if parts == [] then [] else parts[0] + Flatten(parts[1..])
  }

  /** `count` copies of `s`, one after the other. */
  function Repeat<T>(s: seq<T>, count: nat): seq<T> {
    if count == 0 then [] else Repeat(s, count - 1) + s
  }

  // ---------- one step after the other ----------

  /** `states[j]` is the state before item `j`, and the next one is what step `k + j` makes of it. */
  ghost predicate Chained<S, T>(step: (nat, S, T) -> S, k: nat, items: seq<T>, states: seq<S>) {
    && |states| == |items| + 1
    && forall j: nat | j < |items| :: states[j + 1] == step(k + j, states[j], items[j])
  }

  lemma ChainedMore<S, T>(step: (nat, S, T) -> S, k: nat, s: S, items: seq<T>, rest: seq<S>)
    requires items != [] && Chained(step, k + 1, items[1..], rest) && rest[0] == step(k, s, items[0])
    ensures Chained(step, k, items, [s] + rest)
  {
    var states := [s] + rest;
    forall j: nat | j < |items| ensures states[j + 1] == step(k + j, states[j], items[j]) {
      if j > 0 {
        var i := j - 1;
        assert rest[i + 1] == step(k + 1 + i, rest[i], items[1..][i]);
        assert k + 1 + i == k + j && states[j] == rest[i] && states[j + 1] == rest[i + 1];
      }
    }
  }

  /** What every step keeps holds in the end. */
  lemma {:induction false} ChainedKeeps<S(!new), T>(
    step: (nat, S, T) -> S, k: nat, items: seq<T>, states: seq<S>, inv: S -> bool, n: nat)
    requires Chained(step, k, items, states) && inv(states[0]) && n <= |items|
    requires forall j: nat, s: S | j < |items| && inv(s) :: inv(step(k + j, s, items[j]))
    ensures inv(states[n])
  {
    if n > 0 {
      ChainedKeeps(step, k, items, states, inv, n - 1);
      var j: nat := n - 1;
      assert states[j + 1] == step(k + j, states[j], items[j]);
    }
  }
}
