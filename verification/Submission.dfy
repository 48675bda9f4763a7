/** Signing a batch of delegations and collecting what is submitted. */
module Submission {
  import opened Wrappers
  import opened Btc
  import opened Types
  import opened Covenant
  import PC = ParamsCache

  /** A batch ends in an error before anything is submitted, or in a submission of the collected signatures. */
  datatype AddResult = NoDelegations | ParamsUnavailable | Submit(sigs: seq<CovenantSigs>)

  type Verdict = Result<CovenantSigs, Skip>

  /** The signatures among the verdicts, in order. */
  function Signed(verdicts: seq<Verdict>): seq<CovenantSigs> {
    if verdicts == [] then []
    else
      var last := verdicts[|verdicts| - 1];
      Signed(verdicts[..|verdicts| - 1]) + (if last.Success? then [last.value] else [])
  }

  /** `at` lists, in increasing order, exactly the positions of the signed verdicts, whose signatures are `sigs`. */
  ghost predicate Selects(verdicts: seq<Verdict>, sigs: seq<CovenantSigs>, at: seq<nat>) {
    && |at| == |sigs|
    && (forall k | 0 <= k < |at| :: at[k] < |verdicts| && verdicts[at[k]] == Success(sigs[k]))
    && (forall j, k | 0 <= j < k < |at| :: at[j] < at[k])
    && (forall i | 0 <= i < |verdicts| && verdicts[i].Success? :: i in at)
  }

  /** `sigs` is the order-preserving image of the verdicts: nothing signed is left out, nothing else gets in. */
  ghost predicate IsImage(verdicts: seq<Verdict>, sigs: seq<CovenantSigs>) {
    exists at :: Selects(verdicts, sigs, at)
  }

  lemma {:induction false} SignedIsImage(verdicts: seq<Verdict>)
    ensures IsImage(verdicts, Signed(verdicts))
  {
    if verdicts == [] {
      assert Selects([], [], []);
    } else {
      var n := |verdicts| - 1;
      SignedIsImage(verdicts[..n]);
      ImageOneMore(verdicts[..n], Signed(verdicts[..n]), verdicts[n]);
      assert verdicts[..n] + [verdicts[n]] == verdicts;
    }
  }

  lemma ImageOneMore(verdicts: seq<Verdict>, sigs: seq<CovenantSigs>, v: Verdict)
    requires IsImage(verdicts, sigs)
    ensures IsImage(verdicts + [v], sigs + (if v.Success? then [v.value] else []))
  {
    var at :| Selects(verdicts, sigs, at);
    SelectsOneMore(verdicts, sigs, at, v);
    assert sigs + [] == sigs;
  }

  lemma SelectsOneMore(verdicts: seq<Verdict>, sigs: seq<CovenantSigs>, at: seq<nat>, v: Verdict)
    requires Selects(verdicts, sigs, at)
    ensures if v.Success? then Selects(verdicts + [v], sigs + [v.value], at + [|verdicts|])
            else Selects(verdicts + [v], sigs, at)
  {
    var longer, more := verdicts + [v], at + [|verdicts|];
    assert more[|at|] == |verdicts|;
    assert forall i | 0 <= i < |verdicts| :: longer[i] == verdicts[i];
    assert forall i | i in at :: i in more;
  }

  /** What becomes of one delegation when every lookup is answered by `w`. */
  function VerdictOn(st: Staking, w: World, sign: Signer, pk: PubKey, del: Delegation): Verdict
    requires st.Lawful()
  {
    if del.btcUndelegation.None? then Failure(EmptyUndelegation)
    else
      var p :- w.params(del.paramsVersion).ToResult(ParamsMissing);
      Judge(st, w, sign, pk, del, p)
  }

  /** A delegation is signed exactly when it has an undelegation, its parameters are found, it meets every rule, and the
      signer answers the request the rules describe. */
  lemma SignedIff(st: Staking, w: World, sign: Signer, pk: PubKey, del: Delegation, sigs: CovenantSigs)
    requires st.Lawful()
    ensures VerdictOn(st, w, sign, pk, del) == Success(sigs) <==>
            && w.params(del.paramsVersion).Some?
            && exists req: SigningRequest ::
                 && MeetsRules(st, w, del, w.params(del.paramsVersion).value, req)
                 && sign(req).Some?
                 && sigs == CovenantSigsOf(st, pk, req, sign(req).value)
  {
    if w.params(del.paramsVersion).Some? {
      var p := w.params(del.paramsVersion).value;
      var built := BuildRequest(st, w, del, p);
      if built.Success? {
        BuildRequestIff(st, w, del, p, built.value);
      }
      forall req: SigningRequest | MeetsRules(st, w, del, p, req) ensures built == Success(req) {
        BuildRequestIff(st, w, del, p, req);
      }
    }
  }

  lemma AnsweredIsSigned(
    st: Staking, w: World, sign: Signer, pk: PubKey, del: Delegation, p: Versioned, req: SigningRequest)
    requires st.Lawful() && w.params(del.paramsVersion) == Some(p)
    requires MeetsRules(st, w, del, p, req) && sign(req).Some?
    ensures VerdictOn(st, w, sign, pk, del) == Success(CovenantSigsOf(st, pk, req, sign(req).value))
  {
    BuildRequestIff(st, w, del, p, req);
  }

  /** One delegation's turn in the loop: what can be looked up then, and the signer. */
  datatype Turn = Turn(del: Delegation, world: World, sign: Signer)

  function VerdictIn(st: Staking, pk: PubKey, turn: Turn): Verdict
    requires st.Lawful()
  {
    VerdictOn(st, turn.world, turn.sign, pk, turn.del)
  }

  /** What becomes of each delegation of a batch. */
  function Verdicts(st: Staking, pk: PubKey, turns: seq<Turn>): (r: seq<Verdict>)
    requires st.Lawful()
    ensures |r| == |turns|
    ensures forall i | 0 <= i < |turns| :: r[i] == VerdictIn(st, pk, turns[i])
  {
    seq(|turns|, i requires 0 <= i < |turns| && st.Lawful() => VerdictIn(st, pk, turns[i]))
  }

  /** A delegation whose parameters cannot be looked up fails the whole batch. */
  predicate LacksParams(turn: Turn) {
    turn.del.btcUndelegation.Some? && turn.world.params(turn.del.paramsVersion).None?
  }

  predicate SomeLacksParams(turns: seq<Turn>) {
    exists i | 0 <= i < |turns| :: LacksParams(turns[i])
  }

  /** Emulator.AddCovenantSignatures up to the submission. */
  function AddSignatures(st: Staking, pk: PubKey, turns: seq<Turn>): AddResult
    requires st.Lawful()
  {
    if turns == [] then NoDelegations
    else if SomeLacksParams(turns) then ParamsUnavailable
    else Submit(Signed(Verdicts(st, pk, turns)))
  }

  // ---------- one delegation never affects another ----------

  lemma {:induction false} SignedAppend(a: seq<Verdict>, b: seq<Verdict>)
    ensures Signed(a + b) == Signed(a) + Signed(b)
    decreases |b|
  {
    if b == [] {
      assert a + b == a;
    } else {
      SignedAppend(a, b[..|b| - 1]);
      assert (a + b)[..|a + b| - 1] == a + b[..|b| - 1];
    }
  }

  lemma VerdictsAppend(st: Staking, pk: PubKey, a: seq<Turn>, b: seq<Turn>)
    requires st.Lawful()
    ensures Verdicts(st, pk, a + b) == Verdicts(st, pk, a) + Verdicts(st, pk, b)
  {
  }

  lemma SomeLacksAppend(a: seq<Turn>, b: seq<Turn>)
    ensures SomeLacksParams(a + b) <==> SomeLacksParams(a) || SomeLacksParams(b)
  {
    assert forall i | 0 <= i < |a| :: (a + b)[i] == a[i];
    assert forall i | 0 <= i < |b| :: (a + b)[|a| + i] == b[i];
    if SomeLacksParams(a + b) {
      var i :| 0 <= i < |a + b| && LacksParams((a + b)[i]);
      assert if i < |a| then LacksParams(a[i]) else LacksParams(b[i - |a|]);
    }
  }

  /** One skipped delegation never changes what happens to the others. */
  lemma SkippedDelegationIsInvisible(st: Staking, pk: PubKey, before: seq<Turn>, turn: Turn, after: seq<Turn>)
    requires st.Lawful() && before + after != []
    requires !LacksParams(turn) && VerdictIn(st, pk, turn).Failure?
    ensures AddSignatures(st, pk, before + [turn] + after) == AddSignatures(st, pk, before + after)
  {
    VerdictsAppend(st, pk, before, [turn]);
    VerdictsAppend(st, pk, before + [turn], after);
    VerdictsAppend(st, pk, before, after);
    assert Verdicts(st, pk, [turn]) == [VerdictIn(st, pk, turn)];
    DroppingFailure(Verdicts(st, pk, before), VerdictIn(st, pk, turn), Verdicts(st, pk, after));
    SomeLacksAppend(before, [turn]);
    SomeLacksAppend(before + [turn], after);
    SomeLacksAppend(before, after);
  }

  lemma DroppingFailure(a: seq<Verdict>, v: Verdict, b: seq<Verdict>)
    requires v.Failure?
    ensures Signed(a + [v] + b) == Signed(a + b)
  {
    SignedAppend(a, [v]);
    SignedAppend(a + [v], b);
    SignedAppend(a, b);
  }

  // ---------- the loop with the real cache ----------

  /** The services at one delegation's turn: delegations by hash, and the signer. */
  datatype Service = Service(query: string -> Option<Delegation>, sign: Signer)

  function Look(chain: PC.Chain, cache: PC.State, version: nat): Option<Versioned> {
    var found :- PC.GetParams(chain, cache, version).1;
    Some(found.versioned)
  }

  /** The cache after looking up a version, if one is looked up. */
  function AfterLookup(chain: PC.Chain, cache: PC.State, version: Option<nat>): PC.State {
    if version.None? then cache else PC.GetParams(chain, cache, version.value).0
  }

  /** What a lookup in this state of the cache finds. */
  function Seen(chain: PC.Chain, cache: PC.State, query: string -> Option<Delegation>): World {
    World((v: nat) => Look(chain, cache, v), query)
  }

  /** The version an expansion looks up: that of the previous delegation, when the checks before get that far. */
  function PreviousVersion(
    st: Staking, query: string -> Option<Delegation>, del: Delegation, exp: StakeExpansion): Option<nat>
  {
    var _ :- StakeExpValidateBasic(st, del, exp);
    var prev :- query(exp.previousStakingTxHashHex);
    var _ :- st.lib.TxFromHex(prev.stakingTxHex);
    Some(prev.paramsVersion)
  }

  /** The version the signing of one delegation looks up beside its own. */
  function OtherVersion(st: Staking, query: string -> Option<Delegation>, del: Delegation, p: Versioned): Option<nat>
    requires st.Lawful()
  {
    if BaseRequest(st, del, p).Failure? || del.stakeExpansion.None? then None
    else PreviousVersion(st, query, del, del.stakeExpansion.value)
  }

  /** One turn of the loop: the cache after it and the verdict, or nothing when the parameters are unavailable. */
  function TakeTurn(st: Staking, chain: PC.Chain, cache: PC.State, service: Service, pk: PubKey, del: Delegation)
    : (PC.State, Option<Verdict>)
    requires st.Lawful()
  {
    if del.btcUndelegation.None? then (cache, Some(Failure(EmptyUndelegation)))
    else
      var (next, found) := PC.GetParams(chain, cache, del.paramsVersion);
      match found
      case None => (next, None)
      case Some(params) =>
        var p := params.versioned;
        (AfterLookup(chain, next, OtherVersion(st, service.query, del, p)),
         Some(Judge(st, Seen(chain, next, service.query), service.sign, pk, del, p)))
  }

  /** The turns of a batch, up to the first whose parameters are unavailable. */
  function RunTurns(
    st: Staking, chain: PC.Chain, cache: PC.State, services: nat -> Service, pk: PubKey, dels: seq<Delegation>)
    : (PC.State, Option<seq<Verdict>>)
    requires st.Lawful()
  {
    if dels == [] then (cache, Some([]))
    else
      var n := |dels| - 1;
      var (now, verdicts) := RunTurns(st, chain, cache, services, pk, dels[..n]);
      if verdicts.None? then (now, None)
      else
        var (next, verdict) := TakeTurn(st, chain, now, services(n), pk, dels[n]);
        (next, if verdict.None? then None else Some(verdicts.value + [verdict.value]))
  }

  /** Emulator.AddCovenantSignatures up to the submission, with the cache it leaves. */
  function AddWithCache(
    st: Staking, chain: PC.Chain, cache: PC.State, services: nat -> Service, pk: PubKey, dels: seq<Delegation>)
    : (PC.State, AddResult)
    requires st.Lawful()
  {
    var (after, verdicts) := RunTurns(st, chain, cache, services, pk, dels);
    (after,
     if dels == [] then NoDelegations
     else if verdicts.None? then ParamsUnavailable
     else Submit(Signed(verdicts.value)))
  }

  lemma {:induction false} RunTurnsStops(
    st: Staking, chain: PC.Chain, cache: PC.State, services: nat -> Service, pk: PubKey, dels: seq<Delegation>, i: nat)
    requires st.Lawful() && i <= |dels| && RunTurns(st, chain, cache, services, pk, dels[..i]).1.None?
    ensures RunTurns(st, chain, cache, services, pk, dels) == RunTurns(st, chain, cache, services, pk, dels[..i])
    decreases |dels|
  {
    if i == |dels| {
      assert dels[..i] == dels;
    } else {
      var n := |dels| - 1;
      assert dels[..n][..i] == dels[..i];
      RunTurnsStops(st, chain, cache, services, pk, dels[..n], i);
    }
  }

  lemma RunTurnsOneMore(
    st: Staking, chain: PC.Chain, cache: PC.State, services: nat -> Service, pk: PubKey, dels: seq<Delegation>, i: nat)
    requires st.Lawful() && i < |dels| && RunTurns(st, chain, cache, services, pk, dels[..i]).1.Some?
    ensures var (now, verdicts) := RunTurns(st, chain, cache, services, pk, dels[..i]);
            var (next, verdict) := TakeTurn(st, chain, now, services(i), pk, dels[i]);
            RunTurns(st, chain, cache, services, pk, dels[..i + 1]) ==
            (next, if verdict.None? then None else Some(verdicts.value + [verdict.value]))
  {
    assert dels[..i + 1][..i] == dels[..i];
  }

  ghost predicate Sane(query: string -> Option<Delegation>) {
    forall h :: query(h).Some? ==> query(h).value.stakingTime <= MAX_UINT16
  }

  /** Emulator.buildStkExpSigningRequest. */
  method BuildStkExpSigningRequest(
    st: Staking, cache: PC.CacheVersionedParams, query: string -> Option<Delegation>, del: Delegation,
    exp: StakeExpansion)
    returns (r: Result<SigningRequestStkExp, Skip>)
    requires Sane(query)
    modifies cache
    ensures cache.Now() == AfterLookup(cache.chain, old(cache.Now()), PreviousVersion(st, query, del, exp))
    ensures r == StkExpRequest(st, Seen(cache.chain, old(cache.Now()), query), del, exp)
  {
    var funding :- StakeExpValidateBasic(st, del, exp).ToResult(InvalidStakeExpansion);
    var prev :- query(exp.previousStakingTxHashHex).ToResult(PreviousDelegationUnavailable);
    var prevTx :- st.lib.TxFromHex(prev.stakingTxHex).ToResult(InvalidStakeExpansion);
    var found := cache.Get(prev.paramsVersion);
    var prevParams :- found.ToResult(PreviousParamsUnavailable);
    var paths :- StakingPaths(st, prev, prevParams.versioned).ToResult(NoScriptPath);
    r := Success(SigningRequestStkExp(prevTx, funding, prev.stakingOutputIdx, paths.1));
  }

  /** Steps 2 to 10 for one delegation. */
  method SignOne(
    st: Staking, cache: PC.CacheVersionedParams, service: Service, pk: PubKey, del: Delegation, p: Versioned)
    returns (v: Verdict)
    requires st.Lawful() && Sane(service.query)
    modifies cache
    ensures cache.Now() == AfterLookup(cache.chain, old(cache.Now()), OtherVersion(st, service.query, del, p))
    ensures v == Judge(st, Seen(cache.chain, old(cache.Now()), service.query), service.sign, pk, del, p)
  {
    var req :- BaseRequest(st, del, p);
    if del.stakeExpansion.Some? {
      var exp := BuildStkExpSigningRequest(st, cache, service.query, del, del.stakeExpansion.value);
      var stkExp :- exp;
      req := req.(stakeExp := Some(stkExp));
    }
    var resp :- service.sign(req).ToResult(SigningFailed);
    v := Success(CovenantSigsOf(st, pk, req, resp));
  }

  /** The signing loop over a batch. Staking times above 65535 make the Go code panic and are excluded. */
  method AddCovenantSignatures(
    st: Staking, cache: PC.CacheVersionedParams, services: nat -> Service, pk: PubKey, dels: seq<Delegation>)
    returns (r: AddResult)
    requires st.Lawful() && forall i: nat :: Sane(services(i).query)
    requires forall i | 0 <= i < |dels| :: dels[i].stakingTime <= MAX_UINT16
    modifies cache
    ensures (cache.Now(), r) == AddWithCache(st, cache.chain, old(cache.Now()), services, pk, dels)
  {
    if |dels| == 0 {
      return NoDelegations;
    }
    var sigs: seq<CovenantSigs> := [];
    ghost var verdicts: seq<Verdict> := [];
    var i := 0;
    while i < |dels|
      invariant 0 <= i <= |dels| && sigs == Signed(verdicts)
      invariant RunTurns(st, cache.chain, old(cache.Now()), services, pk, dels[..i]) == (cache.Now(), Some(verdicts))
    {
      var del := dels[i];
      RunTurnsOneMore(st, cache.chain, old(cache.Now()), services, pk, dels, i);
      var verdict: Verdict := Failure(EmptyUndelegation);
      if del.btcUndelegation.Some? {
        var found := cache.Get(del.paramsVersion);
        if found.None? {
          RunTurnsStops(st, cache.chain, old(cache.Now()), services, pk, dels, i + 1);
          return ParamsUnavailable;
        }
        verdict := SignOne(st, cache, services(i), pk, del, found.value.versioned);
      }
      SignedOneMore(verdicts, verdict);
      verdicts := verdicts + [verdict];
      if verdict.Success? {
        sigs := sigs + [verdict.value];
      }
      i := i + 1;
    }
    assert dels[..i] == dels;
    r := Submit(sigs);
  }

  lemma SignedOneMore(verdicts: seq<Verdict>, v: Verdict)
    ensures Signed(verdicts + [v]) == Signed(verdicts) + (if v.Success? then [v.value] else [])
  {
    assert (verdicts + [v])[..|verdicts|] == verdicts;
  }

  // ---------- the loop with the cache is the image of the batch ----------

  /** What the loop finds out during the turn of `del` that starts with this cache: its own version first, then
      another. */
  function TurnWorld(chain: PC.Chain, cache: PC.State, query: string -> Option<Delegation>, del: Delegation): World {
    World((v: nat) => if v == del.paramsVersion then Look(chain, cache, v)
                      else Look(chain, PC.GetParams(chain, cache, del.paramsVersion).0, v),
          query)
  }

  lemma TurnIsVerdict(st: Staking, chain: PC.Chain, cache: PC.State, service: Service, pk: PubKey, del: Delegation)
    requires st.Lawful()
    ensures var turn := Turn(del, TurnWorld(chain, cache, service.query, del), service.sign);
            TakeTurn(st, chain, cache, service, pk, del).1 ==
            if LacksParams(turn) then None else Some(VerdictIn(st, pk, turn))
  {
    var (next, found) := PC.GetParams(chain, cache, del.paramsVersion);
    if found.Some? {
      PC.HitAnswers(chain, next, del.paramsVersion);
      var w, u := TurnWorld(chain, cache, service.query, del), Seen(chain, next, service.query);
      assert forall v :: w.params(v) == u.params(v);
      SameJudge(st, w, u, service.sign, pk, del, found.value.versioned);
    }
  }

  lemma SameJudge(st: Staking, w: World, u: World, sign: Signer, pk: PubKey, del: Delegation, p: Versioned)
    requires st.Lawful() && (forall v :: w.params(v) == u.params(v)) && (forall h :: w.delegation(h) == u.delegation(h))
    ensures Judge(st, w, sign, pk, del, p) == Judge(st, u, sign, pk, del, p)
  {
    if del.stakeExpansion.Some? {
      SameExpansion(st, w, u, del, del.stakeExpansion.value);
    }
  }

  lemma SameExpansion(st: Staking, w: World, u: World, del: Delegation, exp: StakeExpansion)
    requires (forall v :: w.params(v) == u.params(v)) && (forall h :: w.delegation(h) == u.delegation(h))
    ensures StkExpRequest(st, w, del, exp) == StkExpRequest(st, u, del, exp)
  {
  }

  /** The turn of delegation `i`, with what the loop finds out during it. */
  function TurnAt(
    st: Staking, chain: PC.Chain, cache: PC.State, services: nat -> Service, pk: PubKey, dels: seq<Delegation>, i: nat)
    : Turn
    requires st.Lawful() && i < |dels|
  {
    var now := RunTurns(st, chain, cache, services, pk, dels[..i]).0;
    Turn(dels[i], TurnWorld(chain, now, services(i).query, dels[i]), services(i).sign)
  }

  function TurnsOf(
    st: Staking, chain: PC.Chain, cache: PC.State, services: nat -> Service, pk: PubKey, dels: seq<Delegation>)
    : (turns: seq<Turn>)
    requires st.Lawful()
    ensures |turns| == |dels|
    ensures forall i | 0 <= i < |dels| :: turns[i] == TurnAt(st, chain, cache, services, pk, dels, i)
  {
    seq(|dels|, i requires 0 <= i < |dels| && st.Lawful() => TurnAt(st, chain, cache, services, pk, dels, i))
  }

  /** The loop's verdicts on its first turns. */
  function Outcome(st: Staking, pk: PubKey, turns: seq<Turn>): Option<seq<Verdict>>
    requires st.Lawful()
  {
    if SomeLacksParams(turns) then None else Some(Verdicts(st, pk, turns))
  }

  /** The verdicts after one more turn. */
  function OneMore(st: Staking, pk: PubKey, soFar: Option<seq<Verdict>>, turn: Turn): Option<seq<Verdict>>
    requires st.Lawful()
  {
    if soFar.None? || LacksParams(turn) then None else Some(soFar.value + [VerdictIn(st, pk, turn)])
  }

  lemma OutcomeOneMore(st: Staking, pk: PubKey, turns: seq<Turn>, k: nat)
    requires st.Lawful() && k < |turns|
    ensures Outcome(st, pk, turns[..k + 1]) == OneMore(st, pk, Outcome(st, pk, turns[..k]), turns[k])
  {
    assert turns[..k + 1] == turns[..k] + [turns[k]];
    SomeLacksAppend(turns[..k], [turns[k]]);
    assert SomeLacksParams([turns[k]]) <==> LacksParams(turns[k]) by {
      assert [turns[k]][0] == turns[k];
    }
    VerdictsAppend(st, pk, turns[..k], [turns[k]]);
    assert Verdicts(st, pk, [turns[k]]) == [VerdictIn(st, pk, turns[k])];
  }

  /** `soFar(k)` are the verdicts on the first `k` turns. */
  ghost predicate TurnByTurn(st: Staking, pk: PubKey, turns: seq<Turn>, soFar: nat -> Option<seq<Verdict>>)
    requires st.Lawful()
  {
    && soFar(0) == Some([])
    && forall k: nat | k < |turns| :: soFar(k + 1) == OneMore(st, pk, soFar(k), turns[k])
  }

  lemma {:induction false} TurnByTurnIsOutcome(
    st: Staking, pk: PubKey, turns: seq<Turn>, soFar: nat -> Option<seq<Verdict>>, n: nat)
    requires st.Lawful() && TurnByTurn(st, pk, turns, soFar) && n <= |turns|
    ensures soFar(n) == Outcome(st, pk, turns[..n])
  {
    if n == 0 {
      assert turns[..0] == [];
    } else {
      TurnByTurnIsOutcome(st, pk, turns, soFar, n - 1);
      OutcomeOneMore(st, pk, turns, n - 1);
    }
  }

  lemma RunTurnsAre(
    st: Staking, chain: PC.Chain, cache: PC.State, services: nat -> Service, pk: PubKey, dels: seq<Delegation>)
    requires st.Lawful()
    ensures RunTurns(st, chain, cache, services, pk, dels).1 ==
            Outcome(st, pk, TurnsOf(st, chain, cache, services, pk, dels))
  {
    var turns := TurnsOf(st, chain, cache, services, pk, dels);
    var soFar := (k: nat) requires st.Lawful() =>
        if k <= |dels| then RunTurns(st, chain, cache, services, pk, dels[..k]).1 else None;
    forall k: nat | k < |turns| ensures soFar(k + 1) == OneMore(st, pk, soFar(k), turns[k]) {
      RunTurnsByTurn(st, chain, cache, services, pk, dels, k);
    }
    TurnByTurnIsOutcome(st, pk, turns, soFar, |turns|);
    assert dels[..|dels|] == dels && turns[..|turns|] == turns;
  }

  lemma RunTurnsByTurn(
    st: Staking, chain: PC.Chain, cache: PC.State, services: nat -> Service, pk: PubKey, dels: seq<Delegation>, k: nat)
    requires st.Lawful() && k < |dels|
    ensures RunTurns(st, chain, cache, services, pk, dels[..k + 1]).1 ==
            OneMore(st, pk, RunTurns(st, chain, cache, services, pk, dels[..k]).1,
                    TurnAt(st, chain, cache, services, pk, dels, k))
  {
    TurnIsVerdict(st, chain, RunTurns(st, chain, cache, services, pk, dels[..k]).0, services(k), pk, dels[k]);
    if RunTurns(st, chain, cache, services, pk, dels[..k]).1.None? {
      assert dels[..k + 1][..k] == dels[..k];
    } else {
      RunTurnsOneMore(st, chain, cache, services, pk, dels, k);
    }
  }

  /** The loop with its cache submits exactly the signed image of the batch, each delegation judged by what the
      lookups of its own turn found; and it submits nothing exactly when a delegation's own version could not be
      looked up in its turn. */
  lemma LoopIsImage(
    st: Staking, chain: PC.Chain, cache: PC.State, services: nat -> Service, pk: PubKey, dels: seq<Delegation>)
    requires st.Lawful()
    ensures AddWithCache(st, chain, cache, services, pk, dels).1 ==
            AddSignatures(st, pk, TurnsOf(st, chain, cache, services, pk, dels))
  {
    RunTurnsAre(st, chain, cache, services, pk, dels);
  }

  /** The version of delegation `i` cannot be looked up when its turn comes. */
  predicate Unavailable(
    st: Staking, chain: PC.Chain, cache: PC.State, services: nat -> Service, pk: PubKey, dels: seq<Delegation>, i: nat)
    requires st.Lawful() && i < |dels|
  {
    && dels[i].btcUndelegation.Some?
    && PC.GetParams(chain, RunTurns(st, chain, cache, services, pk, dels[..i]).0, dels[i].paramsVersion).1.None?
  }

  /** What the loop returns: an error for an empty batch, an error when the version of some delegation cannot be looked
      up in its turn, and otherwise the signatures of exactly the delegations that were signed, in order. */
  lemma LoopReturns(
    st: Staking, chain: PC.Chain, cache: PC.State, services: nat -> Service, pk: PubKey, dels: seq<Delegation>)
    requires st.Lawful()
    ensures var r := AddWithCache(st, chain, cache, services, pk, dels).1;
            && (r == NoDelegations <==> dels == [])
            && (r == ParamsUnavailable <==>
                  exists i | 0 <= i < |dels| :: Unavailable(st, chain, cache, services, pk, dels, i))
            && (r.Submit? ==>
                  IsImage(Verdicts(st, pk, TurnsOf(st, chain, cache, services, pk, dels)), r.sigs))
  {
    LoopIsImage(st, chain, cache, services, pk, dels);
    var turns := TurnsOf(st, chain, cache, services, pk, dels);
    forall i | 0 <= i < |dels|
      ensures LacksParams(turns[i]) <==> Unavailable(st, chain, cache, services, pk, dels, i)
    {
    }
    SignedIsImage(Verdicts(st, pk, turns));
  }

  // ---------- what the lookups find ----------

  function PublishedParams(chain: PC.Chain, v: nat): Option<Versioned> {
    var raw :- chain.published(v);
    PC.ToVersioned(chain.onCurve, raw)
  }

  lemma LookIsPublished(chain: PC.Chain, cache: PC.State, version: nat)
    requires chain.Honest() && PC.Sound(chain, cache)
    ensures PC.Sound(chain, PC.GetParams(chain, cache, version).0)
    ensures Look(chain, cache, version).Some? ==> Look(chain, cache, version) == PublishedParams(chain, version)
  {
    PC.GetIsSound(chain, cache, version);
  }

  lemma TurnKeepsSound(st: Staking, chain: PC.Chain, cache: PC.State, service: Service, pk: PubKey, del: Delegation)
    requires st.Lawful() && chain.Honest() && PC.Sound(chain, cache)
    ensures PC.Sound(chain, TakeTurn(st, chain, cache, service, pk, del).0)
  {
    if del.btcUndelegation.Some? {
      var (next, found) := PC.GetParams(chain, cache, del.paramsVersion);
      LookIsPublished(chain, cache, del.paramsVersion);
      if found.Some? {
        var other := OtherVersion(st, service.query, del, found.value.versioned);
        if other.Some? {
          LookIsPublished(chain, next, other.value);
        }
      }
    }
  }

  lemma {:induction false} TurnsKeepSound(
    st: Staking, chain: PC.Chain, cache: PC.State, services: nat -> Service, pk: PubKey, dels: seq<Delegation>)
    requires st.Lawful() && chain.Honest() && PC.Sound(chain, cache)
    ensures PC.Sound(chain, RunTurns(st, chain, cache, services, pk, dels).0)
  {
    if dels != [] {
      var n := |dels| - 1;
      TurnsKeepSound(st, chain, cache, services, pk, dels[..n]);
      TurnKeepsSound(st, chain, RunTurns(st, chain, cache, services, pk, dels[..n]).0, services(n), pk, dels[n]);
    }
  }

  /** Whatever a turn finds out is what the chain published. */
  lemma TurnsSeePublished(
    st: Staking, chain: PC.Chain, cache: PC.State, services: nat -> Service, pk: PubKey, dels: seq<Delegation>, i: nat,
    v: nat)
    requires st.Lawful() && chain.Honest() && PC.Sound(chain, cache) && i < |dels|
    ensures var found := TurnAt(st, chain, cache, services, pk, dels, i).world.params(v);
            found.Some? ==> found == PublishedParams(chain, v)
  {
    var now := RunTurns(st, chain, cache, services, pk, dels[..i]).0;
    TurnsKeepSound(st, chain, cache, services, pk, dels[..i]);
    LookIsPublished(chain, now, v);
    LookIsPublished(chain, now, dels[i].paramsVersion);
    LookIsPublished(chain, PC.GetParams(chain, now, dels[i].paramsVersion).0, v);
  }

  // ---------- when every lookup succeeds ----------

  /** Whatever the chain published is found at the first attempt. */
  ghost predicate Reliable(chain: PC.Chain) {
    forall n: nat, v: nat | PublishedParams(chain, v).Some? :: !PC.Fails(chain, n, v)
  }

  lemma ReliableLook(chain: PC.Chain, cache: PC.State, v: nat)
    requires chain.Honest() && PC.Sound(chain, cache) && Reliable(chain)
    ensures Look(chain, cache, v) == PublishedParams(chain, v)
  {
    LookIsPublished(chain, cache, v);
    PC.LookupFailsIff(chain, cache, v);
    if PublishedParams(chain, v).Some? {
      assert !PC.Fails(chain, |cache.log|, v);
    }
  }

  /** A delegation and the services its turn meets. */
  datatype Job = Job(del: Delegation, service: Service)

  function PlainTurn(chain: PC.Chain, job: Job): Turn {
    Turn(job.del, World((v: nat) => PublishedParams(chain, v), job.service.query), job.service.sign)
  }

  function PlainTurns(chain: PC.Chain, jobs: seq<Job>): (turns: seq<Turn>)
    ensures |turns| == |jobs|
    ensures forall i | 0 <= i < |jobs| :: turns[i] == PlainTurn(chain, jobs[i])
  {
    seq(|jobs|, i requires 0 <= i < |jobs| => PlainTurn(chain, jobs[i]))
  }

  /** The jobs are the delegations with the services of their turns. */
  ghost predicate Pairs(jobs: seq<Job>, services: nat -> Service, dels: seq<Delegation>) {
    |jobs| == |dels| && forall i | 0 <= i < |dels| :: jobs[i] == Job(dels[i], services(i))
  }

  lemma SameSigning(st: Staking, pk: PubKey, a: seq<Turn>, b: seq<Turn>)
    requires st.Lawful() && |a| == |b|
    requires forall i | 0 <= i < |a| :: LacksParams(a[i]) == LacksParams(b[i])
    requires forall i | 0 <= i < |a| :: VerdictIn(st, pk, a[i]) == VerdictIn(st, pk, b[i])
    ensures AddSignatures(st, pk, a) == AddSignatures(st, pk, b)
  {
    assert SomeLacksParams(a) <==> SomeLacksParams(b);
    assert Verdicts(st, pk, a) == Verdicts(st, pk, b);
  }

  lemma ReliableTurn(
    st: Staking, chain: PC.Chain, cache: PC.State, services: nat -> Service, pk: PubKey, dels: seq<Delegation>, i: nat)
    requires st.Lawful() && chain.Honest() && PC.Sound(chain, cache) && Reliable(chain) && i < |dels|
    ensures var turn := TurnAt(st, chain, cache, services, pk, dels, i);
            var plain := PlainTurn(chain, Job(dels[i], services(i)));
            LacksParams(turn) == LacksParams(plain) && VerdictIn(st, pk, turn) == VerdictIn(st, pk, plain)
  {
    var turn := TurnAt(st, chain, cache, services, pk, dels, i);
    var plain := PlainTurn(chain, Job(dels[i], services(i)));
    var now := RunTurns(st, chain, cache, services, pk, dels[..i]).0;
    TurnsKeepSound(st, chain, cache, services, pk, dels[..i]);
    LookIsPublished(chain, now, dels[i].paramsVersion);
    forall v: nat ensures turn.world.params(v) == plain.world.params(v) {
      ReliableLook(chain, now, v);
      ReliableLook(chain, PC.GetParams(chain, now, dels[i].paramsVersion).0, v);
    }
    if turn.world.params(dels[i].paramsVersion).Some? {
      SameJudge(
        st, turn.world, plain.world, turn.sign, pk, dels[i], turn.world.params(dels[i].paramsVersion).value);
    }
  }

  /** When every lookup succeeds, the state of the cache does not matter. */
  lemma ReliableLoopIsPlain(
    st: Staking, chain: PC.Chain, cache: PC.State, services: nat -> Service, pk: PubKey, dels: seq<Delegation>,
    jobs: seq<Job>)
    requires st.Lawful() && chain.Honest() && PC.Sound(chain, cache) && Reliable(chain) && Pairs(jobs, services, dels)
    ensures AddWithCache(st, chain, cache, services, pk, dels).1 == AddSignatures(st, pk, PlainTurns(chain, jobs))
  {
    LoopIsImage(st, chain, cache, services, pk, dels);
    var turns, plain := TurnsOf(st, chain, cache, services, pk, dels), PlainTurns(chain, jobs);
    forall i | 0 <= i < |turns|
      ensures LacksParams(turns[i]) == LacksParams(plain[i])
      ensures VerdictIn(st, pk, turns[i]) == VerdictIn(st, pk, plain[i])
    {
      ReliableTurn(st, chain, cache, services, pk, dels, i);
    }
    SameSigning(st, pk, turns, plain);
  }

  function ServicesOf(jobs: seq<Job>): nat -> Service {
    (i: nat) => if i < |jobs| then jobs[i].service else Service(_ => None, _ => None)
  }

  function DelsOf(jobs: seq<Job>): (dels: seq<Delegation>)
    ensures |dels| == |jobs| && forall i | 0 <= i < |jobs| :: dels[i] == jobs[i].del
  {
    seq(|jobs|, i requires 0 <= i < |jobs| => jobs[i].del)
  }

  /** What the loop with its cache makes of a list of jobs. */
  function Signing(st: Staking, chain: PC.Chain, cache: PC.State, pk: PubKey, jobs: seq<Job>): AddResult
    requires st.Lawful()
  {
    AddWithCache(st, chain, cache, ServicesOf(jobs), pk, DelsOf(jobs)).1
  }

  lemma SigningIsPlain(st: Staking, chain: PC.Chain, cache: PC.State, pk: PubKey, jobs: seq<Job>)
    requires st.Lawful() && chain.Honest() && PC.Sound(chain, cache) && Reliable(chain)
    ensures Signing(st, chain, cache, pk, jobs) == AddSignatures(st, pk, PlainTurns(chain, jobs))
  {
    ReliableLoopIsPlain(st, chain, cache, ServicesOf(jobs), pk, DelsOf(jobs), jobs);
  }

  lemma PlainTurnsAround(chain: PC.Chain, before: seq<Job>, jobs: seq<Job>, after: seq<Job>)
    ensures PlainTurns(chain, before + jobs + after) ==
            PlainTurns(chain, before) + PlainTurns(chain, jobs) + PlainTurns(chain, after)
  {
  }

  /** One skipped delegation never changes what the loop submits for the others, although it may fill the cache. */
  lemma SkippedIsInvisibleToCache(
    st: Staking, chain: PC.Chain, cache: PC.State, pk: PubKey, before: seq<Job>, job: Job, after: seq<Job>)
    requires st.Lawful() && chain.Honest() && PC.Sound(chain, cache) && Reliable(chain) && before + after != []
    requires !LacksParams(PlainTurn(chain, job)) && VerdictIn(st, pk, PlainTurn(chain, job)).Failure?
    ensures Signing(st, chain, cache, pk, before + [job] + after) == Signing(st, chain, cache, pk, before + after)
  {
    SigningIsPlain(st, chain, cache, pk, before + [job] + after);
    SigningIsPlain(st, chain, cache, pk, before + after);
    InvisibleTurn(st, chain, pk, before, job, after);
  }

  lemma InvisibleTurn(st: Staking, chain: PC.Chain, pk: PubKey, before: seq<Job>, job: Job, after: seq<Job>)
    requires st.Lawful() && before + after != []
    requires !LacksParams(PlainTurn(chain, job)) && VerdictIn(st, pk, PlainTurn(chain, job)).Failure?
    ensures AddSignatures(st, pk, PlainTurns(chain, before + [job] + after)) ==
            AddSignatures(st, pk, PlainTurns(chain, before + after))
  {
    PlainTurnsAround(chain, before, [job], after);
    PlainTurnsAround(chain, before, [], after);
    assert before + [] + after == before + after;
    var a, b := PlainTurns(chain, before), PlainTurns(chain, after);
    assert a + PlainTurns(chain, []) + b == a + b;
    assert PlainTurns(chain, [job]) == [PlainTurn(chain, job)];
    SkippedDelegationIsInvisible(st, pk, a, PlainTurn(chain, job), b);
  }
}
