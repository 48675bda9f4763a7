/** The signer's key cell, shared by pointer between `Lock`, `Unlock` and the signing requests in flight. */
module KeyProtocol {
  import opened Wrappers
  import opened Lists
  import opened Hex
  import opened Btc
  import opened SignerApp
  import W = Wire

  // ---------- the key cells ----------

  /** Every cell ever handed out, and the one the retriever points to. A request keeps its pointer after the mutex is
      released, so old cells matter. */
  datatype Keys = Keys(heap: seq<PrivKey>, current: Option<nat>)

  const LOCKED := Keys([], None)

  function UnlockKeys(keys: Keys, key: PrivKey, opens: bool): Keys {
    if keys.current.Some? || !opens then keys else Keys(keys.heap + [key], Some(|keys.heap|))
  }

  function LockKeys(keys: Keys): Keys {
    if keys.current.Some? && keys.current.value < |keys.heap| then Keys(keys.heap[keys.current.value := 0], None)
    else keys
  }

  /** The current cell holds the key and every other cell is wiped. */
  ghost predicate OneLiveKey(keys: Keys, key: PrivKey) {
    && (keys.current.Some? ==> keys.current.value < |keys.heap|)
    && (forall i | 0 <= i < |keys.heap| :: keys.heap[i] == if keys.current == Some(i) then key else 0)
  }

  class KeyCell {
    var secret: PrivKey

    constructor (key: PrivKey)
      ensures secret == key
    {
      secret := key;
    }

    method Zero()
      modifies this
      ensures secret == 0
    {
      secret := 0;
    }
  }

  class KeyringRetriever {
    const key: PrivKey
    const opens: string -> bool
    var cell: KeyCell?
    ghost var cells: seq<KeyCell>

    ghost predicate Valid()
      reads this
    {
      && (forall i, j | 0 <= i < j < |cells| :: cells[i] != cells[j])
      && (cell != null ==> cells != [] && cells[|cells| - 1] == cell)
    }

    ghost function Now(): Keys
      reads this, cells
    {
      Keys(seq(|cells|, i requires 0 <= i < |cells| reads this, cells => cells[i].secret),
           if cell == null || cells == [] then None else Some(|cells| - 1))
    }

    constructor (key: PrivKey, opens: string -> bool)
      ensures Valid() && Now() == LOCKED && this.key == key && this.opens == opens
    {
      this.key := key;
      this.opens := opens;
      cell := null;
      cells := [];
    }

    /** Hands out the pointer itself, not a copy of the key. */
    method PrivKey() returns (r: KeyCell?)
      requires Valid()
      ensures r == cell
      ensures r == null <==> Now().current.None?
      ensures r != null ==> r == cells[Now().current.value] && r.secret == Now().heap[Now().current.value]
    {
      r := cell;
    }

    method Unlock(passphrase: string) returns (ok: bool)
      requires Valid()
      modifies this
      ensures Valid() && Now() == UnlockKeys(old(Now()), key, opens(passphrase))
      ensures ok <==> old(cell) != null || opens(passphrase)
      ensures !ok ==> cell == null && cells == old(cells)
      ensures old(cell) != null ==> cell == old(cell) && cells == old(cells)
      ensures old(cell) == null && ok ==>
                cell != null && fresh(cell) && cells == old(cells) + [cell] && cell.secret == key
    {
      if cell != null {
        return true;
      }
      if !opens(passphrase) {
        return false;
      }
      cell := new KeyCell(key);
      cells := cells + [cell];
      ok := true;
    }

    /** Wipes the cell that requests may still hold, then forgets it. */
    method Lock()
      requires Valid()
      modifies this, cell
      ensures Valid() && Now() == LockKeys(old(Now()))
      ensures cell == null && cells == old(cells)
      ensures old(cell) != null ==> old(cell).secret == 0
    {
      if cell == null {
        return;
      }
      cell.Zero();
      cell := null;
    }
  }

  lemma UnlockKeepsOneLiveKey(keys: Keys, key: PrivKey, opens: bool)
    requires OneLiveKey(keys, key)
    ensures OneLiveKey(UnlockKeys(keys, key, opens), key)
  {
  }

  lemma LockKeepsOneLiveKey(keys: Keys, key: PrivKey)
    requires OneLiveKey(keys, key)
    ensures OneLiveKey(LockKeys(keys), key) && LockKeys(keys).current.None?
    ensures forall i | 0 <= i < |keys.heap| :: LockKeys(keys).heap[i] == 0
  {
  }

  // ---------- one request, signature by signature ----------

  /** What a request has signed so far. */
  datatype Partial = Partial(
    slashSigs: seq<Bytes>, slashUnbondingSigs: seq<Bytes>, unbonding: Option<Signature>, expansion: Option<Signature>)

  const NOTHING := Partial([], [], None, None)

  predicate Complete(req: Request, p: Partial) {
    && |p.slashUnbondingSigs| >= |req.fpEncKeys|
    && p.unbonding.Some?
    && (req.stakeExp.Some? ==> p.expansion.Some?)
  }

  /** The next library call, reading whatever the cell holds now; `None` when it fails. */
  function SignOne(lib: Library, key: PrivKey, req: Request, p: Partial): Option<Partial>
    requires !Complete(req, p)
  {
    if |p.slashUnbondingSigs| < |req.fpEncKeys| then
      var fp := req.fpEncKeys[|p.slashUnbondingSigs|];
      if |p.slashSigs| <= |p.slashUnbondingSigs| then
        var sig :- lib.encSign(req.slashingTx, req.stakingTx, req.stakingOutputIdx, req.slashingScript, key, fp);
        Some(p.(slashSigs := p.slashSigs + [sig]))
      else
        var sig :- lib.encSign(req.slashUnbondingTx, req.unbondingTx, 0, req.unbondingSlashingScript, key, fp);
        Some(p.(slashUnbondingSigs := p.slashUnbondingSigs + [sig]))
    else if p.unbonding.None? then
      var sig :- UnbondSig(lib, key, req);
      Some(p.(unbonding := Some(sig)))
    else
      var sig :- StkExpSig(lib, key, req, req.stakeExp.value);
      Some(p.(expansion := Some(sig)))
  }

  function ResponseOf(req: Request, p: Partial): Response
    requires Complete(req, p)
  {
    Response(p.slashSigs, p.unbonding.value, p.slashUnbondingSigs, p.expansion)
  }

  /** Everything signed so far was signed with `key`, in the order of the finality providers. */
  ghost predicate SignedWith(lib: Library, key: PrivKey, req: Request, p: Partial) {
    && |p.slashUnbondingSigs| <= |p.slashSigs| <= |p.slashUnbondingSigs| + 1
    && |p.slashSigs| <= |req.fpEncKeys|
    && (forall i | 0 <= i < |p.slashSigs| ::
          lib.encSign(req.slashingTx, req.stakingTx, req.stakingOutputIdx, req.slashingScript, key, req.fpEncKeys[i]) ==
          Some(p.slashSigs[i]))
    && (forall i | 0 <= i < |p.slashUnbondingSigs| ::
          lib.encSign(req.slashUnbondingTx, req.unbondingTx, 0, req.unbondingSlashingScript, key, req.fpEncKeys[i]) ==
          Some(p.slashUnbondingSigs[i]))
    && (p.unbonding.Some? ==> |p.slashUnbondingSigs| == |req.fpEncKeys| && UnbondSig(lib, key, req) == p.unbonding)
    && (p.expansion.Some? ==>
          p.unbonding.Some? && req.stakeExp.Some? && StkExpSig(lib, key, req, req.stakeExp.value) == p.expansion)
  }

  lemma OneMoreSigned(lib: Library, key: PrivKey, req: Request, p: Partial)
    requires SignedWith(lib, key, req, p) && !Complete(req, p) && SignOne(lib, key, req, p).Some?
    ensures SignedWith(lib, key, req, SignOne(lib, key, req, p).value)
  {
  }

  /** A request signed to the end under one key holds the answer that signing in one go gives. */
  lemma CompleteIsAnswer(lib: Library, key: PrivKey, req: Request, p: Partial)
    requires SignedWith(lib, key, req, p) && Complete(req, p)
    ensures SignTransactions(lib, key, req) == Some(ResponseOf(req, p))
  {
    var f := fp => SlashUnbondSig(lib, key, req, fp);
    var pairs := seq(|req.fpEncKeys|,
                     i requires 0 <= i < |req.fpEncKeys| == |p.slashSigs| == |p.slashUnbondingSigs| =>
                       (p.slashSigs[i], p.slashUnbondingSigs[i]));
    forall i | 0 <= i < |req.fpEncKeys| ensures f(req.fpEncKeys[i]) == Some(pairs[i]) {
    }
    TraverseIs(f, req.fpEncKeys, pairs);
    assert Map((q: (Bytes, Bytes)) => q.0, pairs) == p.slashSigs;
    assert Map((q: (Bytes, Bytes)) => q.1, pairs) == p.slashUnbondingSigs;
  }

  /** A call that fails dooms the whole request. */
  lemma FailureIsFailure(lib: Library, key: PrivKey, req: Request, p: Partial)
    requires SignedWith(lib, key, req, p) && !Complete(req, p) && SignOne(lib, key, req, p).None?
    ensures SignTransactions(lib, key, req) == None
  {
    if |p.slashUnbondingSigs| < |req.fpEncKeys| {
      var f := fp => SlashUnbondSig(lib, key, req, fp);
      assert f(req.fpEncKeys[|p.slashUnbondingSigs|]).None?;
    }
  }

  function CallsLeft(req: Request, p: Partial): nat {
    (if |p.slashSigs| < |req.fpEncKeys| then |req.fpEncKeys| - |p.slashSigs| else 0) +
    (if |p.slashUnbondingSigs| < |req.fpEncKeys| then |req.fpEncKeys| - |p.slashUnbondingSigs| else 0) +
    (if p.unbonding.None? then 1 else 0) +
    (if p.expansion.None? then 1 else 0)
  }

  /** The request running on its own, with nobody touching the cell. */
  function SignOn(lib: Library, key: PrivKey, req: Request, p: Partial): Option<Response>
    requires |p.slashUnbondingSigs| <= |p.slashSigs| <= |p.slashUnbondingSigs| + 1
    requires |p.slashSigs| <= |req.fpEncKeys|
    decreases CallsLeft(req, p)
  {
    if Complete(req, p) then Some(ResponseOf(req, p))
    else
      var next :- SignOne(lib, key, req, p);
      SignOn(lib, key, req, next)
  }

  /** Undisturbed, the call-by-call signer is the signer. */
  lemma {:induction false} UndisturbedIsSigner(lib: Library, key: PrivKey, req: Request, p: Partial)
    requires SignedWith(lib, key, req, p)
    ensures SignOn(lib, key, req, p) == SignTransactions(lib, key, req)
    decreases CallsLeft(req, p)
  {
    if Complete(req, p) {
      CompleteIsAnswer(lib, key, req, p);
    } else if SignOne(lib, key, req, p).None? {
      FailureIsFailure(lib, key, req, p);
    } else {
      OneMoreSigned(lib, key, req, p);
      UndisturbedIsSigner(lib, key, req, SignOne(lib, key, req, p).value);
    }
  }

  lemma WipedSignsNothing(lib: Library, req: Request, p: Partial)
    requires lib.Lawful() && !Complete(req, p)
    ensures SignOne(lib, 0, req, p).None?
  {
  }

  // ---------- requests in flight ----------

  /** A request: counted on arrival; then fetching the key, signing, finished, and counted again. */
  datatype Thread =
    | Arrived(req: Request)
    | Signing(req: Request, cell: nat, made: Partial)
    | Answered(req: Request, resp: Response)
    | Refused(req: Request)
    | Succeeded(req: Request, resp: Response)
    | Failed(req: Request)
  {
    predicate InFlight() { !Succeeded? && !Failed? }
  }

  datatype State = State(keys: Keys, threads: seq<Thread>, received: nat, succeeded: nat, failed: nat)

  const INITIAL := State(LOCKED, [], 0, 0, 0)

  datatype Action =
    | Arrive(req: Request)
    | Advance(t: nat)
    | Lock
    | Unlock(opens: bool)

  /** The next step of one request. */
  function Next(lib: Library, keys: Keys, thread: Thread): Thread {
    match thread
    case Arrived(req) => if keys.current.None? then Refused(req) else Signing(req, keys.current.value, NOTHING)
    case Signing(req, cell, made) =>
      if Complete(req, made) then Answered(req, ResponseOf(req, made))
      else if cell < |keys.heap| then
        (match SignOne(lib, keys.heap[cell], req, made)
         case None => Refused(req)
         case Some(more) => Signing(req, cell, more))
      else Refused(req)
    case Answered(req, resp) => Succeeded(req, resp)
    case Refused(req) => Failed(req)
    case done => done
  }

  /** One step of one party; any party may move at any time. */
  function Step(lib: Library, key: PrivKey, s: State, a: Action): State {
    match a
    case Arrive(req) => s.(threads := s.threads + [Arrived(req)], received := s.received + 1)
    case Lock => s.(keys := LockKeys(s.keys))
    case Unlock(opens) => s.(keys := UnlockKeys(s.keys, key, opens))
    case Advance(t) =>
      if t >= |s.threads| then s
      else
        var before := s.threads[t];
        s.(threads := s.threads[t := Next(lib, s.keys, before)],
           succeeded := s.succeeded + (if before.Answered? then 1 else 0),
           failed := s.failed + (if before.Refused? then 1 else 0))
  }

  function Run(lib: Library, key: PrivKey, s: State, actions: seq<Action>): State
    decreases |actions|
  {
    if actions == [] then s else Run(lib, key, Step(lib, key, s, actions[0]), actions[1..])
  }

  // ---------- what every interleaving keeps ----------

  ghost predicate Sound(lib: Library, key: PrivKey, keys: Keys, thread: Thread) {
    match thread
    case Signing(req, cell, made) => cell < |keys.heap| && SignedWith(lib, key, req, made)
    case Answered(req, resp) => SignTransactions(lib, key, req) == Some(resp)
    case Succeeded(req, resp) => SignTransactions(lib, key, req) == Some(resp)
    case _ => true
  }

  function Flying(threads: seq<Thread>): nat {
    if threads == [] then 0
    else Flying(threads[..|threads| - 1]) + (if threads[|threads| - 1].InFlight() then 1 else 0)
  }

  predicate EndedSo(thread: Thread, answered: bool) { if answered then thread.Succeeded? else thread.Failed? }

  /** How many requests have been counted as answered, or as failed. */
  function Ended(threads: seq<Thread>, answered: bool): nat {
    if threads == [] then 0
    else
      Ended(threads[..|threads| - 1], answered) + (if EndedSo(threads[|threads| - 1], answered) then 1 else 0)
  }

  lemma {:induction false} EndedUpdate(threads: seq<Thread>, t: nat, thread: Thread, answered: bool)
    requires t < |threads| && threads[t].InFlight()
    ensures Ended(threads[t := thread], answered) ==
            Ended(threads, answered) + (if EndedSo(thread, answered) then 1 else 0)
    decreases |threads|
  {
    var n := |threads| - 1;
    if t < n {
      EndedUpdate(threads[..n], t, thread, answered);
      assert threads[t := thread][..n] == threads[..n][t := thread];
    } else {
      assert threads[t := thread][..n] == threads[..n];
    }
  }

  ghost predicate Inv(lib: Library, key: PrivKey, s: State) {
    && OneLiveKey(s.keys, key)
    && (forall t | 0 <= t < |s.threads| :: Sound(lib, key, s.keys, s.threads[t]))
    && s.received == |s.threads|
    && s.succeeded == Ended(s.threads, true)
    && s.failed == Ended(s.threads, false)
    && s.received == s.succeeded + s.failed + Flying(s.threads)
  }

  lemma {:induction false} FlyingUpdate(threads: seq<Thread>, t: nat, thread: Thread)
    requires t < |threads|
    ensures Flying(threads[t := thread]) ==
            Flying(threads) - (if threads[t].InFlight() then 1 else 0) + (if thread.InFlight() then 1 else 0)
    decreases |threads|
  {
    var n := |threads| - 1;
    if t < n {
      FlyingUpdate(threads[..n], t, thread);
      assert threads[t := thread][..n] == threads[..n][t := thread];
    } else {
      assert threads[t := thread][..n] == threads[..n];
    }
  }

  lemma NextIsSound(lib: Library, key: PrivKey, keys: Keys, thread: Thread)
    requires lib.Lawful() && OneLiveKey(keys, key) && Sound(lib, key, keys, thread)
    ensures Sound(lib, key, keys, Next(lib, keys, thread))
  {
    if thread.Signing? {
      var req, made := thread.req, thread.made;
      if Complete(req, made) {
        CompleteIsAnswer(lib, key, req, made);
      } else if keys.heap[thread.cell] == 0 {
        WipedSignsNothing(lib, req, made);
      } else if SignOne(lib, key, req, made).Some? {
        OneMoreSigned(lib, key, req, made);
      }
    }
  }

  lemma AdvanceKeepsInv(lib: Library, key: PrivKey, s: State, t: nat)
    requires lib.Lawful() && Inv(lib, key, s) && t < |s.threads|
    ensures Inv(lib, key, Step(lib, key, s, Advance(t)))
  {
    var next := Next(lib, s.keys, s.threads[t]);
    NextIsSound(lib, key, s.keys, s.threads[t]);
    FlyingUpdate(s.threads, t, next);
    if s.threads[t].InFlight() {
      EndedUpdate(s.threads, t, next, true);
      EndedUpdate(s.threads, t, next, false);
    } else {
      assert s.threads[t := next] == s.threads;
    }
  }

  lemma ArriveKeepsInv(lib: Library, key: PrivKey, s: State, req: Request)
    requires Inv(lib, key, s)
    ensures Inv(lib, key, Step(lib, key, s, Arrive(req)))
  {
    assert (s.threads + [Arrived(req)])[..|s.threads|] == s.threads;
  }

  lemma StepKeepsInv(lib: Library, key: PrivKey, s: State, a: Action)
    requires lib.Lawful() && Inv(lib, key, s)
    ensures Inv(lib, key, Step(lib, key, s, a))
  {
    match a
    case Arrive(req) => ArriveKeepsInv(lib, key, s, req);
    case Lock => LockKeepsOneLiveKey(s.keys, key);
    case Unlock(opens) => UnlockKeepsOneLiveKey(s.keys, key, opens);
    case Advance(t) =>
      if t < |s.threads| {
        AdvanceKeepsInv(lib, key, s, t);
      }
  }

  lemma {:induction false} RunKeepsInv(lib: Library, key: PrivKey, s: State, actions: seq<Action>)
    requires lib.Lawful() && Inv(lib, key, s)
    ensures Inv(lib, key, Run(lib, key, s, actions))
    decreases |actions|
  {
    if actions != [] {
      StepKeepsInv(lib, key, s, actions[0]);
      RunKeepsInv(lib, key, Step(lib, key, s, actions[0]), actions[1..]);
    }
  }

  /** In every interleaving: a completed response is exactly what signing the whole request with the configured key
      gives, whatever was locked and unlocked meanwhile; no cell but the current one holds a key; each counter counts
      the requests that ended that way; and every received request is succeeded, failed or in flight. */
  lemma EveryInterleavingIsSound(lib: Library, key: PrivKey, actions: seq<Action>)
    requires lib.Lawful()
    ensures var s := Run(lib, key, INITIAL, actions);
            && OneLiveKey(s.keys, key)
            && s.succeeded == Ended(s.threads, true) && s.failed == Ended(s.threads, false)
            && s.received == s.succeeded + s.failed + Flying(s.threads)
            && (forall t | 0 <= t < |s.threads| && (s.threads[t].Answered? || s.threads[t].Succeeded?) ::
                  SignTransactions(lib, key, s.threads[t].req) == Some(s.threads[t].resp))
  {
    RunKeepsInv(lib, key, INITIAL, actions);
    var s := Run(lib, key, INITIAL, actions);
    forall t | 0 <= t < |s.threads| && (s.threads[t].Answered? || s.threads[t].Succeeded?)
      ensures SignTransactions(lib, key, s.threads[t].req) == Some(s.threads[t].resp)
    {
      assert Sound(lib, key, s.keys, s.threads[t]);
    }
  }

  // ---------- what a lock does to requests in flight ----------

  /** The request holds a wiped cell with signatures still to make, or has already failed. */
  predicate Lost(keys: Keys, thread: Thread) {
    match thread
    case Signing(req, cell, made) => cell < |keys.heap| && keys.heap[cell] == 0 && !Complete(req, made)
    case Refused(_) => true
    case Failed(_) => true
    case _ => false
  }

  lemma LostStaysLost(lib: Library, key: PrivKey, s: State, a: Action, t: nat)
    requires lib.Lawful() && t < |s.threads| && Lost(s.keys, s.threads[t])
    ensures var next := Step(lib, key, s, a);
            && t < |next.threads| && Lost(next.keys, next.threads[t])
            && next.threads[t].req == s.threads[t].req
  {
    if a == Advance(t) && s.threads[t].Signing? {
      WipedSignsNothing(lib, s.threads[t].req, s.threads[t].made);
    }
  }

  lemma {:induction false} LostForever(lib: Library, key: PrivKey, s: State, actions: seq<Action>, t: nat)
    requires lib.Lawful() && t < |s.threads| && Lost(s.keys, s.threads[t])
    ensures var end := Run(lib, key, s, actions); t < |end.threads| && Lost(end.keys, end.threads[t])
    decreases |actions|
  {
    if actions != [] {
      LostStaysLost(lib, key, s, actions[0], t);
      LostForever(lib, key, Step(lib, key, s, actions[0]), actions[1..], t);
    }
  }

  /** A request that is still signing when the key is locked fails whole, in every continuation, even if the key is
      unlocked again: no later interleaving lets it answer. */
  lemma LockedMidwayNeverAnswers(
    lib: Library, key: PrivKey, before: seq<Action>, after: seq<Action>, t: nat)
    requires lib.Lawful()
    requires var s := Run(lib, key, INITIAL, before);
             t < |s.threads| && s.threads[t].Signing? && !Complete(s.threads[t].req, s.threads[t].made)
    ensures var s := Run(lib, key, Step(lib, key, Run(lib, key, INITIAL, before), Lock), after);
            t < |s.threads| && !s.threads[t].Answered? && !s.threads[t].Succeeded?
  {
    var s := Run(lib, key, INITIAL, before);
    RunKeepsInv(lib, key, INITIAL, before);
    LockKeepsOneLiveKey(s.keys, key);
    assert Sound(lib, key, s.keys, s.threads[t]);
    LostForever(lib, key, Step(lib, key, s, Lock), after, t);
  }

  /** A request that asks for the key while it is locked fails, and nothing that happens later changes that. */
  lemma StartedLockedNeverSigns(lib: Library, key: PrivKey, s: State, after: seq<Action>, t: nat)
    requires lib.Lawful() && s.keys.current.None? && t < |s.threads| && s.threads[t].Arrived?
    ensures var end := Run(lib, key, Step(lib, key, s, Advance(t)), after);
            t < |end.threads| && !end.threads[t].Answered? && !end.threads[t].Succeeded? && !end.threads[t].Signing?
  {
    RefusedForever(lib, key, Step(lib, key, s, Advance(t)), after, t);
  }

  lemma {:induction false} RefusedForever(lib: Library, key: PrivKey, s: State, actions: seq<Action>, t: nat)
    requires t < |s.threads| && (s.threads[t].Refused? || s.threads[t].Failed?)
    ensures var end := Run(lib, key, s, actions);
            t < |end.threads| && (end.threads[t].Refused? || end.threads[t].Failed?)
    decreases |actions|
  {
    if actions != [] {
      RefusedForever(lib, key, Step(lib, key, s, actions[0]), actions[1..], t);
    }
  }

  // ---------- a wrong passphrase opens nothing ----------

  /** The request has no answer and, on these keys, cannot get one: it has not started, it holds a wiped cell with
      signatures still to make, or it has failed. */
  predicate Idle(keys: Keys, thread: Thread) { thread.Arrived? || Lost(keys, thread) }

  predicate NeverOpens(actions: seq<Action>) {
    forall i | 0 <= i < |actions| :: actions[i].Unlock? ==> !actions[i].opens
  }

  /** Every request of `s` that was idle is idle in `end`, and so is every request that came later. */
  ghost predicate StillIdle(s: State, end: State) {
    && |s.threads| <= |end.threads|
    && forall t | 0 <= t < |end.threads| && (t < |s.threads| ==> Idle(s.keys, s.threads[t])) ::
         Idle(end.keys, end.threads[t])
  }

  lemma StepStaysLocked(lib: Library, key: PrivKey, s: State, a: Action)
    requires lib.Lawful() && s.keys.current.None? && (a.Unlock? ==> !a.opens)
    ensures var next := Step(lib, key, s, a); next.keys == s.keys && StillIdle(s, next)
  {
    if a.Advance? && a.t < |s.threads| {
      var before := s.threads[a.t];
      if Lost(s.keys, before) && before.Signing? {
        WipedSignsNothing(lib, before.req, before.made);
      }
    }
  }

  /** From a locked ring, however often wrong passphrases are tried: the ring stays locked, no cell gets a key, and no
      request that had signatures to make then, or that comes later, is ever answered. */
  lemma {:induction false} WrongPassphraseNeverSigns(lib: Library, key: PrivKey, s: State, actions: seq<Action>)
    requires lib.Lawful() && s.keys.current.None? && NeverOpens(actions)
    ensures var end := Run(lib, key, s, actions); end.keys == s.keys && StillIdle(s, end)
    decreases |actions|
  {
    if actions != [] {
      assert actions[0].Unlock? ==> !actions[0].opens;
      StepStaysLocked(lib, key, s, actions[0]);
      WrongPassphraseNeverSigns(lib, key, Step(lib, key, s, actions[0]), actions[1..]);
    }
  }

  /** On a locked ring every request that has neither failed nor made all its signatures is idle. */
  lemma LockedIsIdle(lib: Library, key: PrivKey, s: State, t: nat)
    requires Inv(lib, key, s) && s.keys.current.None? && t < |s.threads|
    ensures Idle(s.keys, s.threads[t]) <==>
            match s.threads[t]
            case Signing(req, _, made) => !Complete(req, made)
            case Answered(_, _) => false
            case Succeeded(_, _) => false
            case _ => true
  {
    assert Sound(lib, key, s.keys, s.threads[t]);
  }

  // ---------- without a lock, a request completes ----------

  lemma RunOn(lib: Library, key: PrivKey, s: State, a: Action, rest: seq<Action>)
    ensures Run(lib, key, s, [a] + rest) == Run(lib, key, Step(lib, key, s, a), rest)
  {
    assert ([a] + rest)[1..] == rest;
  }

  /** A request that holds a live cell and is signable completes when it is left to itself. */
  lemma {:induction false} SigningCompletes(lib: Library, key: PrivKey, s: State, t: nat, resp: Response)
    returns (actions: seq<Action>)
    requires t < |s.threads| && s.threads[t].Signing? && SignedWith(lib, key, s.threads[t].req, s.threads[t].made)
    requires s.threads[t].cell < |s.keys.heap| && s.keys.heap[s.threads[t].cell] == key
    requires SignTransactions(lib, key, s.threads[t].req) == Some(resp)
    ensures var end := Run(lib, key, s, actions);
            t < |end.threads| && end.threads[t] == Succeeded(s.threads[t].req, resp)
    decreases CallsLeft(s.threads[t].req, s.threads[t].made)
  {
    var req, made := s.threads[t].req, s.threads[t].made;
    var next := Step(lib, key, s, Advance(t));
    if Complete(req, made) {
      CompleteIsAnswer(lib, key, req, made);
      actions := [Advance(t)] + ([Advance(t)] + []);
      RunOn(lib, key, s, Advance(t), [Advance(t)] + []);
      RunOn(lib, key, next, Advance(t), []);
    } else {
      if SignOne(lib, key, req, made).None? {
        FailureIsFailure(lib, key, req, made);
      }
      OneMoreSigned(lib, key, req, made);
      var rest := SigningCompletes(lib, key, next, t, resp);
      actions := [Advance(t)] + rest;
      RunOn(lib, key, s, Advance(t), rest);
    }
  }

  /** Unlocked and undisturbed, the signer answers every signable request. */
  lemma UndisturbedCompletes(lib: Library, key: PrivKey, req: Request, resp: Response) returns (actions: seq<Action>)
    requires SignTransactions(lib, key, req) == Some(resp)
    ensures var end := Run(lib, key, INITIAL, actions); |end.threads| > 0 && end.threads[0] == Succeeded(req, resp)
  {
    var unlocked := Step(lib, key, INITIAL, Unlock(true));
    var arrived := Step(lib, key, unlocked, Arrive(req));
    var started := Step(lib, key, arrived, Advance(0));
    assert arrived.threads == [Arrived(req)] && started.threads == [Signing(req, 0, NOTHING)];
    var rest := SigningCompletes(lib, key, started, 0, resp);
    actions := [Unlock(true)] + ([Arrive(req)] + ([Advance(0)] + rest));
    RunOn(lib, key, INITIAL, Unlock(true), [Arrive(req)] + ([Advance(0)] + rest));
    RunOn(lib, key, unlocked, Arrive(req), [Advance(0)] + rest);
    RunOn(lib, key, arrived, Advance(0), rest);
  }

  // ---------- the handler ----------

  /** The HTTP handlers' view: the retriever and the signing counters. */
  class Handler {
    const lib: Library
    const keyring: KeyringRetriever
    var received: nat
    var succeeded: nat
    var failed: nat

    constructor (lib: Library, keyring: KeyringRetriever)
      ensures this.lib == lib && this.keyring == keyring && received == succeeded == failed == 0
    {
      this.lib := lib;
      this.keyring := keyring;
      received, succeeded, failed := 0, 0, 0;
    }

    /** A body that does not decode or parse is answered without being counted; every other request is counted once on
        arrival and once on completion. `payload` is the decoded body. */
    method SignTransactions(payload: Option<W.SignTransactionsRequest>) returns (r: Option<W.SignTransactionsResponse>)
      requires keyring.Valid()
      modifies this
      ensures var parsed := if payload.None? then None else W.ParseSigningRequest(lib, payload.value);
              && received == old(received) + (if parsed.Some? then 1 else 0)
              && received - succeeded - failed == old(received - succeeded - failed)
              && succeeded == old(succeeded) + (if r.Some? then 1 else 0)
              && (r.Some? <==>
                    && parsed.Some? && keyring.cell != null
                    && SignerApp.SignTransactions(lib, keyring.cell.secret, parsed.value).Some?)
              && (r.Some? ==>
                    r.value ==
                    W.ToResponse(lib, SignerApp.SignTransactions(lib, keyring.cell.secret, parsed.value).value))
    {
      if payload.None? {
        return None;
      }
      var parsed := W.ParseRequest(lib, payload.value);
      if parsed.None? {
        return None;
      }
      received := received + 1;
      var cell := keyring.PrivKey();
      var resp := SignAll(lib, if cell == null then None else Some(cell.secret), parsed.value);
      if resp.None? {
        failed := failed + 1;
        return None;
      }
      var wire := W.EncodeResponse(lib, resp.value);
      succeeded := succeeded + 1;
      r := Some(wire);
    }
  }
}
