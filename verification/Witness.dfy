/** Concrete deployments: one in which a tick re-sends a delegation it has just recorded, and one in which a late
    execution puts this member's signature beyond the quorum. */
module Witness {
  import opened Wrappers
  import opened Hex
  import opened Btc
  import opened Types
  import opened Covenant
  import opened Submission
  import opened Chain
  import opened Emulator
  import opened CachedScan
  import opened Deployment
  import opened PlainCodec
  import F = Freshness
  import M = MessageIndex
  import P = Pagination
  import PC = ParamsCache
  import Q = Quorum
  import R = Resend
  import RS = RemoteSigning
  import S = SignerApp
  import SF = Safety
  import T = Text
  import V = SigningService
  import W = Wire

  // ---------- a library ----------

  function Zeros(n: nat): Bytes { seq(n, _ => 0) }

  function SigBytes(sig: Signature): Bytes { Zeros(sig.r) + [1] + Zeros(sig.s) }

  function FirstOne(bytes: Bytes): (i: nat)
    ensures i <= |bytes|
    ensures forall j | 0 <= j < i :: bytes[j] != 1
    ensures i < |bytes| ==> bytes[i] == 1
  {
    if bytes == [] || bytes[0] == 1 then 0 else 1 + FirstOne(bytes[1..])
  }

  function SigFromBytes(bytes: Bytes): Option<Signature> {
    var r := FirstOne(bytes);
    if r < |bytes| then Some(Signature(r, |bytes| - r - 1)) else None
  }

  lemma SigRoundTrip(sig: Signature)
    ensures SigBytes(sig) != [] && SigFromBytes(SigBytes(sig)) == Some(sig)
  {
    var bytes := SigBytes(sig);
    assert bytes[sig.r] == 1;
    assert forall j | 0 <= j < sig.r :: bytes[j] == 0;
  }

  const LIB := Library(
    (tx: Tx) => if tx == Tx([], [TxOut(0, [])], tx.rest) then Some(tx.rest) else None,
    bytes => Some(Tx([], [TxOut(0, [])], bytes)),
    _ => None,
    _ => None,
    (k: EncKey) => Zeros(k.point),
    bytes => Some(EncKey(|bytes|)),
    SigBytes,
    SigFromBytes,
    (_, _, _, _, key, _) => if key == 0 then None else Some([]),
    (_, _, _, _, key) => if key == 0 then None else Some(Signature(0, 0)),
    (_, _, _, _, key) => if key == 0 then None else Some(Signature(0, 0)))

  lemma LibIsLawful()
    ensures LIB.Lawful()
  {
    forall sig ensures SigBytes(sig) != [] && SigFromBytes(SigBytes(sig)) == Some(sig) {
      SigRoundTrip(sig);
    }
  }

  const TX := Tx([], [TxOut(0, [])], [0])
  const SLASHING_TX := Tx([], [TxOut(0, [])], [])

  const ST := Staking(
    LIB,
    _ => Some(SLASHING_TX),
    (tx: Tx) => if tx.rest == [1] then 1 else 0,
    (h: Hash) => seq(h, _ => 'a'),
    text => Some(|text|),
    (_, funding: Tx, i: nat, _, _, _, _, _) => i < |funding.outs|,
    (_, _, _, _, _, _) => Some(([1], [1])),
    (_, _, _, _, _, _) => Some([1]),
    (pk: PubKey) => Some(EncKey(pk.x)))

  lemma StakingIsLawful()
    ensures ST.Lawful()
  {
    LibIsLawful();
  }

  // ---------- a channel to the signer ----------

  const PK := PubKey(7, false)
  const REQUEST := SigningRequest(TX, SLASHING_TX, TX, TX, None, 0, [1], [1], [1], [EncKey(7)])
  const RESPONSE := SignaturesResponse([[]], Signature(0, 0), None, [[]])

  /** The length of a request's body. */
  function BodySize(codec: RS.Codec, req: SigningRequest): nat {
    match W.ToSignTransactionRequest(LIB, RS.ToSignerRequest(req))
    case None => 0
    case Some(wire) => |codec.marshalRequest(wire)|
  }

  const CHANNEL := V.Channel(CODEC, "", "", BodySize(CODEC, REQUEST), 1)

  function Ask(req: SigningRequest): Option<SignaturesResponse> {
    RS.RemoteSign(LIB, CODEC, "", V.Unlocked(CHANNEL), req)
  }

  lemma ShortTexts()
    ensures |WriteText("")| == 1 && |WriteText("01")| == 102 && EncodeHex([1]) == "01" && EncodeHex([]) == ""
  {
    assert "01"[1..] == "1" && "1"[1..] == "";
    assert |WriteText("1")| == 1 + |WriteChar('1')| + 1;
    assert |WriteText("01")| == 1 + |WriteChar('0')| + |WriteText("1")|;
  }

  lemma ResponseFits()
    ensures RS.ResponseSize(LIB, CODEC, RESPONSE) <= RS.MAX_RESPONSE_SIZE
  {
    ShortTexts();
    var wire := W.ToResponse(LIB, S.Response([[]], Signature(0, 0), [[]], None));
    assert wire == W.SignTransactionsResponse([""], "01", [""], "");
    var form := ResponseForm(wire);
    assert form == Form(["01", "", "", ""], [1]);
    var t := form.texts;
    assert t[1..] == ["", "", ""] && t[1..][1..] == ["", ""] && t[1..][1..][1..] == [""];
    assert t[1..][1..][1..][1..] == [];
    assert |WriteList(WriteText, [""])| == 1 + 1 + 1;
    assert |WriteList(WriteText, ["", ""])| == 1 + 1 + 3;
    assert |WriteList(WriteText, ["", "", ""])| == 1 + 1 + 5;
    assert |WriteList(WriteText, t)| == 1 + 102 + 7;
    assert [1][1..] == [];
    assert |WriteList(WriteNat, [1])| == 1 + 2 + 1;
  }

  lemma RequestIsCarried(codec: RS.Codec, server: RS.Server)
    requires server == RS.Server("", BodySize(codec, REQUEST), Some(1))
    ensures RS.Carried(LIB, codec, "", server, REQUEST)
  {
    assert W.ToSignTransactionRequest(LIB, RS.ToSignerRequest(REQUEST)).Some?;
  }

  lemma KeyAnswers()
    ensures RS.Answers(LIB, 1, REQUEST, RESPONSE)
  {
  }

  lemma CarriedIsAnswered(
    lib: Library, codec: RS.Codec, server: RS.Server, req: SigningRequest, resp: SignaturesResponse)
    requires lib.Lawful() && codec.Lawful() && RS.Carried(lib, codec, "", server, req)
    requires RS.Answers(lib, server.unlocked.value, req, resp)
    requires RS.ResponseSize(lib, codec, resp) <= RS.MAX_RESPONSE_SIZE
    ensures RS.RemoteSign(lib, codec, "", server, req) == Some(resp)
  {
    RS.RemoteSigningIsLocalSigning(lib, codec, "", server, req, resp);
  }

  /** The request travels to the signer and the answer comes back. */
  lemma RequestIsAnswered()
    ensures Ask(REQUEST) == Some(RESPONSE)
  {
    LibIsLawful();
    CodecIsLawful();
    RequestIsCarried(CODEC, V.Unlocked(CHANNEL));
    KeyAnswers();
    ResponseFits();
    CarriedIsAnswered(LIB, CODEC, V.Unlocked(CHANNEL), REQUEST, RESPONSE);
  }

  // ---------- a deployment ----------

  /** Version 0 has this member as its committee; every other version has nobody. */
  function RawOf(version: nat): PC.RawParams {
    PC.RawParams(0, if version == 0 then [7] else [], [], 1, 0, 0, 0, 0, 0, 0, 0, 0)
  }

  const PARAMS := PC.Chain(
    _ => true,
    (_: nat, v: nat) => PC.Attempt(Some(PC.CheckpointParams(0, 0)), Some(RawOf(v))),
    (v: nat) => Some(RawOf(v)))

  function ParamsOf(version: nat): Option<Versioned> { PublishedParams(PARAMS, version) }

  lemma ParamsAre(version: nat)
    ensures ParamsOf(version) ==
            Some(Versioned(0, if version == 0 then [PK] else [], [], 1, 0, 0, 0, 0, 0, 0, 0, 0))
  {
    var raw, r := RawOf(version), ParamsOf(version);
    assert forall i | 0 <= i < |raw.covenantPks| :: PC.LiftX(PARAMS.onCurve, raw.covenantPks[i]) == Some(PK);
    assert r.Some? && |r.value.covenantPks| == |raw.covenantPks|;
    assert version == 0 ==> r.value.covenantPks == [PK];
  }

  /** This member's deployment on a network. */
  function SystemOn(net: (ChainState, nat, seq<CovenantSigs>) -> R.Reply): System {
    System(ST, PK, 1, ParamsOf, (_, _) => true, net, 0, 2, 1)
  }

  function SiteOn(sys: System): Site { Site(sys, PARAMS, CHANNEL) }

  const REMOTE := Remote(_ => true, Ask)

  lemma QueriesNeverFail()
    ensures PARAMS.Honest() && Reliable(PARAMS)
  {
    forall n: nat, v: nat ensures !PC.Fails(PARAMS, n, v) {
      ParamsAre(v);
      assert PARAMS.attempt(n, v).staking == PARAMS.published(v) && PARAMS.attempt(n, v).checkpoint.Some?;
    }
  }

  lemma SiteIsLinked(sys: System)
    requires Valid(sys) && sys.published == ParamsOf && sys.key == 1
    ensures Linked(SiteOn(sys))
  {
    QueriesNeverFail();
    CodecIsLawful();
  }

  lemma RemoteIsGenuine(sys: System)
    requires sys.st == ST
    ensures Genuine(SiteOn(sys), REMOTE)
  {
    LibIsLawful();
    forall req | Ask(req).Some? ensures V.Obtained(LIB, CHANNEL, req, Ask(req).value) {
      V.ObtainedIff(LIB, CHANNEL, req, Ask(req).value);
    }
  }

  // ---------- a network that names the failing message ----------

  const SILENT := SystemOn((_, _, _) => R.Rejected(""))

  /** The chain's answer: the batch is executed, or its first failing message is named. */
  function Answer(c: ChainState, batch: seq<CovenantSigs>): R.Reply {
    match R.Execute(ApplyOf(SILENT), c, batch)
    case Success(_) => R.Delivered(None)
    case Failure(k) => R.Rejected(M.Rendered("", k, ""))
  }

  const SYS := SystemOn((c, _, batch) => Answer(c, batch))

  lemma SameApply(c: ChainState, msg: CovenantSigs)
    ensures Apply(SYS, c, msg) == Apply(SILENT, c, msg)
  {
  }

  lemma SameExecution(c: ChainState, batch: seq<CovenantSigs>)
    ensures R.Execute(ApplyOf(SYS), c, batch) == R.Execute(ApplyOf(SILENT), c, batch)
  {
    forall d: ChainState, msg: CovenantSigs ensures ApplyOf(SYS)(d, msg) == ApplyOf(SILENT)(d, msg) {
      SameApply(d, msg);
    }
    R.ExecuteSame(ApplyOf(SYS), ApplyOf(SILENT), c, batch);
  }

  lemma SysIsValid()
    ensures Valid(SYS)
  {
    StakingIsLawful();
    forall c: ChainState, i: nat, batch: seq<CovenantSigs> | SYS.net(c, i, batch).Delivered?
      ensures R.Execute(ApplyOf(SYS), c, batch).Success?
    {
      SameExecution(c, batch);
    }
  }

  lemma NetIsHonest(c: ChainState)
    ensures R.Honest(R.NamedMessage, NetAt(SYS, c), ApplyOf(SYS), c, 1)
  {
    forall i: nat, batch: seq<CovenantSigs> | |batch| <= 1
      ensures match R.Execute(ApplyOf(SYS), c, batch)
              case Success(_) => NetAt(SYS, c)(i, batch).Delivered?
              case Failure(k) =>
                NetAt(SYS, c)(i, batch).Rejected? && R.Renders(NetAt(SYS, c)(i, batch).text, k)
    {
      SameExecution(c, batch);
      R.FailureIndexInRange(ApplyOf(SYS), c, batch);
      var r := R.Execute(ApplyOf(SYS), c, batch);
      if r.Failure? {
        assert M.Rendered("", r.error, "") == NetAt(SYS, c)(i, batch).text;
      }
    }
    R.RenderingChainIsHonest(NetAt(SYS, c), ApplyOf(SYS), c, 1);
  }

  // ---------- two pending delegations ----------

  function Del(h: Byte): Delegation {
    var tx := EncodeHex([h]);
    Delegation(PK, [PK], 0, 0, tx, 0, tx, 0, [], Some(Undelegation(tx, tx, [], [])), h, None)
  }

  function Pair(a: Delegation, b: Delegation): ChainState { ChainState(map[0 := a, 1 := b], [0, 1]) }

  const CHAIN := Pair(Del(0), Del(1))
  const START := State(CHAIN, [])
  const SITE := SiteOn(SYS)
  const ENV := PlainEnv(SITE, REMOTE)

  lemma DelHash(h: Byte)
    requires h < 2
    ensures HashOf(ST, Del(h)) == Some(h) && |EncodeHex([h])| == 2
    ensures LIB.TxFromHex(EncodeHex([h])) == Some(Tx([], [TxOut(0, [])], [h]))
  {
    DecodeUndoesEncode([h]);
  }

  lemma PairStarts(sys: System, a: Delegation, b: Delegation)
    requires HashOf(sys.st, a) == Some(0) && WholeSets(a) && a.stakingTime <= MAX_UINT16 && a.covenantSigs == []
    requires HashOf(sys.st, b) == Some(1) && WholeSets(b) && b.stakingTime <= MAX_UINT16 && b.covenantSigs == []
    ensures Start(sys, State(Pair(a, b), []))
  {
  }

  lemma ChainStarts()
    ensures Start(SYS, START)
  {
    DelHash(0);
    DelHash(1);
    PairStarts(SYS, Del(0), Del(1));
  }

  lemma MemberIsAccepted(w: World)
    requires w.params(0) == ParamsOf(0)
    ensures Accept(ST, w, PK, Del(0)) == Some(true)
  {
    ParamsAre(0);
    assert XOnly(ParamsOf(0).value.covenantPks[0]) == XOnly(PK);
    assert InCommittee(XOnly(PK), ParamsOf(0).value);
  }

  lemma StrangerIsRefused(w: World)
    requires w.params(1) == ParamsOf(1)
    ensures Accept(ST, w, PK, Del(1)) == Some(false)
  {
    ParamsAre(1);
  }

  lemma PairVerdicts(sys: System, env: Env, a: Delegation, b: Delegation)
    requires Convert(a) == Some(a) && Convert(b) == Some(b)
    requires Accept(sys.st, WorldAt(sys, env, Pair(a, b)), sys.pk, a) == Some(true)
    requires Accept(sys.st, WorldAt(sys, env, Pair(a, b)), sys.pk, b) == Some(false)
    ensures ScanVerdict(sys, env, Pair(a, b), 0) == P.Keep(a) && ScanVerdict(sys, env, Pair(a, b), 1) == P.Drop
  {
  }

  lemma ScanKeepsOne()
    ensures ScanVerdict(SYS, ENV, CHAIN, 0) == P.Keep(Del(0)) && ScanVerdict(SYS, ENV, CHAIN, 1) == P.Drop
  {
    DelHash(0);
    DelHash(1);
    MemberIsAccepted(WorldAt(SYS, ENV, CHAIN));
    StrangerIsRefused(WorldAt(SYS, ENV, CHAIN));
    PairVerdicts(SYS, ENV, Del(0), Del(1));
  }

  /** A staking library that objects to nothing. */
  ghost predicate Lenient(st: Staking) {
    && (forall text :: st.decodeSlashingTx(text) == Some(SLASHING_TX))
    && (forall a: Tx, b: Tx, i: nat, f: int, r: nat, s: Bytes, k: PubKey, t: nat ::
          i < |b.outs| ==> st.slashingMatches(a, b, i, f, r, s, k, t))
    && (forall k: PubKey, fps: seq<PubKey>, ms: seq<PubKey>, q: nat, t: nat, v: int ::
          st.stakingPaths(k, fps, ms, q, t, v) == Some(([1], [1])))
    && (forall k: PubKey, fps: seq<PubKey>, ms: seq<PubKey>, q: nat, t: nat, v: int ::
          st.unbondingPath(k, fps, ms, q, t, v) == Some([1]))
    && (forall k: PubKey :: st.encKey(k) == Some(EncKey(k.x)))
  }

  lemma StakingIsLenient()
    ensures Lenient(ST)
  {
  }

  lemma QuorumIsOpen(del: Delegation)
    requires del.covenantSigs == [] && del.btcUndelegation.Some?
    ensures !HasCovenantQuorum(del, 1)
  {
  }

  lemma NoFee()
    ensures FeeMatches(0, 0, 0)
  {
    FeeIsExact(0, 0);
  }

  /** A delegation of nothing to one finality provider. */
  predicate Blank(st: Staking, del: Delegation) {
    && del.btcUndelegation.Some? && del.stakeExpansion.None? && del.covenantSigs == [] && del.fpBtcPks == [PK]
    && del.unbondingTime == del.stakingTime == del.totalSat == del.stakingOutputIdx == del.paramsVersion == 0
    && st.lib.TxFromHex(del.stakingTxHex) == Some(TX)
    && st.lib.TxFromHex(del.btcUndelegation.value.unbondingTxHex) == Some(TX)
    && st.lib.TxFromHex(del.btcUndelegation.value.slashingTxHex) == Some(TX)
  }

  lemma BlankMeetsTermRules(st: Staking, del: Delegation, p: Versioned)
    requires Lenient(st) && Blank(st, del) && p == Versioned(0, [PK], [], 1, 0, 0, 0, 0, 0, 0, 0, 0)
    ensures MeetsTermRules(st, del, p, REQUEST)
  {
    NoFee();
    assert StakingPaths(st, del, p) == Some(([1], [1]));
  }

  lemma BlankIsSigned(st: Staking, w: World, sign: Signer, del: Delegation)
    requires st.Lawful() && Lenient(st) && Blank(st, del)
    requires w.params(0) == Some(Versioned(0, [PK], [], 1, 0, 0, 0, 0, 0, 0, 0, 0)) && sign(REQUEST) == Some(RESPONSE)
    ensures VerdictOn(st, w, sign, PK, del) == Success(CovenantSigsOf(st, PK, REQUEST, RESPONSE))
  {
    BlankMeetsTermRules(st, del, w.params(0).value);
    QuorumIsOpen(del);
    AnsweredIsSigned(st, w, sign, PK, del, w.params(0).value, REQUEST);
  }

  lemma DelIsBlank()
    ensures Blank(ST, Del(0))
  {
    DelHash(0);
  }

  /** The message this member submits for the first delegation. */
  function Message(): CovenantSigs { CovenantSigsOf(ST, PK, REQUEST, RESPONSE) }

  lemma DelIsSigned(w: World)
    requires ST.Lawful() && w.params(0) == ParamsOf(0)
    ensures VerdictOn(ST, w, Ask, PK, Del(0)) == Success(Message())
  {
    ParamsAre(0);
    RequestIsAnswered();
    StakingIsLenient();
    DelIsBlank();
    BlankIsSigned(ST, w, Ask, Del(0));
  }

  // ---------- a tick that re-sends ----------

  function Same(remote: Remote): nat -> nat -> Remote { (k: nat) => (i: nat) => remote }

  /** Nothing goes wrong on this chain. */
  ghost predicate Obliging(sys: System) {
    && (forall c: ChainState :: R.Honest(R.NamedMessage, NetAt(sys, c), ApplyOf(sys), c, sys.batchSize))
    && (forall c: ChainState, msg: CovenantSigs | msg.stakingTxHash in c.dels :: F.Verifies(sys, c, msg))
    && sys.cap == 0
  }

  /** Two pending delegations of which the deployment accepts and signs the first, and nothing goes wrong. */
  ghost predicate Scene(site: Site, remote: Remote, a: Delegation, b: Delegation) {
    && Linked(site) && Reliable(site.params) && Genuine(site, remote) && Obliging(site.sys)
    && site.sys.limit == 2 && site.sys.batchSize == 1
    && Start(site.sys, State(Pair(a, b), []))
    && var env := PlainEnv(site, remote);
    && ScanVerdict(site.sys, env, Pair(a, b), 0) == P.Keep(a)
    && ScanVerdict(site.sys, env, Pair(a, b), 1) == P.Drop
    && F.Signs(site.sys, env, Pair(a, b), a)
  }

  lemma PairCooperates(site: Site, remote: Remote, a: Delegation, b: Delegation)
    requires Valid(site.sys) && Obliging(site.sys)
    requires var env := PlainEnv(site, remote);
             && ScanVerdict(site.sys, env, Pair(a, b), 0) == P.Keep(a)
             && ScanVerdict(site.sys, env, Pair(a, b), 1) == P.Drop
             && F.Signs(site.sys, env, Pair(a, b), a)
    ensures F.Cooperative(site.sys, PlainEnvs(site, Same(remote)), Pair(a, b))
  {
    var env := PlainEnvs(site, Same(remote));
    assert env(0)(0) == PlainEnv(site, remote);
    forall k: nat, i: nat | k >= 1 ensures F.Signs(site.sys, env(k)(i), Pair(a, b), a) {
      assert env(k)(i) == PlainEnv(site, remote);
    }
    assert forall h | h in Pair(a, b).pending :: h == 0 || h == 1;
  }

  lemma PairWraps(sys: System, env: Env, a: Delegation, b: Delegation)
    requires sys.limit == 2 && sys.batchSize == 1
    requires ScanVerdict(sys, env, Pair(a, b), 0) == P.Keep(a) && ScanVerdict(sys, env, Pair(a, b), 1) == P.Drop
    ensures !F.NoRepeats(sys, env, Pair(a, b))
    ensures P.Finishes(Pair(a, b).pending, ScanJudge(sys, env, Pair(a, b)), sys.limit)
  {
    P.OneOfTwoRepeats(ScanJudge(sys, env, Pair(a, b)), 0, 1, a);
  }

  lemma PairIsReady(site: Site, remote: Remote, a: Delegation, b: Delegation)
    requires Scene(site, remote, a, b)
    ensures !F.NoRepeats(site.sys, PlainEnv(site, remote), Pair(a, b))
    ensures ScanEnds(site, remote.reachable, Pair(a, b), EMPTY)
    ensures AllGenuine(site, Same(remote))
  {
    PairWraps(site.sys, PlainEnv(site, remote), a, b);
    ReliableScan(site, remote, Pair(a, b), EMPTY);
  }

  lemma PairIsSentAgain(site: Site, remote: Remote, a: Delegation, b: Delegation)
    requires Scene(site, remote, a, b)
    ensures !F.AllFresh(site.sys, TickWithCache(site, Same(remote), EMPTY, State(Pair(a, b), [])).1.sends)
  {
    PairIsReady(site, remote, a, b);
    PairCooperates(site, remote, a, b);
    TockResendsIff(site, Same(remote), EMPTY, State(Pair(a, b), []));
  }

  lemma OneTick(site: Site, remotes: nat -> nat -> Remote, s: State)
    requires Valid(site.sys) && AllGenuine(site, remotes) && ScanEnds(site, remotes(0)(0).reachable, s.chain, EMPTY)
    ensures PossibleRun(site, EMPTY, s, [Tock(remotes)])
    ensures RunWithCache(site, EMPTY, s, [Tock(remotes)]) == TickWithCache(site, remotes, EMPTY, s)
  {
    assert [Tock(remotes)][1..] == [];
  }

  lemma SceneSendsAgain(site: Site, remote: Remote, a: Delegation, b: Delegation)
    requires Scene(site, remote, a, b)
    ensures var s, events := State(Pair(a, b), []), [Tock(Same(remote))];
            PossibleRun(site, EMPTY, s, events) && !F.AllFresh(site.sys, RunWithCache(site, EMPTY, s, events).1.sends)
  {
    PairIsReady(site, remote, a, b);
    PairIsSentAgain(site, remote, a, b);
    OneTick(site, Same(remote), State(Pair(a, b), []));
  }

  lemma SysIsObliging()
    ensures Obliging(SYS)
  {
    forall c: ChainState ensures R.Honest(R.NamedMessage, NetAt(SYS, c), ApplyOf(SYS), c, SYS.batchSize) {
      NetIsHonest(c);
    }
    forall c: ChainState, msg: CovenantSigs | msg.stakingTxHash in c.dels ensures F.Verifies(SYS, c, msg) {
    }
  }

  lemma SiteStarts()
    ensures Linked(SITE) && Start(SYS, START) && Reliable(PARAMS) && Genuine(SITE, REMOTE)
  {
    SysIsValid();
    SiteIsLinked(SYS);
    ChainStarts();
    QueriesNeverFail();
    RemoteIsGenuine(SYS);
  }

  lemma SceneIsSet()
    ensures Scene(SITE, REMOTE, Del(0), Del(1))
  {
    SiteStarts();
    SysIsObliging();
    ScanKeepsOne();
    DelIsSigned(WorldAt(SYS, ENV, CHAIN));
  }

  /** From a chain without any signature, with an empty cache, everything working and the signatures made by the remote
      signer, the very first tick sends signatures for a delegation whose signature it has recorded. */
  lemma TickSendsAgain()
    ensures Linked(SITE) && Start(SYS, START) && PossibleRun(SITE, EMPTY, START, [Tock(Same(REMOTE))])
    ensures !F.AllFresh(SYS, RunWithCache(SITE, EMPTY, START, [Tock(Same(REMOTE))]).1.sends)
  {
    SceneIsSet();
    SceneSendsAgain(SITE, REMOTE, Del(0), Del(1));
  }

  // ---------- a late execution beyond the quorum ----------

  function Single(del: Delegation): ChainState { ChainState(map[0 := del], [0]) }

  /** Every send is answered with an error that names no message. */
  ghost predicate Unhelpful(sys: System) {
    && (forall c: ChainState, i: nat, batch: seq<CovenantSigs> :: sys.net(c, i, batch) == R.Rejected(""))
    && (forall del: Delegation, msg: CovenantSigs :: sys.verifies(del, msg))
    && sys.limit == 2 && sys.batchSize == 1 && sys.cap == 0
  }

  lemma SingleIsScanned(sys: System, env: Env, del: Delegation)
    requires sys.limit == 2 && ScanVerdict(sys, env, Single(del), 0) == P.Keep(del)
    ensures Scan(sys, env, Single(del)) == Success([del]) && !P.Wraps(1, sys.limit)
  {
    var judge := ScanJudge(sys, env, Single(del));
    assert judge(0) == P.Keep(del);
    assert [0][1..] == [] && [] + [del] == [del];
    assert P.Collect(judge, 2, [], [0]) == P.Collect(judge, 2, [] + [del], [0][1..]);
  }

  lemma SingleIsSigned(st: Staking, pk: PubKey, turn: Turn, msg: CovenantSigs)
    requires st.Lawful() && !LacksParams(turn) && VerdictIn(st, pk, turn) == Success(msg)
    ensures AddSignatures(st, pk, [turn]) == Submit([msg])
  {
    var verdicts: seq<Verdict> := [Success(msg)];
    assert Verdicts(st, pk, [turn]) == verdicts;
    assert verdicts[..0] == [] && Signed(verdicts) == [] + [msg];
    assert !SomeLacksParams([turn]);
  }

  lemma UnhelpfulSend(sys: System, c: ChainState, msg: CovenantSigs)
    requires Unhelpful(sys)
    ensures ResendAt(sys, c, [msg]) == R.Last([msg], R.Stopped(""))
  {
    assert !T.Contains("", M.MARKER);
  }

  lemma UnhelpfulBatch(sys: System, env: nat -> Env, del: Delegation, msg: CovenantSigs)
    requires sys.st.Lawful() && Unhelpful(sys)
    requires var turn := Turn(del, WorldAt(sys, env(0), Single(del)), env(0).sign);
             !LacksParams(turn) && VerdictIn(sys.st, sys.pk, turn) == Success(msg)
    ensures SubmitBatch(sys, env, State(Single(del), []), [del]) == State(Single(del), [Send(Single(del), [msg])])
  {
    var c := Single(del);
    var turn := Turn(del, WorldAt(sys, env(0), c), env(0).sign);
    assert TurnsAt(sys, env, c, [del]) == [turn];
    SingleIsSigned(sys.st, sys.pk, turn, msg);
    UnhelpfulSend(sys, c, msg);
    assert SendsAt(c, R.Last([msg], R.Stopped(""))) == [Send(c, [msg])];
  }

  lemma UnhelpfulTick(sys: System, env: nat -> nat -> Env, del: Delegation, msg: CovenantSigs)
    requires Valid(sys) && Unhelpful(sys) && ScanVerdict(sys, env(0)(0), Single(del), 0) == P.Keep(del)
    requires var turn := Turn(del, WorldAt(sys, env(1)(0), Single(del)), env(1)(0).sign);
             !LacksParams(turn) && VerdictIn(sys.st, sys.pk, turn) == Success(msg)
    ensures Tick(sys, env, State(Single(del), [])) == State(Single(del), [Send(Single(del), [msg])])
  {
    SingleIsScanned(sys, env(0)(0), del);
    UnhelpfulBatch(sys, env(1), del, msg);
    F.SubmitOne(sys, env, 1, State(Single(del), []), [del]);
  }

  /** The signature set of another member. */
  function Another(msg: CovenantSigs): CovenantSigs { msg.(publicKey := PubKey(9, false)) }

  lemma AnotherSigns(sys: System, del: Delegation, msg: CovenantSigs)
    requires Start(sys, State(Single(del), [])) && sys.pk.x != 9 && del.covenantSigs == []
    ensures Grows(sys, Single(del), Single(Record(del, Another(msg))))
  {
    var after := Record(del, Another(msg));
    RecordKeepsTerms(del, Another(msg));
    HashOfTerms(sys.st, del, after);
    assert Single(after).dels[0] == after && Single(del).dels[0] == del;
  }

  lemma ExecuteOne<S, M>(apply: R.Apply<S, M>, s: S, msg: M)
    requires apply(s, msg).Some?
    ensures R.Execute(apply, s, [msg]) == Success(apply(s, msg).value)
  {
    assert [msg][1..] == [];
    assert R.Execute(apply, apply(s, msg).value, [msg][1..]) == Success(apply(s, msg).value);
  }

  lemma LateIsBeyond(sys: System, del: Delegation, msg: CovenantSigs)
    requires Unhelpful(sys) && msg.stakingTxHash == 0 && msg.publicKey == sys.pk && sys.pk.x != 9
    requires del.covenantSigs == [] && sys.published(del.paramsVersion).Some?
    requires sys.published(del.paramsVersion).value.covenantQuorum == 1
    ensures !Q.WithinQuorum(sys, Committing(sys, Single(Record(del, Another(msg))), [msg]))
  {
    var c := Single(Record(del, Another(msg)));
    var after := Record(c.dels[0], msg);
    assert c.dels[0].covenantSigs == [CovenantAdaptorSigInfo(PubKey(9, false), msg.slashingSigs)];
    assert !AlreadySigned(XOnly(sys.pk), c.dels[0]);
    assert ApplyOf(sys)(c, msg) == Some(c.(dels := c.dels[0 := after]));
    ExecuteOne(ApplyOf(sys), c, msg);
    assert Committing(sys, c, [msg]) == c.(dels := c.dels[0 := after]);
    assert after.covenantSigs[1].pk.x == sys.pk.x;
    assert Committing(sys, c, [msg]).dels[0] == after;
    assert SF.OwnAt(sys, after, 1) && !Q.Below(sys, after, 1);
  }

  lemma NextEvent(site: Site, cache: PC.State, s: State, e: Event, rest: seq<Event>)
    requires Valid(site.sys) && !e.Restart? && Possible(site, cache, s, e)
    ensures var (next, t) := StepWithCache(site, cache, s, e);
            && RunWithCache(site, cache, s, [e] + rest) == RunWithCache(site, next, t, rest)
            && (PossibleRun(site, next, t, rest) ==> PossibleRun(site, cache, s, [e] + rest))
  {
    assert ([e] + rest)[1..] == rest;
  }

  lemma AfterTheTick(site: Site, cache: PC.State, s: State, next: ChainState)
    requires Valid(site.sys) && Grows(site.sys, s.chain, next) && |s.sends| == 1
    ensures var events := [Growth(next)] + ([LateExecution(0)] + []);
            && PossibleRun(site, cache, s, events)
            && RunWithCache(site, cache, s, events).1.chain == Committing(site.sys, next, s.sends[0].batch)
  {
    NextEvent(site, cache, s, Growth(next), [LateExecution(0)] + []);
    NextEvent(site, cache, s.(chain := next), LateExecution(0), []);
  }

  /** A deployment that accepts and signs the one pending delegation while its network reports nothing but errors. */
  ghost predicate LateScene(site: Site, remote: Remote, del: Delegation, msg: CovenantSigs) {
    && Linked(site) && Reliable(site.params) && Genuine(site, remote) && Unhelpful(site.sys)
    && Start(site.sys, State(Single(del), [])) && del.covenantSigs == [] && site.sys.pk.x != 9
    && site.sys.published(del.paramsVersion).Some?
    && site.sys.published(del.paramsVersion).value.covenantQuorum == 1
    && var env := PlainEnv(site, remote);
    && ScanVerdict(site.sys, env, Single(del), 0) == P.Keep(del)
    && VerdictOn(site.sys.st, WorldAt(site.sys, env, Single(del)), remote.sign, site.sys.pk, del) == Success(msg)
    && msg.stakingTxHash == 0 && msg.publicKey == site.sys.pk
  }

  lemma LateTick(site: Site, remote: Remote, del: Delegation, msg: CovenantSigs)
    requires LateScene(site, remote, del, msg)
    ensures Possible(site, EMPTY, State(Single(del), []), Tock(Same(remote)))
    ensures TickWithCache(site, Same(remote), EMPTY, State(Single(del), [])).1 ==
            State(Single(del), [Send(Single(del), [msg])])
  {
    SingleIsScanned(site.sys, PlainEnv(site, remote), del);
    ReliableTick(site, Same(remote), EMPTY, State(Single(del), []));
    UnhelpfulTick(site.sys, PlainEnvs(site, Same(remote)), del, msg);
  }

  function LateEvents(remote: Remote, del: Delegation, msg: CovenantSigs): seq<Event> {
    [Tock(Same(remote))] + ([Growth(Single(Record(del, Another(msg))))] + ([LateExecution(0)] + []))
  }

  lemma LateSceneIsBeyond(site: Site, remote: Remote, del: Delegation, msg: CovenantSigs)
    requires LateScene(site, remote, del, msg)
    ensures var s, events := State(Single(del), []), LateEvents(remote, del, msg);
            && PossibleRun(site, EMPTY, s, events)
            && !Q.WithinQuorum(site.sys, RunWithCache(site, EMPTY, s, events).1.chain)
  {
    var s, next := State(Single(del), []), Single(Record(del, Another(msg)));
    LateTick(site, remote, del, msg);
    var (cache, t) := TickWithCache(site, Same(remote), EMPTY, s);
    AnotherSigns(site.sys, del, msg);
    AfterTheTick(site, cache, t, next);
    NextEvent(site, EMPTY, s, Tock(Same(remote)), [Growth(next)] + ([LateExecution(0)] + []));
    LateIsBeyond(site.sys, del, msg);
  }

  const LATE_SITE := SiteOn(SILENT)
  const LATE_START := State(Single(Del(0)), [])
  const LATE_EVENTS := LateEvents(REMOTE, Del(0), Message())

  lemma SilentIsValid()
    ensures Valid(SILENT) && Unhelpful(SILENT)
  {
    StakingIsLawful();
  }

  lemma SingleStarts(sys: System, del: Delegation)
    requires HashOf(sys.st, del) == Some(0) && WholeSets(del) && del.stakingTime <= MAX_UINT16
    requires del.covenantSigs == []
    ensures Start(sys, State(Single(del), []))
  {
  }

  lemma SingleVerdict(sys: System, env: Env, del: Delegation)
    requires Convert(del) == Some(del)
    requires Accept(sys.st, WorldAt(sys, env, Single(del)), sys.pk, del) == Some(true)
    ensures ScanVerdict(sys, env, Single(del), 0) == P.Keep(del)
  {
  }

  lemma LateSiteStarts()
    ensures Linked(LATE_SITE) && Reliable(PARAMS) && Genuine(LATE_SITE, REMOTE) && Unhelpful(SILENT)
    ensures Start(SILENT, LATE_START)
  {
    SilentIsValid();
    SiteIsLinked(SILENT);
    QueriesNeverFail();
    RemoteIsGenuine(SILENT);
    DelHash(0);
    SingleStarts(SILENT, Del(0));
  }

  lemma LateDelIsKept()
    ensures ScanVerdict(SILENT, PlainEnv(LATE_SITE, REMOTE), Single(Del(0)), 0) == P.Keep(Del(0))
  {
    DelHash(0);
    MemberIsAccepted(WorldAt(SILENT, PlainEnv(LATE_SITE, REMOTE), Single(Del(0))));
    SingleVerdict(SILENT, PlainEnv(LATE_SITE, REMOTE), Del(0));
  }

  lemma LateDelIsSigned()
    requires ST.Lawful()
    ensures var w := WorldAt(SILENT, PlainEnv(LATE_SITE, REMOTE), Single(Del(0)));
            VerdictOn(ST, w, Ask, PK, Del(0)) == Success(Message())
    ensures Message().stakingTxHash == 0 && Message().publicKey == PK
  {
    DelIsSigned(WorldAt(SILENT, PlainEnv(LATE_SITE, REMOTE), Single(Del(0))));
  }

  lemma QuorumIsOne()
    ensures ParamsOf(0).Some? && ParamsOf(0).value.covenantQuorum == 1
  {
    ParamsAre(0);
  }

  lemma LateSceneIsSet()
    ensures LateScene(LATE_SITE, REMOTE, Del(0), Message())
  {
    LateSiteStarts();
    LateDelIsKept();
    LateDelIsSigned();
    QuorumIsOne();
  }

  /** A tick whose send is answered with an error, another member's signature that makes up the quorum of one, and then
      the late execution of the send: this member's signature ends up beyond the quorum. */
  lemma LateExecutionIsBeyondQuorum()
    ensures Linked(LATE_SITE) && Start(SILENT, LATE_START) && PossibleRun(LATE_SITE, EMPTY, LATE_START, LATE_EVENTS)
    ensures !Q.WithinQuorum(SILENT, RunWithCache(LATE_SITE, EMPTY, LATE_START, LATE_EVENTS).1.chain)
  {
    LateSceneIsSet();
    LateSceneIsBeyond(LATE_SITE, REMOTE, Del(0), Message());
  }
}
