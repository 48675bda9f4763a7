/** The chain as the emulator uses it: delegations by staking transaction hash, and how a signature set is recorded. */
module Chain {
  import opened Wrappers
  import opened Lists
  import opened Btc
  import opened Types
  import opened Covenant
  import opened Resend

  /** `pending` lists, in store order, the delegations whose status is pending. */
  datatype ChainState = ChainState(dels: map<Hash, Delegation>, pending: seq<Hash>)

  /** The deployment: library, this member's keys, what the chain publishes and verifies, and the configuration. */
  datatype System = System(
    st: Staking,
    pk: PubKey,
    key: PrivKey,
    published: nat -> Option<Versioned>,
    verifies: (Delegation, CovenantSigs) -> bool,
    net: (ChainState, nat, seq<CovenantSigs>) -> Reply,
    cap: nat,
    limit: nat,
    batchSize: nat)

  /** The conversion of a chain response, with its range checks; the fields otherwise carry over. */
  function Convert(del: Delegation): Option<Delegation> {
    if del.stakingTxHex == "" || del.slashingTxHex == "" then None
    else if del.btcUndelegation.Some?
            && (del.btcUndelegation.value.unbondingTxHex == "" || del.btcUndelegation.value.slashingTxHex == "")
    then None
    else if del.unbondingTime > MAX_UINT16 || del.totalSat > MAX_INT64 then None
    else Some(del)
  }

  /** A response the conversion accepts: no transaction text is missing, and the numbers fit. */
  ghost predicate Readable(del: Delegation) {
    && del.stakingTxHex != "" && del.slashingTxHex != ""
    && (del.btcUndelegation.Some? ==>
          del.btcUndelegation.value.unbondingTxHex != "" && del.btcUndelegation.value.slashingTxHex != "")
    && del.unbondingTime <= 65535
    && del.totalSat <= 0x7fff_ffff_ffff_ffff
  }

  /** The conversion refuses exactly the responses that are not readable, and changes nothing in the others. */
  lemma ConvertIff(del: Delegation)
    ensures Convert(del) == if Readable(del) then Some(del) else None
  {
  }

  /** QueryBTCDelegation. */
  function Fetch(sys: System, c: ChainState, hashHex: string): Option<Delegation> {
    var h :- sys.st.parseHash(hashHex);
    if h in c.dels then Convert(c.dels[h]) else None
  }

  function HashOf(st: Staking, del: Delegation): Option<Hash> {
    var tx :- st.lib.TxFromHex(del.stakingTxHex);
    Some(st.txHash(tx))
  }

  /** The chain keeps committee keys in x-only form, that is, with even y. */
  function Record(del: Delegation, msg: CovenantSigs): Delegation {
    var pk := PubKey(XOnly(msg.publicKey), false);
    del.(covenantSigs := del.covenantSigs + [CovenantAdaptorSigInfo(pk, msg.slashingSigs)],
         btcUndelegation :=
           match del.btcUndelegation
           case None => None
           case Some(u) =>
             Some(u.(covenantSlashingSigs :=
                       u.covenantSlashingSigs + [CovenantAdaptorSigInfo(pk, msg.slashingUnbondingSigs)],
                     covenantUnbondingSigs :=
                       u.covenantUnbondingSigs + [CovenantSchnorrSigInfo(pk, msg.unbondingSig)])))
  }

  /** A message fails on an unknown delegation, on a second set by the same key, and when the chain does not verify
      it. */
  function Apply(sys: System, c: ChainState, msg: CovenantSigs): Option<ChainState> {
    var h := msg.stakingTxHash;
    if h !in c.dels || AlreadySigned(XOnly(msg.publicKey), c.dels[h]) || !sys.verifies(c.dels[h], msg) then None
    else Some(c.(dels := c.dels[h := Record(c.dels[h], msg)]))
  }

  /** A message is recorded exactly when its delegation is stored, carries no signature set of the same key, and the
      chain verifies the signatures. */
  lemma AppliedIff(sys: System, c: ChainState, msg: CovenantSigs)
    ensures Apply(sys, c, msg).Some? <==>
            && msg.stakingTxHash in c.dels
            && var del := c.dels[msg.stakingTxHash];
            && (forall i | 0 <= i < |del.covenantSigs| :: del.covenantSigs[i].pk.x != msg.publicKey.x)
            && sys.verifies(del, msg)
  {
  }

  function ApplyOf(sys: System): (ChainState, CovenantSigs) -> Option<ChainState> {
    (c, msg) => Apply(sys, c, msg)
  }

  /** A send reported as delivered was executed as a whole; a rejected one may have failed for any reason. */
  ghost predicate Truthful(sys: System) {
    forall c: ChainState, i: nat, batch: seq<CovenantSigs> ::
      sys.net(c, i, batch).Delivered? ==> Execute(ApplyOf(sys), c, batch).Success?
  }

  ghost predicate Valid(sys: System) {
    sys.st.Lawful() && Truthful(sys) && sys.batchSize > 0
  }

  /** Delegations are stored under their own hash, signature sets are whole, staking times fit, and the pending list
      names each stored delegation at most once. */
  ghost predicate WellFormed(sys: System, c: ChainState) {
    && (forall h | h in c.dels ::
          HashOf(sys.st, c.dels[h]) == Some(h) && WholeSets(c.dels[h]) && c.dels[h].stakingTime <= MAX_UINT16)
    && Distinct(c.pending)
    && (forall i | 0 <= i < |c.pending| :: c.pending[i] in c.dels)
  }

  /** A delegation without its signatures. */
  function Terms(del: Delegation): Delegation {
    del.(covenantSigs := [],
         btcUndelegation :=
           match del.btcUndelegation
           case None => None
           case Some(u) => Some(u.(covenantSlashingSigs := [], covenantUnbondingSigs := [])))
  }

  /** `b` is `a` on the same terms, possibly with more signatures. */
  ghost predicate Keeps(a: Delegation, b: Delegation) {
    && Terms(a) == Terms(b)
    && a.covenantSigs <= b.covenantSigs
    && (a.btcUndelegation.Some? && b.btcUndelegation.Some? ==>
          && a.btcUndelegation.value.covenantSlashingSigs <= b.btcUndelegation.value.covenantSlashingSigs
          && a.btcUndelegation.value.covenantUnbondingSigs <= b.btcUndelegation.value.covenantUnbondingSigs)
  }

  lemma KeepsTransitive(a: Delegation, b: Delegation, c: Delegation)
    requires Keeps(a, b) && Keeps(b, c)
    ensures Keeps(a, c)
  {
    assert a.btcUndelegation.Some? <==> Terms(a).btcUndelegation.Some?;
    assert b.btcUndelegation.Some? <==> Terms(b).btcUndelegation.Some?;
  }

  /** Every delegation of `a` is in `c`, on the same terms and with at least the same signatures. */
  ghost predicate Within(a: ChainState, c: ChainState) {
    forall h | h in a.dels :: h in c.dels && Keeps(a.dels[h], c.dels[h])
  }

  lemma WithinTransitive(a: ChainState, b: ChainState, c: ChainState)
    requires Within(a, b) && Within(b, c)
    ensures Within(a, c)
  {
    forall h | h in a.dels ensures h in c.dels && Keeps(a.dels[h], c.dels[h]) {
      KeepsTransitive(a.dels[h], b.dels[h], c.dels[h]);
    }
  }

  /** What the rest of the world may do between two ticks: add delegations, add whole signature sets of other
      members, and change which delegations are pending. */
  ghost predicate Grows(sys: System, c: ChainState, d: ChainState) {
    && WellFormed(sys, d)
    && Within(c, d)
    && (forall h | h in c.dels :: OthersSince(sys, d.dels[h], |c.dels[h].covenantSigs|))
    && (forall h | h in d.dels && h !in c.dels :: OthersSince(sys, d.dels[h], 0))
  }

  /** No signature from position `n` on is by this member. */
  ghost predicate OthersSince(sys: System, del: Delegation, n: nat) {
    forall i | n <= i < |del.covenantSigs| :: XOnly(del.covenantSigs[i].pk) != XOnly(sys.pk)
  }

  lemma RecordKeepsTerms(del: Delegation, msg: CovenantSigs)
    ensures Keeps(del, Record(del, msg))
    ensures WholeSets(del) ==> WholeSets(Record(del, msg))
    ensures AlreadySigned(XOnly(msg.publicKey), Record(del, msg))
  {
    var after := Record(del, msg);
    assert after.covenantSigs[|del.covenantSigs|].pk == PubKey(XOnly(msg.publicKey), false);
  }

  lemma HashOfTerms(st: Staking, a: Delegation, b: Delegation)
    requires Terms(a) == Terms(b)
    ensures HashOf(st, a) == HashOf(st, b)
    ensures a.stakingTime == b.stakingTime && a.stakingTxHex == b.stakingTxHex && a.paramsVersion == b.paramsVersion
    ensures a.stakingOutputIdx == b.stakingOutputIdx && a.stakeExpansion == b.stakeExpansion
  {
    assert a.stakingTxHex == Terms(a).stakingTxHex == b.stakingTxHex;
    assert a.stakingTime == Terms(a).stakingTime == b.stakingTime;
    assert a.paramsVersion == Terms(a).paramsVersion == b.paramsVersion;
    assert a.stakingOutputIdx == Terms(a).stakingOutputIdx == b.stakingOutputIdx;
    assert a.stakeExpansion == Terms(a).stakeExpansion == b.stakeExpansion;
  }

  lemma ApplyKeepsWellFormed(sys: System, c: ChainState, msg: CovenantSigs)
    requires WellFormed(sys, c) && Apply(sys, c, msg).Some?
    ensures WellFormed(sys, Apply(sys, c, msg).value)
  {
    var h := msg.stakingTxHash;
    RecordKeepsTerms(c.dels[h], msg);
    HashOfTerms(sys.st, c.dels[h], Record(c.dels[h], msg));
  }

  /** The same delegations on the same terms, with recorded signatures kept. */
  ghost predicate Extends(c: ChainState, d: ChainState) {
    && d.pending == c.pending
    && d.dels.Keys == c.dels.Keys
    && Within(c, d)
  }

  lemma ApplyExtends(sys: System, c: ChainState, msg: CovenantSigs)
    requires Apply(sys, c, msg).Some?
    ensures Extends(c, Apply(sys, c, msg).value)
  {
    RecordKeepsTerms(c.dels[msg.stakingTxHash], msg);
  }

  lemma ExtendsItself(c: ChainState)
    ensures Extends(c, c)
  {
  }

  lemma ExtendsTransitive(a: ChainState, b: ChainState, c: ChainState)
    requires Extends(a, b) && Extends(b, c)
    ensures Extends(a, c)
  {
    WithinTransitive(a, b, c);
  }

  lemma {:induction false} ExecuteExtends(sys: System, c: ChainState, batch: seq<CovenantSigs>)
    requires WellFormed(sys, c) && Execute(ApplyOf(sys), c, batch).Success?
    ensures WellFormed(sys, Execute(ApplyOf(sys), c, batch).value)
    ensures Extends(c, Execute(ApplyOf(sys), c, batch).value)
    decreases |batch|
  {
    if batch != [] {
      var next := Apply(sys, c, batch[0]).value;
      ApplyKeepsWellFormed(sys, c, batch[0]);
      ApplyExtends(sys, c, batch[0]);
      ExecuteExtends(sys, next, batch[1..]);
      ExtendsTransitive(c, next, Execute(ApplyOf(sys), c, batch).value);
    }
  }

  ghost predicate Names(batch: seq<CovenantSigs>, h: Hash) {
    exists k | 0 <= k < |batch| :: batch[k].stakingTxHash == h
  }

  /** Committing a batch leaves the delegations it does not name exactly as they are. */
  lemma {:induction false} ExecuteLeavesOthers(sys: System, c: ChainState, batch: seq<CovenantSigs>, h: Hash)
    requires h in c.dels && Execute(ApplyOf(sys), c, batch).Success? && !Names(batch, h)
    ensures var d := Execute(ApplyOf(sys), c, batch).value; h in d.dels && d.dels[h] == c.dels[h]
    decreases |batch|
  {
    if batch != [] {
      assert batch[0].stakingTxHash != h;
      forall k | 0 <= k < |batch[1..]| ensures batch[1..][k].stakingTxHash != h {
        assert batch[1..][k] == batch[k + 1];
      }
      ExecuteLeavesOthers(sys, Apply(sys, c, batch[0]).value, batch[1..], h);
    }
  }

  lemma SignedStays(x: nat, a: Delegation, b: Delegation)
    requires AlreadySigned(x, a) && Keeps(a, b)
    ensures AlreadySigned(x, b)
  {
    var i :| 0 <= i < |a.covenantSigs| && XOnly(a.covenantSigs[i].pk) == x;
    assert b.covenantSigs[i] == a.covenantSigs[i];
  }
}
