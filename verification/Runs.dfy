/** The main result about whole runs of the submission loop. */
module Runs {
  import opened Btc
  import opened Types
  import opened Covenant
  import opened Chain
  import opened Emulator
  import opened Safety
  import opened Quorum

  /** What holds of every state a run can reach. */
  ghost predicate Sound(sys: System, s: State) {
    && EverySignatureWasSent(sys, s)
    && EverythingSentWasMade(sys, s)
    && SendsRipe(sys, s.sends)
    && NoneSignedTwice(sys, s.chain)
    && QuorumTestIsRight(s.chain)
  }

  /** Each signature of this member that the chain stores is that of a message sent for the same delegation. */
  ghost predicate EverySignatureWasSent(sys: System, s: State) {
    forall h, i: nat | h in s.chain.dels && OwnAt(sys, s.chain.dels[h], i) :: Traced(sys, s.chain, s.sends, h, i)
  }

  /** Each message ever sent holds what this member's key makes of a request that follows the rules for the delegation
      the chain stores. */
  ghost predicate EverythingSentWasMade(sys: System, s: State) {
    forall msg | Sent(s.sends, msg) :: Made(sys, s.chain, msg)
  }

  ghost predicate NoneSignedTwice(sys: System, c: ChainState) {
    forall h, i: nat, j: nat | h in c.dels && OwnAt(sys, c.dels[h], i) && OwnAt(sys, c.dels[h], j) :: i == j
  }

  /** The quorum test agrees with requiring the quorum on all three signature lists. */
  ghost predicate QuorumTestIsRight(c: ChainState) {
    forall h, quorum: nat | h in c.dels && c.dels[h].btcUndelegation.Some? ::
      HasCovenantQuorum(c.dels[h], quorum) <==> QuorumOnAllThree(c.dels[h], quorum)
  }

  lemma InvIsSound(sys: System, s: State)
    requires Inv(sys, s) && SendsRipe(sys, s.sends)
    ensures Sound(sys, s)
  {
    forall h, i: nat | h in s.chain.dels && OwnAt(sys, s.chain.dels[h], i)
      ensures Traced(sys, s.chain, s.sends, h, i)
    {
      assert SoundlySigned(sys, s.chain, s.sends, h);
    }
    forall h, i: nat, j: nat | h in s.chain.dels && OwnAt(sys, s.chain.dels[h], i) && OwnAt(sys, s.chain.dels[h], j)
      ensures i == j
    {
      assert SoundlySigned(sys, s.chain, s.sends, h);
    }
    forall msg | Sent(s.sends, msg) ensures Made(sys, s.chain, msg) {
      var j :| 0 <= j < |s.sends| && msg in s.sends[j].batch;
      assert BatchMade(sys, s.chain, s.sends[j].batch);
    }
  }

  lemma StartIsWithin(sys: System, s: State)
    requires Start(sys, s)
    ensures WithinQuorum(sys, s.chain) && SendsRipe(sys, s.sends)
  {
    forall h | h in s.chain.dels ensures forall i: nat :: !OwnAt(sys, s.chain.dels[h], i) {
      assert OthersSince(sys, s.chain.dels[h], 0);
    }
  }

  /** Over every run, however ticks, growth, failed lookups, refusing signers, rejecting networks and late executions
      interleave: every signature stored was sent, everything sent was made by the rules for the stored delegation and
      while its quorum was open to this member, no delegation is signed twice, and the quorum test is right. Without
      late executions every signature of this member is among the first that make up the quorum. */
  lemma RunIsSafe(sys: System, s: State, actions: seq<Action>)
    requires Valid(sys) && Start(sys, s) && LegalRun(sys, s, actions)
    ensures Sound(sys, Run(sys, s, actions))
    ensures NoLate(actions) ==> WithinQuorum(sys, Run(sys, s, actions).chain)
  {
    StartIsInv(sys, s);
    StartIsWithin(sys, s);
    RunKeepsInv(sys, s, actions);
    RunKeepsQuorum(sys, s, actions);
    InvIsSound(sys, Run(sys, s, actions));
  }
}
