/** Concrete inputs on which the code does something its callers may not expect. */
module Examples {
  import opened Wrappers
  import opened Text
  import opened Btc
  import opened Types
  import M = MessageIndex
  import R = Resend
  import RS = RemoteSigning
  import S = SignerApp
  import W = Wire
  import Witness

  // ---------- success reported, nothing delivered ----------

  /** A message is a duplicate or one that never verifies; the chain accepts neither. */
  type Message = bool

  const NOTHING_APPLIES: R.Apply<(), Message> := (_, _) => None
  const IS_DUPLICATE: ((), Message) -> bool := (_, m) => m

  function FailureText(duplicate: bool): string {
    M.Rendered("", 0, if duplicate then ": " + R.EXPECTED_ERROR else ": invalid")
  }

  /** The chain names the first message of every batch. */
  const NET: R.Network<Message> :=
    (_, batch) => if batch == [] then R.Delivered(None) else R.Rejected(FailureText(batch[0]))

  lemma TextNamesFirst(duplicate: bool)
    ensures R.NamedMessage(FailureText(duplicate)) == Some(0)
  {
    M.RenderedIndexIsRecovered("", 0, if duplicate then ": " + R.EXPECTED_ERROR else ": invalid");
  }

  /** A text that contains the pattern has each of its characters. */
  lemma HasCharacter(s: string, pattern: string, k: nat)
    requires k < |pattern|
    ensures Contains(s, pattern) ==> pattern[k] in s
  {
    if Contains(s, pattern) {
      var i :| 0 <= i <= |s| && HasAt(s, i, pattern);
      assert s[i..i + |pattern|][k] == s[i + k];
    }
  }

  lemma TextMarksDuplicates(duplicate: bool)
    ensures R.IsExpected(FailureText(duplicate)) <==> duplicate
  {
    var text := FailureText(duplicate);
    if duplicate {
      var n := |text| - |R.EXPECTED_ERROR|;
      assert text[n..] == R.EXPECTED_ERROR;
      assert HasAt(text, n, R.EXPECTED_ERROR);
    } else {
      HasCharacter(text, R.EXPECTED_ERROR, 19);
      assert R.EXPECTED_ERROR[19] == 'u' && 'u' !in text;
    }
  }

  lemma NetIsHonest(size: nat)
    ensures R.Honest(R.NamedMessage, NET, NOTHING_APPLIES, (), size)
    ensures R.Marks(R.IsExpected, IS_DUPLICATE, NET, NOTHING_APPLIES, (), size)
  {
    TextNamesFirst(true);
    TextNamesFirst(false);
    TextMarksDuplicates(true);
    TextMarksDuplicates(false);
  }

  /** A message that never verifies, then a duplicate: nothing is delivered and the caller is told of success. */
  lemma RejectedBatchReportsSuccess()
    ensures var run := R.Resend(R.NamedMessage, NET, [false, true], 0);
            run.Committed().None? && R.OutcomeOf(run.HowEnded(), run.Failures()).Response?
  {
    var msgs := [false, true];
    NetIsHonest(2);
    assert msgs[1..] == [true] && msgs[1..][1..] == [];
    assert R.Greedy(NOTHING_APPLIES, (), msgs).0 == [];
    var skipped := R.Skipped(NOTHING_APPLIES, (), msgs);
    assert skipped == [((), false), ((), true)];
    assert IS_DUPLICATE(skipped[1].0, skipped[1].1);
    R.SuccessWithoutDeliveryIff(IS_DUPLICATE, NET, NOTHING_APPLIES, (), msgs, 0);
  }

  // ---------- signed locally, refused remotely ----------

  const TX := Witness.TX
  const REQUEST := SigningRequest(TX, TX, TX, TX, None, 0, [1], [1], [1], [])

  /** A request without finality providers: it can be written and the key signs it, but no channel brings back an
      answer. */
  lemma RefusedRemotelySignedLocally(codec: RS.Codec, clientKey: string, server: RS.Server)
    requires codec.Lawful() && server.unlocked == Some(1)
    ensures W.ToSignTransactionRequest(Witness.LIB, RS.ToSignerRequest(REQUEST)).Some?
    ensures S.SignTransactions(Witness.LIB, 1, RS.ToSignerRequest(REQUEST)).Some?
    ensures RS.RemoteSign(Witness.LIB, codec, clientKey, server, REQUEST) == None
  {
    Witness.LibIsLawful();
    RS.NotCarriedFails(Witness.LIB, codec, clientKey, server, REQUEST);
  }
}
