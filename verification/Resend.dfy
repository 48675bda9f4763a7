/** Sending a batch to the chain, dropping the message each failure names, and trying again under a cap. */
module Resend {
  import opened Wrappers
  import opened Lists
  import opened Text
  import opened MessageIndex

  const EXPECTED_ERROR := "the covenant signature is already submitted"

  /** What one send returns: a transaction (hash absent when the client swallowed an expected error) or an error
      text. */
  datatype Reply = Delivered(txHash: Option<string>) | Rejected(text: string)

  /** What the caller gets back. */
  datatype Outcome = Response(txHash: Option<string>) | Error(text: string)

  /** The chain as the loop sees it: its answer to the attempt-th send of a batch. */
  type Network<!M> = (nat, seq<M>) -> Reply

  /** How the loop ended: a send was accepted, a failure named no message, or the attempts ran out. */
  datatype End = Accepted(txHash: Option<string>) | Stopped(text: string) | Exhausted

  /** One run of the loop, send by send. */
  datatype Run<M> =
    | GaveUp(live: seq<M>)                                            // no attempt left
    | Last(batch: seq<M>, end: End)                                   // a send that ended the loop
    | Retry(batch: seq<M>, text: string, index: nat, rest: Run<M>)    // a failure naming message `index`
  {
    function Sends(): seq<seq<M>> {
      match this
      case GaveUp(_) => []
      case Last(batch, _) => [batch]
      case Retry(batch, _, _, rest) => [batch] + rest.Sends()
    }

    /** What is left of the batch when the loop returns. */
    function Live(): seq<M> {
      match this
      case GaveUp(live) => live
      case Last(batch, _) => batch
      case Retry(_, _, _, rest) => rest.Live()
    }

    /** The messages dropped from the batch, in order. */
    function Removed(): seq<M> {
      match this
      case Retry(batch, _, k, rest) => (if k < |batch| then [batch[k]] else []) + rest.Removed()
      case _ => []
    }

    /** The error texts that named a message. */
    function Failures(): seq<string> {
      match this
      case Retry(_, text, _, rest) => [text] + rest.Failures()
      case _ => []
    }

    function HowEnded(): End {
      match this
      case GaveUp(_) => Exhausted
      case Last(_, end) => end
      case Retry(_, _, _, rest) => rest.HowEnded()
    }

    /** The batch the chain committed, if any. */
    function Committed(): Option<seq<M>> {
      if HowEnded().Accepted? then Some(Live()) else None
    }

    /** Every reported index pointed into the batch it answered. */
    predicate IndicesInRange() {
      this.Retry? ==> index < |batch| && rest.IndicesInRange()
    }

    predicate IndicesNeverDecrease() {
      this.Retry? ==> (rest.Retry? ==> index <= rest.index) && rest.IndicesNeverDecrease()
    }
  }

  function BatchRetries(length: nat, cap: nat): (r: nat)
    ensures r <= length && (cap != 0 ==> r <= cap)
    ensures r == length || (cap != 0 && r == cap)
  {
    if cap == 0 || cap > length then length else cap
  }

  /** The text of Go's errors.Join: one error per line. */
  function JoinText(errors: seq<string>): string {
    if errors == [] then "" else Join(errors, '\n')
  }

  /** What Go's fmt prints for the joined errors; without any, it prints that there is nothing to wrap. */
  function WrappedText(errors: seq<string>): string {
    if errors == [] then "%!w(<nil>)" else JoinText(errors)
  }

  /** The caller's answer. A stopped loop returns the last error alone; an exhausted one joins them all. */
  function OutcomeOf(end: End, failures: seq<string>): Outcome {
    match end
    case Accepted(hash) => Response(hash)
    case Stopped(text) => Error(text)
    case Exhausted =>
      if failures != [] && Contains(JoinText(failures), EXPECTED_ERROR) then Response(None)
      else Error("failed to send batch of msgs: " + WrappedText(failures))
  }

  /** The message an error text asks to drop, if any. */
  function NamedMessage(text: string): Option<nat> {
    if Contains(text, MARKER) then FailedMessageIndex(text) else None
  }

  /** A text names a message exactly when it contains the marker, with its space, and the leftmost match of the pattern
      is a number that fits an int; and it is that number. */
  lemma NamedIff(text: string, index: nat)
    ensures NamedMessage(text) == Some(index) <==>
            && Contains(text, "message index: ")
            && exists p: nat, from: nat, to: nat ::
                 && IsMatch(text, p, from, to) && Leftmost(text, p)
                 && index == Value(text[from..to]) <= 0x7fff_ffff_ffff_ffff
  {
    FailedIndexIsLeftmostMatch(text, index);
  }

  /** The loop with `budget` attempts left, at attempt `i`, with `live` in the batch. `named` reads error texts. */
  function ResendFrom<M>(named: string -> Option<nat>, net: Network<M>, i: nat, budget: nat, live: seq<M>): Run<M>
    decreases budget
  {
    if budget == 0 then GaveUp(live)
    else
      match net(i, live)
      case Delivered(hash) => Last(live, Accepted(hash))
      case Rejected(text) =>
        match named(text)
        case None => Last(live, Stopped(text))
        case Some(k) => Retry(live, text, k, ResendFrom(named, net, i + 1, budget - 1, RemoveAt(live, k)))
  }

  function Resend<M>(named: string -> Option<nat>, net: Network<M>, msgs: seq<M>, cap: nat): Run<M> {
    ResendFrom(named, net, 0, BatchRetries(|msgs|, cap), msgs)
  }

  /** Removes in place by shifting the tail of the slice `msgs[..n]` one to the left; the backing array past
      the new length keeps what it held. */
  method RemoveMsgAtIndex<M>(msgs: array<M>, n: nat, index: int) returns (m: nat)
    requires n <= msgs.Length
    modifies msgs
    ensures m <= n && (m == n <==> !(0 <= index < n))
    ensures msgs[..m] == RemoveAt(old(msgs[..n]), index)
    ensures msgs[m..] == old(msgs[m..])
  {
    if index < 0 || index >= n {
      return n;
    }
    var k := index;
    while k < n - 1
      invariant index <= k <= n - 1
      invariant forall j | 0 <= j < index :: msgs[j] == old(msgs[j])
      invariant forall j | index <= j < k :: msgs[j] == old(msgs[j + 1])
      invariant forall j | k <= j < msgs.Length :: msgs[j] == old(msgs[j])
    {
      msgs[k] := msgs[k + 1];
      k := k + 1;
    }
    m := n - 1;
    ghost var was := old(msgs[..n]);
    ghost var want := RemoveAt(was, index);
    forall j | 0 <= j < m ensures msgs[..m][j] == want[j] {
      assert want[j] == if j < index then was[j] else was[j + 1];
    }
    assert msgs[..m] == want;
  }

  /** The loop over the caller's backing array, up to the point where it knows how it ends. It performs exactly
      the run `Resend` describes. */
  method ResendLoop<M>(named: string -> Option<nat>, net: Network<M>, msgs: array<M>, cap: nat)
    returns (end: End, errors: seq<string>, sent: seq<seq<M>>, n: nat)
    modifies msgs
    ensures n <= msgs.Length
    ensures var run := Resend(named, net, old(msgs[..]), cap);
            && end == run.HowEnded()
            && errors == run.Failures()
            && sent == run.Sends()
            && msgs[..n] == run.Live()
  {
    ghost var run := Resend(named, net, msgs[..], cap);
    CourseStarts(named, net, msgs[..], cap);
    end, errors, sent, n := SendUpTo(named, net, msgs, BatchRetries(msgs.Length, cap), run);
  }

  /** At most `max` attempts. */
  method SendUpTo<M>(named: string -> Option<nat>, net: Network<M>, msgs: array<M>, max: nat, ghost run: Run<M>)
    returns (end: End, errors: seq<string>, sent: seq<seq<M>>, n: nat)
    requires OnCourse(run, named, net, 0, max, msgs[..], [], [])
    modifies msgs
    ensures n <= msgs.Length
    ensures Concludes(run, sent, errors, end, msgs[..n])
  {
    n := msgs.Length;
    errors, sent := [], [];
    var ended, i := None, 0;
    ghost var live := msgs[..];
    while i < max && ended.None?
      invariant 0 <= i <= max && n <= msgs.Length && live == msgs[..n]
      invariant Stands(run, named, net, i, max, live, sent, errors, ended)
    {
      ended, errors, sent, n, live := SendInCourse(named, net, msgs, n, i, errors, sent, run, max, live);
      i := i + 1;
    }
    StandsAtEnd(run, named, net, i, max, live, sent, errors, ended);
    end := if ended.Some? then ended.value else Exhausted;
  }

  /** Where the run stands before attempt `i`: it is over, or goes on from here. */
  ghost predicate Stands<M>(
    run: Run<M>, named: string -> Option<nat>, net: Network<M>, i: nat, max: nat, live: seq<M>,
    sent: seq<seq<M>>, errors: seq<string>, ended: Option<End>)
  {
    match ended
    case Some(end) => Concludes(run, sent, errors, end, live)
    case None => i <= max && OnCourse(run, named, net, i, max - i, live, sent, errors)
  }

  lemma StandsAtEnd<M>(
    run: Run<M>, named: string -> Option<nat>, net: Network<M>, i: nat, max: nat, live: seq<M>,
    sent: seq<seq<M>>, errors: seq<string>, ended: Option<End>)
    requires Stands(run, named, net, i, max, live, sent, errors, ended) && (i < max ==> ended.Some?)
    ensures Concludes(run, sent, errors, if ended.Some? then ended.value else Exhausted, live)
  {
    if ended.None? {
      CourseRunsOut(run, named, net, i, live, sent, errors);
    }
  }

  /** One send, and where it leaves the run. */
  method SendInCourse<M>(
    named: string -> Option<nat>, net: Network<M>, msgs: array<M>, n: nat, i: nat, errors: seq<string>,
    sent: seq<seq<M>>, ghost run: Run<M>, ghost max: nat, ghost live: seq<M>)
    returns (ended: Option<End>, errors': seq<string>, sent': seq<seq<M>>, m: nat, ghost live': seq<M>)
    requires n <= msgs.Length && live == msgs[..n] && i < max
    requires Stands(run, named, net, i, max, live, sent, errors, None)
    modifies msgs
    ensures m <= msgs.Length && live' == msgs[..m]
    ensures Stands(run, named, net, i + 1, max, live', sent', errors', ended)
  {
    sent' := sent + [msgs[..n]];
    var turn;
    turn, m := SendOnce(named, net, msgs, n, i);
    live' := msgs[..m];
    match turn {
      case Ended(end) =>
        CourseEnds(run, named, net, i, max - i, live, sent, errors);
        ended, errors' := Some(end), errors;
      case Again(text, _) =>
        CourseGoesOn(run, named, net, i, max - i, live, sent, errors);
        ended, errors' := None, errors + [text];
    }
  }

  /** What one send leads to: the end of the loop, or another attempt without message `index`. */
  datatype Turn = Ended(end: End) | Again(text: string, index: nat)

  function TurnOf(named: string -> Option<nat>, reply: Reply): Turn {
    match reply
    case Delivered(hash) => Ended(Accepted(hash))
    case Rejected(text) =>
      match named(text)
      case None => Ended(Stopped(text))
      case Some(index) => Again(text, index)
  }

  method SendOnce<M>(named: string -> Option<nat>, net: Network<M>, msgs: array<M>, n: nat, i: nat)
    returns (turn: Turn, m: nat)
    requires n <= msgs.Length
    modifies msgs
    ensures turn == TurnOf(named, net(i, old(msgs[..n]))) && m <= msgs.Length
    ensures msgs[..m] == if turn.Again? then RemoveAt(old(msgs[..n]), turn.index) else old(msgs[..n])
  {
    m := n;
    match net(i, msgs[..n])
    case Delivered(hash) => turn := Ended(Accepted(hash));
    case Rejected(text) =>
      var index := named(text);
      if index.None? {
        turn := Ended(Stopped(text));
      } else {
        turn := Again(text, index.value);
        m := RemoveMsgAtIndex(msgs, n, index.value);
      }
  }

  /** `run` is the sends and failures recorded so far, followed by `rest`. */
  ghost predicate Resumes<M>(run: Run<M>, sent: seq<seq<M>>, errors: seq<string>, rest: Run<M>) {
    && run.Sends() == sent + rest.Sends()
    && run.Failures() == errors + rest.Failures()
    && run.Live() == rest.Live()
    && run.HowEnded() == rest.HowEnded()
  }

  /** `run` is over: these are all its sends and failures, how it ended and what was left. */
  ghost predicate Concludes<M>(run: Run<M>, sent: seq<seq<M>>, errors: seq<string>, end: End, live: seq<M>) {
    run.Sends() == sent && run.Failures() == errors && run.HowEnded() == end && run.Live() == live
  }

  /** `run` is what was recorded so far, followed by the run from here. */
  ghost predicate OnCourse<M>(
    run: Run<M>, named: string -> Option<nat>, net: Network<M>, i: nat, budget: nat, live: seq<M>,
    sent: seq<seq<M>>, errors: seq<string>)
  {
    Resumes(run, sent, errors, ResendFrom(named, net, i, budget, live))
  }

  lemma CourseStarts<M>(named: string -> Option<nat>, net: Network<M>, msgs: seq<M>, cap: nat)
    ensures OnCourse(Resend(named, net, msgs, cap), named, net, 0, BatchRetries(|msgs|, cap), msgs, [], [])
  {
    var run := Resend(named, net, msgs, cap);
    assert [] + run.Sends() == run.Sends() && [] + run.Failures() == run.Failures();
  }

  lemma CourseEnds<M>(
    run: Run<M>, named: string -> Option<nat>, net: Network<M>, i: nat, budget: nat, live: seq<M>,
    sent: seq<seq<M>>, errors: seq<string>)
    requires OnCourse(run, named, net, i, budget, live, sent, errors)
    requires budget > 0 && TurnOf(named, net(i, live)).Ended?
    ensures run.Sends() == sent + [live] && run.Failures() == errors
    ensures run.HowEnded() == TurnOf(named, net(i, live)).end && run.Live() == live
  {
    assert ResendFrom(named, net, i, budget, live) == Last(live, TurnOf(named, net(i, live)).end);
  }

  lemma CourseGoesOn<M>(
    run: Run<M>, named: string -> Option<nat>, net: Network<M>, i: nat, budget: nat, live: seq<M>,
    sent: seq<seq<M>>, errors: seq<string>)
    requires OnCourse(run, named, net, i, budget, live, sent, errors)
    requires budget > 0 && TurnOf(named, net(i, live)).Again?
    ensures var turn := TurnOf(named, net(i, live));
            OnCourse(run, named, net, i + 1, budget - 1, RemoveAt(live, turn.index), sent + [live],
                     errors + [turn.text])
  {
    var rest := ResendFrom(named, net, i, budget, live);
    var turn := TurnOf(named, net(i, live));
    assert rest == Retry(live, turn.text, turn.index,
                         ResendFrom(named, net, i + 1, budget - 1, RemoveAt(live, turn.index)));
    ResumesAfterRetry(run, sent, errors, rest);
  }

  lemma CourseRunsOut<M>(
    run: Run<M>, named: string -> Option<nat>, net: Network<M>, i: nat, live: seq<M>,
    sent: seq<seq<M>>, errors: seq<string>)
    requires OnCourse(run, named, net, i, 0, live, sent, errors)
    ensures run.Sends() == sent && run.Failures() == errors && run.HowEnded().Exhausted? && run.Live() == live
  {
    assert ResendFrom(named, net, i, 0, live) == GaveUp(live);
  }

  lemma ResumesAfterRetry<M>(run: Run<M>, sent: seq<seq<M>>, errors: seq<string>, rest: Run<M>)
    requires rest.Retry? && Resumes(run, sent, errors, rest)
    ensures Resumes(run, sent + [rest.batch], errors + [rest.text], rest.rest)
  {
    ConcatSnoc(sent, rest.batch, rest.rest.Sends());
    ConcatSnoc(errors, rest.text, rest.rest.Failures());
  }

  method SendMsgsResending<M>(named: string -> Option<nat>, net: Network<M>, msgs: array<M>, cap: nat)
    returns (outcome: Outcome, sent: seq<seq<M>>)
    modifies msgs
    ensures var run := Resend(named, net, old(msgs[..]), cap);
            outcome == OutcomeOf(run.HowEnded(), run.Failures()) && sent == run.Sends()
    ensures InCourse(named, net, old(msgs[..]), sent)
    ensures Reports(named, net, BatchRetries(msgs.Length, cap), sent, outcome)
  {
    OutcomeMeans(named, net, msgs[..], cap);
    var end, errors, batches, n := ResendLoop(named, net, msgs, cap);
    outcome, sent := OutcomeOf(end, errors), batches;
  }

  // ---------- the answer, send by send ----------

  /** The answer to send `k`, whose attempts are numbered from `i`, is an error that names a message. */
  predicate NamesAt<M>(named: string -> Option<nat>, net: Network<M>, i: nat, sent: seq<seq<M>>, k: nat)
    requires k < |sent|
  {
    net(i + k, sent[k]).Rejected? && named(net(i + k, sent[k]).text).Some?
  }

  /** Send `k` is the batch before without the message the answer to it named. */
  ghost predicate Drops<M>(named: string -> Option<nat>, net: Network<M>, i: nat, sent: seq<seq<M>>, k: nat) {
    && 0 < k < |sent|
    && NamesAt(named, net, i, sent, k - 1)
    && sent[k] == RemoveAt(sent[k - 1], named(net(i + (k - 1), sent[k - 1]).text).value)
  }

  /** The first send is the whole batch, and each further one is the batch before without the message the answer to it
      named. */
  ghost predicate InCourse<M>(named: string -> Option<nat>, net: Network<M>, msgs: seq<M>, sent: seq<seq<M>>) {
    && (sent != [] ==> sent[0] == msgs)
    && (forall k | 0 < k < |sent| :: Drops(named, net, 0, sent, k))
  }

  /** What the caller is told, in terms of the answers to the sends: the answer to the last send when it was delivered
      or names no message; otherwise the attempts ran out, and it is success exactly when some answer says that a
      signature is already submitted. */
  ghost predicate Reports<M>(
    named: string -> Option<nat>, net: Network<M>, attempts: nat, sent: seq<seq<M>>, outcome: Outcome)
  {
    && |sent| <= attempts && (sent == [] ==> attempts == 0)
    && if sent != [] && !NamesAt(named, net, 0, sent, |sent| - 1) then
         match net(|sent| - 1, sent[|sent| - 1])
         case Delivered(hash) => outcome == Response(hash)
         case Rejected(text) => outcome == Error(text)
       else
         && |sent| == attempts
         && if SomeDuplicate(net, sent) then outcome == Response(None)
            else exists texts :: SaidInTurn(net, sent, texts) && outcome == Error(GivingUp(texts))
  }

  /** `texts` are the errors the sends were answered with. */
  ghost predicate SaidInTurn<M>(net: Network<M>, sent: seq<seq<M>>, texts: seq<string>) {
    |texts| == |sent| && forall k | 0 <= k < |sent| :: net(k, sent[k]) == Rejected(texts[k])
  }

  /** The error after the last attempt: all errors, one per line; for an empty batch there is none. */
  function GivingUp(texts: seq<string>): string {
    "failed to send batch of msgs: " + if texts == [] then "%!w(<nil>)" else Join(texts, '\n')
  }

  predicate SaysDuplicate(reply: Reply) {
    reply.Rejected? && Contains(reply.text, "the covenant signature is already submitted")
  }

  /** How a run that starts at attempt `i` reads the answers. */
  ghost predicate Reads<M>(named: string -> Option<nat>, net: Network<M>, i: nat, run: Run<M>) {
    var sent, failures := run.Sends(), run.Failures();
    && |failures| <= |sent|
    && (forall k | 0 <= k < |failures| ::
          NamesAt(named, net, i, sent, k) && net(i + k, sent[k]).text == failures[k])
    && match run.HowEnded()
       case Exhausted => |sent| == |failures|
       case Accepted(hash) =>
         |sent| == |failures| + 1 && net(i + |failures|, sent[|failures|]) == Delivered(hash)
       case Stopped(text) =>
         && |sent| == |failures| + 1 && net(i + |failures|, sent[|failures|]) == Rejected(text)
         && named(text).None?
  }

  lemma {:induction false} RunReads<M>(
    named: string -> Option<nat>, net: Network<M>, i: nat, budget: nat, live: seq<M>)
    ensures Reads(named, net, i, ResendFrom(named, net, i, budget, live))
    decreases budget
  {
    var run := ResendFrom(named, net, i, budget, live);
    if run.Retry? {
      RunReads(named, net, i + 1, budget - 1, RemoveAt(live, run.index));
      ReadsOneMore(named, net, i, run);
    }
  }

  lemma ReadsOneMore<M>(named: string -> Option<nat>, net: Network<M>, i: nat, run: Run<M>)
    requires run.Retry? && net(i, run.batch) == Rejected(run.text) && named(run.text).Some?
    requires Reads(named, net, i + 1, run.rest)
    ensures Reads(named, net, i, run)
  {
    var sent, failures := run.Sends(), run.Failures();
    forall k | 0 <= k < |failures|
      ensures NamesAt(named, net, i, sent, k) && net(i + k, sent[k]).text == failures[k]
    {
      if k > 0 {
        assert NamesAt(named, net, i + 1, run.rest.Sends(), k - 1);
        assert i + k == i + 1 + (k - 1) && sent[k] == run.rest.Sends()[k - 1];
      }
    }
  }

  lemma {:induction false} SendsInCourse<M>(
    named: string -> Option<nat>, net: Network<M>, i: nat, budget: nat, live: seq<M>, k: nat)
    requires 0 < k < |ResendFrom(named, net, i, budget, live).Sends()|
    ensures Drops(named, net, i, ResendFrom(named, net, i, budget, live).Sends(), k)
    decreases budget
  {
    var run := ResendFrom(named, net, i, budget, live);
    if k > 1 {
      SendsInCourse(named, net, i + 1, budget - 1, RemoveAt(live, run.index), k - 1);
      DropsLater(named, net, i, live, run.rest.Sends(), k);
    } else {
      assert run.rest.Sends()[0] == RemoveAt(live, run.index);
    }
  }

  lemma DropsLater<M>(
    named: string -> Option<nat>, net: Network<M>, i: nat, first: seq<M>, rest: seq<seq<M>>, k: nat)
    requires k > 1 && Drops(named, net, i + 1, rest, k - 1)
    ensures Drops(named, net, i, [first] + rest, k)
  {
    var sent := [first] + rest;
    assert sent[k] == rest[k - 1] && sent[k - 1] == rest[k - 2] && i + (k - 1) == i + 1 + (k - 2);
  }

  lemma OutcomeMeans<M>(named: string -> Option<nat>, net: Network<M>, msgs: seq<M>, cap: nat)
    ensures var run := Resend(named, net, msgs, cap);
            && InCourse(named, net, msgs, run.Sends())
            && Reports(named, net, BatchRetries(|msgs|, cap), run.Sends(), OutcomeOf(run.HowEnded(), run.Failures()))
  {
    var run, attempts := Resend(named, net, msgs, cap), BatchRetries(|msgs|, cap);
    forall k | 0 < k < |run.Sends()| ensures Drops(named, net, 0, run.Sends(), k) {
      SendsInCourse(named, net, 0, attempts, msgs, k);
    }
    RunReads(named, net, 0, attempts, msgs);
    ResendFollows(named, net, 0, attempts, msgs);
    SendsAreCounted(run, msgs, attempts);
    if run.HowEnded().Exhausted? {
      ExhaustionReportsSuccessIffSomeDuplicate(named, net, msgs, cap);
    }
    ReadsReports(named, net, attempts, run);
  }

  /** The sends of a run, and what it commits: the last send, when it was answered as delivered. */
  lemma SendsMean<M>(named: string -> Option<nat>, net: Network<M>, msgs: seq<M>, cap: nat)
    ensures var run := Resend(named, net, msgs, cap);
            var sent := run.Sends();
            && InCourse(named, net, msgs, sent)
            && |sent| <= BatchRetries(|msgs|, cap)
            && run.Committed() ==
               if sent != [] && net(|sent| - 1, sent[|sent| - 1]).Delivered? then Some(sent[|sent| - 1]) else None
  {
    var run, attempts := Resend(named, net, msgs, cap), BatchRetries(|msgs|, cap);
    OutcomeMeans(named, net, msgs, cap);
    RunReads(named, net, 0, attempts, msgs);
    ReadsCommitted(named, net, run);
  }

  lemma ReadsCommitted<M>(named: string -> Option<nat>, net: Network<M>, run: Run<M>)
    requires Reads(named, net, 0, run)
    ensures var sent := run.Sends();
            run.Committed() ==
            if sent != [] && net(|sent| - 1, sent[|sent| - 1]).Delivered? then Some(sent[|sent| - 1]) else None
  {
    AcceptedIsLast(run);
    var sent, n := run.Sends(), |run.Failures()|;
    match run.HowEnded()
    case Exhausted =>
      if n > 0 {
        assert NamesAt(named, net, 0, sent, n - 1);
      }
    case Accepted(_) => assert sent[n] == sent[|sent| - 1] && net(0 + n, sent[n]).Delivered?;
    case Stopped(_) => assert sent[n] == sent[|sent| - 1] && net(0 + n, sent[n]).Rejected?;
  }

  lemma {:induction false} AcceptedIsLast<M>(run: Run<M>)
    ensures run.Committed().Some? ==> run.Sends() != [] && run.Committed().value == run.Sends()[|run.Sends()| - 1]
  {
    if run.Retry? {
      AcceptedIsLast(run.rest);
    }
  }

  lemma ReadsReports<M>(named: string -> Option<nat>, net: Network<M>, attempts: nat, run: Run<M>)
    requires Reads(named, net, 0, run) && |run.Sends()| <= attempts
    requires run.HowEnded().Exhausted? ==>
               && |run.Sends()| == attempts
               && (OutcomeOf(run.HowEnded(), run.Failures()).Response? <==>
                   exists k | 0 <= k < |run.Failures()| :: Contains(run.Failures()[k], EXPECTED_ERROR))
    ensures Reports(named, net, attempts, run.Sends(), OutcomeOf(run.HowEnded(), run.Failures()))
  {
    if run.HowEnded().Exhausted? {
      ReportedDuplicates(named, net, run);
      FailuresWereSaid(named, net, run);
    }
  }

  lemma FailuresWereSaid<M>(named: string -> Option<nat>, net: Network<M>, run: Run<M>)
    requires Reads(named, net, 0, run) && run.HowEnded().Exhausted?
    ensures SaidInTurn(net, run.Sends(), run.Failures())
  {
    var sent, failures := run.Sends(), run.Failures();
    forall k | 0 <= k < |sent| ensures net(k, sent[k]) == Rejected(failures[k]) {
      assert NamesAt(named, net, 0, sent, k) && net(0 + k, sent[k]).text == failures[k];
    }
  }

  /** Some answer says that a signature is already submitted. */
  ghost predicate SomeDuplicate<M>(net: Network<M>, sent: seq<seq<M>>) {
    exists k | 0 <= k < |sent| :: SaysDuplicate(net(k, sent[k]))
  }

  lemma ReportedDuplicates<M>(named: string -> Option<nat>, net: Network<M>, run: Run<M>)
    requires Reads(named, net, 0, run) && run.HowEnded().Exhausted?
    ensures (exists k | 0 <= k < |run.Failures()| :: Contains(run.Failures()[k], EXPECTED_ERROR)) <==>
            SomeDuplicate(net, run.Sends())
  {
    var sent, failures := run.Sends(), run.Failures();
    if exists k | 0 <= k < |failures| :: Contains(failures[k], EXPECTED_ERROR) {
      var k :| 0 <= k < |failures| && Contains(failures[k], EXPECTED_ERROR);
      FailureIsSaid(named, net, run, k);
    }
    if SomeDuplicate(net, sent) {
      var k :| 0 <= k < |sent| && SaysDuplicate(net(k, sent[k]));
      FailureIsSaid(named, net, run, k);
    }
  }

  lemma FailureIsSaid<M>(named: string -> Option<nat>, net: Network<M>, run: Run<M>, k: nat)
    requires Reads(named, net, 0, run) && k < |run.Failures()|
    ensures SaysDuplicate(net(k, run.Sends()[k])) <==> Contains(run.Failures()[k], EXPECTED_ERROR)
  {
    assert NamesAt(named, net, 0, run.Sends(), k) && net(0 + k, run.Sends()[k]).text == run.Failures()[k];
  }

  // ---------- against arbitrary replies ----------

  /** The shape every run has: each batch is the previous one without the message its failure named. */
  ghost predicate Follows<M>(run: Run<M>, live: seq<M>, budget: nat) {
    match run
    case GaveUp(left) => left == live && budget == 0
    case Last(batch, end) => batch == live && budget > 0 && !end.Exhausted?
    case Retry(batch, _, k, rest) => batch == live && budget > 0 && Follows(rest, RemoveAt(live, k), budget - 1)
  }

  lemma {:induction false} ResendFollows<M>(
    named: string -> Option<nat>, net: Network<M>, i: nat, budget: nat, live: seq<M>)
    ensures Follows(ResendFrom(named, net, i, budget, live), live, budget)
    decreases budget
  {
    var run := ResendFrom(named, net, i, budget, live);
    if run.Retry? {
      ResendFollows(named, net, i + 1, budget - 1, RemoveAt(live, run.index));
    }
  }

  lemma {:induction false} MessagesConserved<M>(run: Run<M>, live: seq<M>, budget: nat)
    requires Follows(run, live, budget)
    ensures multiset(live) == multiset(run.Live()) + multiset(run.Removed())
    decreases budget
  {
    if run.Retry? {
      MessagesConserved(run.rest, RemoveAt(live, run.index), budget - 1);
      if run.index < |live| {
        RemoveAtConserves(live, run.index);
      }
    }
  }

  lemma {:induction false} BatchesAreSubsequences<M>(run: Run<M>, live: seq<M>, budget: nat, batch: seq<M>)
    requires Follows(run, live, budget) && budget <= |live|
    requires batch in run.Sends() || batch == run.Live()
    ensures Subsequence(batch, live)
    ensures batch in run.Sends() ==> batch != []
    decreases budget
  {
    if run.Retry? && (batch in run.rest.Sends() || batch == run.rest.Live()) {
      var smaller := RemoveAt(live, run.index);
      BatchesAreSubsequences(run.rest, smaller, budget - 1, batch);
      RemoveAtIsSubsequence(live, run.index);
      SubsequenceTransitive(batch, smaller, live);
    } else {
      SubsequenceReflexive(live);
    }
  }

  lemma {:induction false} SendsAreCounted<M>(run: Run<M>, live: seq<M>, budget: nat)
    requires Follows(run, live, budget)
    ensures |run.Removed()| <= |run.Failures()| <= |run.Sends()| <= budget
    ensures run.HowEnded().Exhausted? ==> |run.Failures()| == |run.Sends()| == budget
    ensures !run.HowEnded().Exhausted? ==> |run.Sends()| == |run.Failures()| + 1
    decreases budget
  {
    if run.Retry? {
      SendsAreCounted(run.rest, RemoveAt(live, run.index), budget - 1);
    }
  }

  /** For every network: no message is lost or duplicated, the order is kept, no empty batch is ever sent, and the
      number of sends never exceeds the cap and is reached exactly on exhaustion. */
  lemma ResendConserves<M>(named: string -> Option<nat>, net: Network<M>, msgs: seq<M>, cap: nat)
    ensures var run := Resend(named, net, msgs, cap);
            && multiset(msgs) == multiset(run.Live()) + multiset(run.Removed())
            && Subsequence(run.Live(), msgs)
            && (forall batch | batch in run.Sends() :: batch != [] && Subsequence(batch, msgs))
            && |run.Removed()| <= |run.Failures()| <= |run.Sends()| <= BatchRetries(|msgs|, cap)
            && (run.HowEnded().Exhausted? ==> |run.Sends()| == BatchRetries(|msgs|, cap))
  {
    var run, budget := Resend(named, net, msgs, cap), BatchRetries(|msgs|, cap);
    ResendFollows(named, net, 0, budget, msgs);
    MessagesConserved(run, msgs, budget);
    SendsAreCounted(run, msgs, budget);
    BatchesAreSubsequences(run, msgs, budget, run.Live());
    forall batch | batch in run.Sends() ensures batch != [] && Subsequence(batch, msgs) {
      BatchesAreSubsequences(run, msgs, budget, batch);
    }
  }

  lemma {:induction false} InRangeRemovesOnePerFailure<M>(run: Run<M>)
    requires run.IndicesInRange()
    ensures |run.Removed()| == |run.Failures()|
  {
    if run.Retry? {
      InRangeRemovesOnePerFailure(run.rest);
    }
  }

  /** Without an effective cap, and when every named index is in range, running out of attempts means that every
      message was sent and dropped by exactly one failure. */
  lemma ExhaustionRemovesEveryMessage<M>(named: string -> Option<nat>, net: Network<M>, msgs: seq<M>, cap: nat)
    requires cap == 0 || cap >= |msgs|
    requires var run := Resend(named, net, msgs, cap); run.HowEnded().Exhausted? && run.IndicesInRange()
    ensures var run := Resend(named, net, msgs, cap);
            && run.Live() == []
            && multiset(run.Removed()) == multiset(msgs)
            && |run.Sends()| == |run.Removed()| == |msgs|
  {
    var run := Resend(named, net, msgs, cap);
    ResendConserves(named, net, msgs, cap);
    ResendFollows(named, net, 0, BatchRetries(|msgs|, cap), msgs);
    SendsAreCounted(run, msgs, BatchRetries(|msgs|, cap));
    InRangeRemovesOnePerFailure(run);
    assert |multiset(msgs)| == |multiset(run.Live())| + |multiset(run.Removed())|;
  }

  // ---------- the answer given after exhaustion ----------

  lemma {:induction false} JoinContains(errors: seq<string>, pattern: string)
    requires pattern != [] && '\n' !in pattern
    ensures errors != [] && Contains(JoinText(errors), pattern) <==>
            exists k | 0 <= k < |errors| :: Contains(errors[k], pattern)
  {
    if |errors| > 1 {
      var init, last := errors[..|errors| - 1], errors[|errors| - 1];
      JoinContains(init, pattern);
      assert forall k | 0 <= k < |init| :: init[k] == errors[k];
      ContainsAcrossNewline(JoinText(init), last, pattern);
    }
  }

  lemma ContainsAcrossNewline(a: string, b: string, pattern: string)
    requires pattern != [] && '\n' !in pattern
    ensures Contains(a + "\n" + b, pattern) <==> Contains(a, pattern) || Contains(b, pattern)
  {
    var s := a + "\n" + b;
    assert s[|a|] == '\n' && s[..|a|] == a && s[|a| + 1..] == b;
    forall i: nat | HasAt(s, i, pattern)
      ensures HasAt(a, i, pattern) || (i > |a| && HasAt(b, i - |a| - 1, pattern))
    {
      if i <= |a| < i + |pattern| {
        assert false;
      }
    }
    forall i: nat | HasAt(a, i, pattern) ensures HasAt(s, i, pattern) {
      assert s[i..i + |pattern|] == a[i..i + |pattern|];
    }
    forall i: nat | HasAt(b, i, pattern) ensures HasAt(s, i + |a| + 1, pattern) {
      assert s[i + |a| + 1..i + |a| + 1 + |pattern|] == b[i..i + |pattern|];
    }
  }

  lemma ExpectedErrorIsOneLine()
    ensures EXPECTED_ERROR != [] && '\n' !in EXPECTED_ERROR
  {
  }

  /** After exhaustion nothing was delivered, yet the caller is told of success exactly when one of the failures was
      an already-submitted signature, whatever the other failures were. */
  lemma ExhaustionReportsSuccessIffSomeDuplicate<M>(
    named: string -> Option<nat>, net: Network<M>, msgs: seq<M>, cap: nat)
    requires Resend(named, net, msgs, cap).HowEnded().Exhausted?
    ensures var run := Resend(named, net, msgs, cap);
            OutcomeOf(run.HowEnded(), run.Failures()).Response? <==>
            exists k | 0 <= k < |run.Failures()| :: Contains(run.Failures()[k], EXPECTED_ERROR)
  {
    ExpectedErrorIsOneLine();
    JoinContains(Resend(named, net, msgs, cap).Failures(), EXPECTED_ERROR);
  }

  // ---------- against a chain that runs batches atomically ----------

  /** A chain's transition function: `None` when the message fails. */
  type Apply<!S, !M> = (S, M) -> Option<S>

  /** The state after a whole batch, or the index of the first message that fails. */
  function Execute<S, M>(apply: Apply<S, M>, s: S, batch: seq<M>): Result<S, nat> {
    if batch == [] then Success(s)
    else
      match apply(s, batch[0])
      case None => Failure(0)
      case Some(next) =>
        match Execute(apply, next, batch[1..])
        case Success(end) => Success(end)
        case Failure(k) => Failure(k + 1)
  }

  lemma {:induction false} ExecuteSame<S(!new), M(!new)>(f: Apply<S, M>, g: Apply<S, M>, s: S, batch: seq<M>)
    requires forall t: S, m: M :: f(t, m) == g(t, m)
    ensures Execute(f, s, batch) == Execute(g, s, batch)
    decreases |batch|
  {
    if batch != [] && f(s, batch[0]).Some? {
      ExecuteSame(f, g, f(s, batch[0]).value, batch[1..]);
    }
  }

  /** The reference: take the messages in order, skipping each one that fails where it stands. */
  function Greedy<S, M>(apply: Apply<S, M>, s: S, msgs: seq<M>): (seq<M>, S)
  {
    if msgs == [] then ([], s)
    else
      match apply(s, msgs[0])
      case None => Greedy(apply, s, msgs[1..])
      case Some(next) =>
        var (kept, end) := Greedy(apply, next, msgs[1..]);
        ([msgs[0]] + kept, end)
  }

  /** Batches of at most `size` messages run atomically from `s`; a failing batch is answered with a text naming its
      first failing message. */
  ghost predicate Honest<S, M(!new)>(
    named: string -> Option<nat>, net: Network<M>, apply: Apply<S, M>, s: S, size: nat)
  {
    forall i: nat, batch: seq<M> | |batch| <= size ::
      match Execute(apply, s, batch)
      case Success(_) => net(i, batch).Delivered?
      case Failure(k) =>
        net(i, batch).Rejected? && named(net(i, batch).text) == Some(k)
  }

  lemma {:induction false} FailureIndexInRange<S, M>(apply: Apply<S, M>, s: S, batch: seq<M>)
    ensures match Execute(apply, s, batch)
            case Success(end) => Greedy(apply, s, batch) == (batch, end)
            case Failure(k) => k < |batch|
  {
    if batch != [] && apply(s, batch[0]).Some? {
      FailureIndexInRange(apply, apply(s, batch[0]).value, batch[1..]);
      assert [batch[0]] + batch[1..] == batch;
    }
  }

  /** Dropping the first failing message does not change what the greedy pass keeps, and the next failure, if
      any, is not earlier. */
  lemma {:induction false} DroppingFirstFailure<S, M>(apply: Apply<S, M>, s: S, batch: seq<M>)
    requires Execute(apply, s, batch).Failure?
    ensures var k := Execute(apply, s, batch).error;
            && k < |batch|
            && Greedy(apply, s, RemoveAt(batch, k)) == Greedy(apply, s, batch)
            && (match Execute(apply, s, RemoveAt(batch, k)) case Success(_) => true case Failure(next) => k <= next)
  {
    var k := Execute(apply, s, batch).error;
    FailureIndexInRange(apply, s, batch);
    if k == 0 {
      assert RemoveAt(batch, 0) == batch[1..];
    } else {
      DroppingFirstFailure(apply, apply(s, batch[0]).value, batch[1..]);
      assert RemoveAt(batch, k)[1..] == RemoveAt(batch[1..], k - 1);
    }
  }

  lemma {:induction false} GreedyIsSubsequence<S, M>(apply: Apply<S, M>, s: S, msgs: seq<M>)
    ensures Subsequence(Greedy(apply, s, msgs).0, msgs)
    ensures |Greedy(apply, s, msgs).0| <= |msgs|
  {
    if msgs != [] {
      var next := if apply(s, msgs[0]).Some? then apply(s, msgs[0]).value else s;
      GreedyIsSubsequence(apply, next, msgs[1..]);
      SubsequenceCons(Greedy(apply, next, msgs[1..]).0, msgs[1..], msgs[0]);
      assert [msgs[0]] + msgs[1..] == msgs;
    } else {
      SubsequenceReflexive(msgs);
    }
  }

  lemma {:induction false} KeepingNothing<S, M>(apply: Apply<S, M>, s: S, msgs: seq<M>)
    ensures Greedy(apply, s, msgs).0 == [] ==> Greedy(apply, s, msgs).1 == s
  {
    if msgs != [] && apply(s, msgs[0]).None? {
      KeepingNothing(apply, s, msgs[1..]);
    }
  }

  /** Every answer in the run is the one an atomic chain in state `s` gives. */
  ghost predicate AnsweredBy<S, M>(run: Run<M>, apply: Apply<S, M>, s: S) {
    match run
    case GaveUp(_) => true
    case Last(batch, end) => end.Accepted? && Execute(apply, s, batch).Success?
    case Retry(batch, _, k, rest) => Execute(apply, s, batch) == Failure(k) && AnsweredBy(rest, apply, s)
  }

  lemma {:induction false} HonestRunIsAnswered<S, M(!new)>(
    named: string -> Option<nat>, net: Network<M>, apply: Apply<S, M>, s: S, size: nat, i: nat, budget: nat,
    live: seq<M>)
    requires Honest(named, net, apply, s, size) && |live| <= size
    ensures AnsweredBy(ResendFrom(named, net, i, budget, live), apply, s)
    decreases budget
  {
    if budget != 0 {
      var reply := net(i, live);
      var run := ResendFrom(named, net, i, budget, live);
      if run.Retry? {
        HonestRunIsAnswered(named, net, apply, s, size, i + 1, budget - 1, RemoveAt(live, run.index));
      }
    }
  }

  lemma {:induction false} AnsweredIndices<S, M>(run: Run<M>, apply: Apply<S, M>, s: S, live: seq<M>, budget: nat)
    requires Follows(run, live, budget) && AnsweredBy(run, apply, s)
    ensures run.IndicesInRange() && run.IndicesNeverDecrease()
    decreases budget
  {
    if run.Retry? {
      DroppingFirstFailure(apply, s, live);
      AnsweredIndices(run.rest, apply, s, RemoveAt(live, run.index), budget - 1);
    }
  }

  lemma {:induction false} AnsweredRunIsGreedy<S, M>(
    run: Run<M>, apply: Apply<S, M>, s: S, live: seq<M>, budget: nat)
    requires Follows(run, live, budget) && AnsweredBy(run, apply, s)
    ensures var (kept, end) := Greedy(apply, s, live);
            if |live| - |kept| < budget
            then && run.Committed() == Some(kept)
                 && |run.Sends()| == |live| - |kept| + 1
                 && Execute(apply, s, kept) == Success(end)
            else run.HowEnded().Exhausted?
    decreases budget
  {
    GreedyIsSubsequence(apply, s, live);
    FailureIndexInRange(apply, s, live);
    if run.Retry? {
      DroppingFirstFailure(apply, s, live);
      AnsweredRunIsGreedy(run.rest, apply, s, RemoveAt(live, run.index), budget - 1);
    }
  }

  /** The resend loop refines the greedy pass: what it delivers is exactly the greedy subsequence and leaves the chain
      in the greedy pass's state. It needs one send per skipped message plus one; when the cap does not allow that
      many, it makes exactly the allowed number of sends and delivers nothing. Reported indices never decrease. */
  lemma ResendIsGreedy<S, M(!new)>(
    named: string -> Option<nat>, net: Network<M>, apply: Apply<S, M>, s: S, msgs: seq<M>, cap: nat)
    requires Honest(named, net, apply, s, |msgs|)
    ensures var run := Resend(named, net, msgs, cap);
            var (kept, end) := Greedy(apply, s, msgs);
            var skipped := |msgs| - |kept|;
            && Subsequence(kept, msgs)
            && run.IndicesInRange()
            && run.IndicesNeverDecrease()
            && (if skipped < BatchRetries(|msgs|, cap)
                then && run.Committed() == Some(kept)
                     && |run.Sends()| == skipped + 1
                     && Execute(apply, s, kept) == Success(end)
                else && run.Committed() == None
                     && run.HowEnded().Exhausted?
                     && |run.Sends()| == BatchRetries(|msgs|, cap))
  {
    var run, budget := Resend(named, net, msgs, cap), BatchRetries(|msgs|, cap);
    ResendFollows(named, net, 0, budget, msgs);
    HonestRunIsAnswered(named, net, apply, s, |msgs|, 0, budget, msgs);
    AnsweredIndices(run, apply, s, msgs, budget);
    AnsweredRunIsGreedy(run, apply, s, msgs, budget);
    SendsAreCounted(run, msgs, budget);
    GreedyIsSubsequence(apply, s, msgs);
  }

  /** The error text names message `k` the way the chain renders it, and nothing before it looks like a match. */
  ghost predicate Renders(text: string, k: nat) {
    exists before: string, after: string ::
      && text == Rendered(before, k, after)
      && k <= MAX_INT
      && (after != [] ==> !IsDigit(after[0]))
      && forall q: nat | q < |before| :: !MatchesAt(text, q)
  }

  lemma RendersIsNamed(text: string, k: nat)
    requires Renders(text, k)
    ensures NamedMessage(text) == Some(k)
  {
    var before: string, after: string :|
      && text == Rendered(before, k, after)
      && (after != [] ==> !IsDigit(after[0]))
      && forall q: nat | q < |before| :: !MatchesAt(text, q);
    RenderedIndexIsRecovered(before, k, after);
  }

  /** A chain that writes its failures in the usual form is honest to the reader the loop uses, about every batch whose
      indices fit an int. */
  lemma RenderingChainIsHonest<S, M(!new)>(net: Network<M>, apply: Apply<S, M>, s: S, size: nat)
    requires forall i: nat, batch: seq<M> | |batch| <= size ::
               match Execute(apply, s, batch)
               case Success(_) => net(i, batch).Delivered?
               case Failure(k) => net(i, batch).Rejected? && Renders(net(i, batch).text, k)
    ensures Honest(NamedMessage, net, apply, s, size)
  {
    forall i: nat, batch: seq<M> | |batch| <= size && Execute(apply, s, batch).Failure?
      ensures net(i, batch).Rejected? && NamedMessage(net(i, batch).text) == Some(Execute(apply, s, batch).error)
    {
      RendersIsNamed(net(i, batch).text, Execute(apply, s, batch).error);
    }
  }

  // ---------- success reported without delivery ----------

  /** The messages the greedy pass skips, each with the state it fails in. */
  function Skipped<S, M>(apply: Apply<S, M>, s: S, msgs: seq<M>): seq<(S, M)> {
    if msgs == [] then []
    else
      match apply(s, msgs[0])
      case None => [(s, msgs[0])] + Skipped(apply, s, msgs[1..])
      case Some(next) => Skipped(apply, next, msgs[1..])
  }

  /** The first message of a batch that fails, and the state it fails in. */
  function FirstFailure<S, M>(apply: Apply<S, M>, s: S, batch: seq<M>): Option<(S, M)> {
    if batch == [] then None
    else
      match apply(s, batch[0])
      case None => Some((s, batch[0]))
      case Some(next) => FirstFailure(apply, next, batch[1..])
  }

  lemma {:induction false} SkippedOrKept<S, M>(apply: Apply<S, M>, s: S, msgs: seq<M>)
    ensures |Skipped(apply, s, msgs)| + |Greedy(apply, s, msgs).0| == |msgs|
    decreases |msgs|
  {
    if msgs != [] {
      SkippedOrKept(apply, if apply(s, msgs[0]).Some? then apply(s, msgs[0]).value else s, msgs[1..]);
    }
  }

  /** Dropping the first failing message takes the first entry off the skipped list. */
  lemma {:induction false} SkippedByFailure<S, M>(apply: Apply<S, M>, s: S, batch: seq<M>)
    requires Execute(apply, s, batch).Failure?
    ensures FirstFailure(apply, s, batch).Some?
    ensures Skipped(apply, s, batch) ==
            [FirstFailure(apply, s, batch).value] + Skipped(apply, s, RemoveAt(batch, Execute(apply, s, batch).error))
    decreases |batch|
  {
    var k := Execute(apply, s, batch).error;
    FailureIndexInRange(apply, s, batch);
    if k == 0 {
      assert RemoveAt(batch, 0) == batch[1..];
    } else {
      SkippedByFailure(apply, apply(s, batch[0]).value, batch[1..]);
      assert RemoveAt(batch, k)[0] == batch[0];
      assert RemoveAt(batch, k)[1..] == RemoveAt(batch[1..], k - 1);
    }
  }

  /** The error text of a failing batch is an expected one exactly when its first failing message is a duplicate. */
  ghost predicate Marks<S, M(!new)>(
    expected: string -> bool, duplicate: (S, M) -> bool, net: Network<M>, apply: Apply<S, M>, s: S, size: nat)
  {
    forall i: nat, batch: seq<M> | |batch| <= size && FirstFailure(apply, s, batch).Some? && net(i, batch).Rejected? ::
      var first := FirstFailure(apply, s, batch).value;
      expected(net(i, batch).text) <==> duplicate(first.0, first.1)
  }

  lemma {:induction false} FailuresAreSkips<S, M(!new)>(
    expected: string -> bool, duplicate: (S, M) -> bool, named: string -> Option<nat>, net: Network<M>,
    apply: Apply<S, M>, s: S, size: nat, i: nat, budget: nat, live: seq<M>)
    requires Honest(named, net, apply, s, size) && Marks(expected, duplicate, net, apply, s, size) && |live| <= size
    ensures var failures, skipped := ResendFrom(named, net, i, budget, live).Failures(), Skipped(apply, s, live);
            && |failures| <= |skipped|
            && forall j | 0 <= j < |failures| :: expected(failures[j]) <==> duplicate(skipped[j].0, skipped[j].1)
    decreases budget
  {
    var run := ResendFrom(named, net, i, budget, live);
    if run.Retry? {
      SkippedByFailure(apply, s, live);
      FailuresAreSkips(
        expected, duplicate, named, net, apply, s, size, i + 1, budget - 1, RemoveAt(live, run.index));
    }
  }

  /** A duplicate is among the first `n` messages the greedy pass skips. */
  ghost predicate DuplicateAmong<S, M>(
    duplicate: (S, M) -> bool, apply: Apply<S, M>, s: S, msgs: seq<M>, n: nat)
  {
    exists j | 0 <= j < n && j < |Skipped(apply, s, msgs)| ::
      duplicate(Skipped(apply, s, msgs)[j].0, Skipped(apply, s, msgs)[j].1)
  }

  predicate IsExpected(text: string) { Contains(text, EXPECTED_ERROR) }

  /** When the caller is told of success although nothing was delivered: exactly when the greedy pass skips at least
      as many messages as there are attempts, and a duplicate is among the first that many. */
  lemma SuccessWithoutDeliveryIff<S, M(!new)>(
    duplicate: (S, M) -> bool, net: Network<M>, apply: Apply<S, M>, s: S, msgs: seq<M>, cap: nat)
    requires Honest(NamedMessage, net, apply, s, |msgs|)
    requires Marks(IsExpected, duplicate, net, apply, s, |msgs|)
    ensures var run, attempts := Resend(NamedMessage, net, msgs, cap), BatchRetries(|msgs|, cap);
            run.Committed().None? && OutcomeOf(run.HowEnded(), run.Failures()).Response? <==>
            && |msgs| - |Greedy(apply, s, msgs).0| >= attempts
            && DuplicateAmong(duplicate, apply, s, msgs, attempts)
  {
    var run, attempts := Resend(NamedMessage, net, msgs, cap), BatchRetries(|msgs|, cap);
    ResendIsGreedy(NamedMessage, net, apply, s, msgs, cap);
    SkippedOrKept(apply, s, msgs);
    FailuresAreSkips(IsExpected, duplicate, NamedMessage, net, apply, s, |msgs|, 0, attempts, msgs);
    if run.HowEnded().Exhausted? {
      ResendFollows(NamedMessage, net, 0, attempts, msgs);
      SendsAreCounted(run, msgs, attempts);
      ExhaustionReportsSuccessIffSomeDuplicate(NamedMessage, net, msgs, cap);
      SameSome(IsExpected, duplicate, run.Failures(), Skipped(apply, s, msgs), attempts);
    }
  }

  lemma SameSome<S, M>(
    expected: string -> bool, duplicate: (S, M) -> bool, failures: seq<string>, skipped: seq<(S, M)>, n: nat)
    requires |failures| == n <= |skipped|
    requires forall j | 0 <= j < n :: expected(failures[j]) <==> duplicate(skipped[j].0, skipped[j].1)
    ensures (exists j | 0 <= j < n :: expected(failures[j])) <==>
            exists j | 0 <= j < n && j < |skipped| :: duplicate(skipped[j].0, skipped[j].1)
  {
  }
}
