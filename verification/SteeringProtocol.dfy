/** The steering window of a running turn (`createActiveChatTurn` in `src/chat/chat-service.ts`): the user's updates are
    accepted while it is open and drained by the loop. Accepts, polls and the close interleave freely. */
module SteeringProtocol {
  import opened Chat

  datatype Step = Accept(message: Steering) | Poll | Close

  /** `accepted` lists the messages whose sender was told yes, `batches` what each poll returned. */
  datatype State = State(open: bool, pending: seq<Steering>, accepted: seq<Steering>, batches: seq<seq<Steering>>)

  const OPENED: State := State(true, [], [], [])

  function Apply(s: State, step: Step): State {
    match step
    case Accept(m) => if s.open then s.(pending := s.pending + [m], accepted := s.accepted + [m]) else s
    case Poll => s.(pending := [], batches := s.batches + [s.pending])
    case Close => s.(open := false)
  }

  function Run(steps: seq<Step>): State {
    if steps == [] then OPENED else Apply(Run(steps[..|steps| - 1]), steps[|steps| - 1])
  }

  function Flat(batches: seq<seq<Steering>>): seq<Steering> {
    if batches == [] then [] else Flat(batches[..|batches| - 1]) + batches[|batches| - 1]
  }

  /** In every interleaving the polled batches, concatenated, are a prefix of the accepted messages; what is missing is
      exactly what is still pending. */
  lemma {:induction false} PolledThenPending(steps: seq<Step>)
    ensures Flat(Run(steps).batches) + Run(steps).pending == Run(steps).accepted
  {
    if steps != [] {
      var s, s' := Run(steps[..|steps| - 1]), Run(steps);
      PolledThenPending(steps[..|steps| - 1]);
      if steps[|steps| - 1].Poll? {
        assert s'.batches[..|s.batches|] == s.batches;
      }
    }
  }

  /** The messages that arrive before the first close. */
  function BeforeClose(steps: seq<Step>): seq<Steering> {
    if steps == [] || steps[0].Close? then []
    else (if steps[0].Accept? then [steps[0].message] else []) + BeforeClose(steps[1..])
  }

  predicate Closes(steps: seq<Step>) { exists i | 0 <= i < |steps| :: steps[i].Close? }

  lemma {:induction false} BeforeCloseOneMore(steps: seq<Step>, step: Step)
    ensures BeforeClose(steps + [step]) == BeforeClose(steps) + if step.Accept? && !Closes(steps) then [step.message] else []
  {
    if steps != [] {
      assert (steps + [step])[1..] == steps[1..] + [step] && (steps + [step])[0] == steps[0];
      if !steps[0].Close? {
        BeforeCloseOneMore(steps[1..], step);
        assert Closes(steps) <==> Closes(steps[1..]) by {
          if i :| 0 <= i < |steps| && steps[i].Close? { assert steps[1..][i - 1].Close?; }
          if i :| 0 <= i < |steps[1..]| && steps[1..][i].Close? { assert steps[i + 1].Close?; }
        }
      } else {
        assert Closes(steps);
      }
    } else {
      assert [step][1..] == [];
    }
  }

  function Polls(steps: seq<Step>): nat {
    if steps == [] then 0 else Polls(steps[..|steps| - 1]) + if steps[|steps| - 1].Poll? then 1 else 0
  }

  /** Exactly the messages that arrive before the first close are accepted, in order; and every poll returns a batch. */
  lemma {:induction false} AcceptedUntilTheClose(steps: seq<Step>)
    ensures Run(steps).accepted == BeforeClose(steps) && (Run(steps).open <==> !Closes(steps))
    ensures |Run(steps).batches| == Polls(steps)
  {
    if steps != [] {
      var before, last := steps[..|steps| - 1], steps[|steps| - 1];
      AcceptedUntilTheClose(before);
      BeforeCloseOneMore(before, last);
      assert steps == before + [last];
      assert Closes(steps) <==> Closes(before) || last.Close? by {
        if i :| 0 <= i < |before| && before[i].Close? { assert steps[i].Close?; }
        if i :| 0 <= i < |steps| && steps[i].Close? { assert i < |before| ==> before[i].Close?; }
      }
    }
  }

  /** Nothing is accepted after the close. */
  lemma {:induction false} NothingAcceptedAfterClose(before: seq<Step>, after: seq<Step>)
    ensures Run(before + [Close] + after).accepted == Run(before).accepted && !Run(before + [Close] + after).open
  {
    var steps := before + [Close] + after;
    if after == [] {
      assert steps[..|steps| - 1] == before;
    } else {
      NothingAcceptedAfterClose(before, after[..|after| - 1]);
      assert steps[..|steps| - 1] == before + [Close] + after[..|after| - 1];
    }
  }

  /** A message is accepted after the last poll. */
  predicate AcceptedSincePoll(steps: seq<Step>) {
    steps != [] &&
    match steps[|steps| - 1]
    case Poll => false
    case Close => AcceptedSincePoll(steps[..|steps| - 1])
    case Accept(_) => Run(steps[..|steps| - 1]).open || AcceptedSincePoll(steps[..|steps| - 1])
  }

  lemma {:induction false} PendingSincePoll(steps: seq<Step>)
    ensures Run(steps).pending != [] <==> AcceptedSincePoll(steps)
  {
    if steps != [] { PendingSincePoll(steps[..|steps| - 1]); }
  }

  /** Every accepted message has been polled exactly when none was accepted after the last poll. */
  lemma AllDeliveredIffNoneAfterLastPoll(steps: seq<Step>)
    ensures Flat(Run(steps).batches) == Run(steps).accepted <==> !AcceptedSincePoll(steps)
  {
    PolledThenPending(steps);
    PendingSincePoll(steps);
  }

  /** The window between the last poll and the close is real: a message accepted in it is confirmed to its sender and
      never reaches the model. */
  lemma AcceptedButNeverPolled(m: Steering)
    ensures var s := Run([Poll, Accept(m), Close]); s.accepted == [m] && Flat(s.batches) == [] && !s.open
  {
    var none: seq<Steering> := [];
    var a: seq<Step> := [Poll];
    var b, c := a + [Accept(m)], a + [Accept(m)] + [Close];
    assert c == [Poll, Accept(m), Close] && c[..2] == b && b[..1] == a && a[..0] == [];
    assert Run(a) == State(true, [], [], [none]);
    assert Run(b) == State(true, [m], [m], [none]);
    assert [none][..0] == [];
  }

  class ActiveChatTurn {
    var open: bool
    var pending: seq<Steering>
    ghost var accepted: seq<Steering>
    ghost var batches: seq<seq<Steering>>

    ghost function Now(): State
      reads this
    {
      State(open, pending, accepted, batches)
    }

    constructor ()
      ensures Now() == OPENED
    {
      open, pending, accepted, batches := true, [], [], [];
    }

    method AcceptMessage(m: Steering) returns (ok: bool)
      modifies this
      ensures Now() == Apply(old(Now()), Accept(m)) && ok == old(open)
    {
      if !open { return false; }
      pending := pending + [m];
      accepted := accepted + [m];
      ok := true;
    }

    method PollMessages() returns (batch: seq<Steering>)
      modifies this
      ensures Now() == Apply(old(Now()), Poll) && batch == old(pending)
    {
      batch := pending;
      pending := [];
      batches := batches + [batch];
    }

    method CloseWindow()
      modifies this
      ensures Now() == Apply(old(Now()), Close)
    {
      open := false;
    }
  }
}
