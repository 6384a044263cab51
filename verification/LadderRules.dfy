/** What each ask of a ladder is, when there is another, and what is shown in the end, said of the asks themselves. */
module LadderRules {
  import opened Wrappers
  import opened TruncationLadders
  import Chat

  /** The reply asks for more room: it was cut off; on the tool path it has no call, and it was cut off or its reasoning
      used up nine tenths of the budget. */
  predicate CutShort(kind: Kind, a: Ask) {
    if kind.Tooled? then
      && a.reply.toolCalls == []
      && (a.reply.cut || (a.reply.reasoningTokens.Some? && a.budget > 0 && 10 * a.reply.reasoningTokens.value >= 9 * a.budget))
    else a.reply.cut
  }

  lemma WantsMeansCut(kind: Kind, a: Ask)
    ensures WantsMore(kind, a) <==> CutShort(kind, a)
  {
  }

  /** The next budget: twice as much, but no more than the ceiling, unless there was more already. */
  predicate NextBudget(b: int, next: int) {
    if b < 1 then next == 2
    else if 2 * b <= 8192 then next == 2 * b
    else if b <= 8192 then next == 8192
    else next == b
  }

  lemma RaisedIsNext(b: int)
    ensures NextBudget(b, Raised(b))
    ensures Raised(b) <= b <==> b >= 8192
  {
  }

  /** Ask `i` follows from those before it: it was needed, has the next budget, and is what the client answered; a streamed
      ladder asks to go on from what was shown, the others ask the same again. */
  ghost predicate FollowsOn(kind: Kind, client: Client, messages: seq<Chat.Message>, clean: string -> string, asks: seq<Ask>, i: nat)
    requires 0 < i < |asks|
  {
    && CutShort(kind, asks[i - 1]) && asks[i - 1].budget < 8192 && NextBudget(asks[i - 1].budget, asks[i].budget)
    && asks[i].reply == client(asks[..i], asks[i].prompt, asks[i].budget)
    && asks[i].prompt == (if kind.Streamed? then messages + [Chat.Message(Chat.Assistant, Shown(clean, asks[..i])), CONTINUE_NUDGE] else messages)
  }

  lemma NextFollowsOn(kind: Kind, client: Client, messages: seq<Chat.Message>, clean: string -> string, asks: seq<Ask>, all: seq<Ask>)
    requires asks != [] && WantsMore(kind, asks[|asks| - 1]) && Raised(asks[|asks| - 1].budget) > asks[|asks| - 1].budget
    requires asks + [NextAsk(kind, client, messages, clean, asks)] <= all
    ensures FollowsOn(kind, client, messages, clean, all, |asks|)
  {
    var more := asks + [NextAsk(kind, client, messages, clean, asks)];
    assert all[..|more|] == more;
    assert all[..|asks|] == more[..|asks|] == asks;
    assert all[|asks|] == more[|asks|] && all[|asks| - 1] == more[|asks| - 1];
    WantsMeansCut(kind, asks[|asks| - 1]);
    RaisedIsNext(asks[|asks| - 1].budget);
  }

  lemma {:induction false} ClimbFollowsOn(kind: Kind, client: Client, messages: seq<Chat.Message>, clean: string -> string,
                                          asks: seq<Ask>, passes: nat, all: seq<Ask>)
    requires asks != [] && all == Climb(kind, client, messages, clean, asks, passes)
    ensures |asks| <= |all| <= |asks| + passes
    ensures forall i: nat :: |asks| <= i < |all| ==> FollowsOn(kind, client, messages, clean, all, i)
    ensures |all| < |asks| + passes ==> !CutShort(kind, all[|all| - 1]) || all[|all| - 1].budget >= 8192
    decreases passes
  {
    var last := asks[|asks| - 1];
    WantsMeansCut(kind, last);
    RaisedIsNext(last.budget);
    if passes > 0 && WantsMore(kind, last) && Raised(last.budget) > last.budget {
      var more := asks + [NextAsk(kind, client, messages, clean, asks)];
      ClimbFollowsOn(kind, client, messages, clean, more, passes - 1, all);
      NextFollowsOn(kind, client, messages, clean, asks, all);
    }
  }

  /** A ladder's asks, one by one: each but the first follows from those before it, and the ladder ends before its passes
      do only on a reply that was not cut short, or at the ceiling. */
  lemma LadderFollowsOn(kind: Kind, client: Client, messages: seq<Chat.Message>, clean: string -> string, first: Ask, passes: nat)
    ensures var r := Climb(kind, client, messages, clean, [first], passes);
      && 1 <= |r| <= 1 + passes && r[0] == first
      && (forall i: nat :: 1 <= i < |r| ==> FollowsOn(kind, client, messages, clean, r, i))
      && (|r| < 1 + passes ==> !CutShort(kind, r[|r| - 1]) || r[|r| - 1].budget >= 8192)
  {
    ClimbFollowsOn(kind, client, messages, clean, [first], passes, Climb(kind, client, messages, clean, [first], passes));
  }

  // ----- what is shown

  function Cleaned(clean: string -> string, asks: seq<Ask>): seq<string> {
    seq(|asks|, i requires 0 <= i < |asks| => clean(asks[i].reply.content))
  }

  lemma {:induction false} JoinOneMore(names: seq<string>, separator: string, last: string)
    requires names != []
    ensures Chat.Join(names + [last], separator) == Chat.Join(names, separator) + separator + last
  {
    if |names| > 1 {
      JoinOneMore(names[1..], separator, last);
      assert (names + [last])[1..] == names[1..] + [last];
    } else {
      assert (names + [last])[1..] == [last];
    }
  }

  /** What is shown is the cleaned replies, in order, with the marker between them. */
  lemma {:induction false} ShownIsJoined(clean: string -> string, asks: seq<Ask>)
    ensures Shown(clean, asks) == Chat.Join(Cleaned(clean, asks), CONTINUATION_MARKER)
  {
    if asks != [] {
      var before := asks[..|asks| - 1];
      ShownIsJoined(clean, before);
      assert Cleaned(clean, asks) == Cleaned(clean, before) + [clean(asks[|asks| - 1].reply.content)];
      if before != [] {
        JoinOneMore(Cleaned(clean, before), CONTINUATION_MARKER, clean(asks[|asks| - 1].reply.content));
      } else {
        assert Shown(clean, before) == "";
      }
    }
  }
}
