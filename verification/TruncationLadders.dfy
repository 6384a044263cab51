/** Asking again with a larger budget after a reply was cut off: the plain, the streaming and the tool-call ladder
    (`src/chat/chat-local-llm-adapter.ts`, `raisedTokenBudget` in `src/core/retry-policy.ts`). */
module TruncationLadders {
  import opened Wrappers
  import Chat

  /** `cut` says that the stop reason is a token limit. */
  datatype Reply = Reply(content: string, cut: bool, reasoningTokens: Option<int>, toolCalls: seq<Chat.ToolCall>)

  datatype Ask = Ask(prompt: seq<Chat.Message>, budget: int, reply: Reply)

  datatype Kind = Plain | Streamed | Tooled

  /** The client; an answer may depend on everything asked before. */
  type Client = (seq<Ask>, seq<Chat.Message>, int) -> Reply

  const RETRY_MAX_ATTEMPTS := 3
  const BUDGET_CEILING := 8192
  const CONTINUATION_MARKER := "\n\n_(continued)_\n\n"
  const CONTINUE_NUDGE := Chat.Message(Chat.User, "Cut off: go on from here.")

  function Max(a: int, b: int): int { if a > b then a else b }
  function Min(a: int, b: int): int { if a < b then a else b }

  /** The doubled budget, clamped to the ceiling but never below what there was. */
  function Raised(current: int): int {
    var base := Max(1, current);
    Min(base * 2, Max(base, BUDGET_CEILING))
  }

  predicate Starved(r: Reply, budget: int) {
    r.reasoningTokens.Some? && budget > 0 && r.reasoningTokens.value as real >= 0.9 * budget as real
  }

  /** Whether a reply asks for more room; only the tool path counts reasoning and looks for a call. */
  predicate WantsMore(kind: Kind, a: Ask) {
    if kind.Tooled? then a.reply.toolCalls == [] && (a.reply.cut || Starved(a.reply, a.budget)) else a.reply.cut
  }

  /** What the user has seen: the cleaned replies with a marker before each continuation. */
  function Shown(clean: string -> string, asks: seq<Ask>): string {
    if asks == [] then ""
    else Shown(clean, asks[..|asks| - 1]) + (if |asks| > 1 then CONTINUATION_MARKER else "")
         + clean(asks[|asks| - 1].reply.content)
  }

  /** A streamed ladder asks to continue what was shown, the others ask the same again. */
  function NextPrompt(kind: Kind, messages: seq<Chat.Message>, clean: string -> string, asks: seq<Ask>): seq<Chat.Message> {
    if kind.Streamed? then messages + [Chat.Message(Chat.Assistant, Shown(clean, asks)), CONTINUE_NUDGE] else messages
  }

  function NextAsk(kind: Kind, client: Client, messages: seq<Chat.Message>, clean: string -> string, asks: seq<Ask>): Ask
    requires asks != []
  {
    var budget := Raised(asks[|asks| - 1].budget);
    var prompt := NextPrompt(kind, messages, clean, asks);
    Ask(prompt, budget, client(asks, prompt, budget))
  }

  /** All that is asked, given what was asked so far and how many passes are left. */
  function Climb(kind: Kind, client: Client, messages: seq<Chat.Message>, clean: string -> string, asks: seq<Ask>,
                 passes: nat): (r: seq<Ask>)
    requires asks != []
    ensures asks <= r
    decreases passes
  {
    var last := asks[|asks| - 1];
    if passes == 0 || !WantsMore(kind, last) || Raised(last.budget) <= last.budget then asks
    else Climb(kind, client, messages, clean, asks + [NextAsk(kind, client, messages, clean, asks)], passes - 1)
  }

  function FirstAsk(client: Client, prompt: seq<Chat.Message>, budget: int): Ask {
    Ask(prompt, budget, client([], prompt, budget))
  }

  function LastReply(asks: seq<Ask>): Reply
    requires asks != []
  {
    asks[|asks| - 1].reply
  }

  // ----- the three ladders

  method CompletePlain(client: Client, messages: seq<Chat.Message>, maxTokens: int, adaptive: bool, clean: string -> string)
    returns (text: string, ghost asks: seq<Ask>)
    ensures asks == Climb(Plain, client, messages, clean, [FirstAsk(client, messages, maxTokens)],
                          if adaptive then RETRY_MAX_ATTEMPTS else 0)
    ensures text == clean(LastReply(Climb(Plain, client, messages, clean, [FirstAsk(client, messages, maxTokens)],
                                          if adaptive then RETRY_MAX_ATTEMPTS else 0)).content)
  {
    var completion := client([], messages, maxTokens);
    var seen := [Ask(messages, maxTokens, completion)];
    var budget := maxTokens;
    if adaptive {
      for pass := 0 to RETRY_MAX_ATTEMPTS
        invariant seen != [] && seen[|seen| - 1].budget == budget && seen[|seen| - 1].reply == completion
        invariant Climb(Plain, client, messages, clean, seen, RETRY_MAX_ATTEMPTS - pass)
               == Climb(Plain, client, messages, clean, [FirstAsk(client, messages, maxTokens)], RETRY_MAX_ATTEMPTS)
      {
        if !completion.cut { return clean(completion.content), seen; }
        var escalated := Raised(budget);
        if escalated <= budget { return clean(completion.content), seen; }
        completion := client(seen, messages, escalated);
        seen := seen + [Ask(messages, escalated, completion)];
        budget := escalated;
      }
    }
    return clean(completion.content), seen;
  }

  lemma ShownFirst(clean: string -> string, first: Ask)
    ensures Shown(clean, [first]) == clean(first.reply.content)
  {
    assert [first][..0] == [] && Shown(clean, []) == "";
  }

  /** The passes after the first stream. */
  method ContinueStream(client: Client, messages: seq<Chat.Message>, first: Ask, clean: string -> string)
    returns (combined: string, ghost asks: seq<Ask>)
    ensures asks == Climb(Streamed, client, messages, clean, [first], RETRY_MAX_ATTEMPTS)
    ensures combined == Shown(clean, asks)
  {
    ShownFirst(clean, first);
    var last, budget := first.reply, first.budget;
    var seen := [first];
    combined := clean(last.content);
    for pass := 0 to RETRY_MAX_ATTEMPTS
      invariant seen != [] && seen[|seen| - 1].budget == budget && seen[|seen| - 1].reply == last
      invariant combined == Shown(clean, seen)
      invariant Climb(Streamed, client, messages, clean, seen, RETRY_MAX_ATTEMPTS - pass)
             == Climb(Streamed, client, messages, clean, [first], RETRY_MAX_ATTEMPTS)
    {
      if !last.cut { return combined, seen; }
      var escalated := Raised(budget);
      if escalated <= budget { return combined, seen; }
      var prompt := messages + [Chat.Message(Chat.Assistant, combined), CONTINUE_NUDGE];
      last := client(seen, prompt, escalated);
      var next := Ask(prompt, escalated, last);
      assert next == NextAsk(Streamed, client, messages, clean, seen);
      ShownOneMore(clean, seen, next);
      seen := seen + [next];
      combined := combined + CONTINUATION_MARKER + clean(last.content);
      budget := escalated;
    }
    return combined, seen;
  }

  method StreamWithContinuation(client: Client, messages: seq<Chat.Message>, maxTokens: int, adaptive: bool,
                                clean: string -> string)
    returns (combined: string, ghost asks: seq<Ask>)
    ensures asks == Climb(Streamed, client, messages, clean, [FirstAsk(client, messages, maxTokens)],
                          if adaptive then RETRY_MAX_ATTEMPTS else 0)
    ensures combined == Shown(clean, Climb(Streamed, client, messages, clean, [FirstAsk(client, messages, maxTokens)],
                                           if adaptive then RETRY_MAX_ATTEMPTS else 0))
  {
    var first := Ask(messages, maxTokens, client([], messages, maxTokens));
    if adaptive {
      combined, asks := ContinueStream(client, messages, first, clean);
    } else {
      ShownFirst(clean, first);
      combined, asks := clean(first.reply.content), [first];
    }
  }

  /** The tool path's first retry already triples the budget; its client sees the wire of the retry throughout. */
  method RaiseToolBudget(client: Client, retryWire: seq<Chat.Message>, baseBudget: int, adaptive: bool, clean: string -> string)
    returns (response: Reply, ghost asks: seq<Ask>)
    ensures asks == Climb(Tooled, client, retryWire, clean, [FirstAsk(client, retryWire, Max(baseBudget * 3, 3072))],
                          if adaptive then RETRY_MAX_ATTEMPTS else 1)
    ensures response == LastReply(Climb(Tooled, client, retryWire, clean,
                                        [FirstAsk(client, retryWire, Max(baseBudget * 3, 3072))],
                                        if adaptive then RETRY_MAX_ATTEMPTS else 1))
  {
    var escalationBudget := Max(baseBudget * 3, 3072);
    response := client([], retryWire, escalationBudget);
    var seen := [Ask(retryWire, escalationBudget, response)];
    var maxEscalations := if adaptive then RETRY_MAX_ATTEMPTS else 1;
    for pass := 0 to maxEscalations
      invariant seen != [] && seen[|seen| - 1].budget == escalationBudget && seen[|seen| - 1].reply == response
      invariant Climb(Tooled, client, retryWire, clean, seen, maxEscalations - pass)
             == Climb(Tooled, client, retryWire, clean, [FirstAsk(client, retryWire, Max(baseBudget * 3, 3072))], maxEscalations)
    {
      var stillTruncated := |response.toolCalls| == 0 && (response.cut || Starved(response, escalationBudget));
      if !stillTruncated { return response, seen; }
      var escalated := Raised(escalationBudget);
      if escalated <= escalationBudget { return response, seen; }
      response := client(seen, retryWire, escalated);
      seen := seen + [Ask(retryWire, escalated, response)];
      escalationBudget := escalated;
    }
    return response, seen;
  }

  // ----- guarantees

  lemma ShownOneMore(clean: string -> string, asks: seq<Ask>, a: Ask)
    requires asks != []
    ensures Shown(clean, asks + [a]) == Shown(clean, asks) + CONTINUATION_MARKER + clean(a.reply.content)
  {
    assert (asks + [a])[..|asks|] == asks;
  }

  /** Each ask but the last was cut off, and the next one has a strictly larger budget. */
  ghost predicate Climbing(kind: Kind, asks: seq<Ask>, i: int)
    requires 0 <= i < |asks| - 1
  {
    WantsMore(kind, asks[i]) && asks[i + 1].budget == Raised(asks[i].budget) > asks[i].budget
  }

  lemma OneRung(kind: Kind, client: Client, messages: seq<Chat.Message>, clean: string -> string, asks: seq<Ask>, all: seq<Ask>)
    requires asks != [] && asks + [NextAsk(kind, client, messages, clean, asks)] <= all
    requires WantsMore(kind, asks[|asks| - 1]) && Raised(asks[|asks| - 1].budget) > asks[|asks| - 1].budget
    ensures Climbing(kind, all, |asks| - 1)
  {
    var more := asks + [NextAsk(kind, client, messages, clean, asks)];
    assert all[|asks| - 1] == more[|asks| - 1] && all[|asks|] == more[|asks|];
  }

  lemma {:induction false} ClimbFacts(kind: Kind, client: Client, messages: seq<Chat.Message>, clean: string -> string,
                                      asks: seq<Ask>, passes: nat)
    requires asks != []
    ensures var r := Climb(kind, client, messages, clean, asks, passes); var last := r[|r| - 1];
      && |r| <= |asks| + passes
      && (forall i :: |asks| - 1 <= i < |r| - 1 ==> Climbing(kind, r, i))
      && (WantsMore(kind, last) ==> |r| == |asks| + passes || last.budget >= BUDGET_CEILING)
      && last.budget <= Max(asks[|asks| - 1].budget, BUDGET_CEILING)
    decreases passes
  {
    var last := asks[|asks| - 1];
    if passes > 0 && WantsMore(kind, last) && Raised(last.budget) > last.budget {
      var more := asks + [NextAsk(kind, client, messages, clean, asks)];
      ClimbFacts(kind, client, messages, clean, more, passes - 1);
      OneRung(kind, client, messages, clean, asks, Climb(kind, client, messages, clean, more, passes - 1));
    }
  }

  /** A ladder cannot spin: it makes at most one call more than it has passes, every call after the first because the one
      before it was cut off and with a strictly larger budget, none beyond the ceiling (or the caller's own larger
      budget). A reply that still wants more is returned only when the passes or the ceiling are used up. */
  lemma LadderIsBounded(kind: Kind, client: Client, messages: seq<Chat.Message>, clean: string -> string, first: Ask, passes: nat)
    ensures var r := Climb(kind, client, messages, clean, [first], passes); var last := r[|r| - 1];
      && 1 <= |r| <= 1 + passes
      && (forall i :: 0 <= i < |r| - 1 ==> Climbing(kind, r, i))
      && last.budget <= Max(first.budget, BUDGET_CEILING)
      && (WantsMore(kind, last) ==> |r| == 1 + passes || last.budget >= BUDGET_CEILING)
  {
    ClimbFacts(kind, client, messages, clean, [first], passes);
  }

  /** The tool ladder never throws a call away: only the reply that it returns can carry one. */
  lemma LandedCallIsKept(client: Client, wire: seq<Chat.Message>, clean: string -> string, first: Ask, passes: nat, i: nat)
    requires i < |Climb(Tooled, client, wire, clean, [first], passes)|
    requires Climb(Tooled, client, wire, clean, [first], passes)[i].reply.toolCalls != []
    ensures i == |Climb(Tooled, client, wire, clean, [first], passes)| - 1
  {
    LadderIsBounded(Tooled, client, wire, clean, first, passes);
    var r := Climb(Tooled, client, wire, clean, [first], passes);
    assert i < |r| - 1 ==> Climbing(Tooled, r, i);
  }

  lemma {:induction false} ShownGrows(clean: string -> string, asks: seq<Ask>, k: nat)
    requires k <= |asks|
    ensures Shown(clean, asks[..k]) <= Shown(clean, asks)
  {
    if k < |asks| {
      ShownGrows(clean, asks[..|asks| - 1], k);
      assert asks[..|asks| - 1][..k] == asks[..k];
    } else {
      assert asks[..k] == asks;
    }
  }

  /** Ask `i` was made with what had been shown before it. */
  ghost predicate Continues(messages: seq<Chat.Message>, clean: string -> string, asks: seq<Ask>, i: int)
    requires 0 <= i < |asks|
  {
    asks[i].prompt == messages + [Chat.Message(Chat.Assistant, Shown(clean, asks[..i])), CONTINUE_NUDGE]
  }

  lemma NextContinues(client: Client, messages: seq<Chat.Message>, clean: string -> string, asks: seq<Ask>, all: seq<Ask>)
    requires asks != [] && asks + [NextAsk(Streamed, client, messages, clean, asks)] <= all
    ensures Continues(messages, clean, all, |asks|)
  {
    var more := asks + [NextAsk(Streamed, client, messages, clean, asks)];
    assert all[..|more|] == more;
    assert all[..|asks|] == more[..|asks|] == asks;
    assert all[|asks|] == more[|asks|];
  }

  lemma {:induction false} ContinuationPrompts(client: Client, messages: seq<Chat.Message>, clean: string -> string,
                                               asks: seq<Ask>, passes: nat, all: seq<Ask>)
    requires asks != [] && all == Climb(Streamed, client, messages, clean, asks, passes)
    ensures forall i :: |asks| <= i < |all| ==> Continues(messages, clean, all, i)
    decreases passes
  {
    var last := asks[|asks| - 1];
    if passes > 0 && WantsMore(Streamed, last) && Raised(last.budget) > last.budget {
      var more := asks + [NextAsk(Streamed, client, messages, clean, asks)];
      ContinuationPrompts(client, messages, clean, more, passes - 1, all);
      NextContinues(client, messages, clean, asks, all);
    }
  }

  /** Streaming only ever appends: what was shown stays in front of whatever follows, and each continuation is asked for
      with exactly the text shown so far as the assistant's turn. */
  lemma StreamOnlyAppends(client: Client, messages: seq<Chat.Message>, clean: string -> string, first: Ask, passes: nat, k: nat)
    requires k < |Climb(Streamed, client, messages, clean, [first], passes)|
    ensures var r := Climb(Streamed, client, messages, clean, [first], passes);
      && Shown(clean, r[..k]) <= Shown(clean, r)
      && (k > 0 ==> Continues(messages, clean, r, k))
  {
    ShownGrows(clean, Climb(Streamed, client, messages, clean, [first], passes), k);
    ContinuationPrompts(client, messages, clean, [first], passes, Climb(Streamed, client, messages, clean, [first], passes));
  }
}
