/** The forcing rung inside the turn loop: when the loop's model is the adapter of `src/chat/chat-local-llm-adapter.ts`,
    what a forced call of `src/chat/chat-agent-loop.ts` comes to. */
module ForcedTurns {
  import opened Wrappers
  import opened Chat
  import opened AgentLoop
  import opened AgentLoopGuarantees
  import opened ForceAdvance

  /** The adapter as the loop's model: `first` is the reply that reaches the rung, `position` a tool's place in the
      instruction, `claims` the retry cursor's consent, `answers` the model's answers to the forcing requests. */
  datatype Adapter = Adapter(offered: seq<string>, constrains: bool, reasoningModel: bool, nativeFlag: bool,
                             position: (string, string) -> int, claims: (seq<Event>, Request) -> bool,
                             first: (seq<Event>, Request) -> Response, answers: (seq<Event>, Request) -> ForcedAnswers)

  function SetOf(names: seq<string>): set<string> { set n | n in names }

  function Place(a: Adapter, q: Request): string -> int { (tool: string) => a.position(LastUserText(q.messages), tool) }

  function Input(a: Adapter, t: seq<Event>, q: Request): RungInput {
    RungInput(a.offered, SelectTools(a.offered, Place(a, q)), SetOf(q.used.GetOr([])),
              a.first(t, q).toolCalls, q.force, a.constrains, a.claims(t, q), a.reasoningModel, a.nativeFlag)
  }

  /** The call that the rung lands, if it is reached and lands one. */
  function Lands(a: Adapter, t: seq<Event>, q: Request): Option<ToolCall> {
    if q.allowTools then ForcedCall(Input(a, t, q), a.answers(t, q)) else None
  }

  /** The calls of the adapter's reply: the forced call alone, or those of the reply that reached the rung. */
  function CallsOf(a: Adapter, t: seq<Event>, q: Request): seq<ToolCall> {
    match Lands(a, t, q)
    case Some(c) => [c]
    case None => a.first(t, q).toolCalls
  }

  /** The environment's forced calls go to the adapter. */
  ghost predicate Adapts(env: Environment, a: Adapter) {
    forall t, q: Request :: q.force ==> env.complete(t, q).toolCalls == CallsOf(a, t, q)
  }

  // ----- a fresh single call is run next

  /** A reply with one call, of a tool that has not been used. */
  predicate FreshCall(e: Event) {
    e.Asked? && e.request.used.Some? && |e.response.toolCalls| == 1 && e.response.toolCalls[0].name !in e.request.used.value
  }

  predicate RunNext(t: seq<Event>, k: nat)
    requires k < |t| && FreshCall(t[k])
  {
    k + 1 < |t| && t[k + 1].ToolRun? && t[k + 1].call == t[k].response.toolCalls[0]
  }

  ghost predicate FreshRun(t: seq<Event>) { forall k: nat :: k < |t| && FreshCall(t[k]) ==> RunNext(t, k) }

  lemma FreshRunExtends(t: seq<Event>, e: Event)
    requires FreshRun(t) && !FreshCall(e)
    ensures FreshRun(t + [e])
  {
    forall k: nat | k < |t + [e]| && FreshCall((t + [e])[k])
      ensures RunNext(t + [e], k)
    {
      assert RunNext(t, k);
    }
  }

  lemma FreshThenRun(t: seq<Event>, e: Event, run: Event)
    requires FreshRun(t) && FreshCall(e) && run.ToolRun? && run.call == e.response.toolCalls[0]
    ensures FreshRun(t + [e] + [run])
  {
    var all := t + [e] + [run];
    forall k: nat | k < |all| && FreshCall(all[k])
      ensures RunNext(all, k)
    {
      if k < |t| { assert RunNext(t, k); }
    }
  }

  lemma {:induction false} ExecuteKeepsFreshRun(env: Environment, st: State, calls: seq<ToolCall>)
    requires FreshRun(st.trace)
    ensures FreshRun(Execute(env, st, calls).0.trace)
  {
    if calls != [] {
      ExecuteKeepsFreshRun(env, st, calls[..|calls| - 1]);
      var before := Execute(env, st, calls[..|calls| - 1]).0;
      var c := calls[|calls| - 1];
      FreshRunExtends(before.trace, ToolRun(c, env.executeTool(before.trace, c)));
    }
  }

  /** Asking and carrying out the reply. */
  lemma ReplyIsRun(env: Environment, st: State, force: bool)
    requires Books(env, st) && FreshRun(st.trace)
    ensures FreshRun(Apply(env, Ask(env, st, true, force), Reply(env, st, true, force)).trace)
    ensures Reply(env, st, true, force).toolCalls == [] ==> FreshRun(Ask(env, st, true, force).trace)
  {
    var r, asked := Reply(env, st, true, force), Ask(env, st, true, force);
    var e := Asked(RequestFor(env, st, true, force), r);
    if FreshCall(e) {
      var c := r.toolCalls[0];
      FreshCallIsNew(env, st, c);
      assert r.toolCalls == [c] && [c][..0] == [];
      assert Execute(env, asked, []) == (asked, []);
      assert Execute(env, asked, [c]).0 == RunTool(env, asked, c);
      FreshThenRun(st.trace, e, ToolRun(c, env.executeTool(asked.trace, c)));
    } else {
      FreshRunExtends(st.trace, e);
      ExecuteKeepsFreshRun(env, asked, r.toolCalls);
    }
  }

  lemma FreshCallIsNew(env: Environment, st: State, c: ToolCall)
    requires Books(env, st) && c.name !in st.used
    ensures FingerprintOf(c) !in st.fingerprints
  {
    UnusedNameIsNewCall(st.steps, c.name);
  }

  lemma ToolsOffAsk(env: Environment, st: State)
    requires FreshRun(st.trace)
    ensures FreshRun(Ask(env, st, false, false).trace)
  {
    FreshRunExtends(st.trace, Asked(RequestFor(env, st, false, false), Reply(env, st, false, false)));
  }

  lemma SteerKeepsFreshRun(env: Environment, st: State)
    requires FreshRun(st.trace)
    ensures FreshRun(Steer(env, st).trace) && FreshRun(Close(st).trace)
  {
    FreshRunExtends(st.trace, Polled(PolledBatch(env, st)));
    FreshRunExtends(st.trace, Closed);
  }

  lemma ConcludeKeepsFreshRun(env: Environment, st: State, hitLimit: bool, n: nat)
    requires FreshRun(st.trace)
    ensures FreshRun(Conclude(env, Steer(env, st), hitLimit, n).state.trace)
    ensures FreshRun(Close(Steer(env, st)).trace)
  {
    SteerKeepsFreshRun(env, st);
    SteerKeepsFreshRun(env, Steer(env, st));
    ToolsOffAsk(env, Close(Steer(env, st)));
  }

  lemma ForceKeepsFreshRun(env: Environment, st: State, iteration: nat)
    requires Books(env, st) && FreshRun(st.trace)
    ensures FreshRun(AgentLoop.ForceAdvance(env, st, iteration).trace)
  {
    ReplyIsRun(env, st, true);
  }

  lemma AnswerKeepsFreshRun(env: Environment, st: State, r: Response, n: nat)
    requires FreshRun(st.trace)
    ensures FreshRun(Answer(env, st, r, n).state.trace)
  {
    ConcludeKeepsFreshRun(env, st, false, n);
  }

  lemma RepliedKeepsFreshRun(env: Environment, st: State, iteration: nat, max: nat)
    requires Books(env, st) && FreshRun(st.trace)
    ensures FreshRun(StateOf(AfterReply(env, Ask(env, st, true, false), Reply(env, st, true, false), iteration, max)).trace)
  {
    var r, asked := Reply(env, st, true, false), Ask(env, st, true, false);
    ReplyIsRun(env, st, false);
    if r.toolCalls == [] {
      AnswerKeepsFreshRun(env, asked, r, iteration + 1);
    } else {
      AskKeepsBooks(env, st, true, false);
      ApplyKeepsBooks(env, asked, r);
      var applied := AgentLoop.Apply(env, asked, r);
      ForceKeepsFreshRun(env, applied, iteration);
      ConcludeKeepsFreshRun(env, applied, false, iteration + 1);
    }
  }

  lemma IterationKeepsFreshRun(env: Environment, st: State, iteration: nat, max: nat)
    requires Books(env, st) && FreshRun(st.trace)
    ensures FreshRun(StateOf(Iteration(env, st, iteration, max)).trace)
  {
    SteerKeepsBooks(env, st);
    SteerKeepsFreshRun(env, st);
    RepliedKeepsFreshRun(env, Steer(env, st), iteration, max);
    IterationSplits(env, st, iteration, max);
  }

  lemma {:induction false} LoopKeepsFreshRun(env: Environment, st: State, iteration: nat, max: nat)
    requires iteration <= max && Books(env, st) && FreshRun(st.trace)
    ensures FreshRun(LoopFrom(env, st, iteration, max).state.trace)
    decreases max - iteration
  {
    if iteration == max {
      ConcludeKeepsFreshRun(env, st, true, max);
    } else {
      IterationKeepsFreshRun(env, st, iteration, max);
      IterationKeepsBooks(env, st, iteration, max);
      if Iteration(env, st, iteration, max).Continue? {
        LoopKeepsFreshRun(env, Iteration(env, st, iteration, max).state, iteration + 1, max);
      }
    }
  }

  // ----- the rung inside the turn

  /** Event `k` is a forced request for which the rung lands a call. */
  ghost predicate ForcedAt(a: Adapter, t: seq<Event>, k: nat) {
    k < |t| && t[k].Asked? && t[k].request.force && t[k].request.allowTools && Lands(a, t[..k], t[k].request).Some?
  }

  ghost function ForcedCount(a: Adapter, t: seq<Event>): nat {
    if t == [] then 0 else ForcedCount(a, t[..|t| - 1]) + if ForcedAt(a, t, |t| - 1) then 1 else 0
  }

  lemma ForcedEventLands(env: Environment, a: Adapter, t: seq<Event>, k: nat)
    requires Adapts(env, a) && InformedCalls(env, t) && ForcedAt(a, t, k)
    ensures Landed(t[k], SetOf(a.offered)) && t[k].response.toolCalls == [Lands(a, t[..k], t[k].request).value]
  {
    var q := t[k].request;
    var x := Input(a, t[..k], q);
    assert t[k].response == env.complete(t[..k], q);
    ForcedCallIsFresh(x, Place(a, q), a.answers(t[..k], q));
    assert q.used.Some?;
  }

  lemma {:induction false} ForcedAreLanded(env: Environment, a: Adapter, t: seq<Event>)
    requires Adapts(env, a) && InformedCalls(env, t)
    ensures ForcedCount(a, t) <= LandedCount(t, SetOf(a.offered))
  {
    if t != [] {
      var before := t[..|t| - 1];
      forall k | 0 <= k < |before|
        ensures before[k] == t[k] && before[..k] == t[..k]
      {
      }
      ForcedAreLanded(env, a, before);
      if ForcedAt(a, t, |t| - 1) { ForcedEventLands(env, a, t, |t| - 1); }
    }
  }

  /** Each call that the rung lands is the reply, for an offered tool that has not been used, and is run next. */
  ghost predicate EachLandsAndRuns(a: Adapter, t: seq<Event>) {
    forall k: nat :: ForcedAt(a, t, k) ==>
      && Landed(t[k], SetOf(a.offered))
      && t[k].response.toolCalls == [Lands(a, t[..k], t[k].request).value]
      && FreshCall(t[k]) && RunNext(t, k)
  }

  lemma ForcedCallsRun(env: Environment, a: Adapter, t: seq<Event>)
    requires Adapts(env, a) && InformedCalls(env, t) && FreshRun(t)
    ensures EachLandsAndRuns(a, t)
  {
    forall k: nat | ForcedAt(a, t, k)
      ensures Landed(t[k], SetOf(a.offered)) && t[k].response.toolCalls == [Lands(a, t[..k], t[k].request).value]
      ensures FreshCall(t[k]) && RunNext(t, k)
    {
      ForcedEventLands(env, a, t, k);
      assert FreshCall(t[k]);
    }
  }

  /** The composition: in every turn whose forced calls go to the adapter, whatever the model answers, each call that the
      rung lands is the loop's reply, is for an offered tool that has not been used, and is run next; and there is at most
      one for each offered tool. */
  lemma ForcedTurn(env: Environment, a: Adapter, messages: seq<Message>, maxIterations: Option<int>)
    requires Adapts(env, a)
    ensures var t := Loop(env, messages, maxIterations).state.trace;
      EachLandsAndRuns(a, t) && ForcedCount(a, t) <= |SetOf(a.offered)|
  {
    var t := Loop(env, messages, maxIterations).state.trace;
    TurnKeepsBooks(env, messages, maxIterations);
    LoopKeepsFreshRun(env, Start(messages), 0, MaxIterations(maxIterations));
    ForcedCallsRun(env, a, t);
    ForcedAreLanded(env, a, t);
    AtMostOneLandedCallPerTool(env, messages, maxIterations, SetOf(a.offered));
  }
}
