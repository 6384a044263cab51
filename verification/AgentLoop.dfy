/** The tool-call loop of one chat turn (`src/chat/chat-agent-loop.ts`): ask the model, run its new tool calls, feed the
    results back, and repeat until it answers or the iterations run out.

    The model, the tools and the user are arbitrary: each reply is any function of everything that has happened so far
    in the turn. `Loop` is the turn as a function of such an environment; `TurnLoop` is the same turn as the source
    runs it, over mutable state. */
module AgentLoop {
  import opened Wrappers
  import opened Text
  import opened Chat

  // ----- the environment

  /** What the model is asked: the prompt, whether tools are offered, whether the reply is streamed, the names of the
      tools already used (only when tools are offered), and whether a tool call is forced. */
  datatype Request = Request(messages: seq<Message>, allowTools: bool, streamed: bool, used: Option<seq<string>>, force: bool)

  datatype Event =
    | Asked(request: Request, response: Response)
    | ToolRun(call: ToolCall, result: ToolResult)
    | Polled(batch: seq<Steering>)
    | Closed

  datatype Environment = Environment(
    complete: (seq<Event>, Request) -> Response,
    executeTool: (seq<Event>, ToolCall) -> ToolResult,
    poll: Option<seq<Event> -> seq<Steering>>,
    assess: Option<seq<ToolStep> -> bool>,
    describe: Option<seq<ToolStep> -> Option<string>>,
    streams: bool)

  // ----- state

  /** Two calls collide only when their names and full arguments are the same. */
  datatype Fingerprint = Fingerprint(name: string, arguments: map<string, Value>)

  function FingerprintOf(c: ToolCall): Fingerprint { Fingerprint(c.name, c.arguments) }

  datatype State = State(messages: seq<Message>, steps: seq<ToolStep>, fingerprints: set<Fingerprint>, used: seq<string>,
                         totalTokens: int, strategies: seq<string>, trace: seq<Event>)

  datatype Outcome = Outcome(state: State, finalText: string, finalReasoning: Option<string>, hitIterationLimit: bool,
                             iterations: nat)

  const REPEATED_CALL_NUDGE := "This call was made before: use its result."
  const INCOMPLETE_NUDGE := "Steps are left: go on with the next one."

  function Start(messages: seq<Message>): State { State(messages, [], {}, [], 0, [], []) }

  /** Eight unless given, and never fewer than one. */
  function MaxIterations(given: Option<int>): (n: nat)
    ensures n >= 1 && (given.None? ==> n == 8) && (given.Some? && given.value >= 1 ==> n == given.value)
  {
    if given.GetOr(8) < 1 then 1 else given.GetOr(8)
  }

  /** The decimal digits of a number. */
  function Digits(n: nat): string {
    if n < 10 then [('0' as int + n) as char] else Digits(n / 10) + [('0' as int + n % 10) as char]
  }

  function IncompleteNudge(env: Environment, steps: seq<ToolStep>): string {
    var described := if env.describe.Some? then env.describe.value(steps) else None;
    if described.Some? && Trim(described.value) != "" then Trim(described.value) else INCOMPLETE_NUDGE
  }

  // ----- the moves

  /** A strategy name that is not empty and not yet listed is added at the end. */
  function AddStrategy(strategies: seq<string>, s: Option<string>): seq<string> {
    if s.None? || s.value == "" || s.value in strategies then strategies else strategies + [s.value]
  }

  function RequestFor(env: Environment, st: State, allowTools: bool, force: bool): Request {
    Request(st.messages, allowTools, !allowTools && env.streams, if allowTools then Some(st.used) else None, force)
  }

  function Reply(env: Environment, st: State, allowTools: bool, force: bool): Response {
    env.complete(st.trace, RequestFor(env, st, allowTools, force))
  }

  /** Call the model and count what the call used. */
  function Ask(env: Environment, st: State, allowTools: bool, force: bool): State {
    var r := Reply(env, st, allowTools, force);
    st.(totalTokens := st.totalTokens + r.totalTokens.GetOr(0),
        strategies := AddStrategy(st.strategies, r.promptStrategy),
        trace := st.trace + [Asked(RequestFor(env, st, allowTools, force), r)])
  }

  function PolledBatch(env: Environment, st: State): seq<Steering> {
    if env.poll.None? then [] else env.poll.value(st.trace)
  }

  /** Drain the steering messages accepted so far into the prompt. */
  function Steer(env: Environment, st: State): State {
    if env.poll.None? then st
    else
      var batch := PolledBatch(env, st);
      st.(messages := AppendSteering(st.messages, batch), trace := st.trace + [Polled(batch)])
  }

  function Close(st: State): State { st.(trace := st.trace + [Closed]) }

  function AddName(names: seq<string>, n: string): seq<string> { if n in names then names else names + [n] }

  /** Run one call that is new. */
  function RunTool(env: Environment, st: State, c: ToolCall): State {
    var r := env.executeTool(st.trace, c);
    st.(steps := st.steps + [ToolStep(c, r)],
        fingerprints := st.fingerprints + {FingerprintOf(c)},
        used := AddName(st.used, c.name),
        trace := st.trace + [ToolRun(c, r)])
  }

  /** The tool calls of a response in order: a repeat is answered with the nudge, a new call is run. */
  function Execute(env: Environment, st: State, calls: seq<ToolCall>): (State, seq<ToolResult>)
  {
    if calls == [] then (st, [])
    else
      var (before, results) := Execute(env, st, calls[..|calls| - 1]);
      var c := calls[|calls| - 1];
      if FingerprintOf(c) in before.fingerprints then
        (before, results + [ToolResult(c.id, REPEATED_CALL_NUDGE)])
      else
        (RunTool(env, before, c), results + [env.executeTool(before.trace, c)])
  }

  function Apply(env: Environment, st: State, r: Response): State {
    var (after, results) := Execute(env, st, r.toolCalls);
    after.(messages := AppendToolExchange(after.messages, r.text, results))
  }

  /** How many new calls the response ran. */
  function NewCalls(env: Environment, st: State, r: Response): int {
    |Execute(env, st, r.toolCalls).0.steps| - |st.steps|
  }

  function Nudge(env: Environment, st: State, text: string, iteration: nat): State {
    st.(messages := AppendToolExchange(st.messages, text,
          [ToolResult("incomplete-" + Digits(iteration), IncompleteNudge(env, st.steps))]))
  }

  predicate CanStillMakeProgress(env: Environment, st: State, iteration: nat, max: nat) {
    env.assess.Some? && !env.assess.value(st.steps) && iteration + 1 < max
  }

  // ----- one turn

  datatype Next = Continue(state: State) | Finish(outcome: Outcome)

  /** The last, tools-disabled call of a turn. */
  function Conclude(env: Environment, st: State, hitLimit: bool, iterations: nat): Outcome {
    var r := Reply(env, Close(st), false, false);
    Outcome(Ask(env, Close(st), false, false), r.text, r.reasoning, hitLimit, iterations)
  }

  /** The model chose to answer: steer once more, close, and ask again if the reply is streamed or was overtaken. */
  function Answer(env: Environment, st: State, r: Response, iterations: nat): Outcome {
    var steered := Steer(env, st);
    if env.streams || PolledBatch(env, st) != [] then Conclude(env, steered, false, iterations)
    else Outcome(Close(steered), r.text, r.reasoning, false, iterations)
  }

  /** A forced call after a response of nothing but repeats. */
  function ForceAdvance(env: Environment, st: State, iteration: nat): State {
    var forced := Reply(env, st, true, true);
    var asked := Ask(env, st, true, true);
    if forced.toolCalls == [] then Nudge(env, asked, "", iteration)
    else
      var applied := Apply(env, asked, forced);
      if NewCalls(env, asked, forced) == 0 then Nudge(env, applied, "", iteration) else applied
  }

  function Iteration(env: Environment, st: State, iteration: nat, max: nat): Next {
    var steered := Steer(env, st);
    var r := Reply(env, steered, true, false);
    var asked := Ask(env, steered, true, false);
    if r.toolCalls == [] then
      if CanStillMakeProgress(env, asked, iteration, max) then Continue(Nudge(env, asked, r.text, iteration))
      else Finish(Answer(env, asked, r, iteration + 1))
    else
      var applied := Apply(env, asked, r);
      if NewCalls(env, asked, r) != 0 then Continue(applied)
      else if CanStillMakeProgress(env, applied, iteration, max) then Continue(ForceAdvance(env, applied, iteration))
      else Finish(Conclude(env, Steer(env, applied), false, iteration + 1))
  }

  function LoopFrom(env: Environment, st: State, iteration: nat, max: nat): Outcome
    requires iteration <= max
    decreases max - iteration
  {
    if iteration == max then Conclude(env, Steer(env, st), true, max)
    else match Iteration(env, st, iteration, max)
      case Continue(after) => LoopFrom(env, after, iteration + 1, max)
      case Finish(outcome) => outcome
  }

  function Loop(env: Environment, messages: seq<Message>, maxIterations: Option<int>): Outcome {
    LoopFrom(env, Start(messages), 0, MaxIterations(maxIterations))
  }

  // ----- the turn over mutable state

  lemma ExecuteOneMore(env: Environment, st: State, calls: seq<ToolCall>, i: nat)
    requires i < |calls|
    ensures var (before, results) := Execute(env, st, calls[..i]);
      var c := calls[i];
      Execute(env, st, calls[..i + 1]) ==
        if FingerprintOf(c) in before.fingerprints then (before, results + [ToolResult(c.id, REPEATED_CALL_NUDGE)])
        else (RunTool(env, before, c), results + [env.executeTool(before.trace, c)])
  {
    var next := calls[..i + 1];
    assert next[..|next| - 1] == calls[..i] && next[|next| - 1] == calls[i];
  }

  class TurnLoop {
    const env: Environment
    var messages: seq<Message>
    var steps: seq<ToolStep>
    var executedFingerprints: set<Fingerprint>
    var usedToolNames: seq<string>
    var totalTokens: int
    var promptStrategies: seq<string>
    var trace: seq<Event>

    function Now(): State
      reads this
    {
      State(messages, steps, executedFingerprints, usedToolNames, totalTokens, promptStrategies, trace)
    }

    constructor (env: Environment, messages: seq<Message>)
      ensures this.env == env && Now() == Start(messages)
    {
      this.env, this.messages := env, messages;
      steps, executedFingerprints, usedToolNames, totalTokens, promptStrategies, trace := [], {}, [], 0, [], [];
    }

    method CallModel(allowTools: bool, force: bool) returns (r: Response)
      modifies this
      ensures r == Reply(env, old(Now()), allowTools, force) && Now() == Ask(env, old(Now()), allowTools, force)
    {
      var request := Request(messages, allowTools, !allowTools && env.streams,
                             if allowTools then Some(usedToolNames) else None, force);
      r := env.complete(trace, request);
      totalTokens := totalTokens + r.totalTokens.GetOr(0);
      if r.promptStrategy.Some? && r.promptStrategy.value != "" && r.promptStrategy.value !in promptStrategies {
        promptStrategies := promptStrategies + [r.promptStrategy.value];
      }
      trace := trace + [Asked(request, r)];
    }

    method ApplySteeringMessages() returns (count: nat)
      modifies this
      ensures Now() == Steer(env, old(Now())) && count == |PolledBatch(env, old(Now()))|
    {
      var batch: seq<Steering> := [];
      if env.poll.Some? {
        batch := env.poll.value(trace);
        trace := trace + [Polled(batch)];
      }
      if batch == [] {
        assert AppendSteering(messages, batch) == messages;
        return 0;
      }
      messages := AppendSteering(messages, batch);
      count := |batch|;
    }

    method ApplyResponse(response: Response) returns (executedNew: int)
      modifies this
      ensures Now() == Apply(env, old(Now()), response) && executedNew == NewCalls(env, old(Now()), response)
    {
      var results: seq<ToolResult> := [];
      executedNew := 0;
      for i := 0 to |response.toolCalls|
        invariant (Now(), results) == Execute(env, old(Now()), response.toolCalls[..i])
        invariant executedNew == |steps| - |old(steps)|
      {
        var call := response.toolCalls[i];
        ExecuteOneMore(env, old(Now()), response.toolCalls, i);
        if FingerprintOf(call) in executedFingerprints {
          results := results + [ToolResult(call.id, REPEATED_CALL_NUDGE)];
        } else {
          var result := env.executeTool(trace, call);
          results := results + [result];
          steps := steps + [ToolStep(call, result)];
          executedFingerprints := executedFingerprints + {FingerprintOf(call)};
          usedToolNames := AddName(usedToolNames, call.name);
          trace := trace + [ToolRun(call, result)];
          executedNew := executedNew + 1;
        }
      }
      assert response.toolCalls[..|response.toolCalls|] == response.toolCalls;
      messages := AppendToolExchange(messages, response.text, results);
    }

    method AppendNudge(text: string, iteration: nat)
      modifies this
      ensures Now() == Nudge(env, old(Now()), text, iteration)
    {
      messages := AppendToolExchange(messages, text,
                    [ToolResult("incomplete-" + Digits(iteration), IncompleteNudge(env, steps))]);
    }

    method FinalCall(hitLimit: bool, iterations: nat) returns (outcome: Outcome)
      modifies this
      ensures outcome == Conclude(env, old(Now()), hitLimit, iterations) && Now() == outcome.state
    {
      trace := trace + [Closed];
      var r := CallModel(false, false);
      outcome := Outcome(Now(), r.text, r.reasoning, hitLimit, iterations);
    }

    method AnswerNow(r: Response, iterations: nat) returns (outcome: Outcome)
      modifies this
      ensures outcome == Answer(env, old(Now()), r, iterations) && Now() == outcome.state
    {
      var steeredBeforeFinal := ApplySteeringMessages();
      if env.streams || steeredBeforeFinal > 0 {
        outcome := FinalCall(false, iterations);
      } else {
        trace := trace + [Closed];
        outcome := Outcome(Now(), r.text, r.reasoning, false, iterations);
      }
    }

    method ForceNextTool(iteration: nat)
      modifies this
      ensures Now() == ForceAdvance(env, old(Now()), iteration)
    {
      var forced := CallModel(true, true);
      var forcedNew := 0;
      if forced.toolCalls != [] {
        forcedNew := ApplyResponse(forced);
      }
      if forcedNew == 0 {
        AppendNudge("", iteration);
      }
    }

    method RunIteration(iteration: nat, max: nat) returns (next: Next)
      modifies this
      ensures next == Iteration(env, old(Now()), iteration, max)
      ensures Now() == match next case Continue(s) => s case Finish(o) => o.state
    {
      var _ := ApplySteeringMessages();
      var response := CallModel(true, false);
      if response.toolCalls == [] {
        if CanStillMakeProgress(env, Now(), iteration, max) {
          AppendNudge(response.text, iteration);
          return Continue(Now());
        }
        var outcome := AnswerNow(response, iteration + 1);
        return Finish(outcome);
      }
      var executedNew := ApplyResponse(response);
      if executedNew == 0 {
        if CanStillMakeProgress(env, Now(), iteration, max) {
          ForceNextTool(iteration);
          return Continue(Now());
        }
        var _ := ApplySteeringMessages();
        var outcome := FinalCall(false, iteration + 1);
        return Finish(outcome);
      }
      next := Continue(Now());
    }

    method RunChatAgentLoop(maxIterations: Option<int>) returns (outcome: Outcome)
      requires Now() == Start(messages)
      modifies this
      ensures outcome == Loop(env, old(messages), maxIterations) && Now() == outcome.state
    {
      var max := MaxIterations(maxIterations);
      for iteration := 0 to max
        invariant LoopFrom(env, Now(), iteration, max) == Loop(env, old(messages), maxIterations)
      {
        var next := RunIteration(iteration, max);
        if next.Finish? { return next.outcome; }
      }
      var _ := ApplySteeringMessages();
      outcome := FinalCall(true, max);
    }
  }
}
