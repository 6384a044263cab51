/** What holds of every turn, whatever the model, the tools and the user do. */
module AgentLoopGuarantees {
  import opened Wrappers
  import opened Chat
  import opened AgentLoop

  // ----- readings of a trace

  function ModelCalls(t: seq<Event>): nat {
    if t == [] then 0 else ModelCalls(t[..|t| - 1]) + if t[|t| - 1].Asked? then 1 else 0
  }

  /** Discovery calls: tools offered, nothing forced. */
  function Discoveries(t: seq<Event>): nat {
    if t == [] then 0
    else Discoveries(t[..|t| - 1])
         + if t[|t| - 1].Asked? && t[|t| - 1].request.allowTools && !t[|t| - 1].request.force then 1 else 0
  }

  function TokenSum(t: seq<Event>): int {
    if t == [] then 0
    else TokenSum(t[..|t| - 1]) + if t[|t| - 1].Asked? then t[|t| - 1].response.totalTokens.GetOr(0) else 0
  }

  function Strategies(t: seq<Event>): seq<string> {
    if t == [] then []
    else if t[|t| - 1].Asked? then AddStrategy(Strategies(t[..|t| - 1]), t[|t| - 1].response.promptStrategy)
    else Strategies(t[..|t| - 1])
  }

  /** The tool runs of a trace, in order. */
  function Runs(t: seq<Event>): seq<ToolStep> {
    if t == [] then []
    else Runs(t[..|t| - 1]) + if t[|t| - 1].ToolRun? then [ToolStep(t[|t| - 1].call, t[|t| - 1].result)] else []
  }

  /** The names of the tools run, in first-use order. */
  function Names(steps: seq<ToolStep>): seq<string> {
    if steps == [] then [] else AddName(Names(steps[..|steps| - 1]), steps[|steps| - 1].call.name)
  }

  function Fingerprints(steps: seq<ToolStep>): set<Fingerprint> { set s | s in steps :: FingerprintOf(s.call) }

  ghost predicate NoRepeats(steps: seq<ToolStep>) {
    forall i, j :: 0 <= i < j < |steps| ==> FingerprintOf(steps[i].call) != FingerprintOf(steps[j].call)
  }

  /** Each prompt extends the ones before it, and `messages` extends them all. */
  ghost predicate PromptsGrow(t: seq<Event>, messages: seq<Message>) {
    && (forall k :: 0 <= k < |t| && t[k].Asked? ==> t[k].request.messages <= messages)
    && (forall k, l :: 0 <= k < l < |t| && t[k].Asked? && t[l].Asked? ==> t[k].request.messages <= t[l].request.messages)
  }

  /** Every reply is the environment's, every tools-enabled call is told exactly the tools used before it, and a call is
      forced only while the evidence is missing. */
  ghost predicate InformedCalls(env: Environment, t: seq<Event>) {
    forall k :: 0 <= k < |t| && t[k].Asked? ==>
      && t[k].response == env.complete(t[..k], t[k].request)
      && t[k].request.used == (if t[k].request.allowTools then Some(Names(Runs(t[..k]))) else None)
      && (t[k].request.force ==> env.assess.Some? && !env.assess.value(Runs(t[..k])))
  }

  lemma Snoc(t: seq<Event>, e: Event)
    ensures (t + [e])[..|t|] == t
  {
  }

  lemma InformedAfter(env: Environment, t: seq<Event>, e: Event)
    requires InformedCalls(env, t)
    requires e.Asked? ==>
      && e.response == env.complete(t, e.request)
      && e.request.used == (if e.request.allowTools then Some(Names(Runs(t))) else None)
      && (e.request.force ==> env.assess.Some? && !env.assess.value(Runs(t)))
    ensures InformedCalls(env, t + [e])
  {
    var t' := t + [e];
    Snoc(t, e);
    forall k | 0 <= k < |t'| && t'[k].Asked?
      ensures t'[k].response == env.complete(t'[..k], t'[k].request)
      ensures t'[k].request.used == (if t'[k].request.allowTools then Some(Names(Runs(t'[..k]))) else None)
      ensures t'[k].request.force ==> env.assess.Some? && !env.assess.value(Runs(t'[..k]))
    {
      if k < |t| { assert t'[..k] == t[..k]; }
    }
  }

  // ----- the books

  /** The running state agrees with the trace in every respect. */
  ghost predicate Books(env: Environment, st: State) {
    && st.steps == Runs(st.trace)
    && st.totalTokens == TokenSum(st.trace)
    && st.strategies == Strategies(st.trace)
    && st.fingerprints == Fingerprints(st.steps)
    && st.used == Names(st.steps)
    && NoRepeats(st.steps)
    && PromptsGrow(st.trace, st.messages)
    && InformedCalls(env, st.trace)
  }

  lemma AskKeepsBooks(env: Environment, st: State, allowTools: bool, force: bool)
    requires Books(env, st)
    requires force ==> env.assess.Some? && !env.assess.value(st.steps)
    ensures Books(env, Ask(env, st, allowTools, force))
  {
    var e := Asked(RequestFor(env, st, allowTools, force), Reply(env, st, allowTools, force));
    Snoc(st.trace, e);
    InformedAfter(env, st.trace, e);
  }

  lemma QuietEventKeepsBooks(env: Environment, st: State, e: Event, messages: seq<Message>)
    requires Books(env, st) && (e.Polled? || e.Closed?) && st.messages <= messages
    ensures Books(env, st.(trace := st.trace + [e], messages := messages))
  {
    Snoc(st.trace, e);
    InformedAfter(env, st.trace, e);
  }

  lemma SteerKeepsBooks(env: Environment, st: State)
    requires Books(env, st)
    ensures Books(env, Steer(env, st))
  {
    if env.poll.Some? {
      var batch := PolledBatch(env, st);
      QuietEventKeepsBooks(env, st, Polled(batch), AppendSteering(st.messages, batch));
    }
  }

  lemma MessagesKeepBooks(env: Environment, st: State, messages: seq<Message>)
    requires Books(env, st) && st.messages <= messages
    ensures Books(env, st.(messages := messages))
  {
  }

  lemma RunToolKeepsBooks(env: Environment, st: State, c: ToolCall)
    requires Books(env, st) && FingerprintOf(c) !in st.fingerprints
    ensures Books(env, RunTool(env, st, c))
  {
    var after := RunTool(env, st, c);
    var e := ToolRun(c, env.executeTool(st.trace, c));
    Snoc(st.trace, e);
    InformedAfter(env, st.trace, e);
    assert after.steps[..|st.steps|] == st.steps;
    assert after.steps == st.steps + [ToolStep(c, e.result)];
    forall i | 0 <= i < |st.steps|
      ensures FingerprintOf(st.steps[i].call) != FingerprintOf(c)
    {
      assert st.steps[i] in st.steps;
    }
    assert Fingerprints(after.steps) == Fingerprints(st.steps) + {FingerprintOf(c)};
  }

  /** Running the calls of a response keeps the books, answers every call, and only ever adds steps. */
  lemma {:induction false} ExecuteKeepsBooks(env: Environment, st: State, calls: seq<ToolCall>)
    requires Books(env, st)
    ensures Books(env, Execute(env, st, calls).0)
    ensures st.steps <= Execute(env, st, calls).0.steps
    ensures Execute(env, st, calls).0.messages == st.messages
    ensures |Execute(env, st, calls).1| == |calls|
  {
    if calls != [] {
      ExecuteKeepsBooks(env, st, calls[..|calls| - 1]);
      var before := Execute(env, st, calls[..|calls| - 1]).0;
      var c := calls[|calls| - 1];
      if FingerprintOf(c) !in before.fingerprints {
        RunToolKeepsBooks(env, before, c);
      }
    }
  }

  lemma ApplyKeepsBooks(env: Environment, st: State, r: Response)
    requires Books(env, st)
    ensures Books(env, Apply(env, st, r)) && st.steps <= Apply(env, st, r).steps
    ensures NewCalls(env, st, r) == |Apply(env, st, r).steps| - |st.steps|
  {
    ExecuteKeepsBooks(env, st, r.toolCalls);
    var after := Execute(env, st, r.toolCalls).0;
    MessagesKeepBooks(env, after, Apply(env, st, r).messages);
  }

  lemma NudgeKeepsBooks(env: Environment, st: State, text: string, iteration: nat)
    requires Books(env, st)
    ensures Books(env, Nudge(env, st, text, iteration))
  {
    MessagesKeepBooks(env, st, Nudge(env, st, text, iteration).messages);
  }

  lemma ConcludeKeepsBooks(env: Environment, st: State, hitLimit: bool, iterations: nat)
    requires Books(env, st)
    ensures Books(env, Conclude(env, st, hitLimit, iterations).state)
  {
    QuietEventKeepsBooks(env, st, Closed, st.messages);
    AskKeepsBooks(env, Close(st), false, false);
  }

  lemma ForceKeepsBooks(env: Environment, st: State, iteration: nat)
    requires Books(env, st) && env.assess.Some? && !env.assess.value(st.steps)
    ensures Books(env, ForceAdvance(env, st, iteration))
  {
    AskKeepsBooks(env, st, true, true);
    var asked, forced := Ask(env, st, true, true), Reply(env, st, true, true);
    ApplyKeepsBooks(env, asked, forced);
    NudgeKeepsBooks(env, asked, "", iteration);
    NudgeKeepsBooks(env, Apply(env, asked, forced), "", iteration);
  }

  function StateOf(n: Next): State { match n case Continue(s) => s case Finish(o) => o.state }

  lemma AnswerKeepsBooks(env: Environment, st: State, r: Response, iterations: nat)
    requires Books(env, st)
    ensures Books(env, Answer(env, st, r, iterations).state)
  {
    SteerKeepsBooks(env, st);
    ConcludeKeepsBooks(env, Steer(env, st), false, iterations);
    QuietEventKeepsBooks(env, Steer(env, st), Closed, Steer(env, st).messages);
  }

  /** What an iteration does once the model has replied. */
  function AfterReply(env: Environment, asked: State, r: Response, iteration: nat, max: nat): Next {
    if r.toolCalls == [] then
      if CanStillMakeProgress(env, asked, iteration, max) then Continue(Nudge(env, asked, r.text, iteration))
      else Finish(Answer(env, asked, r, iteration + 1))
    else
      var applied := Apply(env, asked, r);
      if NewCalls(env, asked, r) != 0 then Continue(applied)
      else if CanStillMakeProgress(env, applied, iteration, max) then Continue(ForceAdvance(env, applied, iteration))
      else Finish(Conclude(env, Steer(env, applied), false, iteration + 1))
  }

  lemma AfterReplyKeepsBooks(env: Environment, asked: State, r: Response, iteration: nat, max: nat)
    requires Books(env, asked)
    ensures Books(env, StateOf(AfterReply(env, asked, r, iteration, max)))
  {
    if r.toolCalls == [] {
      NudgeKeepsBooks(env, asked, r.text, iteration);
      AnswerKeepsBooks(env, asked, r, iteration + 1);
    } else {
      ApplyKeepsBooks(env, asked, r);
      var applied := Apply(env, asked, r);
      if CanStillMakeProgress(env, applied, iteration, max) { ForceKeepsBooks(env, applied, iteration); }
      SteerKeepsBooks(env, applied);
      ConcludeKeepsBooks(env, Steer(env, applied), false, iteration + 1);
    }
  }

  lemma IterationSplits(env: Environment, st: State, iteration: nat, max: nat)
    ensures var steered := Steer(env, st);
      Iteration(env, st, iteration, max)
        == AfterReply(env, Ask(env, steered, true, false), Reply(env, steered, true, false), iteration, max)
  {
  }

  lemma IterationKeepsBooks(env: Environment, st: State, iteration: nat, max: nat)
    requires Books(env, st)
    ensures Books(env, StateOf(Iteration(env, st, iteration, max)))
  {
    SteerKeepsBooks(env, st);
    AskKeepsBooks(env, Steer(env, st), true, false);
    AfterReplyKeepsBooks(env, Ask(env, Steer(env, st), true, false), Reply(env, Steer(env, st), true, false), iteration, max);
    IterationSplits(env, st, iteration, max);
  }

  lemma {:induction false} LoopKeepsBooks(env: Environment, st: State, iteration: nat, max: nat)
    requires iteration <= max && Books(env, st)
    ensures Books(env, LoopFrom(env, st, iteration, max).state)
    decreases max - iteration
  {
    if iteration == max {
      SteerKeepsBooks(env, st);
      ConcludeKeepsBooks(env, Steer(env, st), true, max);
    } else {
      IterationKeepsBooks(env, st, iteration, max);
      if Iteration(env, st, iteration, max).Continue? {
        LoopKeepsBooks(env, Iteration(env, st, iteration, max).state, iteration + 1, max);
      }
    }
  }

  /** De-duplication and accounting over a whole turn: no two tool runs share a fingerprint; the steps are exactly the
      tool runs; the used names and fingerprints are exactly theirs; the tokens of every call are counted; strategies
      are listed once each in first-use order; prompts only ever grow; and every tools-enabled call is told the tools
      already used. */
  lemma TurnKeepsBooks(env: Environment, messages: seq<Message>, maxIterations: Option<int>)
    ensures Books(env, Loop(env, messages, maxIterations).state)
  {
    LoopKeepsBooks(env, Start(messages), 0, MaxIterations(maxIterations));
  }

  // ----- the shape of a turn

  /** Steering is open and every call so far could request tools. */
  ghost predicate ToolsOn(t: seq<Event>) {
    forall k :: 0 <= k < |t| ==> !t[k].Closed? && (t[k].Asked? ==> t[k].request.allowTools)
  }

  /** Everything polled is in the prompt of a later call. */
  ghost predicate Delivered(t: seq<Event>) {
    forall k, m :: 0 <= k < |t| && t[k].Polled? && m in t[k].batch ==> CarriedAfter(t, k, m)
  }

  ghost predicate CarriedAfter(t: seq<Event>, k: nat, m: Steering) {
    exists l :: k < l < |t| && t[l].Asked? && SteeringNote(m) in t[l].request.messages
  }

  /** A polled message that no call has carried yet is in the running prompt. */
  ghost predicate Pending(t: seq<Event>, messages: seq<Message>) {
    forall k, m :: 0 <= k < |t| && t[k].Polled? && m in t[k].batch ==> SteeringNote(m) in messages
  }

  /** Between two iterations; the last iteration leaves room for the final call. */
  ghost predicate Head(st: State, iteration: nat, max: nat) {
    && ToolsOn(st.trace) && Delivered(st.trace) && Pending(st.trace, st.messages)
    && ModelCalls(st.trace) + (if iteration == max then 1 else 0) <= 2 * iteration
    && Discoveries(st.trace) == iteration
  }

  lemma AskDelivers(env: Environment, st: State, allowTools: bool, force: bool)
    requires Pending(st.trace, st.messages)
    ensures Delivered(Ask(env, st, allowTools, force).trace)
    ensures Pending(Ask(env, st, allowTools, force).trace, st.messages)
    ensures ModelCalls(Ask(env, st, allowTools, force).trace) == ModelCalls(st.trace) + 1
    ensures Discoveries(Ask(env, st, allowTools, force).trace) == Discoveries(st.trace) + if allowTools && !force then 1 else 0
    ensures allowTools && ToolsOn(st.trace) ==> ToolsOn(Ask(env, st, allowTools, force).trace)
  {
    var t := Ask(env, st, allowTools, force).trace;
    Snoc(st.trace, t[|st.trace|]);
    forall k, m | 0 <= k < |t| && t[k].Polled? && m in t[k].batch
      ensures CarriedAfter(t, k, m)
    {
      assert t[k] == st.trace[k];
      assert t[|st.trace|].Asked? && SteeringNote(m) in t[|st.trace|].request.messages;
    }
  }

  lemma SteerIsPending(env: Environment, st: State)
    requires Pending(st.trace, st.messages)
    ensures Pending(Steer(env, st).trace, Steer(env, st).messages)
    ensures ModelCalls(Steer(env, st).trace) == ModelCalls(st.trace) && Discoveries(Steer(env, st).trace) == Discoveries(st.trace)
    ensures ToolsOn(st.trace) ==> ToolsOn(Steer(env, st).trace)
    ensures Delivered(st.trace) && PolledBatch(env, st) == [] ==> Delivered(Steer(env, st).trace)
  {
    if env.poll.Some? {
      var batch := PolledBatch(env, st);
      var s' := Steer(env, st);
      Snoc(st.trace, Polled(batch));
      forall m | m in batch
        ensures SteeringNote(m) in s'.messages
      {
        var i :| 0 <= i < |batch| && batch[i] == m;
        assert s'.messages[|st.messages| + i] == SteeringNote(m);
      }
      assert forall x :: x in st.messages ==> x in s'.messages;
      if Delivered(st.trace) && batch == [] { DeliveredExtends(st.trace, Polled(batch)); }
    }
  }

  lemma DeliveredExtends(t: seq<Event>, e: Event)
    requires Delivered(t) && (e.Polled? ==> e.batch == [])
    ensures Delivered(t + [e])
  {
    var t' := t + [e];
    forall k, m | 0 <= k < |t'| && t'[k].Polled? && m in t'[k].batch
      ensures CarriedAfter(t', k, m)
    {
      assert k < |t| && t[k] == t'[k];
      assert CarriedAfter(t, k, m);
      var l :| k < l < |t| && t[l].Asked? && SteeringNote(m) in t[l].request.messages;
      assert t'[l] == t[l];
    }
  }

  /** Tool runs and longer prompts disturb none of it. */
  lemma {:induction false} ExecuteKeepsShape(env: Environment, st: State, calls: seq<ToolCall>)
    requires ToolsOn(st.trace) && Delivered(st.trace) && Pending(st.trace, st.messages)
    ensures var after := Execute(env, st, calls).0;
      && ToolsOn(after.trace) && Delivered(after.trace) && Pending(after.trace, st.messages) && after.messages == st.messages
      && ModelCalls(after.trace) == ModelCalls(st.trace) && Discoveries(after.trace) == Discoveries(st.trace)
  {
    if calls != [] {
      ExecuteKeepsShape(env, st, calls[..|calls| - 1]);
      var before := Execute(env, st, calls[..|calls| - 1]).0;
      var c := calls[|calls| - 1];
      if FingerprintOf(c) !in before.fingerprints {
        var e := ToolRun(c, env.executeTool(before.trace, c));
        Snoc(before.trace, e);
        DeliveredExtends(before.trace, e);
      }
    }
  }

  lemma PendingGrows(t: seq<Event>, a: seq<Message>, b: seq<Message>)
    requires Pending(t, a) && a <= b
    ensures Pending(t, b)
  {
    assert forall x :: x in a ==> x in b;
  }

  lemma ApplyKeepsShape(env: Environment, st: State, r: Response)
    requires ToolsOn(st.trace) && Delivered(st.trace) && Pending(st.trace, st.messages)
    ensures var after := Apply(env, st, r);
      && ToolsOn(after.trace) && Delivered(after.trace) && Pending(after.trace, after.messages)
      && ModelCalls(after.trace) == ModelCalls(st.trace) && Discoveries(after.trace) == Discoveries(st.trace)
  {
    ExecuteKeepsShape(env, st, r.toolCalls);
    PendingGrows(Apply(env, st, r).trace, st.messages, Apply(env, st, r).messages);
  }

  lemma NudgeKeepsShape(env: Environment, st: State, text: string, iteration: nat)
    requires Pending(st.trace, st.messages)
    ensures Pending(Nudge(env, st, text, iteration).trace, Nudge(env, st, text, iteration).messages)
  {
    PendingGrows(st.trace, st.messages, Nudge(env, st, text, iteration).messages);
  }

  /** How a turn ends: tools and steering are on until the one close, after which at most one call follows, without
      tools. */
  ghost predicate EndsProperly(t: seq<Event>) {
    exists body: seq<Event> {:trigger ToolsOn(body)} ::
      ToolsOn(body) && (t == body + [Closed] || (|t| == |body| + 2 && t[..|body| + 1] == body + [Closed]
                                                   && t[|body| + 1].Asked? && !t[|body| + 1].request.allowTools))
  }

  ghost predicate ProperEnd(o: Outcome, max: nat) {
    && EndsProperly(o.state.trace) && Delivered(o.state.trace)
    && ModelCalls(o.state.trace) <= 2 * max && Discoveries(o.state.trace) == o.iterations <= max
  }

  lemma CloseAddsNothing(t: seq<Event>)
    ensures ModelCalls(t + [Closed]) == ModelCalls(t) && Discoveries(t + [Closed]) == Discoveries(t)
    ensures Delivered(t) ==> Delivered(t + [Closed])
  {
    Snoc(t, Closed);
    if Delivered(t) { DeliveredExtends(t, Closed); }
  }

  lemma ConcludeEnds(env: Environment, st: State, hitLimit: bool, iterations: nat, max: nat)
    requires ToolsOn(st.trace) && Pending(st.trace, st.messages)
    requires ModelCalls(st.trace) + 1 <= 2 * max && Discoveries(st.trace) == iterations <= max
    ensures ProperEnd(Conclude(env, st, hitLimit, iterations), max)
  {
    CloseAddsNothing(st.trace);
    AskDelivers(env, Close(st), false, false);
    var t := Conclude(env, st, hitLimit, iterations).state.trace;
    assert t[..|st.trace| + 1] == st.trace + [Closed];
    assert ToolsOn(st.trace);
  }

  lemma AnswerEnds(env: Environment, st: State, r: Response, iterations: nat, max: nat)
    requires ToolsOn(st.trace) && Pending(st.trace, st.messages) && Delivered(st.trace)
    requires ModelCalls(st.trace) + 1 <= 2 * max && Discoveries(st.trace) == iterations <= max
    ensures ProperEnd(Answer(env, st, r, iterations), max)
  {
    SteerIsPending(env, st);
    var steered := Steer(env, st);
    if env.streams || PolledBatch(env, st) != [] {
      ConcludeEnds(env, steered, false, iterations, max);
    } else {
      CloseAddsNothing(steered.trace);
      assert ToolsOn(steered.trace);
    }
  }

  lemma ForceKeepsShape(env: Environment, st: State, iteration: nat)
    requires ToolsOn(st.trace) && Delivered(st.trace) && Pending(st.trace, st.messages)
    ensures var after := ForceAdvance(env, st, iteration);
      && ToolsOn(after.trace) && Delivered(after.trace) && Pending(after.trace, after.messages)
      && ModelCalls(after.trace) == ModelCalls(st.trace) + 1 && Discoveries(after.trace) == Discoveries(st.trace)
  {
    AskDelivers(env, st, true, true);
    var asked, forced := Ask(env, st, true, true), Reply(env, st, true, true);
    ApplyKeepsShape(env, asked, forced);
    NudgeKeepsShape(env, asked, "", iteration);
    NudgeKeepsShape(env, Apply(env, asked, forced), "", iteration);
  }

  lemma AfterReplyShape(env: Environment, asked: State, r: Response, iteration: nat, max: nat)
    requires ToolsOn(asked.trace) && Delivered(asked.trace) && Pending(asked.trace, asked.messages)
    requires ModelCalls(asked.trace) <= 2 * iteration + 1 && Discoveries(asked.trace) == iteration + 1 <= max
    ensures match AfterReply(env, asked, r, iteration, max)
      case Continue(after) => Head(after, iteration + 1, max)
      case Finish(o) => ProperEnd(o, max) && !o.hitIterationLimit
  {
    if r.toolCalls == [] {
      NudgeKeepsShape(env, asked, r.text, iteration);
      AnswerEnds(env, asked, r, iteration + 1, max);
    } else {
      ApplyKeepsShape(env, asked, r);
      var applied := Apply(env, asked, r);
      if NewCalls(env, asked, r) == 0 {
        if CanStillMakeProgress(env, applied, iteration, max) {
          ForceKeepsShape(env, applied, iteration);
        } else {
          SteerIsPending(env, applied);
          ConcludeEnds(env, Steer(env, applied), false, iteration + 1, max);
        }
      }
    }
  }

  lemma IterationShape(env: Environment, st: State, iteration: nat, max: nat)
    requires Head(st, iteration, max) && iteration < max
    ensures match Iteration(env, st, iteration, max)
      case Continue(after) => Head(after, iteration + 1, max)
      case Finish(o) => ProperEnd(o, max) && !o.hitIterationLimit
  {
    SteerIsPending(env, st);
    var steered := Steer(env, st);
    AskDelivers(env, steered, true, false);
    AfterReplyShape(env, Ask(env, steered, true, false), Reply(env, steered, true, false), iteration, max);
    IterationSplits(env, st, iteration, max);
  }

  lemma {:induction false} LoopShape(env: Environment, st: State, iteration: nat, max: nat)
    requires Head(st, iteration, max) && iteration <= max && max >= 1
    ensures var o := LoopFrom(env, st, iteration, max); ProperEnd(o, max) && (o.hitIterationLimit ==> o.iterations == max)
    decreases max - iteration
  {
    if iteration < max {
      IterationShape(env, st, iteration, max);
      if Iteration(env, st, iteration, max).Continue? {
        LoopShape(env, Iteration(env, st, iteration, max).state, iteration + 1, max);
      }
    } else {
      SteerIsPending(env, st);
      ConcludeEnds(env, Steer(env, st), true, max, max);
    }
  }

  /** Every turn ends, after at most two model calls per allowed iteration; steering is closed once and polled only
      before that; every polled message is in the prompt of a later call; and no call with tools follows one without. */
  lemma TurnEndsProperly(env: Environment, messages: seq<Message>, maxIterations: Option<int>)
    ensures var o, max := Loop(env, messages, maxIterations), MaxIterations(maxIterations);
      && EndsProperly(o.state.trace) && Delivered(o.state.trace)
      && ModelCalls(o.state.trace) <= 2 * max
      && Discoveries(o.state.trace) == o.iterations <= max
      && (o.hitIterationLimit ==> o.iterations == max)
  {
    LoopShape(env, Start(messages), 0, MaxIterations(maxIterations));
  }

  // ----- the evidence gate

  lemma FinishKeepsSteps(env: Environment, st: State, r: Response, hitLimit: bool, n: nat)
    ensures Conclude(env, st, hitLimit, n).state.steps == st.steps
    ensures Answer(env, st, r, n).state.steps == st.steps
  {
  }

  lemma FinishedWithEvidence(env: Environment, st: State, iteration: nat, max: nat)
    requires Books(env, st) && env.assess.Some? && iteration + 1 < max
    requires Iteration(env, st, iteration, max).Finish?
    ensures env.assess.value(Iteration(env, st, iteration, max).outcome.state.steps)
  {
    IterationSplits(env, st, iteration, max);
    var asked, r := Ask(env, Steer(env, st), true, false), Reply(env, Steer(env, st), true, false);
    FinishKeepsSteps(env, asked, r, false, iteration + 1);
    if r.toolCalls != [] {
      FinishKeepsSteps(env, Steer(env, Apply(env, asked, r)), r, false, iteration + 1);
    }
  }

  lemma FinishCountsIterations(env: Environment, st: State, iteration: nat, max: nat)
    requires Iteration(env, st, iteration, max).Finish?
    ensures Iteration(env, st, iteration, max).outcome.iterations == iteration + 1
  {
  }

  /** A turn that stopped by itself before its last iteration has the evidence. */
  ghost predicate Evident(env: Environment, o: Outcome, max: nat)
    requires env.assess.Some?
  {
    !o.hitIterationLimit && o.iterations < max ==> env.assess.value(o.state.steps)
  }

  lemma FinishIsEvident(env: Environment, st: State, iteration: nat, max: nat)
    requires iteration < max && Books(env, st) && env.assess.Some?
    requires Iteration(env, st, iteration, max).Finish?
    ensures Evident(env, Iteration(env, st, iteration, max).outcome, max)
  {
    if iteration + 1 < max {
      FinishedWithEvidence(env, st, iteration, max);
    } else {
      FinishCountsIterations(env, st, iteration, max);
    }
  }

  lemma {:induction false} EvidenceFrom(env: Environment, st: State, iteration: nat, max: nat)
    requires iteration <= max && Books(env, st) && env.assess.Some?
    ensures Evident(env, LoopFrom(env, st, iteration, max), max)
    decreases max - iteration, 1
  {
    if iteration < max {
      IterationKeepsBooks(env, st, iteration, max);
      if Iteration(env, st, iteration, max).Finish? { FinishIsEvident(env, st, iteration, max); }
      EvidenceAfter(env, Iteration(env, st, iteration, max), iteration, max);
    }
  }

  lemma {:induction false} EvidenceAfter(env: Environment, next: Next, iteration: nat, max: nat)
    requires iteration < max && env.assess.Some?
    requires next.Continue? ==> Books(env, next.state)
    requires next.Finish? ==> Evident(env, next.outcome, max)
    ensures Evident(env, if next.Continue? then LoopFrom(env, next.state, iteration + 1, max) else next.outcome, max)
    decreases max - iteration, 0
  {
    if next.Continue? { EvidenceFrom(env, next.state, iteration + 1, max); }
  }

  /** A claim of completion is never taken at its word: with an assessor, a turn that stops by itself before its last
      iteration has executed steps that the assessor accepts. */
  lemma StopsOnlyOnEvidence(env: Environment, messages: seq<Message>, maxIterations: Option<int>)
    requires env.assess.Some?
    ensures var o := Loop(env, messages, maxIterations);
      !o.hitIterationLimit && o.iterations < MaxIterations(maxIterations) ==> env.assess.value(o.state.steps)
  {
    EvidenceFrom(env, Start(messages), 0, MaxIterations(maxIterations));
  }
}
