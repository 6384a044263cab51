/** What a turn does, read off its trace alone: which event comes next, with which prompt, which tools run, when the turn
    ends, and what it answers (`src/chat/chat-agent-loop.ts`). */
module TurnProtocol {
  import opened Wrappers
  import opened Chat
  import opened AgentLoop
  import opened AgentLoopGuarantees
  import Force = ForceAdvance

  predicate IsDiscovery(e: Event) { e.Asked? && e.request.allowTools && !e.request.force }
  predicate IsForce(e: Event) { e.Asked? && e.request.allowTools && e.request.force }
  predicate IsFinal(e: Event) { e.Asked? && !e.request.allowTools }

  // ----- reading a trace

  /** What a trace tells: the last model call, the steps before it and the steps so far, what the user has said since, how
      many discovery calls there were, and whether the last of them has run a tool. */
  datatype Reading = Reading(asked: Option<Event>, made: seq<ToolStep>, steps: seq<ToolStep>, told: seq<Message>,
                             discoveries: nat, ran: bool)

  function SteeringNotes(batch: seq<Steering>): seq<Message> { AppendSteering([], batch) }

  function ReadEvent(r: Reading, e: Event): Reading {
    match e
    case Asked(_, _) =>
      Reading(Some(e), r.steps, r.steps, [], r.discoveries + if IsDiscovery(e) then 1 else 0, r.ran && !IsDiscovery(e))
    case ToolRun(call, result) =>
      r.(steps := r.steps + [ToolStep(call, result)], ran := r.ran || (r.asked.Some? && IsDiscovery(r.asked.value)))
    case Polled(batch) => r.(told := r.told + SteeringNotes(batch))
    case Closed => r
  }

  function Read(t: seq<Event>): Reading {
    if t == [] then Reading(None, [], [], [], 0, false) else ReadEvent(Read(t[..|t| - 1]), t[|t| - 1])
  }

  lemma ReadOneMore(t: seq<Event>, e: Event)
    ensures Read(t + [e]) == ReadEvent(Read(t), e)
  {
    assert (t + [e])[..|t|] == t;
  }

  // ----- which tools run

  function AllOf(calls: seq<ToolCall>): set<Fingerprint> { set c | c in calls :: FingerprintOf(c) }

  /** The calls that have not been made before, each at its first occurrence. */
  function NewOnes(made: set<Fingerprint>, calls: seq<ToolCall>): seq<ToolCall> {
    if calls == [] then []
    else
      var before, c := calls[..|calls| - 1], calls[|calls| - 1];
      NewOnes(made, before) + if FingerprintOf(c) in made + AllOf(before) then [] else [c]
  }

  /** The new calls of the last reply; a reply to a call without tools has none. */
  function NewIn(r: Reading): seq<ToolCall> {
    match r.asked
    case Some(Asked(request, response)) =>
      if request.allowTools then NewOnes(Fingerprints(r.made), response.toolCalls) else []
    case _ => []
  }

  /** How many tools have run since the last reply. */
  function Since(r: Reading): int { |r.steps| - |r.made| }

  /** The call is the next of the new calls to be run. */
  predicate IsNext(r: Reading, call: ToolCall) { 0 <= Since(r) < |NewIn(r)| && call == NewIn(r)[Since(r)] }

  /** All new calls of the last reply have been run. */
  predicate Done(r: Reading) { Since(r) == |NewIn(r)| }

  // ----- the prompt

  function Exchange(text: string, results: seq<ToolResult>): seq<Message> { AppendToolExchange([], text, results) }

  /** One answer for each call: the result of its run, or the note that it was made before. */
  function Answers(made: set<Fingerprint>, calls: seq<ToolCall>, runs: seq<ToolStep>): seq<ToolResult> {
    if calls == [] then []
    else
      var before, c := calls[..|calls| - 1], calls[|calls| - 1];
      if FingerprintOf(c) in made + AllOf(before) || runs == [] then
        Answers(made, before, runs) + [ToolResult(c.id, REPEATED_CALL_NUDGE)]
      else Answers(made, before, runs[..|runs| - 1]) + [runs[|runs| - 1].result]
  }

  /** The note that the work is not done. */
  function NotDone(env: Environment, r: Reading): ToolResult {
    ToolResult("incomplete-" + Digits(if r.discoveries > 0 then r.discoveries - 1 else 0), IncompleteNudge(env, r.steps))
  }

  /** What the last reply adds to the prompt of the next call: its text with an answer to each of its calls; and before
      another discovery call, when nothing new was run, the note that the work is not done, after the text of an answer
      that nobody asked for. */
  function Said(env: Environment, r: Reading, toDiscovery: bool): seq<Message> {
    match r.asked
    case Some(Asked(q, p)) =>
      if !q.allowTools then []
      else
        (if p.toolCalls == [] then []
         else Exchange(p.text, Answers(Fingerprints(r.made), p.toolCalls, r.steps[if |r.made| <= |r.steps| then |r.made| else 0..])))
        + (if toDiscovery && NewIn(r) == [] then
             Exchange(if p.toolCalls == [] && !q.force then p.text else "", [NotDone(env, r)])
           else [])
    case _ => []
  }

  /** The prompt that is due: that of the last call, what its reply said, and what the user has said since. */
  function Due(env: Environment, start: seq<Message>, r: Reading, toDiscovery: bool): seq<Message> {
    (match r.asked case Some(Asked(q, _)) => q.messages case _ => start) + Said(env, r, toDiscovery) + r.told
  }

  // ----- which call comes next

  /** After a discovery reply that ran nothing new the work goes on: an assessor finds it unfinished and there is an
      iteration left. */
  predicate GoesOn(env: Environment, max: nat, r: Reading) {
    env.assess.Some? && !env.assess.value(r.steps) && r.discoveries < max
  }

  /** An answer has to be given again: the final reply is streamed, or the user has said more. */
  predicate Overtaken(env: Environment, r: Reading) { env.streams || r.told != [] }

  predicate MayFollow(env: Environment, max: nat, r: Reading, e: Event) {
    match r.asked
    case Some(Asked(q, p)) =>
      if !q.allowTools then false
      else if q.force then IsDiscovery(e)
      else if NewIn(r) != [] then (if r.discoveries < max then IsDiscovery(e) else IsFinal(e))
      else if GoesOn(env, max, r) then (if p.toolCalls == [] then IsDiscovery(e) else IsForce(e))
      else IsFinal(e) && (p.toolCalls == [] ==> Overtaken(env, r))
    case _ => IsDiscovery(e)
  }

  /** The turn may end: after a call without tools, or after an answer that nothing has overtaken. */
  predicate MayEnd(env: Environment, max: nat, r: Reading) {
    match r.asked
    case Some(Asked(q, p)) =>
      !q.allowTools || (!q.force && p.toolCalls == [] && !GoesOn(env, max, r) && !Overtaken(env, r))
    case _ => false
  }

  // ----- the protocol

  predicate JustPolled(t: seq<Event>) { t != [] && t[|t| - 1].Polled? }

  /** The event is due after `t`. A call comes when the last reply has been carried out, with exactly the prompt that is
      due; the user is polled before every discovery call and before the close; the tool that runs is the next new call. */
  ghost predicate Fits(env: Environment, start: seq<Message>, max: nat, t: seq<Event>, e: Event) {
    var r := Read(t);
    match e
    case Asked(q, p) =>
      && Done(r) && MayFollow(env, max, r, e) && q.messages == Due(env, start, r, IsDiscovery(e))
      && q.streamed == (!q.allowTools && env.streams) && p == env.complete(t, q)
      && (IsDiscovery(e) && env.poll.Some? ==> JustPolled(t))
    case ToolRun(call, result) => IsNext(r, call) && result == env.executeTool(t, call)
    case Polled(batch) => Done(r) && env.poll.Some? && batch == env.poll.value(t)
    case Closed => Done(r) && (env.poll.Some? ==> JustPolled(t))
  }

  ghost predicate FitsAt(env: Environment, start: seq<Message>, max: nat, t: seq<Event>, j: nat) {
    j < |t| ==> Fits(env, start, max, t[..j], t[j])
  }

  /** Every event of the trace was due. */
  ghost predicate Follows(env: Environment, start: seq<Message>, max: nat, t: seq<Event>) {
    forall j: nat :: FitsAt(env, start, max, t, j)
  }

  lemma FollowsOneMore(env: Environment, start: seq<Message>, max: nat, t: seq<Event>, e: Event)
    requires Follows(env, start, max, t) && Fits(env, start, max, t, e)
    ensures Follows(env, start, max, t + [e]) && Read(t + [e]) == ReadEvent(Read(t), e)
  {
    ReadOneMore(t, e);
    forall j: nat
      ensures FitsAt(env, start, max, t + [e], j)
    {
      assert FitsAt(env, start, max, t, j);
      if j < |t| {
        assert (t + [e])[..j] == t[..j];
      } else if j == |t| {
        assert (t + [e])[..j] == t;
      }
    }
  }

  // ----- a state and its trace

  /** The state agrees with what its trace tells. */
  ghost predicate Reads(st: State) {
    st.steps == Read(st.trace).steps && st.fingerprints == Fingerprints(st.steps)
  }

  /** Everything so far was due, and the last reply has been carried out. */
  ghost predicate Sound(env: Environment, start: seq<Message>, max: nat, st: State) {
    Reads(st) && Follows(env, start, max, st.trace) && Done(Read(st.trace)) && |Read(st.trace).made| <= |st.steps|
  }

  lemma SteeringAppends(messages: seq<Message>, batch: seq<Steering>)
    ensures AppendSteering(messages, batch) == messages + SteeringNotes(batch)
    ensures SteeringNotes(batch) == [] <==> batch == []
  {
  }

  lemma ExchangeAppends(messages: seq<Message>, text: string, results: seq<ToolResult>)
    ensures AppendToolExchange(messages, text, results) == messages + Exchange(text, results)
  {
  }

  lemma ToldSaysNothing(env: Environment, r: Reading, told: seq<Message>, d: bool)
    ensures NewIn(r.(told := told)) == NewIn(r) && NotDone(env, r.(told := told)) == NotDone(env, r)
    ensures Said(env, r.(told := told), d) == Said(env, r, d)
  {
  }

  /** What the user says is due after everything else, and changes nothing else. */
  lemma ToldIsDue(env: Environment, start: seq<Message>, r: Reading, notes: seq<Message>, d: bool)
    ensures Due(env, start, r.(told := r.told + notes), d) == Due(env, start, r, d) + notes
    ensures Done(r.(told := r.told + notes)) == Done(r)
  {
    ToldSaysNothing(env, r, r.told + notes, d);
    var before := (match r.asked case Some(Asked(q, _)) => q.messages case _ => start) + Said(env, r, d);
    assert before + (r.told + notes) == before + r.told + notes;
  }

  /** Polling, when there is anybody to poll. */
  lemma SteerFollows(env: Environment, start: seq<Message>, max: nat, st: State, d: bool)
    requires Sound(env, start, max, st) && st.messages == Due(env, start, Read(st.trace), d)
    ensures var s := Steer(env, st);
      && Sound(env, start, max, s) && s.messages == Due(env, start, Read(s.trace), d)
      && Read(s.trace) == Read(st.trace).(told := Read(st.trace).told + SteeringNotes(PolledBatch(env, st)))
      && (env.poll.Some? ==> JustPolled(s.trace))
  {
    var batch := PolledBatch(env, st);
    ToldIsDue(env, start, Read(st.trace), SteeringNotes(batch), d);
    SteeringAppends(st.messages, batch);
    if env.poll.Some? { FollowsOneMore(env, start, max, st.trace, Polled(batch)); }
  }

  // ----- carrying out a reply

  lemma AllOfOneMore(calls: seq<ToolCall>, c: ToolCall)
    ensures AllOf(calls + [c]) == AllOf(calls) + {FingerprintOf(c)}
  {
  }

  lemma NewOneMore(made: set<Fingerprint>, calls: seq<ToolCall>, c: ToolCall)
    ensures NewOnes(made, calls + [c]) == NewOnes(made, calls) + if FingerprintOf(c) in made + AllOf(calls) then [] else [c]
  {
    assert (calls + [c])[..|calls|] == calls;
  }

  lemma {:induction false} NewOnesPrefix(made: set<Fingerprint>, calls: seq<ToolCall>, n: nat)
    requires n <= |calls|
    ensures NewOnes(made, calls[..n]) <= NewOnes(made, calls)
  {
    if n < |calls| {
      NewOnesPrefix(made, calls[..|calls| - 1], n);
      assert calls[..|calls| - 1][..n] == calls[..n];
    } else {
      assert calls[..n] == calls;
    }
  }

  lemma AnswersOneMore(made: set<Fingerprint>, calls: seq<ToolCall>, c: ToolCall, runs: seq<ToolStep>)
    ensures FingerprintOf(c) in made + AllOf(calls) ==>
      Answers(made, calls + [c], runs) == Answers(made, calls, runs) + [ToolResult(c.id, REPEATED_CALL_NUDGE)]
    ensures FingerprintOf(c) !in made + AllOf(calls) ==> forall step ::
      Answers(made, calls + [c], runs + [step]) == Answers(made, calls, runs) + [step.result]
  {
    assert (calls + [c])[..|calls|] == calls;
    forall step
      ensures (runs + [step])[..|runs|] == runs
    {
    }
  }

  /** The reply to be carried out has these calls. */
  predicate Replied(r: Reading, calls: seq<ToolCall>) {
    r.asked.Some? && r.asked.value.Asked? && r.asked.value.request.allowTools && calls == r.asked.value.response.toolCalls
  }

  /** `steps` and `fingerprints` are what carrying out `calls` comes to. */
  predicate Counted(r: Reading, calls: seq<ToolCall>, steps: seq<ToolStep>, fingerprints: set<Fingerprint>) {
    var made := Fingerprints(r.made);
    && r.made <= steps && |steps| - |r.made| == |NewOnes(made, calls)|
    && fingerprints == made + AllOf(calls) == Fingerprints(steps)
  }

  predicate Answered(r: Reading, calls: seq<ToolCall>, steps: seq<ToolStep>, results: seq<ToolResult>) {
    r.made <= steps && results == Answers(Fingerprints(r.made), calls, steps[|r.made|..])
  }

  /** The reading after the steps that the reply has come to. */
  function Stepped(r: Reading, steps: seq<ToolStep>): Reading
    requires r.asked.Some?
  {
    r.(steps := steps, ran := r.ran || (IsDiscovery(r.asked.value) && |steps| > |r.made|))
  }

  /** The calls `calls` of the reply that `r` has just read have been carried out, with these results. */
  ghost predicate Partly(env: Environment, start: seq<Message>, max: nat, r: Reading, calls: seq<ToolCall>, s: State,
                         results: seq<ToolResult>)
    requires r.asked.Some?
  {
    && Follows(env, start, max, s.trace) && Read(s.trace) == Stepped(r, s.steps)
    && Counted(r, calls, s.steps, s.fingerprints) && Answered(r, calls, s.steps, results)
  }

  lemma CountedNew(r: Reading, calls: seq<ToolCall>, steps: seq<ToolStep>, fingerprints: set<Fingerprint>, step: ToolStep)
    requires Counted(r, calls, steps, fingerprints) && FingerprintOf(step.call) !in fingerprints
    ensures Counted(r, calls + [step.call], steps + [step], fingerprints + {FingerprintOf(step.call)})
  {
    NewOneMore(Fingerprints(r.made), calls, step.call);
    AllOfOneMore(calls, step.call);
    FingerprintsOneMore(steps, step);
  }

  lemma FingerprintsOneMore(steps: seq<ToolStep>, step: ToolStep)
    ensures Fingerprints(steps + [step]) == Fingerprints(steps) + {FingerprintOf(step.call)}
  {
  }

  lemma AnsweredNew(r: Reading, calls: seq<ToolCall>, steps: seq<ToolStep>, results: seq<ToolResult>, step: ToolStep)
    requires Answered(r, calls, steps, results) && FingerprintOf(step.call) !in Fingerprints(r.made) + AllOf(calls)
    ensures Answered(r, calls + [step.call], steps + [step], results + [step.result])
  {
    AnswersOneMore(Fingerprints(r.made), calls, step.call, steps[|r.made|..]);
    assert (steps + [step])[|r.made|..] == steps[|r.made|..] + [step];
  }

  lemma NextOfPrefix(before: seq<ToolCall>, c: ToolCall, all: seq<ToolCall>)
    requires before + [c] <= all
    ensures |before| < |all| && all[|before|] == c
  {
    assert (before + [c])[|before|] == c;
  }

  lemma NewAtPlace(made: set<Fingerprint>, calls: seq<ToolCall>, n: nat)
    requires n < |calls| && FingerprintOf(calls[n]) !in made + AllOf(calls[..n])
    ensures |NewOnes(made, calls[..n])| < |NewOnes(made, calls)|
    ensures NewOnes(made, calls)[|NewOnes(made, calls[..n])|] == calls[n]
  {
    assert calls[..n + 1] == calls[..n] + [calls[n]];
    NewOneMore(made, calls[..n], calls[n]);
    NewOnesPrefix(made, calls, n + 1);
    NextOfPrefix(NewOnes(made, calls[..n]), calls[n], NewOnes(made, calls));
  }

  lemma NextIsNew(r: Reading, calls: seq<ToolCall>, n: nat, steps: seq<ToolStep>, fingerprints: set<Fingerprint>)
    requires Replied(r, calls) && n < |calls| && Counted(r, calls[..n], steps, fingerprints)
    requires FingerprintOf(calls[n]) !in fingerprints
    ensures IsNext(Stepped(r, steps), calls[n])
  {
    NewAtPlace(Fingerprints(r.made), calls, n);
  }

  lemma OneCallMore(env: Environment, start: seq<Message>, max: nat, r: Reading, calls: seq<ToolCall>, n: nat, s: State,
                    results: seq<ToolResult>)
    requires Replied(r, calls) && n < |calls|
    requires Partly(env, start, max, r, calls[..n], s, results) && FingerprintOf(calls[n]) !in s.fingerprints
    ensures Partly(env, start, max, r, calls[..n] + [calls[n]], RunTool(env, s, calls[n]),
                   results + [env.executeTool(s.trace, calls[n])])
  {
    var step := ToolStep(calls[n], env.executeTool(s.trace, calls[n]));
    NextIsNew(r, calls, n, s.steps, s.fingerprints);
    FollowsOneMore(env, start, max, s.trace, ToolRun(calls[n], step.result));
    CountedNew(r, calls[..n], s.steps, s.fingerprints, step);
    AnsweredNew(r, calls[..n], s.steps, results, step);
  }

  lemma RepeatedCall(env: Environment, start: seq<Message>, max: nat, r: Reading, calls: seq<ToolCall>, c: ToolCall, s: State,
                     results: seq<ToolResult>)
    requires r.asked.Some? && Partly(env, start, max, r, calls, s, results) && FingerprintOf(c) in s.fingerprints
    ensures Partly(env, start, max, r, calls + [c], s, results + [ToolResult(c.id, REPEATED_CALL_NUDGE)])
  {
    NewOneMore(Fingerprints(r.made), calls, c);
    AllOfOneMore(calls, c);
    AnswersOneMore(Fingerprints(r.made), calls, c, s.steps[|r.made|..]);
  }

  /** The first `n` calls have been executed as the reply asks. */
  ghost predicate Executed(env: Environment, start: seq<Message>, max: nat, asked: State, calls: seq<ToolCall>, n: nat)
    requires n <= |calls| && Read(asked.trace).asked.Some?
  {
    var (s, results) := Execute(env, asked, calls[..n]);
    Partly(env, start, max, Read(asked.trace), calls[..n], s, results) && s.messages == asked.messages
  }

  lemma ExecuteStep(env: Environment, start: seq<Message>, max: nat, asked: State, calls: seq<ToolCall>, n: nat)
    requires Replied(Read(asked.trace), calls) && n < |calls| && Executed(env, start, max, asked, calls, n)
    ensures Executed(env, start, max, asked, calls, n + 1)
  {
    var r := Read(asked.trace);
    var (s, results) := Execute(env, asked, calls[..n]);
    ExecuteOneMore(env, asked, calls, n);
    assert calls[..n + 1] == calls[..n] + [calls[n]];
    if FingerprintOf(calls[n]) in s.fingerprints {
      RepeatedCall(env, start, max, r, calls[..n], calls[n], s, results);
    } else {
      OneCallMore(env, start, max, r, calls, n, s, results);
    }
  }

  lemma {:induction false} ExecuteFollows(env: Environment, start: seq<Message>, max: nat, asked: State, calls: seq<ToolCall>,
                                          n: nat)
    requires Reads(asked) && Follows(env, start, max, asked.trace)
    requires Replied(Read(asked.trace), calls) && Read(asked.trace).made == asked.steps && n <= |calls|
    ensures Executed(env, start, max, asked, calls, n)
  {
    if n > 0 {
      ExecuteFollows(env, start, max, asked, calls, n - 1);
      ExecuteStep(env, start, max, asked, calls, n - 1);
    }
  }

  // ----- a call and what it comes to

  function CallOf(env: Environment, st: State, allowTools: bool, force: bool): Event {
    Asked(RequestFor(env, st, allowTools, force), Reply(env, st, allowTools, force))
  }

  /** The call is due. */
  ghost predicate IsDue(env: Environment, start: seq<Message>, max: nat, st: State, allowTools: bool, force: bool) {
    var r, e := Read(st.trace), CallOf(env, st, allowTools, force);
    && MayFollow(env, max, r, e) && st.messages == Due(env, start, r, IsDiscovery(e))
    && (IsDiscovery(e) && env.poll.Some? ==> JustPolled(st.trace))
  }

  lemma AskFollows(env: Environment, start: seq<Message>, max: nat, st: State, allowTools: bool, force: bool)
    requires Sound(env, start, max, st) && IsDue(env, start, max, st, allowTools, force)
    ensures var asked := Ask(env, st, allowTools, force);
      && Follows(env, start, max, asked.trace) && Reads(asked)
      && Read(asked.trace) == ReadEvent(Read(st.trace), CallOf(env, st, allowTools, force))
  {
    FollowsOneMore(env, start, max, st.trace, CallOf(env, st, allowTools, force));
  }

  /** The reply `e` has been carried out from the reading `r` on. */
  ghost predicate CarriedOut(env: Environment, start: seq<Message>, max: nat, r: Reading, e: Event, s: State) {
    && e.Asked? && e.request.allowTools && Sound(env, start, max, s)
    && r.steps <= s.steps && Read(s.trace) == Stepped(ReadEvent(r, e), s.steps)
  }

  lemma ReplyFollows(env: Environment, start: seq<Message>, max: nat, st: State, force: bool)
    requires Sound(env, start, max, st) && IsDue(env, start, max, st, true, force)
    ensures var e, asked := CallOf(env, st, true, force), Ask(env, st, true, force);
      var s := Apply(env, asked, e.response);
      && CarriedOut(env, start, max, Read(st.trace), e, s)
      && NewCalls(env, asked, e.response) == |NewIn(Read(s.trace))|
      && s.messages == st.messages + Exchange(e.response.text,
           Answers(Fingerprints(st.steps), e.response.toolCalls, s.steps[|st.steps|..]))
  {
    var e, asked := CallOf(env, st, true, force), Ask(env, st, true, force);
    var calls := e.response.toolCalls;
    AskFollows(env, start, max, st, true, force);
    ExecuteFollows(env, start, max, asked, calls, |calls|);
    assert calls[..|calls|] == calls;
    var (s, results) := Execute(env, asked, calls);
    ExchangeAppends(asked.messages, e.response.text, results);
  }

  lemma DueOfCalls(env: Environment, start: seq<Message>, max: nat, r: Reading, e: Event, s: State, d: bool)
    requires CarriedOut(env, start, max, r, e, s) && e.response.toolCalls != []
    ensures Due(env, start, Read(s.trace), d)
      == e.request.messages
         + Exchange(e.response.text, Answers(Fingerprints(r.steps), e.response.toolCalls, s.steps[|r.steps|..]))
         + if d && NewIn(Read(s.trace)) == [] then Exchange("", [NotDone(env, Read(s.trace))]) else []
  {
  }

  lemma DueOfNone(env: Environment, start: seq<Message>, r: Reading, e: Event, d: bool)
    requires e.Asked? && e.request.allowTools && e.response.toolCalls == []
    ensures var r' := ReadEvent(r, e);
      && NewIn(r') == []
      && Due(env, start, r', d) == e.request.messages
           + if d then Exchange(if e.request.force then "" else e.response.text, [NotDone(env, r')]) else []
  {
  }

  /** The nudge is the note that the work is not done. */
  lemma NudgeIsTheNote(env: Environment, s: State, r: Reading, text: string, iteration: nat)
    requires s.steps == r.steps && r.discoveries == iteration + 1
    ensures Nudge(env, s, text, iteration) == s.(messages := s.messages + Exchange(text, [NotDone(env, r)]))
  {
    ExchangeAppends(s.messages, text, [NotDone(env, r)]);
  }

  // ----- a turn

  /** Between two iterations: what comes next is a discovery call, or the final one when none is left. */
  ghost predicate AtHead(env: Environment, start: seq<Message>, max: nat, st: State, iteration: nat) {
    var r := Read(st.trace);
    && Sound(env, start, max, st) && r.discoveries == iteration <= max && st.messages == Due(env, start, r, true)
    && match r.asked
       case Some(Asked(q, p)) =>
         && q.allowTools
         && (if q.force then iteration < max
             else r.ran == (NewIn(r) != []) && (NewIn(r) != [] || (GoesOn(env, max, r) && p.toolCalls == [])))
       case _ => iteration == 0
  }

  /** How a turn ends: where it may, with the last reply as its answer; and the limit was hit exactly when the last of
      the allowed iterations still ran something new. */
  ghost predicate Ended(env: Environment, start: seq<Message>, max: nat, o: Outcome) {
    var r := Read(o.state.trace);
    && Follows(env, start, max, o.state.trace) && Done(r) && MayEnd(env, max, r)
    && o.finalText == r.asked.value.response.text && o.finalReasoning == r.asked.value.response.reasoning
    && o.iterations == r.discoveries && (o.hitIterationLimit <==> r.discoveries == max && r.ran)
  }

  lemma CloseFollows(env: Environment, start: seq<Message>, max: nat, st: State)
    requires Sound(env, start, max, st) && (env.poll.Some? ==> JustPolled(st.trace))
    ensures Sound(env, start, max, Close(st)) && Read(Close(st).trace) == Read(st.trace)
  {
    FollowsOneMore(env, start, max, st.trace, Closed);
  }

  /** The final call is due after the reply to a discovery call. */
  predicate FinalDue(env: Environment, max: nat, r: Reading) {
    match r.asked
    case Some(Asked(q, p)) =>
      && q.allowTools && !q.force
      && (if NewIn(r) != [] then r.discoveries >= max
          else !GoesOn(env, max, r) && (p.toolCalls == [] ==> Overtaken(env, r)))
    case _ => false
  }

  lemma FinalFollows(env: Environment, start: seq<Message>, max: nat, closed: State, hitLimit: bool, n: nat)
    requires Sound(env, start, max, closed) && closed.messages == Due(env, start, Read(closed.trace), false)
    requires FinalDue(env, max, Read(closed.trace)) && n == Read(closed.trace).discoveries
    requires hitLimit <==> n == max && Read(closed.trace).ran
    ensures var r := Reply(env, closed, false, false);
      Ended(env, start, max, Outcome(Ask(env, closed, false, false), r.text, r.reasoning, hitLimit, n))
  {
    AskFollows(env, start, max, closed, false, false);
  }

  lemma ConcludeFollows(env: Environment, start: seq<Message>, max: nat, st: State, hitLimit: bool, n: nat)
    requires Sound(env, start, max, st) && st.messages == Due(env, start, Read(st.trace), false)
    requires env.poll.Some? ==> JustPolled(st.trace)
    requires FinalDue(env, max, Read(st.trace)) && n == Read(st.trace).discoveries
    requires hitLimit <==> n == max && Read(st.trace).ran
    ensures Ended(env, start, max, Conclude(env, st, hitLimit, n))
  {
    CloseFollows(env, start, max, st);
    FinalFollows(env, start, max, Close(st), hitLimit, n);
  }

  /** A discovery reply without calls that the turn does not go on from: it is the answer, or the answer is given again. */
  lemma AnswerFollows(env: Environment, start: seq<Message>, max: nat, st: State, n: nat)
    requires Sound(env, start, max, st) && st.messages == Due(env, start, Read(st.trace), false)
    requires var r := Read(st.trace);
      && r.asked.Some? && IsDiscovery(r.asked.value) && r.asked.value.response.toolCalls == [] && r.told == []
      && !GoesOn(env, max, r) && n == r.discoveries && !r.ran
    ensures Ended(env, start, max, Answer(env, st, Read(st.trace).asked.value.response, n))
  {
    SteerFollows(env, start, max, st, false);
    SteeringAppends([], PolledBatch(env, st));
    var steered := Steer(env, st);
    if env.streams || PolledBatch(env, st) != [] {
      ConcludeFollows(env, start, max, steered, false, n);
    } else {
      CloseFollows(env, start, max, steered);
    }
  }

  lemma NoCallsAreCarriedOut(env: Environment, start: seq<Message>, max: nat, st: State, force: bool)
    requires Sound(env, start, max, st) && IsDue(env, start, max, st, true, force)
    requires Reply(env, st, true, force).toolCalls == []
    ensures Sound(env, start, max, Ask(env, st, true, force))
    ensures Read(Ask(env, st, true, force).trace) == ReadEvent(Read(st.trace), CallOf(env, st, true, force))
  {
    AskFollows(env, start, max, st, true, force);
  }

  /** A reply without calls to a discovery call. */
  lemma AnsweredFollows(env: Environment, start: seq<Message>, max: nat, st: State, iteration: nat)
    requires Sound(env, start, max, st) && IsDue(env, start, max, st, true, false)
    requires Read(st.trace).discoveries == iteration < max && Reply(env, st, true, false).toolCalls == []
    ensures match AfterReply(env, Ask(env, st, true, false), Reply(env, st, true, false), iteration, max)
      case Continue(after) => AtHead(env, start, max, after, iteration + 1)
      case Finish(o) => Ended(env, start, max, o)
  {
    var e, asked := CallOf(env, st, true, false), Ask(env, st, true, false);
    NoCallsAreCarriedOut(env, start, max, st, false);
    if CanStillMakeProgress(env, asked, iteration, max) {
      DueOfNone(env, start, Read(st.trace), e, true);
      NudgeIsTheNote(env, asked, Read(asked.trace), e.response.text, iteration);
    } else {
      DueOfNone(env, start, Read(st.trace), e, false);
      AnswerFollows(env, start, max, asked, iteration + 1);
    }
  }

  /** All calls were repeats and the work is not done: a call is forced. */
  lemma ForcedFollows(env: Environment, start: seq<Message>, max: nat, st: State, iteration: nat)
    requires Sound(env, start, max, st) && IsDue(env, start, max, st, true, true)
    requires Read(st.trace).discoveries == iteration + 1 < max
    ensures AtHead(env, start, max, ForceAdvance(env, st, iteration), iteration + 1)
  {
    var e, asked := CallOf(env, st, true, true), Ask(env, st, true, true);
    if e.response.toolCalls == [] {
      NoCallsAreCarriedOut(env, start, max, st, true);
      DueOfNone(env, start, Read(st.trace), e, true);
      NudgeIsTheNote(env, asked, Read(asked.trace), "", iteration);
    } else {
      var s := Apply(env, asked, e.response);
      ReplyFollows(env, start, max, st, true);
      DueOfCalls(env, start, max, Read(st.trace), e, s, true);
      if NewCalls(env, asked, e.response) == 0 { NudgeIsTheNote(env, s, Read(s.trace), "", iteration); }
    }
  }

  /** A reply with calls to a discovery call. */
  lemma CalledFollows(env: Environment, start: seq<Message>, max: nat, st: State, iteration: nat)
    requires Sound(env, start, max, st) && IsDue(env, start, max, st, true, false)
    requires Read(st.trace).discoveries == iteration < max && Reply(env, st, true, false).toolCalls != []
    ensures match AfterReply(env, Ask(env, st, true, false), Reply(env, st, true, false), iteration, max)
      case Continue(after) => AtHead(env, start, max, after, iteration + 1)
      case Finish(o) => Ended(env, start, max, o)
  {
    var e, asked := CallOf(env, st, true, false), Ask(env, st, true, false);
    var s := Apply(env, asked, e.response);
    ReplyFollows(env, start, max, st, false);
    DueOfCalls(env, start, max, Read(st.trace), e, s, true);
    DueOfCalls(env, start, max, Read(st.trace), e, s, false);
    if NewCalls(env, asked, e.response) == 0 {
      if CanStillMakeProgress(env, s, iteration, max) {
        ForcedFollows(env, start, max, s, iteration);
      } else {
        SteerFollows(env, start, max, s, false);
        ConcludeFollows(env, start, max, Steer(env, s), false, iteration + 1);
      }
    }
  }

  ghost predicate NextFollows(env: Environment, start: seq<Message>, max: nat, next: Next, iteration: nat) {
    match next
    case Continue(after) => AtHead(env, start, max, after, iteration + 1)
    case Finish(o) => Ended(env, start, max, o)
  }

  lemma IterationFollows(env: Environment, start: seq<Message>, max: nat, st: State, iteration: nat)
    requires AtHead(env, start, max, st, iteration) && iteration < max
    ensures NextFollows(env, start, max, Iteration(env, st, iteration, max), iteration)
  {
    SteerFollows(env, start, max, st, true);
    IterationSplits(env, st, iteration, max);
    var steered := Steer(env, st);
    assert IsDue(env, start, max, steered, true, false);
    if Reply(env, steered, true, false).toolCalls == [] {
      AnsweredFollows(env, start, max, steered, iteration);
    } else {
      CalledFollows(env, start, max, steered, iteration);
    }
  }

  lemma LimitFollows(env: Environment, start: seq<Message>, max: nat, st: State)
    requires AtHead(env, start, max, st, max) && max > 0
    ensures Ended(env, start, max, Conclude(env, Steer(env, st), true, max))
  {
    assert Due(env, start, Read(st.trace), true) == Due(env, start, Read(st.trace), false);
    SteerFollows(env, start, max, st, false);
    ConcludeFollows(env, start, max, Steer(env, st), true, max);
  }

  lemma {:induction false} LoopFollows(env: Environment, start: seq<Message>, max: nat, st: State, iteration: nat)
    requires AtHead(env, start, max, st, iteration) && max > 0
    ensures Ended(env, start, max, LoopFrom(env, st, iteration, max))
    decreases max - iteration, 1
  {
    if iteration == max {
      LimitFollows(env, start, max, st);
    } else {
      IterationFollows(env, start, max, st, iteration);
      RestFollows(env, start, max, Iteration(env, st, iteration, max), iteration);
    }
  }

  lemma {:induction false} RestFollows(env: Environment, start: seq<Message>, max: nat, next: Next, iteration: nat)
    requires NextFollows(env, start, max, next, iteration) && iteration < max
    ensures Ended(env, start, max, if next.Continue? then LoopFrom(env, next.state, iteration + 1, max) else next.outcome)
    decreases max - iteration, 0
  {
    if next.Continue? { LoopFollows(env, start, max, next.state, iteration + 1); }
  }

  /** Every turn follows the protocol, event by event: each call is the one that is due, with exactly the prompt that is
      due; exactly the new calls of each reply are run; the turn ends where it may, with the last reply as its answer, and
      reports the limit exactly when the last of the allowed iterations still ran something new. */
  lemma TurnFollowsProtocol(env: Environment, messages: seq<Message>, maxIterations: Option<int>)
    ensures Ended(env, messages, MaxIterations(maxIterations), Loop(env, messages, maxIterations))
  {
    assert Due(env, messages, Read([]), true) == messages;
    LoopFollows(env, messages, MaxIterations(maxIterations), Start(messages), 0);
  }

  // ----- the answer

  /** `t[k]` is the last model call of the trace. */
  ghost predicate IsLastCall(t: seq<Event>, k: nat) { k < |t| && t[k].Asked? && forall l :: k < l < |t| ==> !t[l].Asked? }

  lemma {:induction false} ReadFindsLast(t: seq<Event>)
    ensures Read(t).asked.Some? ==> exists k: nat :: IsLastCall(t, k) && t[k] == Read(t).asked.value
  {
    if t != [] {
      var before, e := t[..|t| - 1], t[|t| - 1];
      ReadFindsLast(before);
      if e.Asked? {
        assert IsLastCall(t, |t| - 1);
      } else if Read(t).asked.Some? {
        var k: nat :| IsLastCall(before, k) && before[k] == Read(before).asked.value;
        assert IsLastCall(t, k);
      }
    }
  }

  /** What a turn answers: text and reasoning of its last model call, whatever the environment. */
  lemma TurnAnswersWithLastReply(env: Environment, messages: seq<Message>, maxIterations: Option<int>)
    ensures var o := Loop(env, messages, maxIterations);
      exists k: nat :: IsLastCall(o.state.trace, k)
        && o.finalText == o.state.trace[k].response.text && o.finalReasoning == o.state.trace[k].response.reasoning
  {
    TurnFollowsProtocol(env, messages, maxIterations);
    ReadFindsLast(Loop(env, messages, maxIterations).state.trace);
  }

  // ----- what is listed once

  /** `list` has no value twice, and each is there from its first appearance on: the list of a prefix is a prefix. */
  ghost predicate ListsOnce(list: seq<string>) { forall i, j :: 0 <= i < j < |list| ==> list[i] != list[j] }

  lemma {:induction false} NamesAreListedOnce(steps: seq<ToolStep>)
    ensures ListsOnce(Names(steps))
  {
    if steps != [] { NamesAreListedOnce(steps[..|steps| - 1]); }
  }

  lemma {:induction false} NamesGrow(steps: seq<ToolStep>, k: nat)
    requires k <= |steps|
    ensures Names(steps[..k]) <= Names(steps)
  {
    if k < |steps| {
      NamesGrow(steps[..|steps| - 1], k);
      assert steps[..|steps| - 1][..k] == steps[..k];
    } else {
      assert steps[..k] == steps;
    }
  }

  /** The trace has a reply with this strategy, which is not empty. */
  ghost predicate Fired(t: seq<Event>, s: string) {
    s != "" && exists k :: 0 <= k < |t| && t[k].Asked? && t[k].response.promptStrategy == Some(s)
  }

  lemma {:induction false} StrategiesAreListedOnce(t: seq<Event>, k: nat)
    requires k <= |t|
    ensures ListsOnce(Strategies(t)) && Strategies(t[..k]) <= Strategies(t)
    ensures forall s :: s in Strategies(t) <==> Fired(t, s)
  {
    if t != [] {
      var m := |t| - 1;
      StrategiesAreListedOnce(t[..m], if k <= m then k else m);
      if k <= m { assert t[..m][..k] == t[..k]; } else { assert t[..k] == t; }
      forall s
        ensures Fired(t, s) <==> Fired(t[..m], s) || (s != "" && t[m].Asked? && t[m].response.promptStrategy == Some(s))
      {
        if i :| 0 <= i < m && t[..m][i].Asked? && t[..m][i].response.promptStrategy == Some(s) { assert t[i].Asked?; }
        if i :| 0 <= i < |t| && t[i].Asked? && t[i].response.promptStrategy == Some(s) {
          if i < m { assert t[..m][i].Asked?; }
        }
      }
    }
  }

  /** The outcome lists the tools that ran and the strategies that fired, each once; and the lists of a beginning of the
      turn are beginnings of them, so everything is listed in the order in which it first appeared. */
  lemma OutcomeListsOnce(env: Environment, messages: seq<Message>, maxIterations: Option<int>, k: nat, j: nat)
    requires k <= |Loop(env, messages, maxIterations).state.trace| && j <= |Loop(env, messages, maxIterations).state.steps|
    ensures var st := Loop(env, messages, maxIterations).state;
      && ListsOnce(st.used) && ListsOnce(st.strategies)
      && (forall n :: n in st.used <==> exists i :: 0 <= i < |st.steps| && st.steps[i].call.name == n)
      && (forall s :: s in st.strategies <==> Fired(st.trace, s))
      && Strategies(st.trace[..k]) <= st.strategies && Names(st.steps[..j]) <= st.used
  {
    var st := Loop(env, messages, maxIterations).state;
    TurnKeepsBooks(env, messages, maxIterations);
    NamesAreListedOnce(st.steps);
    NamesGrow(st.steps, j);
    forall n
      ensures n in st.used <==> exists i :: 0 <= i < |st.steps| && st.steps[i].call.name == n
    {
      Force.UnusedNameIsNewCall(st.steps, n);
    }
    StrategiesAreListedOnce(st.trace, k);
  }

  /** The number that a text of digits writes. */
  function Number(digits: string): int {
    if digits == "" then 0 else 10 * Number(digits[..|digits| - 1]) + (digits[|digits| - 1] as int - '0' as int)
  }

  /** The notes of different iterations have different ids, because digits give the number back. */
  lemma {:induction false} DigitsAreDecimal(n: nat)
    ensures Digits(n) != "" && Number(Digits(n)) == n
  {
    if n >= 10 {
      DigitsAreDecimal(n / 10);
      var all, last := Digits(n), ('0' as int + n % 10) as char;
      assert all[..|all| - 1] == Digits(n / 10) && all[|all| - 1] == last;
    } else {
      assert Number("") == 0;
      assert Digits(n)[..0] == "";
    }
  }
}
