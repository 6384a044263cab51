/** The completion gates of a turn and the text that names what they miss (`src/chat/chat-agent-turn.ts`,
    `src/chat/chat-acceptance-completion.ts`). */
module EvidenceGates {
  import opened Wrappers
  import opened Text
  import opened Chat
  import opened AgentLoop
  import opened AgentLoopGuarantees
  import opened ForceAdvance

  const SUCCESS_HEADER := "Command exited with code 0."

  // ----- commands modulo white space

  function SpaceRun(s: string): (n: nat)
    ensures n <= |s| && (n < |s| ==> !IsSpace(s[n])) && forall i :: 0 <= i < n ==> IsSpace(s[i])
  {
    if s == "" || !IsSpace(s[0]) then 0 else 1 + SpaceRun(s[1..])
  }

  /** `s.replace(/\s+/g, " ")` */
  function Collapse(s: string): string {
    if s == "" then ""
    else if IsSpace(s[0]) then " " + Collapse(s[SpaceRun(s)..])
    else [s[0]] + Collapse(s[1..])
  }

  function NormalizeCommand(command: string): string { Trim(Collapse(command)) }

  predicate Contains(s: string, needle: string) {
    needle <= s || (s != "" && Contains(s[1..], needle))
  }

  // ----- the gates

  predicate IsAcceptanceRun(step: ToolStep, needle: string) {
    step.call.name == "run_command"
    && "command" in step.call.arguments && step.call.arguments["command"].Str?
    && Contains(NormalizeCommand(step.call.arguments["command"].text), needle)
    && StartsWith(step.result.content, SUCCESS_HEADER)
  }

  predicate AcceptanceGate(command: string, steps: seq<ToolStep>) {
    exists i | 0 <= i < |steps| :: IsAcceptanceRun(steps[i], NormalizeCommand(command))
  }

  function UsedNames(steps: seq<ToolStep>): set<string> { set s | s in steps :: s.call.name }

  predicate NamedToolsGate(required: seq<string>, steps: seq<ToolStep>) {
    forall i | 0 <= i < |required| :: required[i] in UsedNames(steps)
  }

  /** The tools a turn must call: those the instruction names, when it names at least two. */
  function RequiredTools(offered: seq<string>, position: string -> int): seq<string> {
    var named := SelectTools(offered, position).matchedNames;
    if |named| >= 2 then named else []
  }

  /** What a turn is held to; nothing when neither part applies. */
  datatype Demands = Demands(requiredTools: seq<string>, acceptanceCommand: Option<string>) {
    predicate Any() { requiredTools != [] || acceptanceCommand.Some? }

    predicate Met(steps: seq<ToolStep>) {
      (requiredTools != [] ==> NamedToolsGate(requiredTools, steps))
      && (acceptanceCommand.Some? ==> AcceptanceGate(acceptanceCommand.value, steps))
    }
  }

  function ToolsNudgeBody(missing: seq<string>): string {
    "Tools still to be called: " + Join(missing, ", ")
  }

  function ToolsNudge(missing: seq<string>): string { ToolsNudgeBody(missing) + ['.'] }

  /** The gist of the nudge. */
  function AcceptanceNudgeBody(command: string): string {
    "Still to be run to a zero exit: " + command
  }

  function AcceptanceNudge(command: string): string { AcceptanceNudgeBody(command) + ['.'] }

  function DescribeMissing(d: Demands, steps: seq<ToolStep>): Option<string> {
    if d.requiredTools != [] && !NamedToolsGate(d.requiredTools, steps) then
      Some(ToolsNudge(Unused(d.requiredTools, UsedNames(steps))))
    else if d.acceptanceCommand.Some? && !AcceptanceGate(d.acceptanceCommand.value, steps) then
      Some(AcceptanceNudge(d.acceptanceCommand.value))
    else None
  }

  // ----- guarantees

  /** Evidence cannot be lost: a gate that holds keeps holding as steps are added. */
  lemma GatesAreMonotone(d: Demands, steps: seq<ToolStep>, more: seq<ToolStep>)
    ensures d.Met(steps) ==> d.Met(steps + more)
  {
    var all := steps + more;
    assert forall s :: s in steps ==> s in all;
    assert UsedNames(steps) <= UsedNames(all);
    if d.acceptanceCommand.Some? && AcceptanceGate(d.acceptanceCommand.value, steps) {
      var needle := NormalizeCommand(d.acceptanceCommand.value);
      var i :| 0 <= i < |steps| && IsAcceptanceRun(steps[i], needle);
      assert IsAcceptanceRun(all[i], needle);
    }
  }

  lemma {:induction false} TrimKeepsText(s: string)
    requires s != "" && !IsSpace(s[|s| - 1])
    ensures TrimStart(s) != "" && Trim(s) == TrimStart(s)
  {
    if IsSpace(s[0]) { TrimKeepsText(s[1..]); }
  }

  lemma TrimKeepsEnding(body: string, end: char)
    requires !IsSpace(end)
    ensures Trim(body + [end]) != ""
  {
    TrimKeepsText(body + [end]);
  }

  lemma ToolsNudgeIsText(missing: seq<string>)
    ensures Trim(ToolsNudge(missing)) != ""
  {
    TrimKeepsEnding(ToolsNudgeBody(missing), '.');
  }

  lemma AcceptanceNudgeIsText(command: string)
    ensures Trim(AcceptanceNudge(command)) != ""
  {
    TrimKeepsEnding(AcceptanceNudgeBody(command), '.');
  }

  /** The missing-evidence text is there exactly while a gate fails, and then it is what the loop's nudge says. */
  lemma MissingEvidenceIsNamed(d: Demands, steps: seq<ToolStep>, env: Environment)
    requires env.describe == Some((s: seq<ToolStep>) => DescribeMissing(d, s))
    ensures DescribeMissing(d, steps).Some? <==> !d.Met(steps)
    ensures !d.Met(steps) ==> IncompleteNudge(env, steps) == Trim(DescribeMissing(d, steps).value)
  {
    ToolsNudgeIsText(Unused(d.requiredTools, UsedNames(steps)));
    AcceptanceNudgeIsText(d.acceptanceCommand.GetOr(""));
    assert env.describe.value(steps) == DescribeMissing(d, steps);
  }

  /** While tools are missing the text lists exactly the required tools that no step has called. */
  lemma MissingToolsAreListed(d: Demands, steps: seq<ToolStep>, tool: string)
    ensures var missing := Unused(d.requiredTools, UsedNames(steps));
      && (tool in missing <==> tool in d.requiredTools && forall s :: s in steps ==> s.call.name != tool)
      && (missing != [] <==> !NamedToolsGate(d.requiredTools, steps))
      && (missing != [] ==> DescribeMissing(d, steps) == Some(ToolsNudge(missing)))
  {
    var missing := Unused(d.requiredTools, UsedNames(steps));
    UnusedMembers(d.requiredTools, UsedNames(steps));
    if missing != [] {
      assert missing[0] in missing;
    } else {
      forall i | 0 <= i < |d.requiredTools|
        ensures d.requiredTools[i] in UsedNames(steps)
      {
        assert d.requiredTools[i] !in missing;
      }
    }
  }

  /** What an instruction demands: the offered tools it names, when it names several, and its acceptance command. */
  function DemandsOf(offered: seq<string>, position: string -> int, command: Option<string>): Demands {
    Demands(RequiredTools(offered, position), command)
  }

  /** The gate that the turn hands to its loop. */
  function GateOf(d: Demands): Option<seq<ToolStep> -> bool> {
    if d.Any() then Some((steps: seq<ToolStep>) => d.Met(steps)) else None
  }

  /** The instruction names the tool; `position` is where. */
  predicate NamedIn(offered: seq<string>, position: string -> int, tool: string) { tool in offered && position(tool) >= 0 }

  /** Two tools named are two tools required, and so is every other one that is named. */
  lemma NamedAreRequired(offered: seq<string>, position: string -> int, a: string, b: string)
    requires a != b && NamedIn(offered, position, a) && NamedIn(offered, position, b)
    ensures forall tool :: tool in RequiredTools(offered, position) <==> NamedIn(offered, position, tool)
  {
    SelectionIsOffered(offered, position);
    var i :| 0 <= i < |offered| && offered[i] == a;
    var j :| 0 <= j < |offered| && offered[j] == b;
    assert |offered| > 1;
    var named := SelectTools(offered, position).matchedNames;
    var k :| 0 <= k < |named| && named[k] == a;
    var m :| 0 <= m < |named| && named[m] == b;
    assert |named| >= 2;
  }

  lemma MetMeansRun(d: Demands, steps: seq<ToolStep>, tool: string)
    requires d.Met(steps)
    ensures tool in d.requiredTools ==> exists s :: s in steps && s.call.name == tool
    ensures d.acceptanceCommand.Some? ==>
      exists s :: s in steps && IsAcceptanceRun(s, NormalizeCommand(d.acceptanceCommand.value))
  {
    if tool in d.requiredTools {
      var i :| 0 <= i < |d.requiredTools| && d.requiredTools[i] == tool;
      assert d.requiredTools[i] in UsedNames(steps);
    }
    if d.acceptanceCommand.Some? {
      var i :| 0 <= i < |steps| && IsAcceptanceRun(steps[i], NormalizeCommand(d.acceptanceCommand.value));
      assert steps[i] in steps;
    }
  }

  /** End to end: a turn that stops by itself before its last iteration has run the acceptance command of its instruction
      to a zero exit, and has called every offered tool that the instruction names when it names two or more. */
  lemma TurnHasEvidence(env: Environment, offered: seq<string>, position: string -> int, command: Option<string>,
                        messages: seq<Message>, maxIterations: Option<int>, tool: string, other: string)
    requires env.assess == GateOf(DemandsOf(offered, position, command))
    requires var o := Loop(env, messages, maxIterations); !o.hitIterationLimit && o.iterations < MaxIterations(maxIterations)
    ensures var steps := Loop(env, messages, maxIterations).state.steps;
      && (tool != other && NamedIn(offered, position, tool) && NamedIn(offered, position, other) ==>
            exists s :: s in steps && s.call.name == tool)
      && (command.Some? ==> exists s :: s in steps && IsAcceptanceRun(s, NormalizeCommand(command.value)))
  {
    var d := DemandsOf(offered, position, command);
    var steps := Loop(env, messages, maxIterations).state.steps;
    if tool != other && NamedIn(offered, position, tool) && NamedIn(offered, position, other) {
      NamedAreRequired(offered, position, tool, other);
      assert tool in d.requiredTools;
    }
    if d.Any() {
      StopsOnlyOnEvidence(env, messages, maxIterations);
      assert d.Met(steps);
      MetMeansRun(d, steps, tool);
    }
  }

  // ----- matching modulo white space

  predicate AllSpace(s: string) { forall i :: 0 <= i < |s| ==> IsSpace(s[i]) }

  /** Not empty, and no white space at either end. */
  predicate Solid(s: string) { s != "" && !IsSpace(s[0]) && !IsSpace(s[|s| - 1]) }

  lemma {:induction false} RunAppend(a: string, b: string)
    requires a != "" && (b == "" || !IsSpace(b[0]) || !IsSpace(a[|a| - 1]))
    ensures SpaceRun(a + b) == SpaceRun(a)
  {
    assert (a + b)[1..] == a[1..] + b;
    if IsSpace(a[0]) && |a| > 1 { RunAppend(a[1..], b); }
  }

  lemma TailAppend(a: string, b: string, n: nat)
    requires n <= |a|
    ensures (a + b)[n..] == a[n..] + b
  {
  }

  /** Collapsing splits wherever one side of the cut is not white space. */
  lemma {:induction false} CollapseAppend(a: string, b: string)
    requires a == "" || b == "" || !IsSpace(b[0]) || !IsSpace(a[|a| - 1])
    ensures Collapse(a + b) == Collapse(a) + Collapse(b)
    decreases |a|
  {
    if a == "" {
      assert a + b == b;
    } else {
      var n := if IsSpace(a[0]) then SpaceRun(a) else 1;
      if IsSpace(a[0]) { RunAppend(a, b); }
      TailAppend(a, b, n);
      CollapseAppend(a[n..], b);
    }
  }

  lemma {:induction false} CollapseKeepsEnds(s: string)
    requires s != "" && !IsSpace(s[|s| - 1])
    ensures Collapse(s) != "" && Collapse(s)[|Collapse(s)| - 1] == s[|s| - 1]
    ensures !IsSpace(s[0]) ==> Collapse(s)[0] == s[0]
    decreases |s|
  {
    if IsSpace(s[0]) {
      CollapseKeepsEnds(s[SpaceRun(s)..]);
    } else if |s| > 1 {
      CollapseKeepsEnds(s[1..]);
    } else {
      assert Collapse(s[1..]) == "";
    }
  }

  lemma {:induction false} CollapseSpace(s: string)
    requires AllSpace(s)
    ensures AllSpace(Collapse(s))
  {
    if s != "" {
      assert SpaceRun(s) == |s|;
      assert Collapse(s) == " " + Collapse("");
    }
  }

  lemma {:induction false} TrimStartSplits(s: string) returns (lead: string)
    ensures AllSpace(lead) && s == lead + TrimStart(s)
  {
    if s == "" || !IsSpace(s[0]) {
      lead := "";
    } else {
      lead := TrimStartSplits(s[1..]);
      lead := [s[0]] + lead;
    }
  }

  lemma {:induction false} TrimEndSplits(s: string) returns (tail: string)
    ensures AllSpace(tail) && s == TrimEnd(s) + tail
  {
    if s == "" || !IsSpace(s[|s| - 1]) {
      tail := "";
    } else {
      tail := TrimEndSplits(s[..|s| - 1]);
      tail := tail + [s[|s| - 1]];
    }
  }

  lemma {:induction false} TrimStartOf(a: string, k: string) returns (rest: string)
    requires k != "" && !IsSpace(k[0])
    ensures TrimStart(a + k) == rest + k && (AllSpace(a) ==> rest == "")
  {
    if a == "" {
      assert a + k == k;
      rest := "";
    } else if IsSpace(a[0]) {
      assert (a + k)[1..] == a[1..] + k;
      rest := TrimStartOf(a[1..], k);
    } else {
      rest := a;
    }
  }

  lemma {:induction false} TrimEndOf(k: string, b: string) returns (rest: string)
    requires k != "" && !IsSpace(k[|k| - 1])
    ensures TrimEnd(k + b) == k + rest && (AllSpace(b) ==> rest == "")
    decreases |b|
  {
    if b == "" {
      assert k + b == k;
      rest := "";
    } else if IsSpace(b[|b| - 1]) {
      assert (k + b)[..|k + b| - 1] == k + b[..|b| - 1];
      rest := TrimEndOf(k, b[..|b| - 1]);
    } else {
      rest := b;
    }
  }

  /** Trimming cuts only what surrounds a solid core. */
  lemma TrimAround(a: string, k: string, b: string) returns (left: string, right: string)
    requires Solid(k)
    ensures Trim(a + k + b) == left + k + right
    ensures AllSpace(a) ==> left == ""
    ensures AllSpace(b) ==> right == ""
  {
    assert a + k + b == a + (k + b);
    left := TrimStartOf(a, k + b);
    assert left + (k + b) == (left + k) + b;
    right := TrimEndOf(left + k, b);
  }

  lemma {:induction false} ContainsMiddle(a: string, k: string, b: string)
    ensures Contains(a + k + b, k)
  {
    if a == "" {
      assert a + k + b == k + b;
      assert k <= k + b;
    } else {
      assert (a + k + b)[1..] == a[1..] + k + b;
      ContainsMiddle(a[1..], k, b);
    }
  }

  lemma CollapseAround(a: string, k: string, b: string)
    requires Solid(k)
    ensures Collapse(a + k + b) == Collapse(a) + Collapse(k) + Collapse(b) && Solid(Collapse(k))
  {
    assert a + k + b == a + (k + b);
    CollapseAppend(a, k + b);
    CollapseAppend(k, b);
    CollapseKeepsEnds(k);
  }

  lemma TrimSolid(a: string, k: string, b: string)
    requires Solid(k) && AllSpace(a) && AllSpace(b)
    ensures Trim(a + k + b) == k
  {
    var l, r := TrimAround(a, k, b);
  }

  lemma NormalizedCore(lead: string, core: string, tail: string)
    requires Solid(core) && AllSpace(lead) && AllSpace(tail)
    ensures NormalizeCommand(lead + core + tail) == Collapse(core)
  {
    CollapseAround(lead, core, tail);
    CollapseSpace(lead);
    CollapseSpace(tail);
    TrimSolid(Collapse(lead), Collapse(core), Collapse(tail));
  }

  lemma TrimContains(a: string, k: string, b: string)
    requires Solid(k)
    ensures Contains(Trim(a + k + b), k)
  {
    var l, r := TrimAround(a, k, b);
    ContainsMiddle(l, k, r);
  }

  lemma CoreIsContained(before: string, core: string, after: string)
    requires Solid(core)
    ensures Contains(NormalizeCommand(before + core + after), Collapse(core))
  {
    CollapseAround(before, core, after);
    TrimContains(Collapse(before), Collapse(core), Collapse(after));
  }

  lemma BlankCommand(command: string)
    requires AllSpace(command)
    ensures NormalizeCommand(command) == ""
  {
    CollapseSpace(command);
    TrimOfSpace(Collapse(command));
  }

  lemma TrimSplits(s: string) returns (lead: string, tail: string)
    ensures AllSpace(lead) && AllSpace(tail) && s == lead + Trim(s) + tail
  {
    lead := TrimStartSplits(s);
    tail := TrimEndSplits(TrimStart(s));
  }

  /** A step counts as the acceptance run however it wraps, pads or respaces the command: the normalised step contains
      the normalised command. */
  lemma WrappedCommandCounts(before: string, command: string, after: string)
    ensures Contains(NormalizeCommand(before + command + after), NormalizeCommand(command))
  {
    var lead, tail := TrimSplits(command);
    var core := Trim(command);
    if core == "" {
      assert command == lead + tail;
      BlankCommand(command);
    } else {
      NormalizedCore(lead, core, tail);
      assert before + command + after == (before + lead) + core + (tail + after);
      CoreIsContained(before + lead, core, tail + after);
    }
  }

  lemma {:induction false} TrimOfSpace(s: string)
    requires AllSpace(s)
    ensures Trim(s) == ""
  {
    TrimStartOfSpace(s);
  }

  lemma {:induction false} TrimStartOfSpace(s: string)
    requires AllSpace(s)
    ensures TrimStart(s) == ""
  {
    if s != "" { TrimStartOfSpace(s[1..]); }
  }
}
