/** What counts as evidence, said of the steps themselves: which tools were called, and which command ended in zero. */
module EvidenceRules {
  import opened Wrappers
  import opened Text
  import opened Chat
  import opened AgentLoop
  import opened AgentLoopGuarantees
  import opened ForceAdvance
  import opened EvidenceGates
  import Sorting

  // ----- the words of a command

  function WordRun(s: string): (n: nat)
    ensures n <= |s| && (forall i :: 0 <= i < n ==> !IsSpace(s[i])) && (n < |s| ==> IsSpace(s[n]))
  {
    if s == "" || IsSpace(s[0]) then 0 else 1 + WordRun(s[1..])
  }

  /** The maximal runs without white space. */
  function Words(s: string): seq<string> {
    if s == "" then []
    else if IsSpace(s[0]) then Words(s[1..])
    else [s[..WordRun(s)]] + Words(s[WordRun(s)..])
  }

  /** The words with one space between them. */
  function Spaced(words: seq<string>): string {
    if words == [] then "" else if |words| == 1 then words[0] else words[0] + " " + Spaced(words[1..])
  }

  lemma {:induction false} CollapseOfWord(w: string)
    requires forall i :: 0 <= i < |w| ==> !IsSpace(w[i])
    ensures Collapse(w) == w
  {
    if w != "" { CollapseOfWord(w[1..]); }
  }

  lemma {:induction false} WordsAfterSpace(gap: string, s: string)
    requires AllSpace(gap)
    ensures Words(gap + s) == Words(s)
  {
    if gap == "" {
      assert gap + s == s;
    } else {
      assert (gap + s)[1..] == gap[1..] + s;
      WordsAfterSpace(gap[1..], s);
    }
  }

  lemma {:induction false} RunOf(w: string, s: string)
    requires (forall i :: 0 <= i < |w| ==> !IsSpace(w[i])) && (s != "" ==> IsSpace(s[0]))
    ensures WordRun(w + s) == |w|
  {
    if w == "" {
      assert w + s == s;
    } else {
      assert (w + s)[1..] == w[1..] + s;
      RunOf(w[1..], s);
    }
  }

  lemma WordsOfWord(w: string, s: string)
    requires w != "" && (forall i :: 0 <= i < |w| ==> !IsSpace(w[i])) && (s != "" ==> IsSpace(s[0]))
    ensures Words(w + s) == [w] + Words(s)
  {
    RunOf(w, s);
    assert (w + s)[..|w|] == w && (w + s)[|w|..] == s;
  }

  lemma GapCollapses(gap: string, rest: string)
    requires gap != "" && AllSpace(gap) && rest != "" && !IsSpace(rest[0])
    ensures Collapse(gap + rest) == " " + Collapse(rest)
  {
    var all := gap + rest;
    RunOfGap(gap, rest);
    assert all[|gap|..] == rest;
  }

  lemma {:induction false} RunOfGap(gap: string, rest: string)
    requires AllSpace(gap) && rest != "" && !IsSpace(rest[0])
    ensures SpaceRun(gap + rest) == |gap|
  {
    if gap == "" {
      assert gap + rest == rest;
    } else {
      assert (gap + rest)[1..] == gap[1..] + rest;
      RunOfGap(gap[1..], rest);
    }
  }

  /** The first word, the gap behind it, and the rest, which is solid if there is one. */
  lemma FirstWordOf(s: string) returns (w: string, gap: string, rest: string)
    requires Solid(s)
    ensures s == w + (gap + rest) && w != "" && (forall i :: 0 <= i < |w| ==> !IsSpace(w[i]))
    ensures AllSpace(gap) && if rest == "" then gap == "" else gap != "" && Solid(rest) && |rest| < |s|
  {
    var n := WordRun(s);
    w := s[..n];
    if n == |s| {
      gap, rest := "", "";
      assert w + ("" + "") == s;
    } else {
      gap, rest := GapAndRest(s[n..]);
      assert s == w + s[n..];
    }
  }

  lemma GapAndRest(tail: string) returns (gap: string, rest: string)
    requires tail != "" && IsSpace(tail[0]) && !IsSpace(tail[|tail| - 1])
    ensures tail == gap + rest && gap != "" && AllSpace(gap) && Solid(rest) && |rest| < |tail|
  {
    var m := SpaceRun(tail);
    gap, rest := tail[..m], tail[m..];
    assert m < |tail|;
    assert rest[0] == tail[m] && rest[|rest| - 1] == tail[|tail| - 1];
  }

  lemma CollapseOfFirst(w: string, gap: string, rest: string)
    requires w != "" && (forall i :: 0 <= i < |w| ==> !IsSpace(w[i]))
    requires gap != "" && AllSpace(gap) && rest != "" && !IsSpace(rest[0])
    ensures Collapse(w + (gap + rest)) == w + " " + Collapse(rest)
  {
    CollapseOfWord(w);
    WordEnds(w);
    CollapseAppend(w, gap + rest);
    GapCollapses(gap, rest);
  }

  lemma WordEnds(w: string)
    requires w != "" && forall i :: 0 <= i < |w| ==> !IsSpace(w[i])
    ensures !IsSpace(w[|w| - 1])
  {
  }

  lemma WordsOfFirst(w: string, gap: string, rest: string)
    requires w != "" && (forall i :: 0 <= i < |w| ==> !IsSpace(w[i])) && gap != "" && AllSpace(gap)
    ensures Words(w + (gap + rest)) == [w] + Words(rest)
  {
    var tail := gap + rest;
    assert tail[0] == gap[0];
    WordsOfWord(w, tail);
    WordsAfterSpace(gap, rest);
  }

  /** A text without white space at its ends collapses to its words, one space between them. */
  lemma {:induction false} SolidCollapses(s: string)
    requires Solid(s)
    ensures Collapse(s) == Spaced(Words(s)) && Words(s) != []
    decreases |s|
  {
    var w, gap, rest := FirstWordOf(s);
    if rest == "" {
      assert s == w;
      CollapseOfWord(w);
      WordsOfWord(w, "");
      assert w + "" == w && Words("") == [] && [w] + [] == [w];
    } else {
      SolidCollapses(rest);
      CollapseOfFirst(w, gap, rest);
      WordsOfFirst(w, gap, rest);
    }
  }

  lemma {:induction false} WordsBeforeSpace(s: string, gap: string)
    requires AllSpace(gap)
    ensures Words(s + gap) == Words(s)
    decreases |s|
  {
    if s == "" {
      WordsAfterSpace(gap, "");
      assert gap + "" == gap && s + gap == gap;
    } else if IsSpace(s[0]) {
      assert (s + gap)[1..] == s[1..] + gap;
      WordsBeforeSpace(s[1..], gap);
    } else {
      var w, tail := s[..WordRun(s)], s[WordRun(s)..];
      assert s == w + tail;
      WordsBeforeSpace(tail, gap);
      WordThenRest(w, tail, gap);
      WordsOfWord(w, tail);
    }
  }

  lemma WordThenRest(w: string, tail: string, gap: string)
    requires w != "" && (forall i :: 0 <= i < |w| ==> !IsSpace(w[i])) && (tail != "" ==> IsSpace(tail[0])) && AllSpace(gap)
    ensures Words(w + tail + gap) == [w] + Words(tail + gap)
  {
    assert w + tail + gap == w + (tail + gap);
    WordsOfWord(w, tail + gap);
  }

  lemma WordsOfParts(lead: string, core: string, tail: string)
    requires AllSpace(lead) && AllSpace(tail)
    ensures Words(lead + core + tail) == Words(core)
  {
    assert lead + core + tail == lead + (core + tail);
    WordsAfterSpace(lead, core + tail);
    WordsBeforeSpace(core, tail);
  }

  lemma NormalizedParts(lead: string, core: string, tail: string)
    requires Solid(core) && AllSpace(lead) && AllSpace(tail)
    ensures NormalizeCommand(lead + core + tail) == Spaced(Words(lead + core + tail))
  {
    NormalizedCore(lead, core, tail);
    SolidCollapses(core);
    WordsOfParts(lead, core, tail);
  }

  lemma BlankHasNoWords(s: string)
    requires AllSpace(s)
    ensures NormalizeCommand(s) == Spaced(Words(s))
  {
    BlankCommand(s);
    WordsAfterSpace(s, "");
    assert s + "" == s;
  }

  /** Normalising a command leaves its words, with one space between them. */
  lemma NormalizedIsSpaced(command: string)
    ensures NormalizeCommand(command) == Spaced(Words(command))
  {
    var lead, tail := TrimSplits(command);
    var core := Trim(command);
    if core == "" {
      assert command == lead + tail;
      BlankHasNoWords(command);
    } else {
      NormalizedParts(lead, core, tail);
    }
  }

  predicate FoundAt(s: string, needle: string, k: nat) { k + |needle| <= |s| && s[k..k + |needle|] == needle }

  lemma {:induction false} ContainsMeansFound(s: string, needle: string)
    ensures Contains(s, needle) <==> exists k: nat :: FoundAt(s, needle, k)
  {
    if needle <= s {
      assert FoundAt(s, needle, 0);
    } else if s != "" {
      ContainsMeansFound(s[1..], needle);
      if k: nat :| FoundAt(s[1..], needle, k) {
        assert s[1..][k..k + |needle|] == s[k + 1..k + 1 + |needle|];
        assert FoundAt(s, needle, k + 1);
      }
      if k: nat :| FoundAt(s, needle, k) {
        assert k > 0;
        assert s[1..][k - 1..k - 1 + |needle|] == s[k..k + |needle|];
        assert FoundAt(s[1..], needle, k - 1);
      }
    }
  }

  // ----- the evidence

  /** The step ran the command to a zero exit: a shell call whose text holds the command, white space apart, and whose
      output starts as that of a successful command. */
  ghost predicate RanToZero(s: ToolStep, command: string) {
    && s.call.name == "run_command"
    && "command" in s.call.arguments && s.call.arguments["command"].Str?
    && (exists k: nat :: FoundAt(Spaced(Words(s.call.arguments["command"].text)), Spaced(Words(command)), k))
    && "Command exited with code 0." <= s.result.content
  }

  lemma AcceptanceMeansRan(s: ToolStep, command: string)
    ensures IsAcceptanceRun(s, NormalizeCommand(command)) <==> RanToZero(s, command)
  {
    NormalizedIsSpaced(command);
    if "command" in s.call.arguments && s.call.arguments["command"].Str? {
      NormalizedIsSpaced(s.call.arguments["command"].text);
      ContainsMeansFound(NormalizeCommand(s.call.arguments["command"].text), NormalizeCommand(command));
    }
  }

  ghost predicate Called(steps: seq<ToolStep>, tool: string) { exists s :: s in steps && s.call.name == tool }
  ghost predicate Proved(steps: seq<ToolStep>, command: string) { exists s :: s in steps && RanToZero(s, command) }

  lemma ToolsMet(required: seq<string>, steps: seq<ToolStep>)
    ensures NamedToolsGate(required, steps) <==> forall tool :: tool in required ==> Called(steps, tool)
  {
    forall tool
      ensures tool in UsedNames(steps) <==> Called(steps, tool)
    {
    }
    if NamedToolsGate(required, steps) {
      forall tool | tool in required
        ensures Called(steps, tool)
      {
        var i :| 0 <= i < |required| && required[i] == tool;
        assert required[i] in UsedNames(steps);
      }
    }
  }

  lemma CommandMet(command: string, steps: seq<ToolStep>)
    ensures AcceptanceGate(command, steps) <==> Proved(steps, command)
  {
    forall s
      ensures IsAcceptanceRun(s, NormalizeCommand(command)) <==> RanToZero(s, command)
    {
      AcceptanceMeansRan(s, command);
    }
    if s :| s in steps && RanToZero(s, command) {
      var i :| 0 <= i < |steps| && steps[i] == s;
      assert IsAcceptanceRun(steps[i], NormalizeCommand(command));
    }
    if AcceptanceGate(command, steps) {
      var i :| 0 <= i < |steps| && IsAcceptanceRun(steps[i], NormalizeCommand(command));
      assert steps[i] in steps && RanToZero(steps[i], command);
    }
  }

  /** A turn's demands are met exactly when every required tool has been called and the acceptance command, if there is
      one, has run to a zero exit. */
  lemma DemandsMetIff(d: Demands, steps: seq<ToolStep>)
    ensures d.Met(steps) <==>
      && (forall tool :: tool in d.requiredTools ==> Called(steps, tool))
      && (d.acceptanceCommand.Some? ==> Proved(steps, d.acceptanceCommand.value))
  {
    ToolsMet(d.requiredTools, steps);
    if d.acceptanceCommand.Some? { CommandMet(d.acceptanceCommand.value, steps); }
  }

  /** The missing tools are named before the command is; and when nothing is missing nothing is said. */
  lemma WhatIsMissingIsSaid(d: Demands, steps: seq<ToolStep>)
    ensures DescribeMissing(d, steps) ==
      if exists tool :: tool in d.requiredTools && !Called(steps, tool) then Some(ToolsNudge(Unused(d.requiredTools, UsedNames(steps))))
      else if d.acceptanceCommand.Some? && !Proved(steps, d.acceptanceCommand.value) then Some(AcceptanceNudge(d.acceptanceCommand.value))
      else None
  {
    ToolsMet(d.requiredTools, steps);
    if d.acceptanceCommand.Some? { CommandMet(d.acceptanceCommand.value, steps); }
  }

  /** End to end: a turn that stops by itself before its last iteration has called every offered tool that its instruction
      names, when it names two or more, and has run its acceptance command to a zero exit. */
  lemma TurnShowsItsEvidence(env: Environment, offered: seq<string>, position: string -> int, command: Option<string>,
                             messages: seq<Message>, maxIterations: Option<int>, tool: string, other: string)
    requires env.assess == GateOf(DemandsOf(offered, position, command))
    requires var o := Loop(env, messages, maxIterations); !o.hitIterationLimit && o.iterations < MaxIterations(maxIterations)
    ensures var steps := Loop(env, messages, maxIterations).state.steps;
      && (tool != other && tool in offered && position(tool) >= 0 && other in offered && position(other) >= 0 ==> Called(steps, tool))
      && (command.Some? ==> Proved(steps, command.value))
  {
    TurnHasEvidence(env, offered, position, command, messages, maxIterations, tool, other);
    if command.Some? {
      var steps := Loop(env, messages, maxIterations).state.steps;
      var s :| s in steps && IsAcceptanceRun(s, NormalizeCommand(command.value));
      AcceptanceMeansRan(s, command.value);
    }
  }

  // ----- when nothing is required

  lemma {:induction false} OneMention(offered: seq<string>, position: string -> int)
    requires forall i, j :: 0 <= i < j < |offered| ==> offered[i] != offered[j]
    requires forall a, b :: a in offered && position(a) >= 0 && b in offered && position(b) >= 0 ==> a == b
    ensures |Mentions(offered, position)| <= 1
  {
    if offered != [] {
      var rest := offered[1..];
      assert forall i :: 0 <= i < |rest| ==> rest[i] == offered[i + 1];
      assert forall a :: a in rest ==> a in offered;
      OneMention(rest, position);
      if position(offered[0]) >= 0 && Mentions(rest, position) != [] {
        MentionsAreOffered(rest, position);
        var m := Mentions(rest, position)[0];
        assert m in Mentions(rest, position) && offered[0] in offered;
      }
    }
  }

  /** An instruction that names no more than one of the offered tools requires none: an ordinary question is not gated. */
  lemma OneNamedRequiresNothing(offered: seq<string>, position: string -> int)
    requires forall i, j :: 0 <= i < j < |offered| ==> offered[i] != offered[j]
    requires forall a, b :: a in offered && position(a) >= 0 && b in offered && position(b) >= 0 ==> a == b
    ensures RequiredTools(offered, position) == []
  {
    OneMention(offered, position);
    var sorted := SortedMentions(offered, position);
    NamesOfPlaces(sorted);
    Sorting.SortKeepsElements(Mentions(offered, position), ByPosition());
  }
}
