/** The forcing rung of the local-model adapter (`src/chat/chat-local-llm-adapter.ts`) and what it guarantees inside a
    turn: a forced call that lands is always new, so at most one lands per offered tool. */
module ForceAdvance {
  import opened Wrappers
  import opened Sorting
  import opened Chat
  import opened AgentLoop
  import opened AgentLoopGuarantees

  // ----- narrowing the tool set

  datatype Mention = Mention(name: string, at: int)

  datatype Selection = Selection(tools: seq<string>, matchedNames: seq<string>)

  function Mentions(offered: seq<string>, position: string -> int): seq<Mention> {
    if offered == [] then []
    else (if position(offered[0]) >= 0 then [Mention(offered[0], position(offered[0]))] else [])
         + Mentions(offered[1..], position)
  }

  function ByPosition(): (Mention, Mention) -> bool { (a: Mention, b: Mention) => a.at <= b.at }

  function NamesOf(mentions: seq<Mention>): seq<string> {
    if mentions == [] then [] else [mentions[0].name] + NamesOf(mentions[1..])
  }

  /** `selectToolsForAttempt` at level 1: the offered tools that the instruction names, in the order it names them, or
      all of them when it names none or there is nothing to choose. `position` is a tool's place in the instruction. */
  function SelectTools(offered: seq<string>, position: string -> int): Selection {
    var mentioned := NamesOf(Sort(Mentions(offered, position), ByPosition()));
    if |offered| <= 1 || mentioned == [] then Selection(offered, []) else Selection(mentioned, mentioned)
  }

  lemma {:induction false} MentionsAreOffered(offered: seq<string>, position: string -> int)
    ensures forall m :: m in Mentions(offered, position) <==> m.name in offered && position(m.name) >= 0 && m.at == position(m.name)
  {
    if offered != [] {
      MentionsAreOffered(offered[1..], position);
    }
  }

  lemma {:induction false} NamesOfMembers(mentions: seq<Mention>)
    ensures forall n :: n in NamesOf(mentions) <==> exists m :: m in mentions && m.name == n
  {
    if mentions != [] {
      NamesOfMembers(mentions[1..]);
      assert mentions == [mentions[0]] + mentions[1..];
    }
  }

  /** Narrowing offers only offered tools, and the matched names are exactly the offered tools the instruction names,
      unless there is only one tool to offer. */
  lemma SelectionIsOffered(offered: seq<string>, position: string -> int)
    ensures var s := SelectTools(offered, position);
      && (forall n :: n in s.tools ==> n in offered)
      && (forall n :: n in s.matchedNames ==> n in s.tools)
      && (|offered| > 1 ==> forall n :: n in s.matchedNames <==> n in offered && position(n) >= 0)
  {
    var mentions := Mentions(offered, position);
    var sorted := Sort(mentions, ByPosition());
    MentionsAreOffered(offered, position);
    SortKeepsElements(mentions, ByPosition());
    NamesOfMembers(sorted);
    forall m
      ensures m in sorted <==> m in mentions
    {
      assert m in multiset(sorted) <==> m in multiset(mentions);
    }
    forall n | n in offered && position(n) >= 0
      ensures n in NamesOf(sorted)
    {
      assert Mention(n, position(n)) in sorted;
    }
  }

  lemma {:induction false} NamesOfPlaces(mentions: seq<Mention>)
    ensures |NamesOf(mentions)| == |mentions| && forall i :: 0 <= i < |mentions| ==> NamesOf(mentions)[i] == mentions[i].name
  {
    if mentions != [] { NamesOfPlaces(mentions[1..]); }
  }

  lemma SortedMentions(offered: seq<string>, position: string -> int) returns (sorted: seq<Mention>)
    ensures sorted == Sort(Mentions(offered, position), ByPosition()) && SortedBy(sorted, ByPosition())
    ensures forall m :: m in sorted <==> m.name in offered && position(m.name) >= 0 && m.at == position(m.name)
  {
    var mentions := Mentions(offered, position);
    sorted := Sort(mentions, ByPosition());
    MentionsAreOffered(offered, position);
    SortKeepsElements(mentions, ByPosition());
    SortSorts(mentions, ByPosition());
    forall m
      ensures m in sorted <==> m in mentions
    {
      assert m in multiset(sorted) <==> m in multiset(mentions);
    }
  }

  /** The selection narrows when there is a choice and the instruction names some of it: to what it names, in the order in
      which it names them. Otherwise everything stays offered and nothing counts as named. */
  lemma SelectionIsInOrder(offered: seq<string>, position: string -> int)
    ensures var s, named := SelectTools(offered, position), exists n :: n in offered && position(n) >= 0;
      if |offered| > 1 && named
      then s.tools == s.matchedNames != [] && forall i, j :: 0 <= i < j < |s.tools| ==> position(s.tools[i]) <= position(s.tools[j])
      else s.tools == offered && s.matchedNames == []
  {
    var sorted := SortedMentions(offered, position);
    NamesOfPlaces(sorted);
    if n :| n in offered && position(n) >= 0 { assert Mention(n, position(n)) in sorted; }
    if sorted != [] { assert sorted[0] in sorted; }
    forall i, j | 0 <= i < j < |sorted|
      ensures position(sorted[i].name) <= position(sorted[j].name)
    {
      assert sorted[i] in sorted && sorted[j] in sorted && ByPosition()(sorted[i], sorted[j]);
    }
  }

  // ----- the rung

  function Unused(tools: seq<string>, used: set<string>): seq<string> {
    if tools == [] then []
    else (if tools[0] in used then [] else [tools[0]]) + Unused(tools[1..], used)
  }

  /** The set the call is forced from: the named tools not used yet, else any offered tool not used yet, else the named
      ones. */
  function ForceTools(offered: seq<string>, anchored: seq<string>, used: set<string>): seq<string> {
    if Unused(anchored, used) != [] then Unused(anchored, used)
    else if Unused(offered, used) != [] then Unused(offered, used)
    else anchored
  }

  /** What the rung can see. `calls` are the tool calls of the reply so far; `claimed` is the retry cursor's consent;
      `constrains` says that the client can do constrained decoding; `native` that native forcing applies (a reasoning
      model, on the force-advance path or behind its flag). */
  datatype RungInput = RungInput(offered: seq<string>, selection: Selection, used: set<string>, calls: seq<ToolCall>,
                                 force: bool, constrains: bool, claimed: bool, reasoningModel: bool, nativeFlag: bool)

  /** The model's answers to the two forcing requests, in the order the client lists them. */
  datatype ForcedAnswers = ForcedAnswers(native: seq<string> -> seq<ToolCall>, constrained: seq<string> -> seq<ToolCall>)

  predicate RungFires(x: RungInput) {
    var hasFreshCall := exists i | 0 <= i < |x.calls| :: x.calls[i].name !in x.used;
    x.constrains && (x.calls == [] || (x.force && !hasFreshCall)) && x.claimed
  }

  predicate AnchorGuards(x: RungInput) {
    if x.force then Unused(x.offered, x.used) != []
    else x.selection.matchedNames != [] && Unused(x.selection.tools, x.used) != []
  }

  /** The first call that names one of the tools it was asked to choose from: off-menu native calls are dropped by the
      client, and the constrained reply's parser skips objects that name no known tool. */
  function FirstOnMenu(calls: seq<ToolCall>, menu: seq<string>): Option<ToolCall> {
    if calls == [] then None
    else if calls[0].name in menu then Some(calls[0])
    else FirstOnMenu(calls[1..], menu)
  }

  /** The call the rung substitutes for the reply, if it lands one. */
  function ForcedCall(x: RungInput, answers: ForcedAnswers): Option<ToolCall> {
    var tools := ForceTools(x.offered, x.selection.tools, x.used);
    if !RungFires(x) || tools == [] || !AnchorGuards(x) then None
    else
      var menu := if x.force then [tools[0]] else tools;
      var native := if x.reasoningModel && (x.force || x.nativeFlag) then FirstOnMenu(answers.native(menu), menu) else None;
      if native.Some? then native else FirstOnMenu(answers.constrained(tools), tools)
  }

  lemma {:induction false} UnusedMembers(tools: seq<string>, used: set<string>)
    ensures forall n :: n in Unused(tools, used) <==> n in tools && n !in used
  {
    if tools != [] { UnusedMembers(tools[1..], used); }
  }

  lemma {:induction false} OnMenu(calls: seq<ToolCall>, menu: seq<string>)
    ensures FirstOnMenu(calls, menu).Some? ==> FirstOnMenu(calls, menu).value.name in menu
    ensures FirstOnMenu(calls, menu).None? <==> forall c :: c in calls ==> c.name !in menu
  {
    if calls != [] { OnMenu(calls[1..], menu); }
  }

  /** On the force-advance path the forced set is disjoint from the used names: whatever the model answers, a call that
      lands names an offered tool that has not been used. */
  lemma ForcedCallIsFresh(x: RungInput, position: string -> int, answers: ForcedAnswers)
    requires x.selection == SelectTools(x.offered, position)
    requires x.force && ForcedCall(x, answers).Some?
    ensures ForcedCall(x, answers).value.name in x.offered && ForcedCall(x, answers).value.name !in x.used
  {
    var tools := ForceTools(x.offered, x.selection.tools, x.used);
    SelectionIsOffered(x.offered, position);
    UnusedMembers(x.selection.tools, x.used);
    UnusedMembers(x.offered, x.used);
    assert Unused(x.offered, x.used) != [] && Unused(x.offered, x.used)[0] in Unused(x.offered, x.used);
    assert forall n :: n in tools ==> n in x.offered && n !in x.used;
    OnMenu(answers.native([tools[0]]), [tools[0]]);
    OnMenu(answers.constrained(tools), tools);
  }

  /** Without a force request, a call is only ever substituted for an empty reply, and it names a tool that the
      instruction names and that has not been used: a prose answer to anything else is left alone. */
  lemma PlainForcingIsAnchored(x: RungInput, position: string -> int, answers: ForcedAnswers)
    requires x.selection == SelectTools(x.offered, position)
    requires !x.force && ForcedCall(x, answers).Some?
    ensures x.calls == []
    ensures ForcedCall(x, answers).value.name in x.selection.matchedNames && ForcedCall(x, answers).value.name !in x.used
  {
    var tools := ForceTools(x.offered, x.selection.tools, x.used);
    UnusedMembers(x.selection.tools, x.used);
    OnMenu(answers.native(tools), tools);
    OnMenu(answers.constrained(tools), tools);
  }

  /** A reply that already carries a fresh call is never overridden. */
  lemma FreshCallIsKept(x: RungInput, answers: ForcedAnswers, i: nat)
    requires i < |x.calls| && x.calls[i].name !in x.used
    ensures ForcedCall(x, answers).None?
  {
  }

  /** The call is the first of the list that names a tool of the menu. */
  ghost predicate FirstOf(calls: seq<ToolCall>, menu: seq<string>, c: ToolCall) {
    exists i :: 0 <= i < |calls| && calls[i] == c && c.name in menu && forall j :: 0 <= j < i ==> calls[j].name !in menu
  }

  lemma {:induction false} FirstOnMenuIsFirst(calls: seq<ToolCall>, menu: seq<string>)
    ensures match FirstOnMenu(calls, menu)
      case Some(c) => FirstOf(calls, menu, c)
      case None => forall c :: c in calls ==> c.name !in menu
  {
    if calls != [] && calls[0].name !in menu {
      FirstOnMenuIsFirst(calls[1..], menu);
      if FirstOnMenu(calls, menu).Some? {
        var i :| 0 <= i < |calls[1..]| && calls[1..][i] == FirstOnMenu(calls, menu).value
                 && forall j :: 0 <= j < i ==> calls[1..][j].name !in menu;
        assert calls[i + 1] == calls[1..][i];
        assert forall j :: 1 <= j < i + 1 ==> calls[j] == calls[1..][j - 1];
      }
    }
  }

  /** Some of the tools has not been used. */
  predicate SomeLeft(tools: seq<string>, used: set<string>) { exists n | n in tools :: n !in used }

  /** When a call may be forced: the client can constrain its decoding, the retry is granted, the reply has no call, or on
      the force-advance path none of an unused tool, and there is an unused tool: an offered one on that path, and
      otherwise one that the instruction names. */
  predicate MayForce(x: RungInput) {
    && x.constrains && x.claimed
    && (x.calls == [] || (x.force && forall c | c in x.calls :: c.name in x.used))
    && (if x.force then SomeLeft(x.offered, x.used) else x.selection.matchedNames != [] && SomeLeft(x.selection.tools, x.used))
  }

  lemma LeftMeansUnused(tools: seq<string>, used: set<string>)
    ensures SomeLeft(tools, used) <==> Unused(tools, used) != []
  {
    UnusedMembers(tools, used);
    if Unused(tools, used) != [] { assert Unused(tools, used)[0] in Unused(tools, used); }
  }

  /** The tools to force from are the unused ones that the instruction names, in the order it names them, or else the unused
      ones that are offered; the first is the first of those not used. */
  lemma ForcesTheUnused(x: RungInput)
    requires SomeLeft(x.offered, x.used) || SomeLeft(x.selection.tools, x.used)
    ensures var tools := ForceTools(x.offered, x.selection.tools, x.used);
      var from := if SomeLeft(x.selection.tools, x.used) then x.selection.tools else x.offered;
      && (forall n :: n in tools <==> n in from && n !in x.used)
      && tools != [] && exists k :: 0 <= k < |from| && from[k] == tools[0] && forall j :: 0 <= j < k ==> from[j] in x.used
  {
    LeftMeansUnused(x.offered, x.used);
    LeftMeansUnused(x.selection.tools, x.used);
    UnusedMembers(x.offered, x.used);
    UnusedMembers(x.selection.tools, x.used);
    FirstUnused(if SomeLeft(x.selection.tools, x.used) then x.selection.tools else x.offered, x.used);
  }

  lemma {:induction false} FirstUnused(tools: seq<string>, used: set<string>)
    requires Unused(tools, used) != []
    ensures exists k :: 0 <= k < |tools| && tools[k] == Unused(tools, used)[0] && forall j :: 0 <= j < k ==> tools[j] in used
  {
    if tools[0] in used {
      FirstUnused(tools[1..], used);
      var k :| 0 <= k < |tools[1..]| && tools[1..][k] == Unused(tools[1..], used)[0] && forall j :: 0 <= j < k ==> tools[1..][j] in used;
      assert tools[k + 1] == tools[1..][k];
      assert forall j :: 1 <= j < k + 1 ==> tools[j] == tools[1..][j - 1];
    }
  }

  /** Whether the model is asked to call natively before it is asked under constraints. */
  predicate AsksNatively(x: RungInput) { x.reasoningModel && (x.force || x.nativeFlag) }

  /** A call lands exactly when one may be forced and the model answers on the menu; it is the first such call, of the
      native answer if that has one, and else of the constrained one. On the force-advance path the native menu is the
      first tool alone. */
  lemma ForcedCallLandsIff(x: RungInput, answers: ForcedAnswers)
    ensures var tools := ForceTools(x.offered, x.selection.tools, x.used);
      var menu := if x.force && tools != [] then [tools[0]] else tools;
      var native, constrained := answers.native(menu), answers.constrained(tools);
      match ForcedCall(x, answers)
      case None => !MayForce(x) || ((AsksNatively(x) ==> forall c :: c in native ==> c.name !in menu)
                                    && forall c :: c in constrained ==> c.name !in tools)
      case Some(c) =>
        && MayForce(x)
        && if AsksNatively(x) && exists n :: n in native && n.name in menu then FirstOf(native, menu, c)
           else FirstOf(constrained, tools, c)
  {
    var tools := ForceTools(x.offered, x.selection.tools, x.used);
    var menu := if x.force && tools != [] then [tools[0]] else tools;
    LeftMeansUnused(x.offered, x.used);
    LeftMeansUnused(x.selection.tools, x.used);
    FirstOnMenuIsFirst(answers.native(menu), menu);
    FirstOnMenuIsFirst(answers.constrained(tools), tools);
    assert RungFires(x) && AnchorGuards(x) <==> MayForce(x);
  }

  // ----- inside a turn

  /** A reply to a force request that is one call, of an offered tool that the request does not list as used. */
  predicate Landed(e: Event, offered: set<string>) {
    e.Asked? && e.request.force && e.request.used.Some? && |e.response.toolCalls| == 1
    && e.response.toolCalls[0].name in offered && e.response.toolCalls[0].name !in e.request.used.value
  }

  function LandedCount(t: seq<Event>, offered: set<string>): nat {
    if t == [] then 0 else LandedCount(t[..|t| - 1], offered) + if Landed(t[|t| - 1], offered) then 1 else 0
  }

  function UsedAmong(used: seq<string>, offered: set<string>): set<string> { set n | n in used && n in offered }

  lemma {:induction false} UnusedNameIsNewCall(steps: seq<ToolStep>, name: string)
    ensures name in Names(steps) <==> exists i :: 0 <= i < |steps| && steps[i].call.name == name
  {
    if steps != [] {
      var n := |steps| - 1;
      UnusedNameIsNewCall(steps[..n], name);
      if steps[n].call.name == name {
        assert name in Names(steps);
      } else if i :| 0 <= i < |steps| && steps[i].call.name == name {
        assert steps[..n][i].call.name == name;
      }
    }
  }

  /** A landed call is never de-duplicated: its tool has not run, so its fingerprint is new. */
  lemma LandedCallRuns(env: Environment, st: State, r: Response)
    requires Books(env, st) && |r.toolCalls| == 1 && r.toolCalls[0].name !in st.used
    ensures NewCalls(env, st, r) == 1
    ensures Apply(env, st, r).used == st.used + [r.toolCalls[0].name]
  {
    var c := r.toolCalls[0];
    UnusedNameIsNewCall(st.steps, c.name);
    assert FingerprintOf(c) !in st.fingerprints;
    assert r.toolCalls[..0] == [];
    assert Execute(env, st, []) == (st, []);
  }

  lemma {:induction false} ExecuteLands(env: Environment, st: State, calls: seq<ToolCall>, offered: set<string>)
    ensures LandedCount(Execute(env, st, calls).0.trace, offered) == LandedCount(st.trace, offered)
    ensures st.used <= Execute(env, st, calls).0.used
  {
    if calls != [] {
      ExecuteLands(env, st, calls[..|calls| - 1], offered);
      var before := Execute(env, st, calls[..|calls| - 1]).0;
      var c := calls[|calls| - 1];
      Snoc(before.trace, ToolRun(c, env.executeTool(before.trace, c)));
    }
  }

  lemma UsedGrows(a: seq<string>, b: seq<string>, offered: set<string>)
    requires a <= b
    ensures |UsedAmong(a, offered)| <= |UsedAmong(b, offered)| <= |offered|
  {
    assert UsedAmong(a, offered) <= UsedAmong(b, offered) <= offered by {
      assert forall n :: n in a ==> n in b;
    }
    SubsetSize(UsedAmong(a, offered), UsedAmong(b, offered));
    SubsetSize(UsedAmong(b, offered), offered);
  }

  lemma SubsetSize(a: set<string>, b: set<string>)
    requires a <= b
    ensures |a| <= |b|
  {
    assert b == a + (b - a);
  }

  ghost predicate LandedWithin(st: State, offered: set<string>) {
    LandedCount(st.trace, offered) <= |UsedAmong(st.used, offered)|
  }

  lemma AskLands(env: Environment, st: State, allowTools: bool, offered: set<string>)
    ensures LandedCount(Ask(env, st, allowTools, false).trace, offered) == LandedCount(st.trace, offered)
  {
    Snoc(st.trace, Asked(RequestFor(env, st, allowTools, false), Reply(env, st, allowTools, false)));
  }

  lemma SteerLands(env: Environment, st: State, offered: set<string>)
    ensures LandedCount(Steer(env, st).trace, offered) == LandedCount(st.trace, offered)
    ensures LandedCount(Close(st).trace, offered) == LandedCount(st.trace, offered)
  {
    Snoc(st.trace, Polled(PolledBatch(env, st)));
    Snoc(st.trace, Closed);
  }

  lemma ForceLands(env: Environment, st: State, iteration: nat, offered: set<string>)
    requires Books(env, st) && LandedWithin(st, offered)
    requires env.assess.Some? && !env.assess.value(st.steps)
    ensures LandedWithin(ForceAdvance(env, st, iteration), offered)
  {
    var forced, asked := Reply(env, st, true, true), Ask(env, st, true, true);
    var e := Asked(RequestFor(env, st, true, true), forced);
    Snoc(st.trace, e);
    AskKeepsBooks(env, st, true, true);
    ExecuteLands(env, asked, forced.toolCalls, offered);
    UsedGrows(st.used, Apply(env, asked, forced).used, offered);
    if Landed(e, offered) {
      LandedCallRuns(env, asked, forced);
      assert UsedAmong(Apply(env, asked, forced).used, offered) == UsedAmong(st.used, offered) + {forced.toolCalls[0].name};
    }
  }

  lemma ConcludeLands(env: Environment, st: State, hitLimit: bool, n: nat, offered: set<string>)
    requires LandedWithin(st, offered)
    ensures LandedWithin(Conclude(env, Steer(env, st), hitLimit, n).state, offered)
  {
    var steered := Steer(env, st);
    SteerLands(env, st, offered);
    SteerLands(env, steered, offered);
    AskLands(env, Close(steered), false, offered);
  }

  lemma AnswerLands(env: Environment, st: State, r: Response, n: nat, offered: set<string>)
    requires LandedWithin(st, offered)
    ensures LandedWithin(Answer(env, st, r, n).state, offered)
  {
    ConcludeLands(env, st, false, n, offered);
    SteerLands(env, st, offered);
    SteerLands(env, Steer(env, st), offered);
  }

  lemma AppliedLands(env: Environment, asked: State, r: Response, offered: set<string>)
    requires Books(env, asked) && LandedWithin(asked, offered)
    ensures Books(env, Apply(env, asked, r)) && LandedWithin(Apply(env, asked, r), offered)
  {
    ExecuteLands(env, asked, r.toolCalls, offered);
    UsedGrows(asked.used, Apply(env, asked, r).used, offered);
    ApplyKeepsBooks(env, asked, r);
  }

  lemma AfterReplyLands(env: Environment, asked: State, r: Response, iteration: nat, max: nat, offered: set<string>)
    requires Books(env, asked) && LandedWithin(asked, offered)
    ensures LandedWithin(StateOf(AfterReply(env, asked, r, iteration, max)), offered)
  {
    var applied := Apply(env, asked, r);
    if r.toolCalls == [] {
      AnswerLands(env, asked, r, iteration + 1, offered);
    } else {
      AppliedLands(env, asked, r, offered);
      if CanStillMakeProgress(env, applied, iteration, max) {
        ForceLands(env, applied, iteration, offered);
      } else {
        ConcludeLands(env, applied, false, iteration + 1, offered);
      }
    }
  }

  lemma {:induction false} LoopLands(env: Environment, st: State, iteration: nat, max: nat, offered: set<string>)
    requires iteration <= max && Books(env, st) && LandedWithin(st, offered)
    ensures LandedWithin(LoopFrom(env, st, iteration, max).state, offered)
    decreases max - iteration
  {
    var steered := Steer(env, st);
    SteerLands(env, st, offered);
    if iteration == max {
      ConcludeLands(env, st, true, max, offered);
    } else {
      SteerKeepsBooks(env, st);
      AskKeepsBooks(env, steered, true, false);
      AskLands(env, steered, true, offered);
      AfterReplyLands(env, Ask(env, steered, true, false), Reply(env, steered, true, false), iteration, max, offered);
      IterationSplits(env, st, iteration, max);
      IterationKeepsBooks(env, st, iteration, max);
      if Iteration(env, st, iteration, max).Continue? {
        LoopLands(env, Iteration(env, st, iteration, max).state, iteration + 1, max, offered);
      }
    }
  }

  /** Forcing makes progress and stops by itself: in any turn, at most one forced call lands per offered tool. */
  lemma AtMostOneLandedCallPerTool(env: Environment, messages: seq<Message>, maxIterations: Option<int>, offered: set<string>)
    ensures LandedCount(Loop(env, messages, maxIterations).state.trace, offered) <= |offered|
  {
    var st := Start(messages);
    assert Books(env, st);
    LoopLands(env, st, 0, MaxIterations(maxIterations), offered);
    var used := Loop(env, messages, maxIterations).state.used;
    UsedGrows(used, used, offered);
  }
}
