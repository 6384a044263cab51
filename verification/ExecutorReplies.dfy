/** What each tool call is answered, what it runs, what it leaves behind, and whose approval it goes back to, told by the
    call's own arguments and by the policy on actions. */
module ExecutorReplies {
  import opened Wrappers
  import opened Text
  import opened Chat
  import opened Store = SessionStore
  import Facts = SessionStoreFacts
  import opened CapabilityGate
  import opened Executor
  import opened ExecutorGuarantees

  // ----- the tool that is called

  /** `tool` is the first of the tools with its name. */
  ghost predicate FirstNamed(tools: seq<Tool>, tool: Tool) {
    exists i :: 0 <= i < |tools| && tools[i] == tool && forall j :: 0 <= j < i ==> tools[j].name != tool.name
  }

  lemma {:induction false} FindToolFindsFirst(tools: seq<Tool>, name: string)
    ensures match FindTool(tools, name)
      case Some(tool) => tool.name == name && FirstNamed(tools, tool)
      case None => forall i :: 0 <= i < |tools| ==> tools[i].name != name
  {
    if tools != [] && tools[0].name != name {
      FindToolFindsFirst(tools[1..], name);
      if FindTool(tools, name).Some? {
        var tool := FindTool(tools, name).value;
        var i :| 0 <= i < |tools[1..]| && tools[1..][i] == tool && forall j :: 0 <= j < i ==> tools[1..][j].name != tool.name;
        assert tools[i + 1] == tool;
        assert forall j :: 1 <= j < i + 1 ==> tools[j] == tools[1..][j - 1];
      } else {
        assert forall i :: 1 <= i < |tools| ==> tools[i] == tools[1..][i - 1];
      }
    }
  }

  /** The call reaches the gates as this tool with these arguments. */
  ghost predicate Calls(cfg: Config, r: Request, tool: Tool, args: Args) {
    tool.name == r.call.name && FirstNamed(cfg.tools, tool) && cfg.assess(r.call.name, r.call.arguments) == Dispatch(args)
  }

  lemma FirstIsUnique(tools: seq<Tool>, a: Tool, b: Tool)
    requires FirstNamed(tools, a) && FirstNamed(tools, b) && a.name == b.name
    ensures a == b
  {
    var i :| 0 <= i < |tools| && tools[i] == a && forall j :: 0 <= j < i ==> tools[j].name != a.name;
    var k :| 0 <= k < |tools| && tools[k] == b && forall j :: 0 <= j < k ==> tools[j].name != b.name;
    assert i == k;
  }

  lemma ReachesMeansCalls(cfg: Config, r: Request, tool: Tool, args: Args)
    ensures Reaches(cfg, r) == Some(Gated(tool, args)) <==> Calls(cfg, r, tool, args)
  {
    FindToolFindsFirst(cfg.tools, r.call.name);
    if Calls(cfg, r, tool, args) && FindTool(cfg.tools, r.call.name).Some? {
      FirstIsUnique(cfg.tools, tool, FindTool(cfg.tools, r.call.name).value);
    }
  }

  // ----- the answer

  /** What the policy says to a call of this action, the broker included. */
  function Verdict(cfg: Config, s: State, a: Action): Decision {
    if cfg.brokerEnabled && IsTainted(s.taint) && IsHost(a) then Deny else ChatActionAccess(cfg.mode, a)
  }

  /** The user has been asked, or had been asked on this key, and agreed. */
  predicate Agreed(cfg: Config, s: State, r: Request, key: string) {
    (cfg.grantsEnabled && key in s.grants && r.now < s.grants[key]) || (cfg.canConfirm && r.approves)
  }

  /** A call of `tool` runs exactly when the policy allows it, or asks for a confirmation and gets it; it is then the tool
      of that name with the dispatched arguments that runs, once, and what it returns is the reply. */
  lemma RunsAsThePolicySays(cfg: Config, s: State, r: Request, tool: Tool, args: Args)
    requires Calls(cfg, r, tool, args)
    ensures var s', key, verdict := Apply(cfg, s, r), ScopeKey(tool.action, tool.name, args, cfg.hostOf), Verdict(cfg, s, tool.action);
      var runs := verdict == Allow || (verdict == Confirm && Agreed(cfg, s, r, key));
      && s'.runs == s.runs + (if runs then [Ran(tool.name, args, tool.action, key, verdict == Confirm, cfg.describe(tool.name, args))] else [])
      && s'.audits == s.audits + [Audit(tool.action, verdict, runs && verdict == Confirm, runs, cfg.describe(tool.name, args))]
      && (ReplyTo(cfg, s, r) == Output(r.output) <==> runs)
      && (ReplyTo(cfg, s, r).BrokerDenied? <==> cfg.brokerEnabled && IsTainted(s.taint) && IsHost(tool.action))
      && (ReplyTo(cfg, s, r) == Denied <==> verdict == Deny && !ReplyTo(cfg, s, r).BrokerDenied?)
      && (ReplyTo(cfg, s, r) == AwaitingConfirmation <==> verdict == Confirm && !runs)
  {
    ReachesMeansCalls(cfg, r, tool, args);
    BrokerGuardsTheHost(tool.action, s.taint);
    ManifestsReproduceThePolicy(tool.action, cfg.mode);
  }

  /** A call that does not reach the gates changes nothing, and is told why. */
  lemma OtherCallsChangeNothing(cfg: Config, s: State, r: Request)
    requires forall tool, args :: !Calls(cfg, r, tool, args)
    ensures Apply(cfg, s, r) == s
    ensures ReplyTo(cfg, s, r) ==
      if forall i :: 0 <= i < |cfg.tools| ==> cfg.tools[i].name != r.call.name then UnknownTool(r.call.name)
      else if cfg.assess(r.call.name, r.call.arguments).Refuse?
      then InvalidArguments(r.call.name, cfg.assess(r.call.name, r.call.arguments).detail)
      else Denied
    ensures cfg.assess(r.call.name, r.call.arguments).Refuse? || forall i :: 0 <= i < |cfg.tools| ==> cfg.tools[i].name != r.call.name
  {
    FindToolFindsFirst(cfg.tools, r.call.name);
    if FindTool(cfg.tools, r.call.name).Some? {
      var tool := FindTool(cfg.tools, r.call.name).value;
      var i :| 0 <= i < |cfg.tools| && cfg.tools[i] == tool;
      assert cfg.tools[i].name == r.call.name;
      match cfg.assess(r.call.name, r.call.arguments)
      case Refuse(_) =>
      case Dispatch(args) => assert Calls(cfg, r, tool, args);
    }
  }

  // ----- the taint that a call brings

  /** The labels that a tool's output carries: its own, and those found in the result, unless looking throws. */
  function Labels(tool: Tool, output: string, args: Args): set<TaintLabel> {
    LabelSet(tool.taint)
    + match tool.taintFromResult
      case None => {}
      case Some(look) => (match look(output, args) case Some(found) => LabelSet(found) case None => {})
  }

  lemma EmptyLabels(labels: seq<TaintLabel>)
    ensures LabelSet(labels) == {} <==> labels == []
  {
    if labels != [] { assert labels[0] in LabelSet(labels); }
  }

  /** A call adds to the window exactly the labels of what it ran, with the broker on, and otherwise nothing. */
  lemma TaintIsWhatIsBrought(cfg: Config, s: State, r: Request, tool: Tool, args: Args)
    requires Calls(cfg, r, tool, args)
    ensures LabelSet(Apply(cfg, s, r).taint) == LabelSet(s.taint)
      + (if cfg.brokerEnabled && |Apply(cfg, s, r).runs| > |s.runs| then Labels(tool, r.output, args) else {})
  {
    ReachesMeansCalls(cfg, r, tool, args);
    var output := OutputTaint(tool, r.output, args);
    if tool.taintFromResult.Some? && tool.taintFromResult.value(r.output, args).Some? {
      Facts.PropagationIsUnion(tool.taint, tool.taintFromResult.value(r.output, args).value);
    }
    assert LabelSet(output) == Labels(tool, r.output, args);
    EmptyLabels(output);
    Facts.PropagationIsUnion(s.taint, output);
  }

  /** Whoever is told of the window is always told its present content. */
  lemma {:induction false} WindowsAreCurrent(cfg: Config, s: State, events: seq<ExecutorGuarantees.Event>)
    requires s.windows != [] ==> s.windows[|s.windows| - 1] == s.taint
    ensures var s' := Run(cfg, s, events); s'.windows != [] ==> s'.windows[|s'.windows| - 1] == s'.taint
    ensures Run(cfg, s, events).taint != s.taint ==> Run(cfg, s, events).windows != []
  {
    if events != [] {
      WindowsAreCurrent(cfg, s, events[..|events| - 1]);
    }
  }

  // ----- the egress log

  /** Every attempt at the network is logged under its tool with what it went for: the address of a page, the words of a
      search, or nothing known. */
  lemma AttemptsSayWhatFor(cfg: Config, s: State, r: Request, tool: Tool, args: Args)
    requires Calls(cfg, r, tool, args) && tool.action.EgressRead?
    ensures var attempts := Apply(cfg, s, r).attempts;
      && |attempts| == |s.attempts| + 1 && s.attempts <= attempts
      && var last := attempts[|s.attempts|];
        && last.tool == r.call.name
        && (forall text :: last.target == Url(text) <==> r.call.name == "browse_url" && Says(args, "url", text))
        && (forall text :: last.target == Search(text) <==> r.call.name == "web_search" && Says(args, "query", text))
  {
    ReachesMeansCalls(cfg, r, tool, args);
  }

  // ----- whose approval

  /** The command that is run, or the tool's name when it names none. */
  ghost predicate CommandIs(tool: Tool, args: Args, text: string) {
    Says(args, "command", text) || (Silent(args, "command") && tool.name == text)
  }

  lemma CommandKey(tool: Tool, args: Args, text: string, hostOf: string -> Option<string>)
    requires tool.action.HostCommand?
    ensures ScopeKey(tool.action, tool.name, args, hostOf) == "host_command:" + text <==> CommandIs(tool, args, text)
  {
    if ScopeKey(tool.action, tool.name, args, hostOf) == "host_command:" + text {
      assert "host_command" + ":" + text == "host_command:" + text;
      SplitAtColon(HostCommand, Rendered(ScopeOf(tool.action, tool.name, args, hostOf)), HostCommand, text);
    }
  }

  /** At event `i` the user approved a host command of this very text, `expiry` being the end of its lifetime, and nobody
      withdrew it since. */
  ghost predicate CommandApprovedAt(cfg: Config, events: seq<ExecutorGuarantees.Event>, text: string, expiry: int, i: nat) {
    && i < |events| && events[i].Call? && KeptSince(events, "host_command:" + text, i + 1)
    && var r := events[i].request;
      && r.approves && expiry == r.approvedAt + (if cfg.ttl < 0 then 0 else cfg.ttl)
      && exists tool, args :: Calls(cfg, r, tool, args) && tool.action.HostCommand? && CommandIs(tool, args, text)
  }

  lemma ApprovedCommand(cfg: Config, s: State, events: seq<ExecutorGuarantees.Event>, text: string, expiry: int, i: nat)
    requires ConfirmedAt(cfg, s, events, "host_command:" + text, expiry, i)
    ensures CommandApprovedAt(cfg, events, text, expiry, i)
  {
    var r := events[i].request;
    var g := Reaches(cfg, r).value;
    ReachesMeansCalls(cfg, r, g.tool, g.args);
    assert "host_command" + ":" + text == "host_command:" + text;
    SplitAtColon(g.tool.action, Rendered(ScopeOf(g.tool.action, g.tool.name, g.args, cfg.hostOf)), HostCommand, text);
    CommandKey(g.tool, g.args, text, cfg.hostOf);
  }

  /** A host command runs only when the user approves it now, or has approved a host command of the very same text, whose
      lifetime is not over and which has not been withdrawn; grants from before the turn apart. */
  lemma HostCommandsGoBackToTheirText(cfg: Config, s: State, events: seq<ExecutorGuarantees.Event>, r: Request, tool: Tool, args: Args, text: string)
    requires Calls(cfg, r, tool, args) && tool.action.HostCommand? && CommandIs(tool, args, text)
    requires "host_command:" + text !in s.grants
    requires var s' := Run(cfg, s, events); |Apply(cfg, s', r).runs| > |s'.runs|
    ensures (cfg.canConfirm && r.approves)
      || exists expiry, i: nat :: r.now < expiry && CommandApprovedAt(cfg, events, text, expiry, i)
  {
    var s' := Run(cfg, s, events);
    var key := ScopeKey(tool.action, tool.name, args, cfg.hostOf);
    CommandKey(tool, args, text, cfg.hostOf);
    RunsAsThePolicySays(cfg, s', r, tool, args);
    if !(cfg.canConfirm && r.approves) {
      EveryGrantHasItsConfirmation(cfg, s, events, key);
      var expiry := s'.grants[key];
      var i: nat :| ConfirmedAt(cfg, s, events, key, expiry, i);
      ApprovedCommand(cfg, s, events, text, expiry, i);
    }
  }

  /** An approval stands: until its key is withdrawn there is a grant for it, whatever else is called. */
  lemma {:induction false} GrantStandsUntilWithdrawn(cfg: Config, s: State, events: seq<ExecutorGuarantees.Event>, key: string)
    requires key in s.grants && KeptSince(events, key, 0)
    ensures key in Run(cfg, s, events).grants
  {
    if events != [] {
      assert !Withdraws(events[|events| - 1], key);
      assert forall j :: 0 <= j < |events| - 1 ==> events[..|events| - 1][j] == events[j];
      GrantStandsUntilWithdrawn(cfg, s, events[..|events| - 1], key);
    }
  }

  /** A call that the user approves leaves a grant for exactly its own key, for the lifetime from the approval on, and one
      that the user is not asked about leaves the grants as they were. */
  lemma ApprovalsAreRecorded(cfg: Config, s: State, r: Request, tool: Tool, args: Args)
    requires Calls(cfg, r, tool, args)
    ensures var key, grants := ScopeKey(tool.action, tool.name, args, cfg.hostOf), Apply(cfg, s, r).grants;
      var asked := Verdict(cfg, s, tool.action) == Confirm && !(cfg.grantsEnabled && key in s.grants && r.now < s.grants[key]);
      grants == if asked && cfg.canConfirm && r.approves && cfg.grantsEnabled
                then s.grants[key := r.approvedAt + if cfg.ttl < 0 then 0 else cfg.ttl] else s.grants
  {
    ReachesMeansCalls(cfg, r, tool, args);
    BrokerGuardsTheHost(tool.action, s.taint);
    ManifestsReproduceThePolicy(tool.action, cfg.mode);
  }
}
