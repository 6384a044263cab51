/** The governed tool executor of one turn (`createGatedChatToolExecutor` in `src/chat/chat-tool-executor.ts`): argument
    repair, the taint gate, the execution-mode gate, grants and confirmations, the audit trail and the taint window. */
module Executor {
  import opened Wrappers
  import opened Text
  import opened Chat
  import opened Store = SessionStore
  import opened CapabilityGate

  /** `taintFromResult` returns None when it throws. */
  datatype Tool = Tool(name: string, action: Action, taint: seq<TaintLabel>,
                       taintFromResult: Option<(string, Args) -> Option<seq<TaintLabel>>>)

  datatype Assessment = Dispatch(args: Args) | Refuse(detail: string)

  /** How the executor is wired. `assess` repairs the arguments of a call (the identity where no schema is declared),
      `describe` builds the audit detail, `hostOf` reads the host of a URL. */
  datatype Config = Config(mode: Mode, tools: seq<Tool>, brokerEnabled: bool, grantsEnabled: bool, canConfirm: bool,
                           ttl: int, assess: (string, Args) -> Assessment,
                           describe: (string, Args) -> Option<string>, hostOf: string -> Option<string>)

  /** A call and what the world answers: the user's decision if asked, the clock before and after asking, and what the
      tool returns if run. */
  datatype Request = Request(call: ToolCall, now: int, approves: bool, approvedAt: int, output: string)

  datatype Reply =
    | UnknownTool(name: string)
    | InvalidArguments(name: string, detail: string)
    | BrokerDenied(sink: Sink)
    | Denied
    | AwaitingConfirmation
    | Output(content: string)

  datatype Audit = Audit(action: Action, decision: Decision, confirmed: bool, executed: bool, detail: Option<string>)

  datatype EgressTarget = Url(text: string) | Search(text: string) | Unnamed
  datatype Attempt = Attempt(tool: string, target: EgressTarget, entry: Audit)

  /** A tool that ran, with which arguments and on which scope. */
  datatype Ran = Ran(tool: string, args: Args, action: Action, key: string, confirmed: bool, detail: Option<string>)

  datatype State = State(taint: seq<TaintLabel>, grants: map<string, int>, audits: seq<Audit>, attempts: seq<Attempt>,
                         windows: seq<seq<TaintLabel>>, runs: seq<Ran>)

  function FindTool(tools: seq<Tool>, name: string): Option<Tool> {
    if tools == [] then None
    else if tools[0].name == name then Some(tools[0])
    else FindTool(tools[1..], name)
  }

  function TargetOf(tool: string, args: Args): EgressTarget {
    if tool == "browse_url" && TextArg(args, "url").Some? then Url(TextArg(args, "url").value)
    else if tool == "web_search" && TextArg(args, "query").Some? then Search(TextArg(args, "query").value)
    else Unnamed
  }

  function OutputTaint(tool: Tool, content: string, args: Args): seq<TaintLabel> {
    if tool.taintFromResult.None? then tool.taint
    else match tool.taintFromResult.value(content, args)
      case Some(labels) => PropagateTaint(tool.taint, labels)
      case None => tool.taint
  }

  // ----- one call

  /** A call that names a known tool with usable arguments reaches the gates. */
  datatype Gated = Gated(tool: Tool, args: Args)

  function Reaches(cfg: Config, r: Request): Option<Gated> {
    match FindTool(cfg.tools, r.call.name)
    case None => None
    case Some(tool) =>
      match cfg.assess(r.call.name, r.call.arguments)
      case Refuse(_) => None
      case Dispatch(args) => Some(Gated(tool, args))
  }

  function KeyOf(cfg: Config, g: Gated): string { ScopeKey(g.tool.action, g.tool.name, g.args, cfg.hostOf) }

  predicate Covers(grants: map<string, int>, key: string, now: int) { key in grants && now < grants[key] }

  /** The broker's refusal, if any. */
  function Refused(cfg: Config, s: State, g: Gated): Option<Sink> {
    if cfg.brokerEnabled then Refusal(ManifestFor(g.tool.action), s.taint) else None
  }

  function DecisionFor(cfg: Config, s: State, g: Gated): Decision {
    if Refused(cfg, s, g).Some? then Deny else Access(ManifestFor(g.tool.action), cfg.mode)
  }

  predicate Covered(cfg: Config, s: State, r: Request, g: Gated) {
    cfg.grantsEnabled && Covers(s.grants, KeyOf(cfg, g), r.now)
  }

  /** The user was asked about this very call and agreed. */
  predicate FreshlyConfirmed(cfg: Config, s: State, r: Request, g: Gated) {
    DecisionFor(cfg, s, g).Confirm? && !Covered(cfg, s, r, g) && cfg.canConfirm && r.approves
  }

  predicate Confirmed(cfg: Config, s: State, r: Request, g: Gated) {
    DecisionFor(cfg, s, g).Confirm? && (Covered(cfg, s, r, g) || FreshlyConfirmed(cfg, s, r, g))
  }

  predicate Executes(cfg: Config, s: State, r: Request, g: Gated) {
    DecisionFor(cfg, s, g).Allow? || Confirmed(cfg, s, r, g)
  }

  function AuditOf(cfg: Config, s: State, r: Request, g: Gated): Audit {
    Audit(g.tool.action, DecisionFor(cfg, s, g), Confirmed(cfg, s, r, g), Executes(cfg, s, r, g),
          cfg.describe(g.tool.name, g.args))
  }

  function NewGrants(cfg: Config, s: State, r: Request, g: Gated): map<string, int> {
    if cfg.grantsEnabled && FreshlyConfirmed(cfg, s, r, g)
    then s.grants[KeyOf(cfg, g) := r.approvedAt + if cfg.ttl < 0 then 0 else cfg.ttl]
    else s.grants
  }

  function Folds(cfg: Config, s: State, r: Request, g: Gated): seq<TaintLabel> {
    if cfg.brokerEnabled && Executes(cfg, s, r, g) then OutputTaint(g.tool, r.output, g.args) else []
  }

  function NewTaint(cfg: Config, s: State, r: Request, g: Gated): seq<TaintLabel> {
    if Folds(cfg, s, r, g) == [] then s.taint else PropagateTaint(s.taint, Folds(cfg, s, r, g))
  }

  function AfterGates(cfg: Config, s: State, r: Request, g: Gated): State {
    var audit := AuditOf(cfg, s, r, g);
    State(NewTaint(cfg, s, r, g), NewGrants(cfg, s, r, g), s.audits + [audit],
          s.attempts + (if g.tool.action.EgressRead? then [Attempt(g.tool.name, TargetOf(g.tool.name, g.args), audit)] else []),
          s.windows + (if Folds(cfg, s, r, g) == [] then [] else [NewTaint(cfg, s, r, g)]),
          s.runs + (if audit.executed then [Ran(g.tool.name, g.args, g.tool.action, KeyOf(cfg, g), audit.confirmed, audit.detail)] else []))
  }

  function Apply(cfg: Config, s: State, r: Request): State {
    match Reaches(cfg, r)
    case None => s
    case Some(g) => AfterGates(cfg, s, r, g)
  }

  function ReplyTo(cfg: Config, s: State, r: Request): Reply {
    match FindTool(cfg.tools, r.call.name)
    case None => UnknownTool(r.call.name)
    case Some(tool) =>
      match cfg.assess(r.call.name, r.call.arguments)
      case Refuse(detail) => InvalidArguments(r.call.name, detail)
      case Dispatch(args) =>
        var g := Gated(tool, args);
        match Refused(cfg, s, g)
        case Some(sink) => BrokerDenied(sink)
        case None =>
          if Executes(cfg, s, r, g) then Output(r.output)
          else if DecisionFor(cfg, s, g).Confirm? then AwaitingConfirmation
          else Denied
  }

  // ----- the executor

  /** The session's grants, each with the instant it expires. */
  class GrantStore {
    var entries: map<string, int>

    constructor ()
      ensures entries == map[]
    {
      entries := map[];
    }

    predicate HasGrant(key: string, now: int)
      reads this
    {
      Covers(entries, key, now)
    }

    method Record(key: string, now: int, ttl: int)
      modifies this
      ensures entries == old(entries)[key := now + if ttl < 0 then 0 else ttl]
    {
      entries := entries[key := now + if ttl < 0 then 0 else ttl];
    }

    method Revoke(key: string) returns (applied: bool)
      modifies this
      ensures entries == old(entries) - {key} && applied == (key in old(entries))
    {
      applied := key in entries;
      entries := entries - {key};
    }
  }

  class GatedExecutor {
    const cfg: Config
    const grants: GrantStore
    var taint: seq<TaintLabel>
    var audits: seq<Audit>
    var attempts: seq<Attempt>
    var windows: seq<seq<TaintLabel>>
    ghost var runs: seq<Ran>

    ghost function Now(): State
      reads this, grants
    {
      State(taint, grants.entries, audits, attempts, windows, runs)
    }

    constructor (cfg: Config, grants: GrantStore, initialTaint: seq<TaintLabel>)
      ensures this.cfg == cfg && this.grants == grants
      ensures Now() == State(initialTaint, grants.entries, [], [], [], [])
    {
      this.cfg, this.grants := cfg, grants;
      taint, audits, attempts, windows, runs := initialTaint, [], [], [], [];
    }

    method RecordAudit(g: Gated, decision: Decision, confirmed: bool, executed: bool)
      modifies this`audits, this`attempts
      ensures var audit := Audit(g.tool.action, decision, confirmed, executed, cfg.describe(g.tool.name, g.args));
        && audits == old(audits) + [audit]
        && attempts == old(attempts)
             + (if g.tool.action.EgressRead? then [Attempt(g.tool.name, TargetOf(g.tool.name, g.args), audit)] else [])
    {
      var audit := Audit(g.tool.action, decision, confirmed, executed, cfg.describe(g.tool.name, g.args));
      audits := audits + [audit];
      if g.tool.action.EgressRead? {
        attempts := attempts + [Attempt(g.tool.name, TargetOf(g.tool.name, g.args), audit)];
      }
    }

    /** The confirm branch: a grant for exactly this scope, or a fresh confirmation, which records one. */
    method Obtain(r: Request, g: Gated) returns (confirmed: bool)
      requires DecisionFor(cfg, Now(), g).Confirm?
      modifies grants
      ensures confirmed == old(Confirmed(cfg, Now(), r, g))
      ensures grants.entries == old(NewGrants(cfg, Now(), r, g))
    {
      var key := KeyOf(cfg, g);
      var covered := cfg.grantsEnabled && grants.HasGrant(key, r.now);
      confirmed := covered || (cfg.canConfirm && r.approves);
      if confirmed && !covered && cfg.grantsEnabled {
        grants.Record(key, r.approvedAt, cfg.ttl);
      }
    }

    method Execute(r: Request) returns (reply: Reply)
      modifies this, grants
      ensures Now() == old(Apply(cfg, Now(), r))
      ensures reply == old(ReplyTo(cfg, Now(), r))
    {
      var found := FindTool(cfg.tools, r.call.name);
      if found.None? {
        return UnknownTool(r.call.name);
      }
      var assessment := cfg.assess(r.call.name, r.call.arguments);
      if assessment.Refuse? {
        return InvalidArguments(r.call.name, assessment.detail);
      }
      reply := RunGates(r, Gated(found.value, assessment.args));
    }

    method RunGates(r: Request, g: Gated) returns (reply: Reply)
      requires Reaches(cfg, r) == Some(g)
      modifies this, grants
      ensures Now() == old(AfterGates(cfg, Now(), r, g))
      ensures reply == old(ReplyTo(cfg, Now(), r))
    {
      ghost var s := Now();
      if cfg.brokerEnabled {
        var refused := DecideBrokerGate(ManifestFor(g.tool.action), taint);
        if refused.Some? {
          RecordAudit(g, Deny, false, false);
          assert Now() == AfterGates(cfg, s, r, g);
          return BrokerDenied(refused.value);
        }
      }
      var decision := Access(ManifestFor(g.tool.action), cfg.mode);
      assert decision == DecisionFor(cfg, s, g);
      var confirmed := false;
      var executed := false;
      if decision.Deny? {
        reply := Denied;
      } else if decision.Confirm? {
        confirmed := Obtain(r, g);
        executed := confirmed;
        reply := if confirmed then Output(r.output) else AwaitingConfirmation;
      } else {
        executed := true;
        reply := Output(r.output);
      }
      Finish(r, g, decision, confirmed, executed, s);
    }

    /** The tail of a call: audit, egress record, taint fold. `s` is the state the call started in. */
    method Finish(r: Request, g: Gated, decision: Decision, confirmed: bool, executed: bool, ghost s: State)
      requires Now() == s.(grants := NewGrants(cfg, s, r, g))
      requires decision == DecisionFor(cfg, s, g) && confirmed == Confirmed(cfg, s, r, g) && executed == Executes(cfg, s, r, g)
      modifies this
      ensures Now() == AfterGates(cfg, s, r, g)
    {
      if executed {
        runs := runs + [Ran(g.tool.name, g.args, g.tool.action, KeyOf(cfg, g), confirmed, cfg.describe(g.tool.name, g.args))];
      }
      RecordAudit(g, decision, confirmed, executed);
      var output := if executed then OutputTaint(g.tool, r.output, g.args) else [];
      if cfg.brokerEnabled && |output| > 0 {
        taint := PropagateTaint(taint, output);
        windows := windows + [taint];
      }
    }
  }
}
