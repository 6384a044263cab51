/** What a chat tool may do: its capability manifest, the execution-mode gate and the taint gate
    (`src/core/tool-capability-manifest.ts`, `src/core/capability-broker-gate.ts`, `src/core/manifest-influence-sink.ts`,
    `src/core/taint-labels.ts`), and the scope key of a grant (`src/core/capability-grants.ts`). */
module CapabilityGate {
  import opened Wrappers
  import opened Text
  import opened Chat
  import opened Store = SessionStore

  datatype Action = SandboxRead | SandboxWrite | ControlPlane | EgressRead | HostRead | HostWrite | HostCommand
  datatype Mode = IsolatedReadonly | SandboxWithHostEscape | Host

  datatype Mutation = Reads | WritesSandbox | WritesBoard | WritesHost
  datatype Network = NoNetwork | Egress | EgressReads
  datatype Files = Workspace | HostFiles
  datatype Approval = Auto | ConfirmTier | RiskAck | TypedHost

  /** What an action can influence; everything but style is a protected sink. */
  datatype Influence = Style | Capabilities | Approvals | NetworkSink | Secrets | GitDelivery | HostAccess

  predicate Protected(i: Influence) { !i.Style? }

  type Sink = i: Influence | Protected(i) witness HostAccess

  datatype Manifest = Manifest(mutation: Mutation, network: Network, files: Files, approval: Approval, declared: seq<Sink>)

  datatype Decision = Allow | Confirm | Deny

  function ManifestFor(a: Action): Manifest {
    match a
    case SandboxRead => Manifest(Reads, NoNetwork, Workspace, Auto, [])
    case SandboxWrite => Manifest(WritesSandbox, NoNetwork, Workspace, ConfirmTier, [])
    case ControlPlane => Manifest(WritesBoard, NoNetwork, Workspace, Auto, [])
    case EgressRead => Manifest(Reads, EgressReads, Workspace, ConfirmTier, [])
    case HostRead => Manifest(Reads, NoNetwork, HostFiles, ConfirmTier, [])
    case HostWrite => Manifest(WritesHost, NoNetwork, HostFiles, ConfirmTier, [])
    case HostCommand => Manifest(WritesHost, NoNetwork, HostFiles, ConfirmTier, [])
  }

  predicate IsHost(a: Action) { a.HostRead? || a.HostWrite? || a.HostCommand? }

  // ----- the execution mode

  function Access(m: Manifest, mode: Mode): Decision {
    var isHost := m.files == HostFiles;
    if m.network != NoNetwork then (if mode.IsolatedReadonly? then Deny else Confirm)
    else if m.mutation == Reads && !isHost then Allow
    else if m.mutation == WritesBoard then (if mode.IsolatedReadonly? then Deny else Allow)
    else if mode.IsolatedReadonly? then (if m.mutation == WritesSandbox then Confirm else Deny)
    else if m.mutation == WritesSandbox then Allow
    else if isHost then (if mode == Host && m.mutation == Reads then Allow else Confirm)
    else Deny
  }

  // ----- the taint gate

  predicate IsUntrusted(l: TaintLabel) { !l.UserTrusted? && !l.RuntimePolicy? }

  predicate IsTainted(labels: seq<TaintLabel>) { exists l :: l in labels && IsUntrusted(l) }

  /** The protected sinks that an action with this manifest lands on, in the order they are looked at. */
  function SinksOf(m: Manifest): seq<Sink> {
    (if m.network == Egress then [NetworkSink] else [])
    + (if m.files == HostFiles || m.mutation == WritesHost then [HostAccess] else [])
    + (if m.approval == TypedHost || m.approval == RiskAck then [Approvals] else [])
    + m.declared
  }

  /** The rule for one influence: style is free, and a protected sink is closed to tainted content without a plan. */
  predicate MayInfluence(influence: Influence, labels: seq<TaintLabel>, backedByTrustedPlan: bool) {
    !Protected(influence) || !IsTainted(labels) || backedByTrustedPlan
  }

  function FirstRefused(sinks: seq<Sink>, labels: seq<TaintLabel>, backedByTrustedPlan: bool): Option<Sink> {
    if sinks == [] then None
    else if !MayInfluence(sinks[0], labels, backedByTrustedPlan) then Some(sinks[0])
    else FirstRefused(sinks[1..], labels, backedByTrustedPlan)
  }

  /** The first sink that the broker refuses; the executor never claims a trusted plan. */
  function Refusal(m: Manifest, labels: seq<TaintLabel>): Option<Sink> { FirstRefused(SinksOf(m), labels, false) }

  method DecideBrokerGate(m: Manifest, labels: seq<TaintLabel>) returns (refused: Option<Sink>)
    ensures refused == Refusal(m, labels)
  {
    var sinks := SinksOf(m);
    for i := 0 to |sinks|
      invariant FirstRefused(sinks[i..], labels, false) == FirstRefused(sinks, labels, false)
    {
      assert sinks[i..][1..] == sinks[i + 1..];
      if !MayInfluence(sinks[i], labels, false) {
        return Some(sinks[i]);
      }
    }
    refused := None;
  }

  /** Every sink is protected, so taint alone decides, and the first sink is the one refused. */
  lemma {:induction false} TaintDecides(sinks: seq<Sink>, labels: seq<TaintLabel>, backedByTrustedPlan: bool)
    ensures FirstRefused(sinks, labels, backedByTrustedPlan)
         == if sinks == [] || !IsTainted(labels) || backedByTrustedPlan then None else Some(sinks[0])
  {
    if sinks != [] { TaintDecides(sinks[1..], labels, backedByTrustedPlan); }
  }

  /** Of the chat's actions the broker refuses exactly the host ones, and exactly once the turn is tainted: pages can
      still be browsed one after the other. */
  lemma BrokerGuardsTheHost(a: Action, labels: seq<TaintLabel>)
    ensures Refusal(ManifestFor(a), labels).Some? <==> IsHost(a) && IsTainted(labels)
  {
    TaintDecides(SinksOf(ManifestFor(a)), labels, false);
  }

  /** More taint never lifts a refusal. */
  lemma RefusalIsAntiMonotone(m: Manifest, fewer: seq<TaintLabel>, more: seq<TaintLabel>)
    requires Refusal(m, fewer).Some? && LabelSet(fewer) <= LabelSet(more)
    ensures Refusal(m, more) == Refusal(m, fewer)
  {
    TaintDecides(SinksOf(m), fewer, false);
    TaintDecides(SinksOf(m), more, false);
    var l :| l in fewer && IsUntrusted(l);
    assert l in LabelSet(more);
  }

  // ----- the scope of a grant

  type Args = map<string, Value>

  function ActionName(a: Action): string {
    match a
    case SandboxRead => "sandbox_read"
    case SandboxWrite => "sandbox_write"
    case ControlPlane => "control_plane"
    case EgressRead => "egress_read"
    case HostRead => "host_read"
    case HostWrite => "host_write"
    case HostCommand => "host_command"
  }

  function TextArg(args: Args, name: string): Option<string> {
    if name in args && args[name].Str? && Trim(args[name].text) != "" then Some(Trim(args[name].text)) else None
  }

  function FirstOf(a: Option<string>, b: Option<string>): Option<string> { if a.Some? then a else b }

  /** What exactly is confirmed; the whole tool when the call names nothing. */
  datatype Scope = Command(text: string) | Path(text: string) | Site(text: string) | Address(text: string)
                 | Query(query: string) | WholeTool(tool: string)

  /** `hostOf` is the host of a URL, None where it does not parse. */
  function ScopeOf(a: Action, tool: string, args: Args, hostOf: string -> Option<string>): Scope {
    match a
    case HostCommand =>
      (match TextArg(args, "command") case Some(command) => Command(command) case None => WholeTool(tool))
    case HostWrite => PathScope(tool, args)
    case HostRead => PathScope(tool, args)
    case SandboxWrite => PathScope(tool, args)
    case EgressRead =>
      (match TextArg(args, "url")
       case Some(url) => (match hostOf(url) case Some(host) => Site(host) case None => Address(url))
       case None => (match TextArg(args, "query") case Some(query) => Query(query) case None => WholeTool(tool)))
    case _ => WholeTool(tool)
  }

  function PathScope(tool: string, args: Args): Scope {
    match FirstOf(FirstOf(TextArg(args, "path"), TextArg(args, "file")), TextArg(args, "target"))
    case Some(path) => Path(path)
    case None => WholeTool(tool)
  }

  function Rendered(s: Scope): string {
    match s
    case Query(query) => "search:" + query
    case WholeTool(tool) => tool
    case _ => s.text
  }

  /** `scopeKeyForChatCall` */
  function ScopeKey(a: Action, tool: string, args: Args, hostOf: string -> Option<string>): string {
    ActionName(a) + ":" + Rendered(ScopeOf(a, tool, args, hostOf))
  }

  lemma NameEndsAtFirstColon(a: Action, s: string)
    ensures var whole := ActionName(a) + ":" + s;
      whole[|ActionName(a)|] == ':' && forall i :: 0 <= i < |ActionName(a)| ==> whole[i] != ':'
  {
    var name := ActionName(a);
    assert forall i :: 0 <= i < |name| ==> (name + ":" + s)[i] == name[i];
  }

  lemma NamesDiffer(a: Action, b: Action)
    requires ActionName(a) == ActionName(b)
    ensures a == b
  {
    var x, y := ActionName(a), ActionName(b);
    assert |x| == |y| && x[0] == y[0] && x[|x| - 1] == y[|y| - 1];
  }

  /** `x` and `y` differ but are written alike: a tool's name, the text `search:…` or a host, met as the other's text. */
  predicate Shadows(x: Scope, y: Scope) {
    match x
    case WholeTool(tool) => !y.WholeTool? && Rendered(y) == tool
    case Query(query) => (y.Site? || y.Address?) && y.text == "search:" + query
    case Site(host) => y == Address(host)
    case _ => false
  }

  /** A grant covers exactly the calls of its own action and scope, and those whose scope is another one written alike:
      nothing else shares a key. */
  lemma KeysAreExact(a: Action, tool: string, args: Args, b: Action, otherTool: string, otherArgs: Args,
                     hostOf: string -> Option<string>)
    ensures var x, y := ScopeOf(a, tool, args, hostOf), ScopeOf(b, otherTool, otherArgs, hostOf);
      ScopeKey(a, tool, args, hostOf) == ScopeKey(b, otherTool, otherArgs, hostOf)
      <==> a == b && (x == y || Shadows(x, y) || Shadows(y, x))
  {
    var x, y := ScopeOf(a, tool, args, hostOf), ScopeOf(b, otherTool, otherArgs, hostOf);
    if ScopeKey(a, tool, args, hostOf) == ScopeKey(b, otherTool, otherArgs, hostOf) {
      SplitAtColon(a, Rendered(x), b, Rendered(y));
      if x.Query? && y.Query? {
        assert x.query == Rendered(x)[7..] && y.query == Rendered(y)[7..];
      }
    }
  }

  /** So a write that names no path shares its key with one to a file called like the tool. */
  lemma NamelessWriteSharesKey(hostOf: string -> Option<string>)
    ensures var named: Args := map["path" := Str("write_file")];
      ScopeOf(HostWrite, "write_file", named, hostOf) != ScopeOf(HostWrite, "write_file", map[], hostOf)
      && ScopeKey(HostWrite, "write_file", named, hostOf) == ScopeKey(HostWrite, "write_file", map[], hostOf)
  {
    var named: Args := map["path" := Str("write_file")];
    assert PathScope("write_file", named) == Path("write_file") && PathScope("write_file", map[]) == WholeTool("write_file");
    KeysAreExact(HostWrite, "write_file", named, HostWrite, "write_file", map[], hostOf);
  }

  lemma SplitAtColon(a: Action, s: string, b: Action, t: string)
    requires ActionName(a) + ":" + s == ActionName(b) + ":" + t
    ensures a == b && s == t
  {
    var x, y := ActionName(a), ActionName(b);
    var whole := x + ":" + s;
    NameEndsAtFirstColon(a, s);
    NameEndsAtFirstColon(b, t);
    assert |x| == |y|;
    assert x == whole[..|x|] == y;
    NamesDiffer(a, b);
    assert s == whole[|x| + 1..] == t;
  }

  // ----- what a call names

  /** The argument is a text with more than white space in it, and `text` is what is left of it. */
  predicate Says(args: Args, name: string, text: string) {
    name in args && args[name].Str? && Trim(args[name].text) == text && text != ""
  }

  predicate Silent(args: Args, name: string) { name !in args || !args[name].Str? || Trim(args[name].text) == "" }

  predicate SaysPath(args: Args, text: string) {
    || Says(args, "path", text)
    || (Silent(args, "path") && Says(args, "file", text))
    || (Silent(args, "path") && Silent(args, "file") && Says(args, "target", text))
  }

  predicate OnPaths(a: Action) { a.HostRead? || a.HostWrite? || a.SandboxWrite? }

  /** Two host commands share a key if and only if they are the same text, surrounding white space apart; the tool does
      not matter. */
  lemma CommandsShareKeyIff(tool: string, args: Args, text: string, otherTool: string, otherArgs: Args, otherText: string,
                            hostOf: string -> Option<string>)
    requires Says(args, "command", text) && Says(otherArgs, "command", otherText)
    ensures ScopeKey(HostCommand, tool, args, hostOf) == ScopeKey(HostCommand, otherTool, otherArgs, hostOf) <==> text == otherText
  {
    KeysAreExact(HostCommand, tool, args, HostCommand, otherTool, otherArgs, hostOf);
  }

  lemma PathIsNamed(tool: string, args: Args, text: string)
    requires SaysPath(args, text)
    ensures PathScope(tool, args) == Path(text)
  {
  }

  /** Two file actions of one kind share a key if and only if they name the same path: `path`, or else `file`, or else
      `target`. */
  lemma PathsShareKeyIff(a: Action, tool: string, args: Args, text: string, otherTool: string, otherArgs: Args,
                         otherText: string, hostOf: string -> Option<string>)
    requires OnPaths(a) && SaysPath(args, text) && SaysPath(otherArgs, otherText)
    ensures ScopeKey(a, tool, args, hostOf) == ScopeKey(a, otherTool, otherArgs, hostOf) <==> text == otherText
  {
    PathIsNamed(tool, args, text);
    PathIsNamed(otherTool, otherArgs, otherText);
    KeysAreExact(a, tool, args, a, otherTool, otherArgs, hostOf);
  }

  /** Two pages share a key if and only if they are on the same host; two searches, if they ask the same. */
  lemma FetchesShareKeyIff(tool: string, args: Args, url: string, otherTool: string, otherArgs: Args, otherUrl: string,
                           hostOf: string -> Option<string>)
    requires Says(args, "url", url) && hostOf(url).Some? && Says(otherArgs, "url", otherUrl) && hostOf(otherUrl).Some?
    ensures ScopeKey(EgressRead, tool, args, hostOf) == ScopeKey(EgressRead, otherTool, otherArgs, hostOf)
      <==> hostOf(url) == hostOf(otherUrl)
  {
    KeysAreExact(EgressRead, tool, args, EgressRead, otherTool, otherArgs, hostOf);
  }

  lemma SearchesShareKeyIff(tool: string, args: Args, query: string, otherTool: string, otherArgs: Args, otherQuery: string,
                            hostOf: string -> Option<string>)
    requires Silent(args, "url") && Says(args, "query", query) && Silent(otherArgs, "url") && Says(otherArgs, "query", otherQuery)
    ensures ScopeKey(EgressRead, tool, args, hostOf) == ScopeKey(EgressRead, otherTool, otherArgs, hostOf) <==> query == otherQuery
  {
    KeysAreExact(EgressRead, tool, args, EgressRead, otherTool, otherArgs, hostOf);
  }

  /** A call that names nothing is confirmed for its whole tool, and so is every board action and every read inside the
      sandbox. */
  lemma NamelessShareKeyIff(a: Action, tool: string, args: Args, otherTool: string, otherArgs: Args,
                            hostOf: string -> Option<string>)
    requires a.HostCommand? ==> Silent(args, "command") && Silent(otherArgs, "command")
    requires OnPaths(a) ==> forall name :: name in ["path", "file", "target"] ==> Silent(args, name) && Silent(otherArgs, name)
    requires a.EgressRead? ==> forall name :: name in ["url", "query"] ==> Silent(args, name) && Silent(otherArgs, name)
    ensures ScopeKey(a, tool, args, hostOf) == ScopeKey(a, otherTool, otherArgs, hostOf) <==> tool == otherTool
  {
    assert "path" in ["path", "file", "target"] && "file" in ["path", "file", "target"] && "target" in ["path", "file", "target"];
    assert "url" in ["url", "query"] && "query" in ["url", "query"];
    KeysAreExact(a, tool, args, a, otherTool, otherArgs, hostOf);
  }

  // ----- the modes

  /** `decideChatActionAccess`: the policy as it was written for actions, before manifests. */
  function ChatActionAccess(mode: Mode, a: Action): Decision {
    if a.SandboxRead? then Allow
    else if a.EgressRead? then (if mode.IsolatedReadonly? then Deny else Confirm)
    else if a.ControlPlane? then (if mode.IsolatedReadonly? then Deny else Allow)
    else if mode.IsolatedReadonly? then (if a.SandboxWrite? then Confirm else Deny)
    else if a.SandboxWrite? then Allow
    else if mode == Host && a.HostRead? then Allow
    else Confirm
  }

  /** The gate on manifests reproduces the policy on actions, and comes to this: isolated, the sandbox is read freely and
      written on confirmation, and nothing else is done; with the host escape, the sandbox and the board are free and
      everything beyond is confirmed; on the host, its files are read freely as well. */
  lemma ManifestsReproduceThePolicy(a: Action, mode: Mode)
    ensures Access(ManifestFor(a), mode) == ChatActionAccess(mode, a) ==
      match mode
      case IsolatedReadonly => (match a case SandboxRead => Allow case SandboxWrite => Confirm case _ => Deny)
      case SandboxWithHostEscape => if a.SandboxRead? || a.SandboxWrite? || a.ControlPlane? then Allow else Confirm
      case Host => if a.SandboxRead? || a.SandboxWrite? || a.ControlPlane? || a.HostRead? then Allow else Confirm
  {
  }

  // ----- what taints, and what is protected

  /** The labels of the user and of the runtime's own policy do not taint; every other does. */
  lemma TaintedMeans(labels: seq<TaintLabel>)
    ensures IsTainted(labels) <==>
      RepoInstruction in labels || Web in labels || Mcp in labels || PrivateRepo in labels || SecretLike in labels
  {
    if l :| l in labels && IsUntrusted(l) {
      assert l in {RepoInstruction, Web, Mcp, PrivateRepo, SecretLike};
    }
  }

  /** The sinks of a manifest: the network when it may write there, the host when it reaches it, approvals when it needs an
      elevated one, and what it declares; the first of these in this order is the one that is refused. */
  lemma SinksAre(m: Manifest, s: Sink)
    ensures s in SinksOf(m) <==>
      || (s.NetworkSink? && m.network.Egress?)
      || (s.HostAccess? && (m.files.HostFiles? || m.mutation.WritesHost?))
      || (s.Approvals? && (m.approval.TypedHost? || m.approval.RiskAck?))
      || s in m.declared
    ensures m.network.Egress? ==> SinksOf(m) != [] && SinksOf(m)[0] == NetworkSink
    ensures !m.network.Egress? && (m.files.HostFiles? || m.mutation.WritesHost?) ==> SinksOf(m) != [] && SinksOf(m)[0] == HostAccess
  {
  }
}
