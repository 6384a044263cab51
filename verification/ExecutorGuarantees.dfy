/** What holds over every sequence of tool calls of a turn, with the operator revoking grants in between. */
module ExecutorGuarantees {
  import opened Wrappers
  import opened Store = SessionStore
  import Facts = SessionStoreFacts
  import opened CapabilityGate
  import opened Executor

  datatype Event = Call(request: Request) | Revoke(key: string) | Clear

  function Next(cfg: Config, s: State, e: Event): State {
    match e
    case Call(r) => Apply(cfg, s, r)
    case Revoke(key) => s.(grants := s.grants - {key})
    case Clear => s.(grants := map[])
  }

  function Run(cfg: Config, s: State, events: seq<Event>): State {
    if events == [] then s else Next(cfg, Run(cfg, s, events[..|events| - 1]), events[|events| - 1])
  }

  lemma {:induction false} RunConcat(cfg: Config, s: State, before: seq<Event>, after: seq<Event>)
    ensures Run(cfg, s, before + after) == Run(cfg, Run(cfg, s, before), after)
  {
    var all := before + after;
    if after == [] {
      assert all == before;
    } else {
      assert all[..|all| - 1] == before + after[..|after| - 1];
      RunConcat(cfg, s, before, after[..|after| - 1]);
    }
  }

  // ----- the taint window

  lemma TaintGrowsByOne(cfg: Config, s: State, e: Event)
    ensures LabelSet(s.taint) <= LabelSet(Next(cfg, s, e).taint)
    ensures !cfg.brokerEnabled ==> Next(cfg, s, e).taint == s.taint
  {
    if e.Call? && Reaches(cfg, e.request).Some? {
      var g := Reaches(cfg, e.request).value;
      Facts.PropagationIsUnion(s.taint, Folds(cfg, s, e.request, g));
    }
  }

  /** The taint window only ever grows, and without the broker it never changes. */
  lemma {:induction false} TaintOnlyGrows(cfg: Config, s: State, events: seq<Event>)
    ensures LabelSet(s.taint) <= LabelSet(Run(cfg, s, events).taint)
    ensures !cfg.brokerEnabled ==> Run(cfg, s, events).taint == s.taint
  {
    if events != [] {
      TaintOnlyGrows(cfg, s, events[..|events| - 1]);
      TaintGrowsByOne(cfg, Run(cfg, s, events[..|events| - 1]), events[|events| - 1]);
    }
  }

  /** A broker refusal is permanent: whatever happens next, no later call of the same tool is let through to the mode
      gate, and the tool never runs again. */
  lemma RefusedOnceRefusedForever(cfg: Config, s: State, r: Request, between: seq<Event>, again: Request)
    requires ReplyTo(cfg, s, r).BrokerDenied? && again.call.name == r.call.name
    ensures var s' := Run(cfg, s, [Call(r)] + between);
      && Apply(cfg, s', again).runs == s'.runs
      && (Reaches(cfg, again).Some? ==> ReplyTo(cfg, s', again) == ReplyTo(cfg, s, r))
  {
    TaintOnlyGrows(cfg, s, [Call(r)] + between);
    if Reaches(cfg, again).Some? {
      RefusalIsAntiMonotone(ManifestFor(Reaches(cfg, again).value.tool.action), s.taint,
                            Run(cfg, s, [Call(r)] + between).taint);
    }
  }

  predicate NoHostRuns(runs: seq<Ran>) { forall r :: r in runs ==> !IsHost(r.action) }

  lemma TaintedCallSparesTheHost(cfg: Config, s: State, e: Event)
    requires cfg.brokerEnabled && IsTainted(s.taint)
    ensures IsTainted(Next(cfg, s, e).taint)
    ensures s.runs <= Next(cfg, s, e).runs && NoHostRuns(Next(cfg, s, e).runs[|s.runs|..])
  {
    TaintGrowsByOne(cfg, s, e);
    var l :| l in s.taint && IsUntrusted(l);
    assert l in LabelSet(Next(cfg, s, e).taint);
    if e.Call? && Reaches(cfg, e.request).Some? {
      BrokerGuardsTheHost(Reaches(cfg, e.request).value.tool.action, s.taint);
    }
  }

  lemma {:induction false} TaintedTurnSparesTheHost(cfg: Config, s: State, events: seq<Event>)
    requires cfg.brokerEnabled && IsTainted(s.taint)
    ensures IsTainted(Run(cfg, s, events).taint)
    ensures s.runs <= Run(cfg, s, events).runs && NoHostRuns(Run(cfg, s, events).runs[|s.runs|..])
  {
    if events != [] {
      var s' := Run(cfg, s, events[..|events| - 1]);
      TaintedTurnSparesTheHost(cfg, s, events[..|events| - 1]);
      TaintedCallSparesTheHost(cfg, s', events[|events| - 1]);
      var runs := Run(cfg, s, events).runs;
      assert runs[|s.runs|..] == s'.runs[|s.runs|..] + runs[|s'.runs|..];
    }
  }

  predicate BringsUntrusted(cfg: Config, s: State, r: Request) {
    Reaches(cfg, r).Some?
    && Executes(cfg, s, r, Reaches(cfg, r).value)
    && IsTainted(OutputTaint(Reaches(cfg, r).value.tool, r.output, Reaches(cfg, r).value.args))
  }

  /** Injected content never reaches the host: once a tool has returned untrusted content, no tool reads, writes or runs
      anything on the host for the rest of the turn, whatever the model calls and whatever the user confirms. */
  lemma UntrustedContentNeverReachesTheHost(cfg: Config, s: State, before: seq<Event>, r: Request, after: seq<Event>)
    requires cfg.brokerEnabled && BringsUntrusted(cfg, Run(cfg, s, before), r)
    ensures var tainted := Run(cfg, s, before + [Call(r)]); var end := Run(cfg, s, before + [Call(r)] + after);
      tainted.runs <= end.runs && NoHostRuns(end.runs[|tainted.runs|..])
  {
    var s0 := Run(cfg, s, before);
    var g := Reaches(cfg, r).value;
    assert (before + [Call(r)])[..|before|] == before;
    var s1 := Run(cfg, s, before + [Call(r)]);
    var output := OutputTaint(g.tool, r.output, g.args);
    Facts.PropagationIsUnion(s0.taint, output);
    var l :| l in output && IsUntrusted(l);
    assert l in LabelSet(output) && l in LabelSet(s1.taint);
    RunConcat(cfg, s, before + [Call(r)], after);
    TaintedTurnSparesTheHost(cfg, s1, after);
  }

  // ----- the audit trail

  /** The calls that reach the gates. */
  function GatedCalls(cfg: Config, events: seq<Event>): nat {
    if events == [] then 0
    else GatedCalls(cfg, events[..|events| - 1])
         + match events[|events| - 1]
           case Call(r) => (if Reaches(cfg, r).Some? then 1 else 0)
           case _ => 0
  }

  datatype Entry = Entry(action: Action, confirmed: bool, detail: Option<string>)

  function ExecutedEntries(audits: seq<Audit>): seq<Entry> {
    if audits == [] then []
    else ExecutedEntries(audits[..|audits| - 1])
         + var a := audits[|audits| - 1]; if a.executed then [Entry(a.action, a.confirmed, a.detail)] else []
  }

  function RunEntries(runs: seq<Ran>): seq<Entry> {
    seq(|runs|, i requires 0 <= i < |runs| => Entry(runs[i].action, runs[i].confirmed, runs[i].detail))
  }

  predicate IsEgress(a: Audit) { a.action.EgressRead? }

  function EgressEntries(audits: seq<Audit>): seq<Audit> {
    if audits == [] then []
    else EgressEntries(audits[..|audits| - 1]) + if IsEgress(audits[|audits| - 1]) then [audits[|audits| - 1]] else []
  }

  function AttemptEntries(attempts: seq<Attempt>): seq<Audit> {
    seq(|attempts|, i requires 0 <= i < |attempts| => attempts[i].entry)
  }

  /** The trail matches what happened. */
  ghost predicate Books(s: State) {
    && ExecutedEntries(s.audits) == RunEntries(s.runs)
    && AttemptEntries(s.attempts) == EgressEntries(s.audits)
  }

  lemma OneMoreAudit(audits: seq<Audit>, a: Audit)
    ensures ExecutedEntries(audits + [a])
         == ExecutedEntries(audits) + if a.executed then [Entry(a.action, a.confirmed, a.detail)] else []
    ensures EgressEntries(audits + [a]) == EgressEntries(audits) + if IsEgress(a) then [a] else []
  {
    assert (audits + [a])[..|audits|] == audits;
  }

  lemma CallKeepsBooks(cfg: Config, s: State, r: Request, g: Gated)
    requires Books(s)
    ensures Books(AfterGates(cfg, s, r, g))
  {
    OneMoreAudit(s.audits, AuditOf(cfg, s, r, g));
  }

  /** Each call that reaches the gates leaves exactly one audit record, and the records marked executed are, in order,
      the tools that ran; the egress log lists exactly the egress records, refused ones included. */
  lemma {:induction false} TrailMatchesRuns(cfg: Config, s: State, events: seq<Event>)
    requires Books(s)
    ensures Books(Run(cfg, s, events))
    ensures |Run(cfg, s, events).audits| == |s.audits| + GatedCalls(cfg, events)
  {
    if events != [] {
      var s' := Run(cfg, s, events[..|events| - 1]);
      TrailMatchesRuns(cfg, s, events[..|events| - 1]);
      var e := events[|events| - 1];
      if e.Call? && Reaches(cfg, e.request).Some? {
        CallKeepsBooks(cfg, s', e.request, Reaches(cfg, e.request).value);
      }
    }
  }

  // ----- what authorises a run

  /** A grant that this event records: its key and its expiry. */
  function Granted(cfg: Config, s: State, e: Event): Option<(string, int)> {
    if e.Call? && Reaches(cfg, e.request).Some? && cfg.grantsEnabled
       && FreshlyConfirmed(cfg, s, e.request, Reaches(cfg, e.request).value)
    then Some((KeyOf(cfg, Reaches(cfg, e.request).value), e.request.approvedAt + if cfg.ttl < 0 then 0 else cfg.ttl))
    else None
  }

  predicate Withdraws(e: Event, key: string) { e.Clear? || (e.Revoke? && e.key == key) }

  ghost predicate KeptSince(events: seq<Event>, key: string, i: nat) {
    forall j :: i <= j < |events| ==> !Withdraws(events[j], key)
  }

  /** The user confirmed a call on exactly this scope at event `i`, and the grant was not withdrawn since. */
  ghost predicate ConfirmedAt(cfg: Config, s: State, events: seq<Event>, key: string, expiry: int, i: nat) {
    && i < |events|
    && Granted(cfg, Run(cfg, s, events[..i]), events[i]) == Some((key, expiry))
    && KeptSince(events, key, i + 1)
  }

  ghost predicate HasOrigin(cfg: Config, s: State, events: seq<Event>, key: string, expiry: int) {
    || (key in s.grants && s.grants[key] == expiry && KeptSince(events, key, 0))
    || exists i: nat :: ConfirmedAt(cfg, s, events, key, expiry, i)
  }

  lemma GrantsChangeByOne(cfg: Config, s: State, e: Event, key: string)
    requires key in Next(cfg, s, e).grants
    ensures Granted(cfg, s, e) == Some((key, Next(cfg, s, e).grants[key]))
      || (key in s.grants && s.grants[key] == Next(cfg, s, e).grants[key] && !Withdraws(e, key))
  {
  }

  lemma OriginExtends(cfg: Config, s: State, events: seq<Event>, e: Event, key: string, expiry: int)
    requires HasOrigin(cfg, s, events, key, expiry) && !Withdraws(e, key)
    ensures HasOrigin(cfg, s, events + [e], key, expiry)
  {
    var all := events + [e];
    if i: nat :| ConfirmedAt(cfg, s, events, key, expiry, i) {
      assert all[..i] == events[..i];
      assert ConfirmedAt(cfg, s, all, key, expiry, i);
    }
  }

  /** Grants are recorded only for scopes confirmed in the run: each grant that stands is one of the session's own from
      before, or goes back to a fresh confirmation of exactly its scope, expires its lifetime after it, and was not
      withdrawn. */
  lemma {:induction false} EveryGrantHasItsConfirmation(cfg: Config, s: State, events: seq<Event>, key: string)
    requires key in Run(cfg, s, events).grants
    ensures HasOrigin(cfg, s, events, key, Run(cfg, s, events).grants[key])
  {
    if events != [] {
      var before, e := events[..|events| - 1], events[|events| - 1];
      var expiry := Run(cfg, s, events).grants[key];
      assert events == before + [e];
      GrantsChangeByOne(cfg, Run(cfg, s, before), e, key);
      if Granted(cfg, Run(cfg, s, before), e) == Some((key, expiry)) {
        assert ConfirmedAt(cfg, s, events, key, expiry, |before|);
      } else {
        EveryGrantHasItsConfirmation(cfg, s, before, key);
        OriginExtends(cfg, s, before, e, key, expiry);
      }
    }
  }

  /** Why a run after `events` was allowed to happen. */
  ghost predicate Authorised(cfg: Config, s: State, events: seq<Event>, r: Request, ran: Ran) {
    match Access(ManifestFor(ran.action), cfg.mode)
    case Allow => !ran.confirmed
    case Deny => false
    case Confirm =>
      && ran.confirmed
      && ((cfg.canConfirm && r.approves)
          || exists expiry :: r.now < expiry && HasOrigin(cfg, s, events, ran.key, expiry))
  }

  /** A tool runs only where the mode allows it outright, on a confirmation of this very call, or on an unexpired and
      unrevoked confirmation of exactly this scope; the audit record says which. */
  lemma EveryRunIsAuthorised(cfg: Config, s: State, events: seq<Event>, r: Request)
    ensures var s' := Run(cfg, s, events); var s'' := Apply(cfg, s', r);
      s''.runs == s'.runs
      || (|s''.runs| == |s'.runs| + 1 && s'.runs <= s''.runs && Authorised(cfg, s, events, r, s''.runs[|s'.runs|]))
  {
    var s' := Run(cfg, s, events);
    if Reaches(cfg, r).Some? {
      var g := Reaches(cfg, r).value;
      if Covered(cfg, s', r, g) {
        EveryGrantHasItsConfirmation(cfg, s, events, KeyOf(cfg, g));
        assert r.now < s'.grants[KeyOf(cfg, g)];
      }
    }
  }

  predicate Sober(mode: Mode, r: Ran) {
    && (r.action.HostWrite? || r.action.HostCommand? || r.action.EgressRead? ==> r.confirmed)
    && (mode.IsolatedReadonly? ==> r.action.SandboxRead? || (r.action.SandboxWrite? && r.confirmed))
    && (mode.SandboxWithHostEscape? && IsHost(r.action) ==> r.confirmed)
  }

  lemma CallIsSober(cfg: Config, s: State, r: Request, g: Gated)
    requires Executes(cfg, s, r, g)
    ensures Sober(cfg.mode, Ran(g.tool.name, g.args, g.tool.action, KeyOf(cfg, g), Confirmed(cfg, s, r, g),
                                cfg.describe(g.tool.name, g.args)))
  {
  }

  /** Host changes, host commands and network reads are never automatic in any mode, and the isolated mode only ever
      reads the sandbox or makes confirmed sandbox writes. */
  lemma {:induction false} RunsAreSober(cfg: Config, s: State, events: seq<Event>)
    requires forall r :: r in s.runs ==> Sober(cfg.mode, r)
    ensures forall r :: r in Run(cfg, s, events).runs ==> Sober(cfg.mode, r)
  {
    if events != [] {
      var s' := Run(cfg, s, events[..|events| - 1]);
      RunsAreSober(cfg, s, events[..|events| - 1]);
      var e := events[|events| - 1];
      if e.Call? && Reaches(cfg, e.request).Some? && Executes(cfg, s', e.request, Reaches(cfg, e.request).value) {
        CallIsSober(cfg, s', e.request, Reaches(cfg, e.request).value);
      }
    }
  }
}
