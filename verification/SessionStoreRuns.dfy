/** Every interleaving of store operations: chained calls are split into entering, reading, appending and settling,
    and direct creations and deletions land anywhere between those steps. */
module SessionStoreRuns {
  import opened Wrappers
  import opened SessionStore
  import opened SessionStoreFacts
  import Chain = WriteChain

  /** A chained call: its operation, and the log as it read it once it has. */
  datatype Call = Call(op: Op, seen: Option<seq<Event>>)

  /** What took effect, in the order it did; a chained operation with the log that it had read. */
  datatype Commit = Chained(call: nat, op: Op, seen: seq<Event>) | Direct(event: Event)

  /** One store directory. `chain.tasks` and `calls` run in parallel; `commits` is the history. */
  datatype State = State(chain: Chain.State<()>, calls: seq<Call>, log: seq<Event>, commits: seq<Commit>)

  datatype Step =
    | Invoke(op: Op)
    | Enter(call: nat)
    | Read(call: nat)
    | Append(call: nat)
    | Fail(call: nat)
    | Unguard(call: nat)
    | CreateDirect(session: Session)
    | DeleteDirect(id: string, now: int)

  const INITIAL: State := State(Chain.Initial(), [], [], [])

  predicate InProgress(s: State, i: nat) {
    i < |s.chain.tasks| && i < |s.calls| && s.chain.tasks[i].phase.Running?
  }

  predicate HasRead(s: State, i: nat) { InProgress(s, i) && s.calls[i].seen.Some? }

  /** The id never occurs in the log: what a random UUID promises. */
  predicate FreshId(log: seq<Event>, id: string) {
    forall k :: 0 <= k < |log| ==> match log[k] case Upsert(_, p) => p.id != id case Delete(_, d) => d != id
  }

  /** A direct event that a call's pending decision depends on: a deletion of its session, of an owner of its workspace,
      or a new owner for it. */
  predicate Disturbs(op: Op, log: seq<Event>, e: Event) {
    match e
    case Upsert(_, p) => if op.EnsureForWorkspace? then p.ownedWorkspaceId == Some(op.workspaceId) else p.id == op.id
    case Delete(_, id) =>
      if op.EnsureForWorkspace? then Owns(log, id, op.workspaceId) else id == op.id
  }

  predicate Owns(log: seq<Event>, id: string, w: string) {
    Find(Store(log), id).Some? && Find(Store(log), id).value.ownedWorkspaceId == Some(w)
  }

  /** No call between its read and its append depends on the event. */
  predicate Quiet(s: State, e: Event) {
    forall i | 0 <= i < |s.calls| :: HasRead(s, i) ==> !Disturbs(s.calls[i].op, s.log, e)
  }

  function DirectEvent(step: Step): Event
    requires step.CreateDirect? || step.DeleteDirect?
  {
    match step
    case CreateDirect(session) => Upsert(session.createdAt, Persist(session))
    case DeleteDirect(id, now) => Event.Delete(now, id)
  }

  /** Whether the runtime can take the step (quietness apart). */
  predicate Possible(s: State, step: Step) {
    match step
    case Invoke(_) => true
    case Enter(i) => Chain.Enabled(s.chain, Chain.Start(i))
    case Read(i) => InProgress(s, i) && s.calls[i].seen.None?
    case Append(i) => HasRead(s, i) && (s.calls[i].op.EnsureForWorkspace? ==> FreshId(s.log, s.calls[i].op.freshId))
    case Fail(i) => InProgress(s, i)
    case Unguard(i) => Chain.Enabled(s.chain, Chain.Release(i))
    case CreateDirect(session) => FreshId(s.log, session.id) && WellFormedNew(session)
    case DeleteDirect(_, _) => true
  }

  /** A session as `createChatSession` makes it. */
  predicate WellFormedNew(s: Session) {
    s.taintLabels == [] && s.totalTokensUsed == 0 && s.outstandingAsks == []
    && NormalizePaths(s.sandboxWritablePaths) == s.sandboxWritablePaths
  }

  /** One step; an impossible step leaves the state as it is. */
  function Apply(s: State, step: Step): State {
    if !Possible(s, step) then s
    else match step
      case Invoke(op) =>
        s.(chain := Chain.Apply(s.chain, Chain.Serialize(())), calls := s.calls + [Call(op, None)])
      case Enter(i) => s.(chain := Chain.Apply(s.chain, Chain.Start(i)))
      case Read(i) => s.(calls := s.calls[i := s.calls[i].(seen := Some(s.log))])
      case Append(i) =>
        var call := s.calls[i];
        s.(chain := Chain.Apply(s.chain, Chain.Finish(i, true)),
           log := s.log + Written(call.op, call.seen.value),
           commits := s.commits + [Chained(i, call.op, call.seen.value)])
      case Fail(i) => s.(chain := Chain.Apply(s.chain, Chain.Finish(i, false)))
      case Unguard(i) => s.(chain := Chain.Apply(s.chain, Chain.Release(i)))
      case CreateDirect(_) => s.(log := s.log + [DirectEvent(step)], commits := s.commits + [Direct(DirectEvent(step))])
      case DeleteDirect(_, _) => s.(log := s.log + [DirectEvent(step)], commits := s.commits + [Direct(DirectEvent(step))])
  }

  function Run(steps: seq<Step>): State {
    if steps == [] then INITIAL else Apply(Run(steps[..|steps| - 1]), steps[|steps| - 1])
  }

  lemma RunAppend(steps: seq<Step>, step: Step)
    ensures Run(steps + [step]) == Apply(Run(steps), step)
  {
    assert (steps + [step])[..|steps|] == steps;
  }

  predicate IsDirect(step: Step) { step.CreateDirect? || step.DeleteDirect? }

  /** A run in which no direct event lands between the read and the append of a call that depends on it. */
  predicate QuietRun(steps: seq<Step>) {
    steps == [] ||
    (var before, last := steps[..|steps| - 1], steps[|steps| - 1];
     QuietRun(before) && (IsDirect(last) && Possible(Run(before), last) ==> Quiet(Run(before), DirectEvent(last))))
  }

  // ----- the sequential specification

  /** The log after the commits have been carried out one after another, each against the log the previous one left. */
  function Sequential(commits: seq<Commit>): seq<Event> {
    if commits == [] then []
    else
      var before := Sequential(commits[..|commits| - 1]);
      before + EventsOf(commits[|commits| - 1], before)
  }

  function EventsOf(c: Commit, before: seq<Event>): seq<Event> {
    match c
    case Chained(_, op, _) => Written(op, before)
    case Direct(e) => [e]
  }

  // ----- what every run keeps

  ghost predicate InStep(s: State) { |s.calls| == |s.chain.tasks| && Chain.Inv(s.chain) }

  ghost predicate ReadAfterEntry(s: State) {
    forall i :: 0 <= i < |s.calls| && i < |s.chain.tasks| && s.chain.tasks[i].phase.Queued? ==> s.calls[i].seen.None?
  }

  /** A session that both logs have is the same in both. */
  ghost predicate Agree(seen: seq<Event>, log: seq<Event>) {
    forall x, y :: x in Store(seen) && y in Store(log) && x.id == y.id ==> x == y
  }

  /** Since its read, only deletions and creations have happened to a call's sessions. */
  ghost predicate ReadersAgree(s: State) {
    forall i :: 0 <= i < |s.calls| && HasRead(s, i) ==> s.calls[i].seen.value <= s.log && Agree(s.calls[i].seen.value, s.log)
  }

  ghost predicate Live(s: State) { InStep(s) && ReadAfterEntry(s) && ReadersAgree(s) }

  lemma StepStaysInStep(s: State, step: Step)
    requires InStep(s) && ReadAfterEntry(s) && Possible(s, step)
    ensures InStep(Apply(s, step)) && ReadAfterEntry(Apply(s, step))
  {
    match step {
      case Invoke(_) => Chain.ApplyKeepsInv(s.chain, Chain.Serialize(()));
      case Enter(i) => Chain.ApplyKeepsInv(s.chain, Chain.Start(i));
      case Append(i) => Chain.ApplyKeepsInv(s.chain, Chain.Finish(i, true));
      case Fail(i) => Chain.ApplyKeepsInv(s.chain, Chain.Finish(i, false));
      case Unguard(i) => Chain.ApplyKeepsInv(s.chain, Chain.Release(i));
      case _ =>
    }
  }

  lemma NobodyElseHasRead(s: State, i: nat)
    requires Chain.Ordered(s.chain) && HasRead(s, i)
    ensures forall k :: HasRead(s, k) ==> k == i
  {
    forall k | HasRead(s, k)
      ensures k == i
    {
      Chain.AtMostOneRunning(s.chain, i, k);
    }
  }

  lemma AppendLeavesNoReader(s: State, i: nat)
    requires InStep(s) && Possible(s, Append(i))
    ensures forall k :: !HasRead(Apply(s, Append(i)), k)
  {
    NobodyElseHasRead(s, i);
    assert forall k :: HasRead(Apply(s, Append(i)), k) ==> HasRead(s, k) && k != i;
  }

  /** A call that has read after a step is the reader itself or had read before. */
  lemma ReaderOrigin(s: State, step: Step, k: nat)
    requires ReadAfterEntry(s) && Possible(s, step) && !step.Append? && HasRead(Apply(s, step), k)
    ensures k < |s.calls| && Apply(s, step).calls[k].op == s.calls[k].op
    ensures if step.Read? && k == step.call then Apply(s, step).calls[k].seen == Some(s.log)
            else HasRead(s, k) && Apply(s, step).calls[k] == s.calls[k]
  {
  }

  lemma {:induction false} FreshIsAbsent(log: seq<Event>, id: string)
    requires FreshId(log, id)
    ensures forall s :: s in Store(log) ==> s.id != id
  {
    if log != [] {
      var before, e := log[..|log| - 1], log[|log| - 1];
      FreshIsAbsent(before, id);
      StoreIsDistinct(before);
      match e
      case Upsert(_, p) => PutFacts(Store(before), Normalize(p));
      case Delete(_, d) => DropFacts(Store(before), d);
    }
  }

  lemma AgreeAfter(seen: seq<Event>, log: seq<Event>, e: Event)
    requires seen <= log && Agree(seen, log)
    requires e.Upsert? ==> FreshId(log, e.session.id)
    ensures Agree(seen, log + [e])
  {
    StoreAppend(log, e);
    StoreIsDistinct(log);
    match e
    case Upsert(_, p) =>
      PutFacts(Store(log), Normalize(p));
      assert FreshId(seen, p.id);
      FreshIsAbsent(seen, p.id);
    case Delete(_, d) => DropFacts(Store(log), d);
  }

  lemma SameLogAgrees(log: seq<Event>)
    ensures Agree(log, log)
  {
    StoreIsDistinct(log);
  }

  lemma StepStaysLive(s: State, step: Step)
    requires Live(s) && Possible(s, step)
    ensures Live(Apply(s, step))
  {
    var s' := Apply(s, step);
    StepStaysInStep(s, step);
    if step.Append? {
      AppendLeavesNoReader(s, step.call);
      return;
    }
    forall k | 0 <= k < |s'.calls| && HasRead(s', k)
      ensures s'.calls[k].seen.value <= s'.log && Agree(s'.calls[k].seen.value, s'.log)
    {
      ReaderOrigin(s, step, k);
      if step.Read? && k == step.call {
        SameLogAgrees(s.log);
      } else if IsDirect(step) {
        AgreeAfter(s.calls[k].seen.value, s.log, DirectEvent(step));
      }
    }
  }

  /** In every interleaving, whatever is deleted or created in between: a call that has read holds a prefix of the log,
      and each session that is still there is as the call read it. */
  lemma {:induction false} EveryRunIsLive(steps: seq<Step>)
    ensures Live(Run(steps))
  {
    if steps != [] {
      EveryRunIsLive(steps[..|steps| - 1]);
      var s, last := Run(steps[..|steps| - 1]), steps[|steps| - 1];
      if Possible(s, last) { StepStaysLive(s, last); }
    }
  }

  // ----- what quiet runs keep

  /** A pending decision made on what was read is the decision the present log would give. */
  ghost predicate NotStale(s: State) {
    forall i | 0 <= i < |s.calls| :: HasRead(s, i) ==>
      Written(s.calls[i].op, s.calls[i].seen.value) == Written(s.calls[i].op, s.log)
  }

  ghost predicate Inv(s: State) { InStep(s) && ReadAfterEntry(s) && NotStale(s) && s.log == Sequential(s.commits) }

  lemma {:induction false} NoOwnerOfOther(log: seq<Event>, e: Event, op: Op)
    requires !Disturbs(op, log, e)
    requires e.Upsert? ==> FreshId(log, e.session.id)
    ensures Written(op, log + [e]) == Written(op, log)
  {
    StoreAppend(log, e);
    StoreIsDistinct(log);
    if op.EnsureForWorkspace? {
      OwnerUndisturbed(log, e, op);
    } else {
      CurrentAfter(log, e, op.id);
    }
    DecideLooksLocally(op, log, log + [e]);
  }

  lemma OwnerUndisturbed(log: seq<Event>, e: Event, op: Op)
    requires op.EnsureForWorkspace? && !Disturbs(op, log, e)
    requires e.Upsert? ==> FreshId(log, e.session.id)
    ensures HasOwner(log + [e], op.workspaceId) == HasOwner(log, op.workspaceId)
  {
    StoreAppend(log, e);
    StoreIsDistinct(log);
    match e
    case Upsert(_, p) =>
      PutFacts(Store(log), Normalize(p));
      FreshIsAbsent(log, p.id);
    case Delete(_, id) =>
      DropFacts(Store(log), id);
      FindFacts(Store(log), id);
      forall s | s in Store(log) && s.ownedWorkspaceId == Some(op.workspaceId)
        ensures s.id != id
      {
        SameIdSameSession(Store(log), id);
      }
  }

  lemma SameIdSameSession(store: seq<Session>, id: string)
    requires DistinctIds(store)
    ensures forall a, b :: a in store && b in store && a.id == id == b.id ==> a == b
  {
  }

  lemma SequentialAppend(commits: seq<Commit>, c: Commit)
    ensures Sequential(commits + [c]) == Sequential(commits) + EventsOf(c, Sequential(commits))
  {
    assert (commits + [c])[..|commits|] == commits;
  }

  lemma StepStaysFresh(s: State, step: Step)
    requires Inv(s) && Possible(s, step) && (IsDirect(step) ==> Quiet(s, DirectEvent(step)))
    ensures NotStale(Apply(s, step))
  {
    var s' := Apply(s, step);
    if step.Append? {
      AppendLeavesNoReader(s, step.call);
      return;
    }
    forall k | 0 <= k < |s'.calls| && HasRead(s', k)
      ensures Written(s'.calls[k].op, s'.calls[k].seen.value) == Written(s'.calls[k].op, s'.log)
    {
      ReaderOrigin(s, step, k);
      if IsDirect(step) { NoOwnerOfOther(s.log, DirectEvent(step), s.calls[k].op); }
    }
  }

  lemma StepStaysSequential(s: State, step: Step)
    requires NotStale(s) && s.log == Sequential(s.commits) && Possible(s, step)
    ensures Apply(s, step).log == Sequential(Apply(s, step).commits)
  {
    if step.Append? {
      SequentialAppend(s.commits, Chained(step.call, s.calls[step.call].op, s.calls[step.call].seen.value));
    } else if IsDirect(step) {
      SequentialAppend(s.commits, Direct(DirectEvent(step)));
    }
  }

  /** Linearisability. In every quiet interleaving the log is the one the committed operations would have written had
      each run alone, in commit order: no decision is ever made on stale state. */
  lemma {:induction false} RunIsLinearizable(steps: seq<Step>)
    requires QuietRun(steps)
    ensures Inv(Run(steps))
    ensures Run(steps).log == Sequential(Run(steps).commits)
  {
    if steps != [] {
      var before, last := steps[..|steps| - 1], steps[|steps| - 1];
      RunIsLinearizable(before);
      var s := Run(before);
      if Possible(s, last) {
        StepStaysInStep(s, last);
        StepStaysFresh(s, last);
        StepStaysSequential(s, last);
      }
    } else {
      assert Inv(INITIAL);
    }
  }
}
