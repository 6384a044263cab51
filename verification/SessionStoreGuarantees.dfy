/** What the write chain buys, over every interleaving of chained operations with direct creations and deletions: commits
    are first-in-first-out, a session that is not deleted is exactly what the committed operations make of it, a workspace
    has at most one owning chat, and a deletion is undone in exactly one case. */
module SessionStoreGuarantees {
  import opened Wrappers
  import opened SessionStore
  import opened SessionStoreFacts
  import opened SessionStoreRuns
  import Chain = WriteChain

  // ----- order of commits

  function ChainedCalls(commits: seq<Commit>): seq<nat> {
    if commits == [] then []
    else
      var before, last := ChainedCalls(commits[..|commits| - 1]), commits[|commits| - 1];
      if last.Chained? then before + [last.call] else before
  }

  predicate Succeeded(p: Chain.Phase) { (p.Settled? || p.Released?) && p.ok }

  /** `c` lists the calls that succeeded, each once and in call order. */
  ghost predicate ListsSuccesses(c: seq<nat>, tasks: seq<Chain.Task<()>>) {
    && (forall x :: 0 <= x < |c| ==> c[x] < |tasks| && Succeeded(tasks[c[x]].phase))
    && (forall x, y :: 0 <= x < y < |c| ==> c[x] < c[y])
    && (forall i :: 0 <= i < |tasks| && Succeeded(tasks[i].phase) ==> i in c)
  }

  ghost predicate FifoCommits(s: State) { ListsSuccesses(ChainedCalls(s.commits), s.chain.tasks) }

  lemma ChainedCallsAppend(commits: seq<Commit>, c: Commit)
    ensures ChainedCalls(commits + [c]) == ChainedCalls(commits) + if c.Chained? then [c.call] else []
  {
    assert (commits + [c])[..|commits|] == commits;
  }

  lemma OneMoreSuccess(c: seq<nat>, chain: Chain.State<()>, i: nat)
    requires Chain.Ordered(chain) && ListsSuccesses(c, chain.tasks)
    requires i < |chain.tasks| && chain.tasks[i].phase.Running?
    ensures ListsSuccesses(c + [i], Chain.Apply(chain, Chain.Finish(i, true)).tasks)
  {
    var c', tasks' := c + [i], Chain.Apply(chain, Chain.Finish(i, true)).tasks;
    forall x | 0 <= x < |c|
      ensures c[x] < i
    {
      assert chain.tasks[c[x]].key == chain.tasks[i].key;
    }
    forall k | 0 <= k < |tasks'| && Succeeded(tasks'[k].phase)
      ensures k in c'
    {
      if k == i { assert c'[|c|] == i; }
    }
  }

  lemma FifoAfter(s: State, step: Step)
    requires Chain.Ordered(s.chain) && FifoCommits(s) && Possible(s, step)
    ensures FifoCommits(Apply(s, step))
  {
    if step.Append? {
      ChainedCallsAppend(s.commits, Chained(step.call, s.calls[step.call].op, s.calls[step.call].seen.value));
      OneMoreSuccess(ChainedCalls(s.commits), s.chain, step.call);
    } else if IsDirect(step) {
      ChainedCallsAppend(s.commits, Direct(DirectEvent(step)));
    } else {
      var t, t' := s.chain.tasks, Apply(s, step).chain.tasks;
      assert forall i :: 0 <= i < |t| ==> Succeeded(t[i].phase) == Succeeded(t'[i].phase);
      assert |t'| > |t| ==> !Succeeded(t'[|t|].phase);
    }
  }

  /** Commits of chained calls happen in call order, exactly once for each call that succeeded and never for one that
      failed, in every interleaving. */
  lemma {:induction false} CommitsAreFifo(steps: seq<Step>)
    ensures FifoCommits(Run(steps))
  {
    if steps != [] {
      var before, last := steps[..|steps| - 1], steps[|steps| - 1];
      CommitsAreFifo(before);
      EveryRunIsLive(before);
      if Possible(Run(before), last) { FifoAfter(Run(before), last); }
    }
  }

  // ----- one session

  /** The call had read the session when it decided. */
  ghost predicate Saw(c: Commit, id: string) { c.Chained? && Current(c.seen, id).Some? }

  /** What a commit makes of a session: what its operation decides on that session alone, if it is about it and had seen
      it. */
  ghost function Effect(c: Commit, cur: Session): Session {
    if c.Chained? && !c.op.EnsureForWorkspace? && c.op.id == cur.id && Saw(c, cur.id)
    then Decide(c.op, [cur]).GetOr(cur) else cur
  }

  ghost function Evolved(cur: Session, commits: seq<Commit>): Session {
    if commits == [] then cur else Effect(commits[|commits| - 1], Evolved(cur, commits[..|commits| - 1]))
  }

  predicate Deletes(c: Commit, id: string) { c.Direct? && c.event.Delete? && c.event.id == id }

  /** The decision on one session is made on that session alone, and writes that session. */
  lemma DecidesOnOne(op: Op, log: seq<Event>)
    requires !op.EnsureForWorkspace?
    ensures Decide(op, Replay(log)) == if Current(log, op.id).Some? then Decide(op, [Current(log, op.id).value]) else None
    ensures Decide(op, Replay(log)).Some? ==> Decide(op, Replay(log)).value.id == op.id
  {
    ReplayFinds(log, op.id);
    FindFacts(Store(log), op.id);
  }

  lemma WritesItsSession(op: Op, seen: seq<Event>)
    requires Decide(op, Replay(seen)).Some?
    ensures Decide(op, Replay(seen)).value.id == if op.EnsureForWorkspace? then op.freshId else op.id
  {
    if !op.EnsureForWorkspace? { DecidesOnOne(op, seen); }
  }

  lemma EffectOfWrite(log: seq<Event>, op: Op, seen: seq<Event>, id: string)
    ensures Current(log + Written(op, seen), id)
         == match Decide(op, Replay(seen)) case Some(s) => (if s.id == id then Some(s) else Current(log, id)) case None => Current(log, id)
  {
    WrittenIsWellFormed(op, seen);
    match Decide(op, Replay(seen))
    case Some(s) => CurrentAfter(log, Upsert(op.now, Persist(s)), id);
    case None => assert log + Written(op, seen) == log;
  }

  lemma FreshIsOther(log: seq<Event>, id: string, other: string)
    requires FreshId(log, other) && Current(log, id).Some?
    ensures id != other
  {
    FreshIsAbsent(log, other);
    FindFacts(Store(log), id);
  }

  lemma SameSession(seen: seq<Event>, log: seq<Event>, id: string)
    requires Agree(seen, log) && Current(seen, id).Some? && Current(log, id).Some?
    ensures Current(seen, id) == Current(log, id)
  {
    FindFacts(Store(seen), id);
    FindFacts(Store(log), id);
  }

  lemma WriteOfOther(log: seq<Event>, c: Commit, id: string)
    requires c.Chained? && Current(log, id).Some? && id != (if c.op.EnsureForWorkspace? then c.op.freshId else c.op.id)
    ensures Current(log + Written(c.op, c.seen), id) == Some(Effect(c, Current(log, id).value))
  {
    EffectOfWrite(log, c.op, c.seen, id);
    FindFacts(Store(log), id);
    if !c.op.EnsureForWorkspace? { DecidesOnOne(c.op, c.seen); }
  }

  lemma WriteOfOwn(log: seq<Event>, c: Commit)
    requires c.Chained? && !c.op.EnsureForWorkspace? && Current(log, c.op.id).Some? && Agree(c.seen, log)
    ensures Current(log + Written(c.op, c.seen), c.op.id) == Some(Effect(c, Current(log, c.op.id).value))
  {
    EffectOfWrite(log, c.op, c.seen, c.op.id);
    FindFacts(Store(log), c.op.id);
    DecidesOnOne(c.op, c.seen);
    if Current(c.seen, c.op.id).Some? { SameSession(c.seen, log, c.op.id); }
  }

  lemma AppendEffect(s: State, i: nat, id: string)
    requires Live(s) && Possible(s, Append(i)) && Current(s.log, id).Some?
    ensures Current(Apply(s, Append(i)).log, id)
         == Some(Effect(Chained(i, s.calls[i].op, s.calls[i].seen.value), Current(s.log, id).value))
  {
    var c := Chained(i, s.calls[i].op, s.calls[i].seen.value);
    if c.op.EnsureForWorkspace? { FreshIsOther(s.log, id, c.op.freshId); }
    if !c.op.EnsureForWorkspace? && c.op.id == id {
      WriteOfOwn(s.log, c);
    } else {
      WriteOfOther(s.log, c, id);
    }
  }

  /** The commits that a step adds. */
  function Added(s: State, step: Step): seq<Commit> {
    if !Possible(s, step) then []
    else match step
      case Append(i) => [Chained(i, s.calls[i].op, s.calls[i].seen.value)]
      case CreateDirect(_) => [Direct(DirectEvent(step))]
      case DeleteDirect(_, _) => [Direct(DirectEvent(step))]
      case _ => []
  }

  lemma StepEffect(s: State, step: Step, id: string)
    requires Live(s) && Current(s.log, id).Some?
    requires forall c :: c in Added(s, step) ==> !Deletes(c, id)
    ensures Apply(s, step).commits == s.commits + Added(s, step)
    ensures Current(Apply(s, step).log, id)
         == Some(if Added(s, step) == [] then Current(s.log, id).value else Effect(Added(s, step)[0], Current(s.log, id).value))
  {
    if Possible(s, step) {
      if step.Append? {
        AppendEffect(s, step.call, id);
      } else if IsDirect(step) {
        CurrentAfter(s.log, DirectEvent(step), id);
        if step.CreateDirect? { FreshIsOther(s.log, id, step.session.id); }
        assert Direct(DirectEvent(step)) in Added(s, step);
      }
    }
  }

  lemma RunConcat(before: seq<Step>, after: seq<Step>)
    requires after != []
    ensures Run(before + after) == Apply(Run(before + after[..|after| - 1]), after[|after| - 1])
  {
    assert before + after == before + after[..|after| - 1] + [after[|after| - 1]];
    RunAppend(before + after[..|after| - 1], after[|after| - 1]);
  }

  lemma EvolvedOneMore(cur: Session, commits: seq<Commit>, c: Commit)
    ensures Evolved(cur, commits + [c]) == Effect(c, Evolved(cur, commits))
  {
    assert (commits + [c])[..|commits|] == commits;
  }

  /** The commits of `after`: what the history has beyond that of `before`. */
  function Since(before: seq<Step>, after: seq<Step>): seq<Commit> {
    var n, commits := |Run(before).commits|, Run(before + after).commits;
    if n <= |commits| then commits[n..] else []
  }

  lemma StepOnlyAdds(s: State, step: Step)
    ensures Apply(s, step).commits == s.commits + Added(s, step)
  {
  }

  lemma {:induction false} CommitsOnlyGrow(before: seq<Step>, after: seq<Step>)
    ensures Run(before).commits <= Run(before + after).commits
  {
    if after == [] {
      assert before + after == before;
    } else {
      CommitsOnlyGrow(before, after[..|after| - 1]);
      RunConcat(before, after);
      StepOnlyAdds(Run(before + after[..|after| - 1]), after[|after| - 1]);
    }
  }

  /** One step more of a history. */
  lemma SinceOneMore(before: seq<Step>, after: seq<Step>)
    requires after != []
    ensures Since(before, after)
         == Since(before, after[..|after| - 1]) + Added(Run(before + after[..|after| - 1]), after[|after| - 1])
  {
    CommitsOnlyGrow(before, after[..|after| - 1]);
    RunConcat(before, after);
    StepOnlyAdds(Run(before + after[..|after| - 1]), after[|after| - 1]);
  }

  /** Linearisability of one session, in every interleaving: from any state that has the session, and as long as nobody
      deletes it, it is exactly what the committed operations make of it one after another, whatever happens to other
      sessions. */
  lemma {:induction false} SessionEvolves(before: seq<Step>, after: seq<Step>, id: string)
    requires Current(Run(before).log, id).Some?
    requires forall c :: c in Since(before, after) ==> !Deletes(c, id)
    ensures Current(Run(before + after).log, id) == Some(Evolved(Current(Run(before).log, id).value, Since(before, after)))
  {
    if after == [] {
      assert before + after == before;
    } else {
      var init, last := after[..|after| - 1], after[|after| - 1];
      SinceOneMore(before, after);
      SessionEvolves(before, init, id);
      EveryRunIsLive(before + init);
      RunConcat(before, after);
      StepEffect(Run(before + init), last, id);
      var added := Added(Run(before + init), last);
      if added != [] {
        assert added == [added[0]];
        EvolvedOneMore(Current(Run(before).log, id).value, Since(before, init), added[0]);
      } else {
        assert Since(before, after) == Since(before, init);
      }
    }
  }

  /** From a state on in which every call that has read saw the session, every commit is by a call that saw it: then all
      of them count. */
  lemma {:induction false} EveryCommitSaw(before: seq<Step>, after: seq<Step>, id: string)
    requires Current(Run(before).log, id).Some?
    requires forall i :: 0 <= i < |Run(before).calls| && HasRead(Run(before), i) ==> Current(Run(before).calls[i].seen.value, id).Some?
    requires forall c :: c in Since(before, after) ==> !Deletes(c, id)
    ensures forall c :: c in Since(before, after) && c.Chained? ==> Saw(c, id)
    ensures forall i :: 0 <= i < |Run(before + after).calls| && HasRead(Run(before + after), i) ==>
      Current(Run(before + after).calls[i].seen.value, id).Some?
  {
    if after == [] {
      assert before + after == before;
    } else {
      var init, last := after[..|after| - 1], after[|after| - 1];
      SinceOneMore(before, after);
      EveryCommitSaw(before, init, id);
      SessionEvolves(before, init, id);
      EveryRunIsLive(before + init);
      RunConcat(before, after);
      ReadersSawAfter(Run(before + init), last, id);
    }
  }

  lemma ReadersSawAfter(s: State, step: Step, id: string)
    requires Live(s) && Current(s.log, id).Some?
    requires forall i :: 0 <= i < |s.calls| && HasRead(s, i) ==> Current(s.calls[i].seen.value, id).Some?
    ensures forall i :: 0 <= i < |Apply(s, step).calls| && HasRead(Apply(s, step), i) ==>
      Current(Apply(s, step).calls[i].seen.value, id).Some?
    ensures forall c :: c in Added(s, step) && c.Chained? ==> Saw(c, id)
  {
    if Possible(s, step) {
      if step.Append? {
        AppendLeavesNoReader(s, step.call);
      } else {
        forall i | 0 <= i < |Apply(s, step).calls| && HasRead(Apply(s, step), i)
          ensures Current(Apply(s, step).calls[i].seen.value, id).Some?
        {
          ReaderOrigin(s, step, i);
        }
      }
    }
  }

  // ----- tokens

  /** What a commit adds to the token total of a session. */
  ghost function TokenDelta(c: Commit, id: string): int {
    if Saw(c, id) && c.op.UpdateSession? && c.op.id == id then c.op.patch.addTokensUsed.GetOr(0) else 0
  }

  ghost function TokenDeltas(commits: seq<Commit>, id: string): int {
    if commits == [] then 0
    else TokenDeltas(commits[..|commits| - 1], id) + TokenDelta(commits[|commits| - 1], id)
  }

  /** The commit does not overwrite the total of the session with an absolute value. */
  predicate KeepsTotal(c: Commit, id: string) {
    c.Chained? && c.op.UpdateSession? && c.op.id == id && c.op.patch.totalTokensUsed.Some? ==> c.op.patch.addTokensUsed.Some?
  }

  lemma {:induction false} EvolvedTokens(cur: Session, commits: seq<Commit>)
    requires forall c :: c in commits ==> KeepsTotal(c, cur.id)
    ensures Evolved(cur, commits).id == cur.id
    ensures Evolved(cur, commits).totalTokensUsed == cur.totalTokensUsed + TokenDeltas(commits, cur.id)
  {
    if commits != [] {
      assert commits[|commits| - 1] in commits;
      EvolvedTokens(cur, commits[..|commits| - 1]);
    }
  }

  /** No delta is lost: in every interleaving, from any state that has the session, as long as it is not deleted and its
      total not overwritten, the total grows by exactly the sum of the committed deltas. */
  lemma TokensConservedInRun(before: seq<Step>, after: seq<Step>, id: string)
    requires Current(Run(before).log, id).Some?
    requires forall c :: c in Since(before, after) ==> !Deletes(c, id) && KeepsTotal(c, id)
    ensures Current(Run(before + after).log, id).Some?
    ensures Current(Run(before + after).log, id).value.totalTokensUsed
         == Current(Run(before).log, id).value.totalTokensUsed + TokenDeltas(Since(before, after), id)
  {
    SessionEvolves(before, after, id);
    FindFacts(Store(Run(before).log), id);
    EvolvedTokens(Current(Run(before).log, id).value, Since(before, after));
  }

  // ----- taint

  lemma {:induction false} FilterLength(labels: seq<TaintLabel>, a: set<TaintLabel>, b: set<TaintLabel>)
    requires a <= b
    ensures |Filter(labels, a)| <= |Filter(labels, b)|
    ensures |Filter(labels, a)| == |Filter(labels, b)| ==> Filter(labels, a) == Filter(labels, b)
  {
    if labels != [] { FilterLength(labels[1..], a, b); }
  }

  /** The length test in `recordChatSessionTaint` is exact: equal lengths mean that the union added nothing. */
  lemma EqualLengthMeansNothingNew(existing: seq<TaintLabel>, labels: seq<TaintLabel>)
    requires Canonical(existing)
    ensures |PropagateTaint(existing, labels)| == |existing| <==> LabelSet(labels) <= LabelSet(existing)
  {
    FilterLength(TAINT_LABELS, LabelSet(existing), LabelSet(existing) + LabelSet(labels));
    PropagationIsUnion(existing, labels);
    if LabelSet(labels) <= LabelSet(existing) {
      assert LabelSet(existing) + LabelSet(labels) == LabelSet(existing);
    }
  }

  ghost function TaintAdded(c: Commit, id: string): set<TaintLabel> {
    if Saw(c, id) && c.op.RecordTaint? && c.op.id == id then LabelSet(c.op.labels) else {}
  }

  ghost function TaintsAdded(commits: seq<Commit>, id: string): set<TaintLabel> {
    if commits == [] then {}
    else TaintsAdded(commits[..|commits| - 1], id) + TaintAdded(commits[|commits| - 1], id)
  }

  lemma EffectOnTaint(c: Commit, cur: Session)
    requires Canonical(cur.taintLabels)
    ensures Effect(c, cur).id == cur.id && Canonical(Effect(c, cur).taintLabels)
    ensures LabelSet(Effect(c, cur).taintLabels) == LabelSet(cur.taintLabels) + TaintAdded(c, cur.id)
  {
    if Saw(c, cur.id) && c.op.RecordTaint? && c.op.id == cur.id {
      PropagationIsUnion(cur.taintLabels, c.op.labels);
      PropagatedIsCanonical(cur.taintLabels, c.op.labels);
      EqualLengthMeansNothingNew(cur.taintLabels, c.op.labels);
    }
  }

  lemma {:induction false} EvolvedTaint(cur: Session, commits: seq<Commit>)
    requires Canonical(cur.taintLabels)
    ensures var e := Evolved(cur, commits);
      e.id == cur.id && Canonical(e.taintLabels) && LabelSet(e.taintLabels) == LabelSet(cur.taintLabels) + TaintsAdded(commits, cur.id)
  {
    if commits != [] {
      EvolvedTaint(cur, commits[..|commits| - 1]);
      EffectOnTaint(commits[|commits| - 1], Evolved(cur, commits[..|commits| - 1]));
    }
  }

  /** Persisted taint is exactly the union of what was there and what was recorded since: in every interleaving it never
      shrinks, and nothing that was recorded is missing, as long as the session is not deleted. */
  lemma TaintAccumulatesInRun(before: seq<Step>, after: seq<Step>, id: string)
    requires Current(Run(before).log, id).Some?
    requires forall c :: c in Since(before, after) ==> !Deletes(c, id)
    ensures Current(Run(before + after).log, id).Some?
    ensures LabelSet(Current(Run(before + after).log, id).value.taintLabels)
         == LabelSet(Current(Run(before).log, id).value.taintLabels) + TaintsAdded(Since(before, after), id)
  {
    SessionEvolves(before, after, id);
    FindFacts(Store(Run(before).log), id);
    StoreIsDistinct(Run(before).log);
    EvolvedTaint(Current(Run(before).log, id).value, Since(before, after));
  }

  // ----- one owner per workspace

  ghost predicate OneOwnerEach(log: seq<Event>) {
    forall a, b :: a in Store(log) && b in Store(log) && a.ownedWorkspaceId.Some? && a.ownedWorkspaceId == b.ownedWorkspaceId ==> a == b
  }

  /** The session an operation writes keeps the workspace its predecessor owned. */
  lemma WriteKeepsOwnership(op: Op, log: seq<Event>)
    requires !op.EnsureForWorkspace? && Decide(op, Replay(log)).Some?
    ensures Current(log, op.id).Some?
    ensures var s := Decide(op, Replay(log)).value; s.id == op.id && s.ownedWorkspaceId == Current(log, op.id).value.ownedWorkspaceId
  {
    ReplayFinds(log, op.id);
    FindFacts(Store(log), op.id);
  }

  /** Every owner that is still there was there when the call read. */
  ghost predicate OwnersSeen(seen: seq<Event>, log: seq<Event>) {
    OneOwnerEach(seen) && forall x :: x in Store(log) && x.ownedWorkspaceId.Some? ==> x in Store(seen)
  }

  ghost predicate Owners(s: State) {
    OneOwnerEach(s.log) && forall i :: 0 <= i < |s.calls| && HasRead(s, i) ==> OwnersSeen(s.calls[i].seen.value, s.log)
  }

  lemma DirectKeepsOwners(seen: seq<Event>, log: seq<Event>, e: Event)
    requires OneOwnerEach(log) && (e.Upsert? ==> e.session.ownedWorkspaceId.None?)
    ensures OneOwnerEach(log + [e]) && (OwnersSeen(seen, log) ==> OwnersSeen(seen, log + [e]))
  {
    StoreAppend(log, e);
    StoreIsDistinct(log);
    match e
    case Upsert(_, p) => PutFacts(Store(log), Normalize(p));
    case Delete(_, d) => DropFacts(Store(log), d);
  }

  /** A session may be put where no other owns its workspace. */
  lemma PutKeepsOneOwner(log: seq<Event>, e: Event)
    requires OneOwnerEach(log) && e.Upsert?
    requires forall x :: x in Store(log) && x.ownedWorkspaceId.Some? && x.ownedWorkspaceId == Normalize(e.session).ownedWorkspaceId ==>
               x.id == e.session.id
    ensures OneOwnerEach(log + [e])
  {
    StoreIsDistinct(log);
    StoreAppend(log, e);
    PutFacts(Store(log), Normalize(e.session));
  }

  lemma OwnWriteIsTheOwner(seen: seq<Event>, log: seq<Event>, op: Op)
    requires OwnersSeen(seen, log) && !op.EnsureForWorkspace? && Decide(op, Replay(seen)).Some?
    ensures var s := Decide(op, Replay(seen)).value;
      forall x :: x in Store(log) && x.ownedWorkspaceId.Some? && x.ownedWorkspaceId == s.ownedWorkspaceId ==> x.id == s.id
  {
    WriteKeepsOwnership(op, seen);
    FindFacts(Store(seen), op.id);
  }

  lemma NewOwnerIsAlone(seen: seq<Event>, log: seq<Event>, op: Op)
    requires OwnersSeen(seen, log) && op.EnsureForWorkspace? && Decide(op, Replay(seen)).Some?
    ensures forall x :: x in Store(log) ==> x.ownedWorkspaceId != Some(op.workspaceId)
  {
    OwnerFound(seen, op.workspaceId);
  }

  lemma WriteKeepsOneOwner(seen: seq<Event>, log: seq<Event>, op: Op)
    requires OneOwnerEach(log) && OwnersSeen(seen, log)
    ensures OneOwnerEach(log + Written(op, seen))
  {
    match Decide(op, Replay(seen))
    case None => assert log + Written(op, seen) == log;
    case Some(s) =>
      WrittenIsWellFormed(op, seen);
      if op.EnsureForWorkspace? { NewOwnerIsAlone(seen, log, op); } else { OwnWriteIsTheOwner(seen, log, op); }
      PutKeepsOneOwner(log, Upsert(op.now, Persist(s)));
  }

  lemma StepKeepsOwners(s: State, step: Step)
    requires Live(s) && Owners(s) && Possible(s, step)
    requires step.CreateDirect? ==> step.session.ownedWorkspaceId.None?
    ensures Owners(Apply(s, step))
  {
    if step.Append? {
      AppendLeavesNoReader(s, step.call);
      WriteKeepsOneOwner(s.calls[step.call].seen.value, s.log, s.calls[step.call].op);
    } else {
      if IsDirect(step) { DirectKeepsOwners([], s.log, DirectEvent(step)); }
      forall i | 0 <= i < |Apply(s, step).calls| && HasRead(Apply(s, step), i)
        ensures OwnersSeen(Apply(s, step).calls[i].seen.value, Apply(s, step).log)
      {
        ReaderOrigin(s, step, i);
        if IsDirect(step) { DirectKeepsOwners(s.calls[i].seen.value, s.log, DirectEvent(step)); }
      }
    }
  }

  lemma {:induction false} RunKeepsOwners(steps: seq<Step>)
    requires forall k :: 0 <= k < |steps| && steps[k].CreateDirect? ==> steps[k].session.ownedWorkspaceId.None?
    ensures Owners(Run(steps))
  {
    if steps != [] {
      var before, last := steps[..|steps| - 1], steps[|steps| - 1];
      RunKeepsOwners(before);
      EveryRunIsLive(before);
      if Possible(Run(before), last) { StepKeepsOwners(Run(before), last); }
    }
  }

  /** When every owner is made by find-or-create, no workspace ever has two owning chats, in any interleaving. */
  lemma OneOwnerPerWorkspaceInRun(steps: seq<Step>, a: Session, b: Session)
    requires forall k :: 0 <= k < |steps| && steps[k].CreateDirect? ==> steps[k].session.ownedWorkspaceId.None?
    requires a in Replay(Run(steps).log) && b in Replay(Run(steps).log)
    ensures a.ownedWorkspaceId.Some? && a.ownedWorkspaceId == b.ownedWorkspaceId ==> a == b
  {
    RunKeepsOwners(steps);
    ReplayMembers(Run(steps).log);
  }

  // ----- outstanding asks

  predicate DistinctKeys(asks: seq<Ask>) {
    forall i, j :: 0 <= i < j < |asks| ==> asks[i].signalKey != asks[j].signalKey
  }

  /** Removing a key removes exactly that key's asks and keeps the rest in order. */
  lemma {:induction false} WithoutAskFacts(asks: seq<Ask>, key: string)
    ensures forall a :: a in WithoutAsk(asks, key) <==> a in asks && a.signalKey != key
    ensures DistinctKeys(asks) ==> DistinctKeys(WithoutAsk(asks, key))
  {
    if asks != [] {
      WithoutAskFacts(asks[1..], key);
      assert asks == [asks[0]] + asks[1..];
    }
  }

  ghost predicate AsksDistinct(log: seq<Event>) {
    forall s :: s in Store(log) ==> DistinctKeys(s.outstandingAsks)
  }

  lemma WriteKeepsAsksDistinct(op: Op, log: seq<Event>)
    requires AsksDistinct(log) && Decide(op, Replay(log)).Some?
    ensures DistinctKeys(Decide(op, Replay(log)).value.outstandingAsks)
  {
    if !op.EnsureForWorkspace? {
      ReplayFinds(log, op.id);
      FindFacts(Store(log), op.id);
      var asks := Current(log, op.id).value.outstandingAsks;
      if op.AddAsk? { WithoutAskFacts(asks, op.ask.signalKey); }
      if op.ClearAsk? { WithoutAskFacts(asks, op.signalKey); }
    }
  }

  ghost predicate Asks(s: State) {
    AsksDistinct(s.log) && forall i :: 0 <= i < |s.calls| && HasRead(s, i) ==> AsksDistinct(s.calls[i].seen.value)
  }

  lemma EventKeepsAsks(log: seq<Event>, e: Event)
    requires AsksDistinct(log) && (e.Upsert? ==> DistinctKeys(e.session.outstandingAsks.GetOr([])))
    ensures AsksDistinct(log + [e])
  {
    StoreAppend(log, e);
    StoreIsDistinct(log);
    match e
    case Upsert(_, p) => PutFacts(Store(log), Normalize(p));
    case Delete(_, d) => DropFacts(Store(log), d);
  }

  lemma StepKeepsAsks(s: State, step: Step)
    requires Live(s) && Asks(s) && Possible(s, step)
    ensures Asks(Apply(s, step))
  {
    if step.Append? {
      var op, seen := s.calls[step.call].op, s.calls[step.call].seen.value;
      AppendLeavesNoReader(s, step.call);
      if Decide(op, Replay(seen)).Some? {
        WriteKeepsAsksDistinct(op, seen);
        EventKeepsAsks(s.log, Upsert(op.now, Persist(Decide(op, Replay(seen)).value)));
      } else {
        assert s.log + Written(op, seen) == s.log;
      }
    } else {
      if IsDirect(step) { EventKeepsAsks(s.log, DirectEvent(step)); }
      forall i | 0 <= i < |Apply(s, step).calls| && HasRead(Apply(s, step), i)
        ensures AsksDistinct(Apply(s, step).calls[i].seen.value)
      {
        ReaderOrigin(s, step, i);
      }
    }
  }

  /** A signal never has two outstanding asks, in any interleaving of additions, clearings and everything else. */
  lemma {:induction false} OneAskPerSignal(steps: seq<Step>)
    ensures Asks(Run(steps))
  {
    if steps != [] {
      var before, last := steps[..|steps| - 1], steps[|steps| - 1];
      OneAskPerSignal(before);
      EveryRunIsLive(before);
      if Possible(Run(before), last) { StepKeepsAsks(Run(before), last); }
    }
  }

  // ----- deletions

  /** An append brings a missing session into being exactly when it writes it: when its operation is on that session and
      decided to write, or creates it. */
  lemma AppendBringsBackIff(s: State, i: nat, id: string)
    requires Possible(s, Append(i)) && Current(s.log, id).None?
    ensures var op, decision := s.calls[i].op, Decide(s.calls[i].op, Replay(s.calls[i].seen.value));
      Current(Apply(s, Append(i)).log, id)
        == if id == (if op.EnsureForWorkspace? then op.freshId else op.id) then decision else None
  {
    var op, seen := s.calls[i].op, s.calls[i].seen.value;
    EffectOfWrite(s.log, op, seen, id);
    if Decide(op, Replay(seen)).Some? { WritesItsSession(op, seen); }
  }

  /** A deletion that lands between a call's read and its append is undone if and only if the call is about the deleted
      session and had decided to write it; then the session is back as the call decided, and otherwise it stays deleted. */
  lemma DeletionIsUndoneIff(s: State, i: nat, id: string, now: int)
    requires HasRead(s, i) && Possible(Apply(s, DeleteDirect(id, now)), Append(i))
    ensures var op, decision := s.calls[i].op, Decide(s.calls[i].op, Replay(s.calls[i].seen.value));
      Current(Apply(Apply(s, DeleteDirect(id, now)), Append(i)).log, id)
        == if !op.EnsureForWorkspace? && op.id == id then decision else None
  {
    var s' := Apply(s, DeleteDirect(id, now));
    CurrentAfter(s.log, Event.Delete(now, id), id);
    assert s'.log[|s.log|] == Event.Delete(now, id);
    AppendBringsBackIff(s', i, id);
  }

  /** An instance: the deletion of a session that an update has read and is about to write. */
  lemma DeleteBetweenReadAndAppendIsUndone()
    ensures var update := UpdateSession("s", Patch(None, None, None, None, None, Some(5)), 1);
      Current(Run([CreateDirect(Created("s", "t", None, 0)), Invoke(update), Enter(0), Read(0), DeleteDirect("s", 2), Append(0)]).log, "s").Some?
  {
    var s0 := Created("s", "t", None, 0);
    var update := UpdateSession("s", Patch(None, None, None, None, None, Some(5)), 1);
    var create := Upsert(0, Persist(s0));
    var r1 := Apply(INITIAL, CreateDirect(s0));
    assert r1.log == [create];
    var r2 := Apply(r1, Invoke(update));
    assert |r2.chain.tasks| == 1 && r2.chain.tasks[0].phase.Queued? && r2.chain.tasks[0].prior.None?;
    var r4 := Apply(Apply(r2, Enter(0)), Read(0));
    assert r4.calls == [Call(update, Some([create]))];
    RunOfSix(CreateDirect(s0), Invoke(update), Enter(0), Read(0), DeleteDirect("s", 2), Append(0));
    DeletionIsUndoneIff(r4, 0, "s", 2);
    CurrentAfter([], create, "s");
    assert [] + [create] == [create];
    DecidesOnOne(update, [create]);
    FindFacts(Store([create]), "s");
  }

  lemma RunOfSix(a: Step, b: Step, c: Step, d: Step, e: Step, f: Step)
    ensures Run([a, b, c, d, e, f]) == Apply(Apply(Apply(Apply(Apply(Apply(INITIAL, a), b), c), d), e), f)
  {
    RunAppend([], a);
    assert [] + [a] == [a];
    RunAppend([a], b);
    assert [a] + [b] == [a, b];
    RunAppend([a, b], c);
    assert [a, b] + [c] == [a, b, c];
    RunAppend([a, b, c], d);
    assert [a, b, c] + [d] == [a, b, c, d];
    RunAppend([a, b, c, d], e);
    assert [a, b, c, d] + [e] == [a, b, c, d, e];
    RunAppend([a, b, c, d, e], f);
    assert [a, b, c, d, e] + [f] == [a, b, c, d, e, f];
  }
}
