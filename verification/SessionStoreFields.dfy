/** What happens to each field of a stored session over a run, told by the commits alone. */
module SessionStoreFields {
  import opened Wrappers
  import opened Sorting
  import opened Text
  import opened SessionStore
  import opened SessionStoreFacts
  import opened SessionStoreRuns
  import opened SessionStoreGuarantees

  // ----- the last word

  /** The value that the last of the commits with a say has set. */
  ghost function Last<T>(commits: seq<Commit>, says: Commit -> Option<T>): Option<T> {
    if commits == [] then None
    else match says(commits[|commits| - 1]) case Some(v) => Some(v) case None => Last(commits[..|commits| - 1], says)
  }

  /** The patch of an update of the session, by a call that had seen it. */
  ghost function PatchOf(c: Commit, id: string): Option<Patch> {
    if Saw(c, id) && c.op.UpdateSession? && c.op.id == id then Some(c.op.patch) else None
  }

  ghost function TitleSaid(id: string): Commit -> Option<string> {
    (c: Commit) => match PatchOf(c, id)
      case Some(p) => if p.title.Some? && Trim(p.title.value) != "" then Some(Trim(p.title.value)) else None
      case None => None
  }

  /** A goal of white space, and none, are no goal. */
  ghost function GoalSaid(id: string): Commit -> Option<Option<string>> {
    (c: Commit) => match PatchOf(c, id)
      case Some(Patch(_, Some(Some(goal)), _, _, _, _)) => Some(if Trim(goal) == "" then None else Some(Trim(goal)))
      case Some(Patch(_, Some(None), _, _, _, _)) => Some(None)
      case _ => None
  }

  ghost function RiskSaid(id: string): Commit -> Option<bool> {
    (c: Commit) => match PatchOf(c, id) case Some(p) => p.riskAcknowledged case None => None
  }

  ghost function PathsSaid(id: string): Commit -> Option<seq<string>> {
    (c: Commit) => match PatchOf(c, id) case Some(p) => p.sandboxWritablePaths case None => None
  }

  /** Everything but recorded taint stamps the time. */
  ghost function TimeSaid(id: string): Commit -> Option<int> {
    (c: Commit) => if Saw(c, id) && !c.op.EnsureForWorkspace? && !c.op.RecordTaint? && c.op.id == id then Some(c.op.now) else None
  }

  // ----- writable paths

  /** `n` lists the trimmed texts of `paths` that are not empty, each once, in the order they first appear. */
  ghost predicate ListsPaths(n: seq<string>, paths: seq<string>) {
    && CleanPaths(n)
    && (forall p :: p in n <==> p != "" && p in Trimmed(paths))
    && (forall j: nat, k: nat :: j < k < |n| ==> FirstBefore(paths, n[j], n[k]))
  }

  /** The text first appears at `i`. */
  ghost predicate FirstAt(paths: seq<string>, p: string, i: nat) {
    i < |paths| && Trim(paths[i]) == p && p !in Trimmed(paths[..i])
  }

  /** The text `p` first appears before `q` does. */
  ghost predicate FirstBefore(paths: seq<string>, p: string, q: string) {
    exists i: nat :: FirstAt(paths, p, i) && q !in Trimmed(paths[..i])
  }

  ghost function Trimmed(paths: seq<string>): set<string> { set p | p in paths :: Trim(p) }

  lemma TrimmedOneMore(paths: seq<string>, p: string)
    ensures Trimmed(paths + [p]) == Trimmed(paths) + {Trim(p)}
  {
  }

  lemma {:induction false} NormalizedMembers(paths: seq<string>)
    ensures forall p :: p in NormalizePaths(paths) <==> p != "" && p in Trimmed(paths)
  {
    if paths != [] {
      NormalizedMembers(paths[..|paths| - 1]);
      TrimmedOneMore(paths[..|paths| - 1], paths[|paths| - 1]);
      assert paths == paths[..|paths| - 1] + [paths[|paths| - 1]];
    }
  }

  lemma {:induction false} NormalizedInOrder(paths: seq<string>, j: nat, k: nat)
    requires j < k < |NormalizePaths(paths)|
    ensures FirstBefore(paths, NormalizePaths(paths)[j], NormalizePaths(paths)[k])
  {
    var m := |paths| - 1;
    var before, n := NormalizePaths(paths[..m]), NormalizePaths(paths);
    NormalizedMembers(paths[..m]);
    if k < |before| {
      NormalizedInOrder(paths[..m], j, k);
      var i: nat :| FirstAt(paths[..m], before[j], i) && before[k] !in Trimmed(paths[..m][..i]);
      assert paths[..m][..i] == paths[..i];
      assert FirstAt(paths, n[j], i);
    } else {
      assert n[j] in before;
      var i := FirstPlace(paths[..m], n[j]);
      assert paths[..m][..i] == paths[..i];
      assert FirstAt(paths, n[j], i);
      forall p | p in Trimmed(paths[..i])
        ensures p in Trimmed(paths[..m])
      {
        var q :| q in paths[..i] && Trim(q) == p;
        assert q in paths[..m];
      }
    }
  }

  lemma {:induction false} FirstPlace(paths: seq<string>, p: string) returns (i: nat)
    requires p in Trimmed(paths)
    ensures FirstAt(paths, p, i)
  {
    var m := |paths| - 1;
    TrimmedOneMore(paths[..m], paths[m]);
    assert paths == paths[..m] + [paths[m]];
    if p in Trimmed(paths[..m]) {
      i := FirstPlace(paths[..m], p);
      assert paths[..m][..i] == paths[..i];
    } else {
      i := m;
    }
  }

  /** Writable paths are stored trimmed, without empty ones, each once, in the order they were first given. */
  lemma PathsAreListed(paths: seq<string>)
    ensures ListsPaths(NormalizePaths(paths), paths)
  {
    var n := NormalizePaths(paths);
    NormalizedPaths(paths);
    NormalizedMembers(paths);
    forall j: nat, k: nat | j < k < |n|
      ensures FirstBefore(paths, n[j], n[k])
    {
      NormalizedInOrder(paths, j, k);
    }
  }

  // ----- fields

  /** The fields of `now` are those of `was`, changed by the last commits with a say in each. */
  ghost predicate FieldsFollow(was: Session, now: Session, commits: seq<Commit>) {
    && now.id == was.id && now.ownedWorkspaceId == was.ownedWorkspaceId && now.createdAt == was.createdAt
    && now.title == Last(commits, TitleSaid(was.id)).GetOr(was.title)
    && now.goal == Last(commits, GoalSaid(was.id)).GetOr(was.goal)
    && now.riskAcknowledged == Last(commits, RiskSaid(was.id)).GetOr(was.riskAcknowledged)
    && now.updatedAt == Last(commits, TimeSaid(was.id)).GetOr(was.updatedAt)
    && match Last(commits, PathsSaid(was.id))
       case Some(paths) => ListsPaths(now.sandboxWritablePaths, paths)
       case None => now.sandboxWritablePaths == was.sandboxWritablePaths
  }

  lemma LastOneMore<T>(commits: seq<Commit>, c: Commit, says: Commit -> Option<T>)
    ensures Last(commits + [c], says) == if says(c).Some? then says(c) else Last(commits, says)
  {
    assert (commits + [c])[..|commits|] == commits;
  }

  /** One commit changes the fields that it has a say in. */
  lemma EffectOnFields(c: Commit, cur: Session)
    ensures FieldsFollow(cur, Effect(c, cur), [c])
  {
    LastOneMore([], c, TitleSaid(cur.id));
    LastOneMore([], c, GoalSaid(cur.id));
    LastOneMore([], c, RiskSaid(cur.id));
    LastOneMore([], c, PathsSaid(cur.id));
    LastOneMore([], c, TimeSaid(cur.id));
    assert [] + [c] == [c];
    if PatchOf(c, cur.id).Some? && c.op.patch.sandboxWritablePaths.Some? { PathsAreListed(c.op.patch.sandboxWritablePaths.value); }
  }

  lemma FieldsOneMore(was: Session, mid: Session, now: Session, commits: seq<Commit>, c: Commit)
    requires FieldsFollow(was, mid, commits) && FieldsFollow(mid, now, [c])
    ensures FieldsFollow(was, now, commits + [c])
  {
    assert [] + [c] == [c];
    LastOneMore([], c, TitleSaid(was.id));
    LastOneMore([], c, GoalSaid(was.id));
    LastOneMore([], c, RiskSaid(was.id));
    LastOneMore([], c, PathsSaid(was.id));
    LastOneMore([], c, TimeSaid(was.id));
    LastOneMore(commits, c, TitleSaid(was.id));
    LastOneMore(commits, c, GoalSaid(was.id));
    LastOneMore(commits, c, RiskSaid(was.id));
    LastOneMore(commits, c, PathsSaid(was.id));
    LastOneMore(commits, c, TimeSaid(was.id));
  }

  lemma {:induction false} EvolvedFields(cur: Session, commits: seq<Commit>)
    ensures FieldsFollow(cur, Evolved(cur, commits), commits)
  {
    if commits != [] {
      var before, c := commits[..|commits| - 1], commits[|commits| - 1];
      EvolvedFields(cur, before);
      EffectOnFields(c, Evolved(cur, before));
      FieldsOneMore(cur, Evolved(cur, before), Evolved(cur, commits), before, c);
      assert commits == before + [c];
    }
  }

  /** In every interleaving, from any state that has the session and while nobody deletes it: title, goal, risk flag,
      writable paths and time are each the value that the last commit with a say in it has set, and are otherwise what they
      were; owner and creation time never change. */
  lemma FieldsEvolveInRun(before: seq<Step>, after: seq<Step>, id: string)
    requires Current(Run(before).log, id).Some?
    requires forall c :: c in Since(before, after) ==> !Deletes(c, id)
    ensures Current(Run(before + after).log, id).Some?
    ensures FieldsFollow(Current(Run(before).log, id).value, Current(Run(before + after).log, id).value, Since(before, after))
  {
    SessionEvolves(before, after, id);
    EvolvedFields(Current(Run(before).log, id).value, Since(before, after));
  }

  // ----- tokens, with totals overwritten

  /** The total that an update without a delta sets. */
  ghost function TotalSaid(id: string): Commit -> Option<int> {
    (c: Commit) => match PatchOf(c, id)
      case Some(p) => if p.addTokensUsed.None? then p.totalTokensUsed else None
      case None => None
  }

  /** The deltas since the last commit that set the total. */
  ghost function DeltasSince(commits: seq<Commit>, id: string): int {
    if commits == [] || TotalSaid(id)(commits[|commits| - 1]).Some? then 0
    else DeltasSince(commits[..|commits| - 1], id) + TokenDelta(commits[|commits| - 1], id)
  }

  lemma {:induction false} EvolvedTotal(cur: Session, commits: seq<Commit>)
    ensures Evolved(cur, commits).id == cur.id
    ensures Evolved(cur, commits).totalTokensUsed
         == Last(commits, TotalSaid(cur.id)).GetOr(cur.totalTokensUsed) + DeltasSince(commits, cur.id)
  {
    if commits != [] { EvolvedTotal(cur, commits[..|commits| - 1]); }
  }

  /** The token total is the last one set outright plus the deltas committed since. */
  lemma TotalEvolvesInRun(before: seq<Step>, after: seq<Step>, id: string)
    requires Current(Run(before).log, id).Some?
    requires forall c :: c in Since(before, after) ==> !Deletes(c, id)
    ensures Current(Run(before + after).log, id).Some?
    ensures Current(Run(before + after).log, id).value.totalTokensUsed
         == Last(Since(before, after), TotalSaid(id)).GetOr(Current(Run(before).log, id).value.totalTokensUsed)
            + DeltasSince(Since(before, after), id)
  {
    SessionEvolves(before, after, id);
    FindFacts(Store(Run(before).log), id);
    EvolvedTotal(Current(Run(before).log, id).value, Since(before, after));
  }

  // ----- outstanding asks

  /** What a commit says of one signal: its new ask, or that it is cleared. */
  ghost function AskSaid(id: string, key: string): Commit -> Option<Option<Ask>> {
    (c: Commit) =>
      if !Saw(c, id) || c.op.EnsureForWorkspace? || c.op.id != id then None
      else match c.op
        case AddAsk(_, ask, _) => if ask.signalKey == key then Some(Some(ask)) else None
        case ClearAsk(_, signalKey, _) => if signalKey == key then Some(None) else None
        case _ => None
  }

  ghost predicate AsksFollow(was: Session, now: Session, commits: seq<Commit>) {
    now.id == was.id && forall a :: a in now.outstandingAsks <==>
      match Last(commits, AskSaid(was.id, a.signalKey)) case Some(said) => said == Some(a) case None => a in was.outstandingAsks
  }

  lemma EffectOnAsk(c: Commit, cur: Session, a: Ask)
    ensures Effect(c, cur).id == cur.id
    ensures a in Effect(c, cur).outstandingAsks <==>
      match AskSaid(cur.id, a.signalKey)(c) case Some(said) => said == Some(a) case None => a in cur.outstandingAsks
  {
    if Saw(c, cur.id) && !c.op.EnsureForWorkspace? && c.op.id == cur.id {
      if c.op.AddAsk? { WithoutAskFacts(cur.outstandingAsks, c.op.ask.signalKey); }
      if c.op.ClearAsk? { WithoutAskFacts(cur.outstandingAsks, c.op.signalKey); }
    }
  }

  lemma {:induction false} EvolvedAsks(cur: Session, commits: seq<Commit>)
    ensures AsksFollow(cur, Evolved(cur, commits), commits)
  {
    if commits != [] {
      var before, c := commits[..|commits| - 1], commits[|commits| - 1];
      EvolvedAsks(cur, before);
      assert commits == before + [c];
      forall a: Ask
        ensures a in Evolved(cur, commits).outstandingAsks <==>
          match Last(commits, AskSaid(cur.id, a.signalKey)) case Some(said) => said == Some(a) case None => a in cur.outstandingAsks
      {
        EffectOnAsk(c, Evolved(cur, before), a);
        LastOneMore(before, c, AskSaid(cur.id, a.signalKey));
      }
      EffectOnAsk(c, Evolved(cur, before), Ask("", "", None));
    }
  }

  /** An ask is outstanding if and only if the last commit about its signal added it, or there was none and it was there. */
  lemma AsksEvolveInRun(before: seq<Step>, after: seq<Step>, id: string)
    requires Current(Run(before).log, id).Some?
    requires forall c :: c in Since(before, after) ==> !Deletes(c, id)
    ensures Current(Run(before + after).log, id).Some?
    ensures AsksFollow(Current(Run(before).log, id).value, Current(Run(before + after).log, id).value, Since(before, after))
  {
    SessionEvolves(before, after, id);
    EvolvedAsks(Current(Run(before).log, id).value, Since(before, after));
  }

  lemma {:induction false} WithoutAskInOrder(asks: seq<Ask>, key: string, k: nat)
    requires k <= |asks|
    ensures WithoutAsk(asks, key) == WithoutAsk(asks[..k], key) + WithoutAsk(asks[k..], key)
  {
    if k > 0 {
      WithoutAskInOrder(asks[1..], key, k - 1);
      assert asks[..k][1..] == asks[1..][..k - 1] && asks[k..] == asks[1..][k - 1..];
    }
  }

  function SignalOf(op: Op): string
    requires op.AddAsk? || op.ClearAsk?
  {
    if op.AddAsk? then op.ask.signalKey else op.signalKey
  }

  /** `a` stands before `b`. */
  predicate Before(asks: seq<Ask>, a: Ask, b: Ask) { exists k, l :: 0 <= k < l < |asks| && asks[k] == a && asks[l] == b }

  lemma WithoutAskKeepsOrder(asks: seq<Ask>, key: string, i: nat, j: nat)
    requires i < j < |asks| && asks[i].signalKey != key && asks[j].signalKey != key
    ensures Before(WithoutAsk(asks, key), asks[i], asks[j])
  {
    var front := WithoutAsk(asks[..j], key);
    WithoutAskInOrder(asks, key, j);
    WithoutAskFacts(asks[..j], key);
    assert asks[..j][i] == asks[i] && asks[i] in front;
    var k :| 0 <= k < |front| && front[k] == asks[i];
    assert asks[j..][0] == asks[j] && WithoutAsk(asks[j..], key)[0] == asks[j];
    var now := WithoutAsk(asks, key);
    assert now[k] == asks[i] && now[|front|] == asks[j];
  }

  /** A new ask comes last, behind those of other signals in their old order; clearing keeps that order too. */
  lemma AsksKeepOrder(op: Op, s: Session, i: nat, j: nat)
    requires op.AddAsk? || op.ClearAsk?
    requires i < j < |s.outstandingAsks| && op.id == s.id
    requires s.outstandingAsks[i].signalKey != SignalOf(op) && s.outstandingAsks[j].signalKey != SignalOf(op)
    ensures Decide(op, [s]).Some?
    ensures var now := Decide(op, [s]).value.outstandingAsks;
      && Before(now, s.outstandingAsks[i], s.outstandingAsks[j])
      && (op.AddAsk? ==> now[|now| - 1] == op.ask)
  {
    var kept := WithoutAsk(s.outstandingAsks, SignalOf(op));
    WithoutAskKeepsOrder(s.outstandingAsks, SignalOf(op), i, j);
    var k, l :| 0 <= k < l < |kept| && kept[k] == s.outstandingAsks[i] && kept[l] == s.outstandingAsks[j];
    var now := Decide(op, [s]).value.outstandingAsks;
    assert now[k] == kept[k] && now[l] == kept[l];
  }

  // ----- the risk flag

  /** Somebody has acknowledged the risk of the session: an update said so, or it was created so. */
  predicate Acknowledged(commits: seq<Commit>, id: string) {
    exists c :: c in commits && Acknowledges(c, id)
  }

  predicate Acknowledges(c: Commit, id: string) {
    match c
    case Chained(_, op, _) => op.UpdateSession? && op.id == id && op.patch.riskAcknowledged == Some(true)
    case Direct(e) => e.Upsert? && e.session.id == id && e.session.riskAcknowledged == Some(true)
  }

  ghost predicate RiskIsKnown(log: seq<Event>, commits: seq<Commit>) {
    forall s :: s in Store(log) && s.riskAcknowledged ==> Acknowledged(commits, s.id)
  }

  ghost predicate RisksAreKnown(s: State) {
    RiskIsKnown(s.log, s.commits)
    && forall i :: 0 <= i < |s.calls| && HasRead(s, i) ==> RiskIsKnown(s.calls[i].seen.value, s.commits)
  }

  lemma AcknowledgedStays(commits: seq<Commit>, more: seq<Commit>, log: seq<Event>)
    requires RiskIsKnown(log, commits)
    ensures RiskIsKnown(log, commits + more)
  {
    forall s | s in Store(log) && s.riskAcknowledged
      ensures Acknowledged(commits + more, s.id)
    {
      var c :| c in commits && Acknowledges(c, s.id);
      assert c in commits + more;
    }
  }

  lemma EventKeepsRisk(log: seq<Event>, commits: seq<Commit>, e: Event)
    requires RiskIsKnown(log, commits)
    requires e.Upsert? && e.session.riskAcknowledged == Some(true) ==> Acknowledged(commits, e.session.id)
    ensures RiskIsKnown(log + [e], commits)
  {
    StoreAppend(log, e);
    StoreIsDistinct(log);
    match e
    case Upsert(_, p) => PutFacts(Store(log), Normalize(p));
    case Delete(_, d) => DropFacts(Store(log), d);
  }

  /** What a call writes is acknowledged only if its patch says so or what it read was. */
  lemma WriteIsAcknowledged(s: State, i: nat)
    requires Possible(s, Append(i)) && RisksAreKnown(s)
    ensures var c := Chained(i, s.calls[i].op, s.calls[i].seen.value); var d := Decide(c.op, Replay(c.seen));
      d.Some? && d.value.riskAcknowledged ==> Acknowledged(s.commits + [c], d.value.id)
  {
    var c := Chained(i, s.calls[i].op, s.calls[i].seen.value);
    assert c in s.commits + [c];
    AcknowledgedStays(s.commits, [c], c.seen);
    if Decide(c.op, Replay(c.seen)).Some? && !c.op.EnsureForWorkspace? {
      ReplayFinds(c.seen, c.op.id);
      FindFacts(Store(c.seen), c.op.id);
      if c.op.UpdateSession? && c.op.patch.riskAcknowledged == Some(true) { assert Acknowledges(c, c.op.id); }
    }
  }

  lemma StepKeepsRisks(s: State, step: Step)
    requires Live(s) && RisksAreKnown(s) && Possible(s, step)
    ensures RisksAreKnown(Apply(s, step))
  {
    if step.Append? {
      var op, seen := s.calls[step.call].op, s.calls[step.call].seen.value;
      var c := Chained(step.call, op, seen);
      AppendLeavesNoReader(s, step.call);
      WriteIsAcknowledged(s, step.call);
      AcknowledgedStays(s.commits, [c], s.log);
      match Decide(op, Replay(seen))
      case None => assert s.log + Written(op, seen) == s.log;
      case Some(d) => EventKeepsRisk(s.log, s.commits + [c], Upsert(op.now, Persist(d)));
    } else {
      var more := if IsDirect(step) then [Direct(DirectEvent(step))] else [];
      assert Apply(s, step).commits == s.commits + more;
      AcknowledgedStays(s.commits, more, s.log);
      if IsDirect(step) {
        assert more[0] in s.commits + more;
        EventKeepsRisk(s.log, s.commits + more, DirectEvent(step));
      }
      forall i | 0 <= i < |Apply(s, step).calls| && HasRead(Apply(s, step), i)
        ensures RiskIsKnown(Apply(s, step).calls[i].seen.value, Apply(s, step).commits)
      {
        ReaderOrigin(s, step, i);
        if !step.Read? || i != step.call { AcknowledgedStays(s.commits, more, s.calls[i].seen.value); }
      }
    }
  }

  /** No session is ever risk-acknowledged unless some committed update of it said so, or it was created so: in every
      interleaving, deletions included. */
  lemma {:induction false} RiskNeedsAcknowledgement(steps: seq<Step>)
    ensures RisksAreKnown(Run(steps))
  {
    if steps != [] {
      var before, last := steps[..|steps| - 1], steps[|steps| - 1];
      RiskNeedsAcknowledgement(before);
      EveryRunIsLive(before);
      if Possible(Run(before), last) { StepKeepsRisks(Run(before), last); }
    }
  }

  // ----- find or create

  /** A session that find-or-create has just made: it has its title and nothing else. */
  predicate JustMade(s: Session, op: Op)
    requires op.EnsureForWorkspace?
  {
    && s.id == op.freshId && s.ownedWorkspaceId == Some(op.workspaceId)
    && s.title == (if Trim(op.title) != "" then Trim(op.title) else "Untitled session")
    && s.goal.None? && !s.riskAcknowledged && s.sandboxWritablePaths == [] && s.outstandingAsks == []
    && s.totalTokensUsed == 0 && s.taintLabels == [] && s.createdAt == s.updatedAt == op.now
  }

  lemma EnsureMakes(log: seq<Event>, op: Op)
    requires op.EnsureForWorkspace? && !HasOwner(log, op.workspaceId)
    ensures var made := Current(log + Written(op, log), op.freshId); made.Some? && JustMade(made.value, op)
  {
    OwnerFound(log, op.workspaceId);
    EffectOfWrite(log, op, log, op.freshId);
  }

  /** After a find-or-create the workspace has an owner: those it had, or else a new session with nothing but its title. */
  lemma EnsureLeavesAnOwner(log: seq<Event>, op: Op)
    requires op.EnsureForWorkspace?
    ensures var log' := log + Written(op, log);
      && HasOwner(log', op.workspaceId)
      && if HasOwner(log, op.workspaceId) then log' == log
         else Current(log', op.freshId).Some? && JustMade(Current(log', op.freshId).value, op)
  {
    if HasOwner(log, op.workspaceId) {
      OwnerFound(log, op.workspaceId);
      assert log + Written(op, log) == log;
    } else {
      EnsureMakes(log, op);
      FindFacts(Store(log + Written(op, log)), op.freshId);
    }
  }

  // ----- the order of sessions

  function Ids(store: seq<Session>): seq<string> { seq(|store|, i requires 0 <= i < |store| => store[i].id) }

  /** The sessions that are there, by when they first came since their last deletion. */
  function Arrivals(log: seq<Event>): seq<string> {
    if log == [] then []
    else
      var before := Arrivals(log[..|log| - 1]);
      match log[|log| - 1]
      case Upsert(_, p) => if p.id in before then before else before + [p.id]
      case Delete(_, id) => Removed(before, id)
  }

  function Removed(ids: seq<string>, id: string): seq<string> {
    if ids == [] then [] else (if ids[0] == id then [] else [ids[0]]) + Removed(ids[1..], id)
  }

  lemma {:induction false} PutIds(store: seq<Session>, s: Session)
    ensures Ids(Put(store, s)) == if s.id in Ids(store) then Ids(store) else Ids(store) + [s.id]
  {
    if store != [] {
      assert Ids(store) == [store[0].id] + Ids(store[1..]);
      if store[0].id != s.id {
        PutIds(store[1..], s);
        assert Ids(Put(store, s)) == [store[0].id] + Ids(Put(store[1..], s));
      }
    }
  }

  lemma {:induction false} RemovedOther(ids: seq<string>, id: string)
    requires id !in ids
    ensures Removed(ids, id) == ids
  {
    if ids != [] { RemovedOther(ids[1..], id); }
  }

  lemma {:induction false} DropIds(store: seq<Session>, id: string)
    requires DistinctIds(store)
    ensures Ids(Drop(store, id)) == Removed(Ids(store), id)
  {
    if store != [] {
      assert Ids(store) == [store[0].id] + Ids(store[1..]);
      if store[0].id == id {
        assert forall i :: 0 <= i < |store[1..]| ==> store[1..][i].id != id;
        RemovedOther(Ids(store[1..]), id);
      } else {
        DropIds(store[1..], id);
        assert Ids(Drop(store, id)) == [store[0].id] + Ids(Drop(store[1..], id));
      }
    }
  }

  lemma {:induction false} StoreArrivals(log: seq<Event>)
    ensures Ids(Store(log)) == Arrivals(log)
  {
    if log != [] {
      var before := log[..|log| - 1];
      StoreArrivals(before);
      StoreIsDistinct(before);
      match log[|log| - 1]
      case Upsert(_, p) => PutIds(Store(before), Normalize(p));
      case Delete(_, id) => DropIds(Store(before), id);
    }
  }

  /** The place of a session in the order of arrival. */
  function Place(ids: seq<string>, id: string): nat {
    if ids == [] || ids[0] == id then 0 else 1 + Place(ids[1..], id)
  }

  lemma {:induction false} PlaceOf(store: seq<Session>, i: nat)
    requires DistinctIds(store) && i < |store|
    ensures Place(Ids(store), store[i].id) == i
  {
    assert Ids(store)[1..] == Ids(store[1..]);
    if i > 0 {
      assert store[0].id != store[i].id;
      PlaceOf(store[1..], i - 1);
    }
  }

  /** Newer first, and of two with the same time the one that arrived first. */
  function ListedBefore(ids: seq<string>): (Session, Session) -> bool {
    (a: Session, b: Session) => a.updatedAt > b.updatedAt || (a.updatedAt == b.updatedAt && Place(ids, a.id) <= Place(ids, b.id))
  }

  /** Sessions are listed newest update first, those with equal times in the order in which they arrived. */
  lemma SessionsAreListedNewestFirst(log: seq<Event>)
    ensures SortedBy(Replay(log), ListedBefore(Arrivals(log)))
    ensures forall s :: s in Replay(log) <==> Current(log, s.id) == Some(s)
  {
    var store := Store(log);
    StoreArrivals(log);
    StoreIsDistinct(log);
    ReplayMembers(log);
    forall i, j | 0 <= i < j < |store| && NewestFirst()(store[i], store[j])
      ensures ListedBefore(Arrivals(log))(store[i], store[j])
    {
      PlaceOf(store, i);
      PlaceOf(store, j);
    }
    SortIsStable(store, NewestFirst(), ListedBefore(Arrivals(log)));
    forall s: Session
      ensures s in store <==> Current(log, s.id) == Some(s)
    {
      FindFacts(store, s.id);
      if s in store && Current(log, s.id) != Some(s) { SameIdSameSession(store, s.id); }
    }
  }

  // ----- older records

  /** A record that lacks a field is read with the safe value: not acknowledged, no paths, no asks, no tokens, no taint; and
      what it has is kept. */
  lemma OlderRecordsReadSafely(p: Persisted)
    ensures var s := Normalize(p);
      && (s.riskAcknowledged <==> p.riskAcknowledged == Some(true))
      && ListsPaths(s.sandboxWritablePaths, p.sandboxWritablePaths.GetOr([]))
      && (p.outstandingAsks.None? ==> s.outstandingAsks == []) && (p.outstandingAsks.Some? ==> s.outstandingAsks == p.outstandingAsks.value)
      && (p.totalTokensUsed.None? ==> s.totalTokensUsed == 0) && (p.totalTokensUsed.Some? ==> s.totalTokensUsed == p.totalTokensUsed.value)
      && LabelSet(s.taintLabels) == (if p.taintLabels.Some? then LabelSet(p.taintLabels.value) else {})
      && s.id == p.id && s.title == p.title && s.goal == p.goal && s.ownedWorkspaceId == p.ownedWorkspaceId
      && s.createdAt == p.createdAt && s.updatedAt == p.updatedAt
  {
    PathsAreListed(p.sandboxWritablePaths.GetOr([]));
    PropagationIsUnion([], p.taintLabels.GetOr([]));
  }
}
