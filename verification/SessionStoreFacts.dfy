/** Facts about the session log: what replay remembers of one session, and how little an operation looks at. */
module SessionStoreFacts {
  import opened Wrappers
  import opened Sorting
  import opened Text
  import opened SessionStore

  // ----- taint labels

  lemma {:induction false} FilterMembers(labels: seq<TaintLabel>, present: set<TaintLabel>)
    ensures forall l :: l in Filter(labels, present) <==> l in labels && l in present
  {
    if labels != [] { FilterMembers(labels[1..], present); }
  }

  lemma EveryLabelListed(l: TaintLabel)
    ensures l in TAINT_LABELS
  {
    assert l == TAINT_LABELS[match l
      case RepoInstruction => 0 case Web => 1 case Mcp => 2 case PrivateRepo => 3
      case SecretLike => 4 case UserTrusted => 5 case RuntimePolicy => 6];
  }

  /** Propagation is a union: the result carries exactly the labels of either side. */
  lemma PropagationIsUnion(a: seq<TaintLabel>, b: seq<TaintLabel>)
    ensures LabelSet(PropagateTaint(a, b)) == LabelSet(a) + LabelSet(b)
  {
    FilterMembers(TAINT_LABELS, LabelSet(a) + LabelSet(b));
    forall l
      ensures l in TAINT_LABELS
    {
      EveryLabelListed(l);
    }
  }

  predicate Canonical(labels: seq<TaintLabel>) { labels == Filter(TAINT_LABELS, LabelSet(labels)) }

  lemma PropagatedIsCanonical(a: seq<TaintLabel>, b: seq<TaintLabel>)
    ensures Canonical(PropagateTaint(a, b))
  {
    PropagationIsUnion(a, b);
  }

  // ----- what a written session replays to

  predicate Clean(path: string) { path != "" && Trim(path) == path }

  predicate CleanPaths(n: seq<string>) {
    (forall i :: 0 <= i < |n| ==> Clean(n[i])) && (forall i, j :: 0 <= i < j < |n| ==> n[i] != n[j])
  }

  lemma {:induction false} NormalizedPaths(paths: seq<string>)
    ensures CleanPaths(NormalizePaths(paths))
  {
    if paths != [] {
      NormalizedPaths(paths[..|paths| - 1]);
      TrimIsIdempotent(paths[|paths| - 1]);
    }
  }

  lemma {:induction false} NormalizingTwice(n: seq<string>)
    requires CleanPaths(n)
    ensures NormalizePaths(n) == n
  {
    if n != [] {
      NormalizingTwice(n[..|n| - 1]);
      assert Clean(n[|n| - 1]);
      assert n == n[..|n| - 1] + [n[|n| - 1]];
    }
  }

  ghost predicate WellFormed(s: Session) { Canonical(s.taintLabels) && NormalizePaths(s.sandboxWritablePaths) == s.sandboxWritablePaths }

  /** Whatever a record in the log lacks, replay turns it into a well-formed session. */
  lemma NormalizedIsWellFormed(p: Persisted)
    ensures WellFormed(Normalize(p))
  {
    PropagatedIsCanonical([], p.taintLabels.GetOr([]));
    NormalizedPaths(p.sandboxWritablePaths.GetOr([]));
    NormalizingTwice(NormalizePaths(p.sandboxWritablePaths.GetOr([])));
  }

  /** Round trip: a well-formed session that is written comes back unchanged. */
  lemma PersistRoundTrip(s: Session)
    ensures WellFormed(s) <==> Normalize(Persist(s)) == s
  {
    assert LabelSet([]) + LabelSet(s.taintLabels) == LabelSet(s.taintLabels);
  }

  // ----- lookups

  ghost predicate DistinctIds(store: seq<Session>) {
    forall i, j :: 0 <= i < j < |store| ==> store[i].id != store[j].id
  }

  lemma {:induction false} FindFacts(store: seq<Session>, id: string)
    ensures match Find(store, id)
      case Some(s) => s in store && s.id == id
      case None => forall s :: s in store ==> s.id != id
  {
    if store != [] { FindFacts(store[1..], id); }
  }

  lemma {:induction false} PutFacts(store: seq<Session>, s: Session)
    requires DistinctIds(store)
    ensures DistinctIds(Put(store, s))
    ensures forall x :: x in Put(store, s) <==> x == s || (x in store && x.id != s.id)
  {
    if store != [] && store[0].id != s.id {
      PutFacts(store[1..], s);
      assert store == [store[0]] + store[1..];
    } else if store != [] {
      assert store == [store[0]] + store[1..];
    }
  }

  lemma {:induction false} DropFacts(store: seq<Session>, id: string)
    requires DistinctIds(store)
    ensures DistinctIds(Drop(store, id))
    ensures forall x :: x in Drop(store, id) <==> x in store && x.id != id
  {
    if store != [] {
      assert store == [store[0]] + store[1..];
      if store[0].id != id { DropFacts(store[1..], id); }
    }
  }

  lemma {:induction false} StoreIsDistinct(log: seq<Event>)
    ensures DistinctIds(Store(log))
    ensures forall s :: s in Store(log) ==> WellFormed(s)
  {
    if log != [] {
      var before := Store(log[..|log| - 1]);
      StoreIsDistinct(log[..|log| - 1]);
      match log[|log| - 1]
      case Upsert(_, p) => PutFacts(before, Normalize(p)); NormalizedIsWellFormed(p);
      case Delete(_, id) => DropFacts(before, id);
    }
  }

  lemma StoreAppend(log: seq<Event>, e: Event)
    ensures Store(log + [e]) == Step(Store(log), e)
  {
    assert (log + [e])[..|log|] == log;
  }

  lemma ReplayMembers(log: seq<Event>)
    ensures forall s :: s in Replay(log) <==> s in Store(log)
  {
    SortKeepsElements(Store(log), NewestFirst());
    assert forall s :: s in Replay(log) <==> s in multiset(Replay(log));
    assert forall s :: s in Store(log) <==> s in multiset(Store(log));
  }

  /** The session with an id, as the log records it. */
  ghost function Current(log: seq<Event>, id: string): Option<Session> { Find(Store(log), id) }

  /** Replay finds a session exactly as the map holds it, in whatever order the list is. */
  lemma ReplayFinds(log: seq<Event>, id: string)
    ensures Find(Replay(log), id) == Current(log, id)
  {
    ReplayMembers(log);
    StoreIsDistinct(log);
    FindFacts(Replay(log), id);
    FindFacts(Store(log), id);
  }

  /** One event changes only the session it names. */
  lemma CurrentAfter(log: seq<Event>, e: Event, id: string)
    ensures Current(log + [e], id) ==
      match e
      case Upsert(_, p) => if p.id == id then Some(Normalize(p)) else Current(log, id)
      case Delete(_, d) => if d == id then None else Current(log, id)
  {
    StoreAppend(log, e);
    StoreIsDistinct(log);
    match e
    case Upsert(_, p) =>
      PutFacts(Store(log), Normalize(p));
      FindFacts(Put(Store(log), Normalize(p)), id);
      FindFacts(Store(log), id);
    case Delete(_, d) =>
      DropFacts(Store(log), d);
      FindFacts(Drop(Store(log), d), id);
      FindFacts(Store(log), id);
  }

  lemma {:induction false} OwnedMembers(sessions: seq<Session>, w: string)
    ensures forall s :: s in OwnedBy(sessions, w) <==> s in sessions && s.ownedWorkspaceId == Some(w)
  {
    if sessions != [] { OwnedMembers(sessions[1..], w); }
  }

  ghost predicate HasOwner(log: seq<Event>, w: string) {
    exists s :: s in Store(log) && s.ownedWorkspaceId == Some(w)
  }

  /** The owner lookup finds an owner when there is one, and the newest-updated of them. */
  lemma OwnerFound(log: seq<Event>, w: string)
    ensures FindOwner(Replay(log), w).Some? <==> HasOwner(log, w)
    ensures FindOwner(Replay(log), w).Some? ==>
      var o := FindOwner(Replay(log), w).value;
      o in Store(log) && o.ownedWorkspaceId == Some(w)
      && forall s :: s in Store(log) && s.ownedWorkspaceId == Some(w) ==> s.updatedAt <= o.updatedAt
  {
    var owned := OwnedBy(Replay(log), w);
    var sorted := Sort(owned, NewestFirst());
    ReplayMembers(log);
    OwnedMembers(Replay(log), w);
    SortKeepsElements(owned, NewestFirst());
    SortSorts(owned, NewestFirst());
    forall s
      ensures s in sorted <==> s in owned
    {
      assert s in multiset(sorted) <==> s in multiset(owned);
    }
    if sorted != [] {
      assert sorted[0] in sorted;
      forall s | s in Store(log) && s.ownedWorkspaceId == Some(w)
        ensures s.updatedAt <= sorted[0].updatedAt
      {
        assert s in sorted;
        var k :| 0 <= k < |sorted| && sorted[k] == s;
        if k > 0 { assert NewestFirst()(sorted[0], sorted[k]); }
      }
    } else {
      forall s | s in Store(log)
        ensures s.ownedWorkspaceId != Some(w)
      {
        assert s !in sorted;
      }
    }
  }

  /** A decision on one session looks only at that session; the find-or-create looks only at whether there is an owner. */
  lemma DecideLooksLocally(op: Op, a: seq<Event>, b: seq<Event>)
    requires if op.EnsureForWorkspace? then HasOwner(a, op.workspaceId) == HasOwner(b, op.workspaceId)
             else Current(a, op.id) == Current(b, op.id)
    ensures Written(op, a) == Written(op, b)
  {
    if op.EnsureForWorkspace? {
      OwnerFound(a, op.workspaceId);
      OwnerFound(b, op.workspaceId);
    } else {
      ReplayFinds(a, op.id);
      ReplayFinds(b, op.id);
    }
  }

  /** Every write keeps the session well formed, so it replays to exactly what was decided. */
  lemma WrittenIsWellFormed(op: Op, log: seq<Event>)
    ensures match Decide(op, Replay(log)) case None => true case Some(s) => WellFormed(s) && Normalize(Persist(s)) == s
  {
    match Decide(op, Replay(log))
    case None =>
    case Some(s) =>
      if !op.EnsureForWorkspace? {
        ReplayFinds(log, op.id);
        StoreIsDistinct(log);
        FindFacts(Store(log), op.id);
        var before := Current(log, op.id).value;
        assert WellFormed(before);
        if op.UpdateSession? && op.patch.sandboxWritablePaths.Some? {
          NormalizedPaths(op.patch.sandboxWritablePaths.value);
          NormalizingTwice(NormalizePaths(op.patch.sandboxWritablePaths.value));
        }
        if op.RecordTaint? { PropagatedIsCanonical(before.taintLabels, op.labels); }
      } else {
        FilterMembers(TAINT_LABELS, {});
      }
      PersistRoundTrip(s);
  }
}
