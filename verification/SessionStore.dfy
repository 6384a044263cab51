/** The event-sourced chat session store (`src/chat/chat-session-store.ts`): replay, and the read-decide-append
    operations, each as a function of the log and as a method that appends to it. */
module SessionStore {
  import opened Wrappers
  import opened Sorting
  import opened Text

  // ----- data model

  datatype TaintLabel = RepoInstruction | Web | Mcp | PrivateRepo | SecretLike | UserTrusted | RuntimePolicy

  const TAINT_LABELS: seq<TaintLabel> := [RepoInstruction, Web, Mcp, PrivateRepo, SecretLike, UserTrusted, RuntimePolicy]

  datatype Ask = Ask(signalKey: string, taskId: string, question: Option<string>)

  datatype Session = Session(id: string, title: string, goal: Option<string>, riskAcknowledged: bool,
                             sandboxWritablePaths: seq<string>, ownedWorkspaceId: Option<string>,
                             outstandingAsks: seq<Ask>, totalTokensUsed: int, taintLabels: seq<TaintLabel>,
                             createdAt: int, updatedAt: int)

  /** A session as it stands in the log: fields that older records lack may be missing. */
  datatype Persisted = Persisted(id: string, title: string, goal: Option<string>, riskAcknowledged: Option<bool>,
                                 sandboxWritablePaths: Option<seq<string>>, ownedWorkspaceId: Option<string>,
                                 outstandingAsks: Option<seq<Ask>>, totalTokensUsed: Option<int>,
                                 taintLabels: Option<seq<TaintLabel>>, createdAt: int, updatedAt: int)

  datatype Event = Upsert(at: int, session: Persisted) | Delete(at: int, id: string)

  // ----- normalisation

  function Filter(labels: seq<TaintLabel>, present: set<TaintLabel>): seq<TaintLabel> {
    if labels == [] then []
    else (if labels[0] in present then [labels[0]] else []) + Filter(labels[1..], present)
  }

  function LabelSet(labels: seq<TaintLabel>): set<TaintLabel> { set l | l in labels }

  /** The union of two label lists in canonical order. */
  function PropagateTaint(existing: seq<TaintLabel>, incoming: seq<TaintLabel>): seq<TaintLabel> {
    Filter(TAINT_LABELS, LabelSet(existing) + LabelSet(incoming))
  }

  /** Trimmed, without empties, each path once, in first-seen order. */
  function NormalizePaths(paths: seq<string>): seq<string> {
    if paths == [] then []
    else
      var before, p := NormalizePaths(paths[..|paths| - 1]), Trim(paths[|paths| - 1]);
      if p == "" || p in before then before else before + [p]
  }

  function Normalize(p: Persisted): Session {
    Session(p.id, p.title, p.goal, p.riskAcknowledged == Some(true), NormalizePaths(p.sandboxWritablePaths.GetOr([])),
            p.ownedWorkspaceId, p.outstandingAsks.GetOr([]), p.totalTokensUsed.GetOr(0),
            PropagateTaint([], p.taintLabels.GetOr([])), p.createdAt, p.updatedAt)
  }

  function Persist(s: Session): Persisted {
    Persisted(s.id, s.title, s.goal, Some(s.riskAcknowledged), Some(s.sandboxWritablePaths), s.ownedWorkspaceId,
              Some(s.outstandingAsks), Some(s.totalTokensUsed), Some(s.taintLabels), s.createdAt, s.updatedAt)
  }

  // ----- replay

  /** A JavaScript `Map` from id to session: insertion-ordered, setting an existing key keeps its place. */
  function Put(store: seq<Session>, s: Session): seq<Session> {
    if store == [] then [s]
    else if store[0].id == s.id then [s] + store[1..]
    else [store[0]] + Put(store[1..], s)
  }

  function Drop(store: seq<Session>, id: string): seq<Session> {
    if store == [] then []
    else if store[0].id == id then store[1..]
    else [store[0]] + Drop(store[1..], id)
  }

  function Step(store: seq<Session>, e: Event): seq<Session> {
    match e
    case Upsert(_, p) => Put(store, Normalize(p))
    case Delete(_, id) => Drop(store, id)
  }

  function Store(log: seq<Event>): seq<Session> {
    if log == [] then [] else Step(Store(log[..|log| - 1]), log[|log| - 1])
  }

  function NewestFirst(): (Session, Session) -> bool { (a: Session, b: Session) => a.updatedAt >= b.updatedAt }

  /** The current session set, newest-updated first. */
  function Replay(log: seq<Event>): seq<Session> { Sort(Store(log), NewestFirst()) }

  method ReplayChatSessions(events: seq<Event>) returns (sessions: seq<Session>)
    ensures sessions == Replay(events)
  {
    var byId: seq<Session> := [];
    for i := 0 to |events|
      invariant byId == Store(events[..i])
    {
      ghost var next := events[..i + 1];
      assert next[..|next| - 1] == events[..i] && next[|next| - 1] == events[i];
      match events[i]
      case Upsert(_, p) => byId := Put(byId, Normalize(p));
      case Delete(_, id) => byId := Drop(byId, id);
    }
    assert events[..|events|] == events;
    sessions := Sort(byId, NewestFirst());
  }

  function Find(sessions: seq<Session>, id: string): Option<Session> {
    if sessions == [] then None
    else if sessions[0].id == id then Some(sessions[0])
    else Find(sessions[1..], id)
  }

  function OwnedBy(sessions: seq<Session>, workspaceId: string): seq<Session> {
    if sessions == [] then []
    else (if sessions[0].ownedWorkspaceId == Some(workspaceId) then [sessions[0]] else []) + OwnedBy(sessions[1..], workspaceId)
  }

  function FindOwner(sessions: seq<Session>, workspaceId: string): Option<Session> {
    var owned := Sort(OwnedBy(sessions, workspaceId), NewestFirst());
    if owned == [] then None else Some(owned[0])
  }

  // ----- the operations

  /** A patch field is absent (`None`) or present; `goal` may be present and null. */
  datatype Patch = Patch(title: Option<string>, goal: Option<Option<string>>, riskAcknowledged: Option<bool>,
                         sandboxWritablePaths: Option<seq<string>>, totalTokensUsed: Option<int>,
                         addTokensUsed: Option<int>)

  /** The operations that run on the write chain; clock and fresh ids are inputs. */
  datatype Op =
    | UpdateSession(id: string, patch: Patch, now: int)
    | RecordTaint(id: string, labels: seq<TaintLabel>, now: int)
    | AddAsk(id: string, ask: Ask, now: int)
    | ClearAsk(id: string, signalKey: string, now: int)
    | EnsureForWorkspace(workspaceId: string, title: string, freshId: string, now: int)

  function NonEmpty(s: string, default: string): string { if s != "" then s else default }

  function TrimmedGoal(goal: Option<string>): Option<string> {
    if goal.None? || Trim(goal.value) == "" then None else Some(Trim(goal.value))
  }

  function Patched(s: Session, p: Patch, now: int): Session {
    s.(title := if p.title.Some? then NonEmpty(Trim(p.title.value), s.title) else s.title,
       goal := if p.goal.Some? then TrimmedGoal(p.goal.value) else s.goal,
       riskAcknowledged := p.riskAcknowledged.GetOr(s.riskAcknowledged),
       sandboxWritablePaths := if p.sandboxWritablePaths.Some? then NormalizePaths(p.sandboxWritablePaths.value)
                               else s.sandboxWritablePaths,
       totalTokensUsed := if p.addTokensUsed.Some? then s.totalTokensUsed + p.addTokensUsed.value
                          else p.totalTokensUsed.GetOr(s.totalTokensUsed),
       updatedAt := now)
  }

  function WithoutAsk(asks: seq<Ask>, signalKey: string): seq<Ask> {
    if asks == [] then []
    else (if asks[0].signalKey != signalKey then [asks[0]] else []) + WithoutAsk(asks[1..], signalKey)
  }

  function Created(id: string, title: string, ownedWorkspaceId: Option<string>, now: int): Session {
    Session(id, NonEmpty(Trim(title), "Untitled session"), None, false, [], ownedWorkspaceId, [], 0, [], now, now)
  }

  /** What the body of an operation decides to write, from the sessions it has read. */
  function Decide(op: Op, sessions: seq<Session>): Option<Session> {
    match op
    case UpdateSession(id, patch, now) =>
      (match Find(sessions, id) case None => None case Some(s) => Some(Patched(s, patch, now)))
    case RecordTaint(id, labels, _) =>
      (match Find(sessions, id)
       case None => None
       case Some(s) =>
         var merged := PropagateTaint(s.taintLabels, labels);
         if labels == [] || |merged| == |s.taintLabels| then None else Some(s.(taintLabels := merged)))
    case AddAsk(id, ask, now) =>
      (match Find(sessions, id)
       case None => None
       case Some(s) => Some(s.(outstandingAsks := WithoutAsk(s.outstandingAsks, ask.signalKey) + [ask], updatedAt := now)))
    case ClearAsk(id, signalKey, now) =>
      (match Find(sessions, id)
       case None => None
       case Some(s) => Some(s.(outstandingAsks := WithoutAsk(s.outstandingAsks, signalKey), updatedAt := now)))
    case EnsureForWorkspace(workspaceId, title, freshId, now) =>
      if FindOwner(sessions, workspaceId).Some? then None else Some(Created(freshId, title, Some(workspaceId), now))
  }

  /** The events an operation appends when it has read `seen`. */
  function Written(op: Op, seen: seq<Event>): seq<Event> {
    match Decide(op, Replay(seen))
    case None => []
    case Some(s) => [Upsert(op.now, Persist(s))]
  }

  // ----- the store as the object the source keeps

  /** The log file of one store directory. Each method is the body of one operation, run without interference. */
  class ChatSessionLog {
    var events: seq<Event>

    constructor ()
      ensures events == []
    {
      events := [];
    }

    method Get(id: string) returns (r: Option<Session>)
      ensures r == Find(Replay(events), id)
    {
      var sessions := ReplayChatSessions(events);
      r := Find(sessions, id);
    }

    method Update(id: string, patch: Patch, now: int) returns (r: Option<Session>)
      modifies this
      ensures events == old(events) + Written(UpdateSession(id, patch, now), old(events))
      ensures r == Decide(UpdateSession(id, patch, now), Replay(old(events)))
    {
      var existing := Get(id);
      if existing.None? { return None; }
      var session := Patched(existing.value, patch, now);
      events := events + [Upsert(now, Persist(session))];
      r := Some(session);
    }

    method RecordSessionTaint(id: string, labels: seq<TaintLabel>, now: int)
      modifies this
      ensures events == old(events) + Written(RecordTaint(id, labels, now), old(events))
    {
      if labels == [] { return; }
      var existing := Get(id);
      if existing.None? { return; }
      var merged := PropagateTaint(existing.value.taintLabels, labels);
      if |merged| == |existing.value.taintLabels| { return; }
      events := events + [Upsert(now, Persist(existing.value.(taintLabels := merged)))];
    }

    method AddOutstandingAsk(id: string, ask: Ask, now: int) returns (r: Option<Session>)
      modifies this
      ensures events == old(events) + Written(AddAsk(id, ask, now), old(events))
      ensures r == Decide(AddAsk(id, ask, now), Replay(old(events)))
    {
      var existing := Get(id);
      if existing.None? { return None; }
      var asks := WithoutAsk(existing.value.outstandingAsks, ask.signalKey) + [ask];
      var session := existing.value.(outstandingAsks := asks, updatedAt := now);
      events := events + [Upsert(now, Persist(session))];
      r := Some(session);
    }

    method ClearOutstandingAsk(id: string, signalKey: string, now: int) returns (r: Option<Session>)
      modifies this
      ensures events == old(events) + Written(ClearAsk(id, signalKey, now), old(events))
      ensures r == Decide(ClearAsk(id, signalKey, now), Replay(old(events)))
    {
      var existing := Get(id);
      if existing.None? { return None; }
      var asks := WithoutAsk(existing.value.outstandingAsks, signalKey);
      var session := existing.value.(outstandingAsks := asks, updatedAt := now);
      events := events + [Upsert(now, Persist(session))];
      r := Some(session);
    }

    method EnsureSessionForWorkspace(workspaceId: string, title: string, freshId: string, now: int) returns (r: Session)
      modifies this
      ensures events == old(events) + Written(EnsureForWorkspace(workspaceId, title, freshId, now), old(events))
      ensures r == FindOwner(Replay(old(events)), workspaceId).GetOr(Created(freshId, title, Some(workspaceId), now))
    {
      var sessions := ReplayChatSessions(events);
      var owner := FindOwner(sessions, workspaceId);
      if owner.Some? { return owner.value; }
      r := Created(freshId, title, Some(workspaceId), now);
      events := events + [Upsert(now, Persist(r))];
    }

    method DeleteSession(id: string, now: int) returns (existed: bool)
      modifies this
      ensures existed == Find(Replay(old(events)), id).Some?
      ensures events == old(events) + if existed then [Event.Delete(now, id)] else []
    {
      var existing := Get(id);
      existed := existing.Some?;
      if existed { events := events + [Event.Delete(now, id)]; }
    }
  }
}
