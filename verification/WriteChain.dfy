/** The promise chain that serialises critical sections per key (`serializeChatSessionWrite` in
    `src/chat/chat-session-store.ts`, `serializeSessionTurn` in `src/chat/chat-service.ts`).

    A call finds the promise stored under its key, chains its own body behind it, and stores a guarded copy of its own
    promise as the new tail. Event-loop interleavings are arbitrary sequences of the steps below; a step that is not
    enabled leaves the state as it is. */
module WriteChain {
  import opened Wrappers

  /** `Queued`: waiting for the prior promise. `Running`: the body has been entered and its promise is pending.
      `Settled`: the body's promise fulfilled (`ok`) or rejected. `Released`: the guarded copy in the map, which
      swallows a rejection, has fulfilled as well. */
  datatype Phase = Queued | Running | Settled(ok: bool) | Released(ok: bool)

  datatype Task<K> = Task(key: K, prior: Option<nat>, phase: Phase)

  /** All calls ever made, in call order, and the tail of each key's chain. `started` logs the order of body entries. */
  datatype State<K(==)> = State(tasks: seq<Task<K>>, chains: map<K, nat>, started: seq<nat>)

  datatype Step<K> = Serialize(key: K) | Start(task: nat) | Finish(task: nat, ok: bool) | Release(task: nat)

  function Initial<K>(): State<K> { State([], map[], []) }

  predicate PriorSettled<K>(s: State<K>, i: nat)
    requires i < |s.tasks|
  {
    var p := s.tasks[i].prior;
    p.None? || (p.value < |s.tasks| && s.tasks[p.value].phase.Released?)
  }

  predicate Enabled<K>(s: State<K>, step: Step<K>) {
    match step
    case Serialize(_) => true
    case Start(i) => i < |s.tasks| && s.tasks[i].phase.Queued? && PriorSettled(s, i)
    case Finish(i, _) => i < |s.tasks| && s.tasks[i].phase.Running?
    case Release(i) => i < |s.tasks| && s.tasks[i].phase.Settled?
  }

  function SetPhase<K>(s: State<K>, i: nat, p: Phase): State<K>
    requires i < |s.tasks|
  {
    s.(tasks := s.tasks[i := s.tasks[i].(phase := p)])
  }

  function Apply<K>(s: State<K>, step: Step<K>): State<K> {
    if !Enabled(s, step) then s
    else match step
      case Serialize(key) =>
        var prior := if key in s.chains then Some(s.chains[key]) else None;
        s.(tasks := s.tasks + [Task(key, prior, Queued)], chains := s.chains[key := |s.tasks|])
      case Start(i) => SetPhase(s, i, Running).(started := s.started + [i])
      case Finish(i, ok) => SetPhase(s, i, Settled(ok))
      case Release(i) => SetPhase(s, i, Released(s.tasks[i].phase.ok))
  }

  function Run<K>(steps: seq<Step<K>>): State<K> {
    if steps == [] then Initial() else Apply(Run(steps[..|steps| - 1]), steps[|steps| - 1])
  }

  // ----- the invariant

  /** `j` is the latest call before `n` with key `k`. */
  ghost predicate LatestBefore<K>(s: State<K>, j: nat, n: nat, k: K)
    requires n <= |s.tasks|
  {
    j < n && s.tasks[j].key == k && forall m :: j < m < n ==> s.tasks[m].key != k
  }

  ghost predicate Linked<K>(s: State<K>) {
    && (forall i :: 0 <= i < |s.tasks| ==>
         match s.tasks[i].prior
         case Some(j) => LatestBefore(s, j, i, s.tasks[i].key)
         case None => forall m :: 0 <= m < i ==> s.tasks[m].key != s.tasks[i].key)
    && (forall k :: k in s.chains ==> LatestBefore(s, s.chains[k], |s.tasks|, k))
    && (forall i :: 0 <= i < |s.tasks| ==> s.tasks[i].key in s.chains)
  }

  /** A body is entered only after every earlier call of its key is over. */
  ghost predicate Ordered<K>(s: State<K>) {
    forall i, j :: 0 <= j < i < |s.tasks| && s.tasks[i].key == s.tasks[j].key && !s.tasks[i].phase.Queued? ==>
      s.tasks[j].phase.Released?
  }

  ghost predicate StartLog<K>(s: State<K>) {
    && (forall x :: 0 <= x < |s.started| ==> s.started[x] < |s.tasks| && !s.tasks[s.started[x]].phase.Queued?)
    && (forall i :: 0 <= i < |s.tasks| && !s.tasks[i].phase.Queued? ==> i in s.started)
    && (forall x, y :: 0 <= x < y < |s.started| && s.tasks[s.started[x]].key == s.tasks[s.started[y]].key ==>
          s.started[x] < s.started[y])
  }

  ghost predicate Inv<K>(s: State<K>) { Linked(s) && Ordered(s) && StartLog(s) }

  /** Moving one call on does not touch the links. */
  lemma PhaseKeepsLinks<K>(s: State<K>, i: nat, p: Phase)
    requires Linked(s) && i < |s.tasks|
    ensures Linked(SetPhase(s, i, p))
  {
    var s' := SetPhase(s, i, p);
    forall k | 0 <= k < |s'.tasks|
      ensures match s'.tasks[k].prior
        case Some(j) => LatestBefore(s', j, k, s'.tasks[k].key)
        case None => forall m :: 0 <= m < k ==> s'.tasks[m].key != s'.tasks[k].key
    {
      assert s'.tasks[k].key == s.tasks[k].key && s'.tasks[k].prior == s.tasks[k].prior;
      if s.tasks[k].prior.Some? { assert LatestBefore(s, s.tasks[k].prior.value, k, s.tasks[k].key); }
    }
    forall k | k in s'.chains
      ensures LatestBefore(s', s'.chains[k], |s'.tasks|, k)
    {
      assert LatestBefore(s, s.chains[k], |s.tasks|, k);
    }
  }

  lemma EarlierAreReleased<K>(s: State<K>, i: nat)
    requires Inv(s) && Enabled(s, Start(i))
    ensures forall j :: 0 <= j < i && s.tasks[j].key == s.tasks[i].key ==> s.tasks[j].phase.Released?
  {
    forall j | 0 <= j < i && s.tasks[j].key == s.tasks[i].key
      ensures s.tasks[j].phase.Released?
    {
      var p := s.tasks[i].prior;
      assert p.Some?;
      assert LatestBefore(s, p.value, i, s.tasks[i].key);
    }
  }

  lemma StartKeepsLog<K>(s: State<K>, i: nat)
    requires Inv(s) && Enabled(s, Start(i))
    ensures StartLog(Apply(s, Start(i)))
  {
    var s' := Apply(s, Start(i));
    EarlierAreReleased(s, i);
    assert i !in s.started;
    forall x, y | 0 <= x < y < |s'.started| && s'.tasks[s'.started[x]].key == s'.tasks[s'.started[y]].key
      ensures s'.started[x] < s'.started[y]
    {
      if y == |s.started| {
        assert s.started[x] in s.started;
        assert s.started[x] < i;
      }
    }
    forall k | 0 <= k < |s'.tasks| && !s'.tasks[k].phase.Queued?
      ensures k in s'.started
    {
      assert s'.started[|s.started|] == i;
    }
  }

  lemma SerializeKeepsLinks<K>(s: State<K>, key: K)
    requires Linked(s)
    ensures Linked(Apply(s, Serialize(key)))
  {
    var s' := Apply(s, Serialize(key));
    var n := |s.tasks|;
    forall k | 0 <= k < |s'.tasks|
      ensures match s'.tasks[k].prior
        case Some(j) => LatestBefore(s', j, k, s'.tasks[k].key)
        case None => forall m :: 0 <= m < k ==> s'.tasks[m].key != s'.tasks[k].key
    {
      if k < n {
        if s.tasks[k].prior.Some? { assert LatestBefore(s, s.tasks[k].prior.value, k, s.tasks[k].key); }
      } else if key in s.chains {
        assert LatestBefore(s, s.chains[key], n, key);
      }
    }
    forall k | k in s'.chains
      ensures LatestBefore(s', s'.chains[k], |s'.tasks|, k)
    {
      if k != key { assert LatestBefore(s, s.chains[k], n, k); }
    }
  }

  lemma SerializeKeepsOrder<K>(s: State<K>, key: K)
    requires Ordered(s) && StartLog(s)
    ensures Ordered(Apply(s, Serialize(key))) && StartLog(Apply(s, Serialize(key)))
  {
  }

  lemma SerializeKeepsInv<K>(s: State<K>, key: K)
    requires Inv(s)
    ensures Inv(Apply(s, Serialize(key)))
  {
    SerializeKeepsLinks(s, key);
    SerializeKeepsOrder(s, key);
  }

  lemma StartKeepsOrder<K>(s: State<K>, i: nat)
    requires Inv(s) && Enabled(s, Start(i))
    ensures Ordered(Apply(s, Start(i)))
  {
    EarlierAreReleased(s, i);
  }

  lemma OnwardKeepsOrder<K>(s: State<K>, i: nat, p: Phase)
    requires Ordered(s) && i < |s.tasks| && (s.tasks[i].phase.Running? || s.tasks[i].phase.Settled?)
    requires p.Settled? || p.Released?
    ensures Ordered(SetPhase(s, i, p))
  {
  }

  lemma OnwardKeepsLog<K>(s: State<K>, i: nat, p: Phase)
    requires StartLog(s) && i < |s.tasks| && (s.tasks[i].phase.Running? || s.tasks[i].phase.Settled?)
    requires p.Settled? || p.Released?
    ensures StartLog(SetPhase(s, i, p))
  {
  }

  lemma OnwardKeepsInv<K>(s: State<K>, i: nat, p: Phase)
    requires Inv(s) && i < |s.tasks| && (s.tasks[i].phase.Running? || s.tasks[i].phase.Settled?)
    requires p.Settled? || p.Released?
    ensures Inv(SetPhase(s, i, p))
  {
    PhaseKeepsLinks(s, i, p);
    OnwardKeepsOrder(s, i, p);
    OnwardKeepsLog(s, i, p);
  }

  lemma ApplyKeepsInv<K>(s: State<K>, step: Step<K>)
    requires Inv(s)
    ensures Inv(Apply(s, step))
  {
    if Enabled(s, step) {
      match step
      case Serialize(key) => SerializeKeepsInv(s, key);
      case Start(i) =>
        PhaseKeepsLinks(s, i, Running);
        StartKeepsOrder(s, i);
        StartKeepsLog(s, i);
      case Finish(i, ok) => OnwardKeepsInv(s, i, Settled(ok));
      case Release(i) => OnwardKeepsInv(s, i, Released(s.tasks[i].phase.ok));
    }
  }

  lemma {:induction false} RunKeepsInv<K>(steps: seq<Step<K>>)
    ensures Inv(Run(steps))
  {
    if steps != [] {
      RunKeepsInv(steps[..|steps| - 1]);
      ApplyKeepsInv(Run(steps[..|steps| - 1]), steps[|steps| - 1]);
    }
  }

  // ----- the guarantees

  lemma AtMostOneRunning<K>(s: State<K>, i: nat, j: nat)
    requires Ordered(s) && i < |s.tasks| && j < |s.tasks| && s.tasks[i].key == s.tasks[j].key
    requires s.tasks[i].phase.Running? && s.tasks[j].phase.Running?
    ensures i == j
  {
  }

  /** Mutual exclusion: in every interleaving, at most one body per key is in progress. */
  lemma MutualExclusion<K>(steps: seq<Step<K>>, i: nat, j: nat)
    requires i < |Run(steps).tasks| && j < |Run(steps).tasks| && i != j
    requires Run(steps).tasks[i].key == Run(steps).tasks[j].key
    ensures !(Run(steps).tasks[i].phase.Running? && Run(steps).tasks[j].phase.Running?)
  {
    RunKeepsInv(steps);
  }

  /** FIFO: bodies of one key are entered in call order, each after the one before it is over. */
  lemma StartsInCallOrder<K>(steps: seq<Step<K>>, x: nat, y: nat)
    requires x < y < |Run(steps).started|
    ensures var s := Run(steps);
      s.started[x] < |s.tasks| && s.started[y] < |s.tasks|
      && (s.tasks[s.started[x]].key == s.tasks[s.started[y]].key ==>
            s.started[x] < s.started[y] && s.tasks[s.started[x]].phase.Released?)
  {
    RunKeepsInv(steps);
  }

  /** No call is ever wedged: the earliest unfinished call of a key can always take its next step, whatever the
      outcomes of the calls before it were. */
  lemma EarliestCanAdvance<K>(steps: seq<Step<K>>, i: nat, ok: bool)
    requires i < |Run(steps).tasks| && !Run(steps).tasks[i].phase.Released?
    requires forall j :: 0 <= j < i && Run(steps).tasks[j].key == Run(steps).tasks[i].key ==>
      Run(steps).tasks[j].phase.Released?
    ensures var s := Run(steps);
      Enabled(s, match s.tasks[i].phase case Queued => Start(i) case Running => Finish(i, ok) case _ => Release(i))
  {
    RunKeepsInv(steps);
    var s := Run(steps);
    if s.tasks[i].phase.Queued? && s.tasks[i].prior.Some? {
      assert LatestBefore(s, s.tasks[i].prior.value, i, s.tasks[i].key);
    }
  }

  function Unfinished<K>(tasks: seq<Task<K>>): nat {
    if tasks == [] then 0
    else Unfinished(tasks[..|tasks| - 1]) +
         match tasks[|tasks| - 1].phase case Queued => 3 case Running => 2 case Settled(_) => 1 case Released(_) => 0
  }

  lemma {:induction false} AdvancingReduces<K>(tasks: seq<Task<K>>, i: nat, p: Phase)
    requires i < |tasks|
    requires (tasks[i].phase.Queued? && p.Running?) || (tasks[i].phase.Running? && p.Settled?) || (tasks[i].phase.Settled? && p.Released?)
    ensures Unfinished(tasks[i := tasks[i].(phase := p)]) < Unfinished(tasks)
  {
    var t' := tasks[i := tasks[i].(phase := p)];
    if i == |tasks| - 1 {
      assert t'[..i] == tasks[..i];
    } else {
      AdvancingReduces(tasks[..|tasks| - 1], i, p);
      assert t'[..|tasks| - 1] == tasks[..|tasks| - 1][i := tasks[i].(phase := p)];
    }
  }

  lemma {:induction false} SomeUnfinished<K>(tasks: seq<Task<K>>) returns (i: nat)
    requires Unfinished(tasks) > 0
    ensures i < |tasks| && !tasks[i].phase.Released? && forall j :: 0 <= j < i ==> tasks[j].phase.Released?
  {
    i := 0;
    while i < |tasks| && tasks[i].phase.Released?
      invariant i <= |tasks| && forall j :: 0 <= j < i ==> tasks[j].phase.Released?
    {
      i := i + 1;
    }
    if i == |tasks| { AllReleased(tasks); }
  }

  lemma {:induction false} AllReleased<K>(tasks: seq<Task<K>>)
    requires forall j :: 0 <= j < |tasks| ==> tasks[j].phase.Released?
    ensures Unfinished(tasks) == 0
  {
    if tasks != [] { AllReleased(tasks[..|tasks| - 1]); }
  }

  /** Progress: from every reachable state, and for every choice of which bodies fail, a schedule finishes all calls. */
  lemma {:induction false} CanDrain<K>(steps: seq<Step<K>>, outcome: nat -> bool) returns (more: seq<Step<K>>)
    ensures Unfinished(Run(steps + more).tasks) == 0
    ensures |Run(steps + more).tasks| == |Run(steps).tasks|
    ensures forall step :: step in more && step.Finish? ==> step.ok == outcome(step.task)
    decreases Unfinished(Run(steps).tasks)
  {
    var s := Run(steps);
    if Unfinished(s.tasks) == 0 {
      more := [];
      assert steps + more == steps;
    } else {
      var i := SomeUnfinished(s.tasks);
      EarliestCanAdvance(steps, i, outcome(i));
      var step := match s.tasks[i].phase case Queued => Start(i) case Running => Finish(i, outcome(i)) case _ => Release(i);
      assert (steps + [step])[..|steps|] == steps;
      assert Run(steps + [step]) == Apply(s, step);
      AdvancingReduces(s.tasks, i, Apply(s, step).tasks[i].phase);
      var rest := CanDrain(steps + [step], outcome);
      more := [step] + rest;
      assert steps + more == steps + [step] + rest;
    }
  }

  // ----- the chain as the object the source keeps

  /** The module-level map of promises, with each method one atomic turn of the event loop. */
  class Chains<K(==)> {
    var tasks: seq<Task<K>>
    var chains: map<K, nat>
    ghost var started: seq<nat>

    ghost function Now(): State<K>
      reads this
    {
      State(tasks, chains, started)
    }

    constructor ()
      ensures Now() == Initial()
    {
      tasks, chains, started := [], map[], [];
    }

    method SerializeWrite(key: K) returns (call: nat)
      modifies this
      ensures Now() == Apply(old(Now()), Serialize(key)) && call == |old(tasks)|
    {
      call := |tasks|;
      var prior := if key in chains then Some(chains[key]) else None;
      tasks := tasks + [Task(key, prior, Queued)];
      chains := chains[key := call];
    }

    method Enter(call: nat)
      requires Enabled(Now(), Start(call))
      modifies this
      ensures Now() == Apply(old(Now()), Start(call))
    {
      tasks := tasks[call := tasks[call].(phase := Running)];
      started := started + [call];
    }

    method Settle(call: nat, ok: bool)
      requires Enabled(Now(), Finish(call, ok))
      modifies this
      ensures Now() == Apply(old(Now()), Finish(call, ok))
    {
      tasks := tasks[call := tasks[call].(phase := Settled(ok))];
    }

    method Unguard(call: nat)
      requires Enabled(Now(), Release(call))
      modifies this
      ensures Now() == Apply(old(Now()), Release(call))
    {
      tasks := tasks[call := tasks[call].(phase := Released(tasks[call].phase.ok))];
    }
  }
}
