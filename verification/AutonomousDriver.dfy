/** The goal driver above the turn engine (`src/chat/chat-autonomous-loop.ts`): it runs turns until the goal is done, the
    user is needed, or a turn, time or stall budget trips. */
module AutonomousDriver {

  datatype Status = Progressed | NeedsUser | GoalComplete
  datatype Outcome = Outcome(status: Status, text: string, madeToolProgress: bool)
  datatype Budget = Budget(maxTurns: int, maxWallTimeMs: int, maxNoProgressTurns: int)
  datatype Plan = Plan(total: int, done: int)

  /** One turn: the clock before it, whether it was told that the previous "done" was rejected, what it came to, and the
      plan as read after it. */
  datatype Lap = Lap(clock: int, toldRejected: bool, outcome: Outcome, plan: Plan)

  /** The injected clock, turn and plan reader; each answer may depend on everything that happened before. */
  datatype World = World(clock: seq<Lap> -> int, turn: (seq<Lap>, bool) -> Outcome, plan: (seq<Lap>, Outcome) -> Plan)

  datatype StopReason = Completed | PausedNeedsUser | TurnsExhausted | WallTimeExhausted | Stalled
  datatype Result = Result(stop: StopReason, turns: int, finalText: string, plan: Plan)

  function AtLeastOne(n: int): (m: nat)
    ensures m >= 1 && (n >= 1 ==> m == n) && (n < 1 ==> m == 1)
  {
    if n < 1 then 1 else n
  }

  predicate Pending(p: Plan) { p.total > 0 && p.done < p.total }
  predicate Finished(p: Plan) { p.total > 0 && p.done >= p.total }

  /** The loop's variables and, in `laps`, what it has seen so far. */
  datatype State = State(laps: seq<Lap>, finalText: string, streak: nat, plan: Plan, rejected: bool, rejectedOnce: bool)

  const START: State := State([], "", 0, Plan(0, 0), false, false)

  /** A turn either ends the run or leads to the next one. */
  datatype Turned = Stop(result: Result, laps: seq<Lap>) | Go(state: State)

  function LapOf(w: World, s: State): Lap {
    var o := w.turn(s.laps, s.rejected);
    Lap(w.clock(s.laps), s.rejected, o, w.plan(s.laps, o))
  }

  function Turn(w: World, limit: nat, s: State): Turned {
    var lap := LapOf(w, s);
    var laps := s.laps + [lap];
    var end := (why: StopReason) => Stop(Result(why, |laps|, lap.outcome.text, lap.plan), laps);
    var moved := s.(laps := laps, finalText := lap.outcome.text, plan := lap.plan);
    match lap.outcome.status
    case GoalComplete =>
      if Pending(lap.plan) && !s.rejectedOnce then
        if s.streak + 1 >= limit then end(Stalled)
        else Go(moved.(streak := s.streak + 1, rejected := true, rejectedOnce := true))
      else end(Completed)
    case NeedsUser => end(PausedNeedsUser)
    case Progressed =>
      var streak := if lap.outcome.madeToolProgress then 0 else s.streak + 1;
      if streak >= limit then end(Stalled)
      else if Finished(lap.plan) then end(Completed)
      else Go(moved.(streak := streak, rejected := false))
  }

  function Drive(w: World, b: Budget, startedAt: int, s: State): (Result, seq<Lap>)
    decreases AtLeastOne(b.maxTurns) - |s.laps|
  {
    if |s.laps| >= AtLeastOne(b.maxTurns) then
      (Result(TurnsExhausted, AtLeastOne(b.maxTurns), s.finalText, s.plan), s.laps)
    else if w.clock(s.laps) - startedAt > b.maxWallTimeMs then
      (Result(WallTimeExhausted, |s.laps|, s.finalText, s.plan), s.laps)
    else
      match Turn(w, AtLeastOne(b.maxNoProgressTurns), s)
      case Stop(r, laps) => (r, laps)
      case Go(next) => Drive(w, b, startedAt, next)
  }

  method RunAutonomousChatAgent(w: World, b: Budget, startedAt: int) returns (r: Result)
    ensures r == Drive(w, b, startedAt, START).0
  {
    var maxTurns := AtLeastOne(b.maxTurns);
    var maxNoProgressTurns := AtLeastOne(b.maxNoProgressTurns);
    var finalText, streak, plan, rejected, rejectedOnce := "", 0, Plan(0, 0), false, false;
    var seen: seq<Lap> := [];
    for turnIndex := 0 to maxTurns
      invariant |seen| == turnIndex && streak >= 0
      invariant Drive(w, b, startedAt, State(seen, finalText, streak, plan, rejected, rejectedOnce))
             == Drive(w, b, startedAt, START)
    {
      var clock := w.clock(seen);
      if clock - startedAt > b.maxWallTimeMs {
        return Result(WallTimeExhausted, turnIndex, finalText, plan);
      }
      var outcome := w.turn(seen, rejected);
      plan := w.plan(seen, outcome);
      seen := seen + [Lap(clock, rejected, outcome, plan)];
      rejected := false;
      finalText := outcome.text;
      if outcome.status.GoalComplete? {
        if !Pending(plan) || rejectedOnce {
          return Result(Completed, turnIndex + 1, finalText, plan);
        }
        rejectedOnce, rejected := true, true;
        streak := streak + 1;
        if streak >= maxNoProgressTurns {
          return Result(Stalled, turnIndex + 1, finalText, plan);
        }
      } else if outcome.status.NeedsUser? {
        return Result(PausedNeedsUser, turnIndex + 1, finalText, plan);
      } else {
        streak := if outcome.madeToolProgress then 0 else streak + 1;
        if streak >= maxNoProgressTurns {
          return Result(Stalled, turnIndex + 1, finalText, plan);
        }
        if Finished(plan) {
          return Result(Completed, turnIndex + 1, finalText, plan);
        }
      }
    }
    return Result(TurnsExhausted, maxTurns, finalText, plan);
  }

  // ----- what a run looks like from outside

  predicate Claims(l: Lap) { l.outcome.status.GoalComplete? }

  /** A turn without new tool calls, or one that only claimed to be done. */
  predicate Idles(l: Lap) { Claims(l) || (l.outcome.status.Progressed? && !l.outcome.madeToolProgress) }

  function TrailingIdles(laps: seq<Lap>): nat {
    if laps == [] || !Idles(laps[|laps| - 1]) then 0 else 1 + TrailingIdles(laps[..|laps| - 1])
  }

  lemma {:induction false} TrailingIdlesAreLast(laps: seq<Lap>, n: nat)
    requires n <= TrailingIdles(laps)
    ensures n <= |laps| && forall k :: |laps| - n <= k < |laps| ==> Idles(laps[k])
  {
    if n > 0 { TrailingIdlesAreLast(laps[..|laps| - 1], n - 1); }
  }

  /** How many turns in a row idled when turn `k` was over. */
  function IdlesUpTo(laps: seq<Lap>, k: int): nat
    requires 0 <= k < |laps|
  {
    TrailingIdles(laps[..k + 1])
  }

  /** Some earlier turn already claimed to be done. */
  predicate ClaimedBefore(laps: seq<Lap>, k: int) { exists j :: 0 <= j < k && j < |laps| && Claims(laps[j]) }

  /** A turn that a run went past: it claimed nothing, or it was the one claim that was rejected. */
  ghost predicate WentPast(limit: nat, laps: seq<Lap>, k: int)
    requires 0 <= k < |laps|
  {
    && IdlesUpTo(laps, k) < limit
    && match laps[k].outcome.status
       case GoalComplete => laps[k].plan.total > 0 && laps[k].plan.done < laps[k].plan.total && !ClaimedBefore(laps, k)
       case NeedsUser => false
       case Progressed => laps[k].plan.total <= 0 || laps[k].plan.done < laps[k].plan.total
  }

  /** The flag reaches exactly the turn after a rejected claim, each turn started inside the time budget, and its outcome
      and the plan after it are what the world answered. */
  ghost predicate WellStarted(w: World, b: Budget, startedAt: int, laps: seq<Lap>, k: int)
    requires 0 <= k < |laps|
  {
    && laps[k].clock == w.clock(laps[..k]) <= startedAt + b.maxWallTimeMs
    && (laps[k].toldRejected <==> k > 0 && Claims(laps[k - 1]))
    && laps[k].outcome == w.turn(laps[..k], laps[k].toldRejected)
    && laps[k].plan == w.plan(laps[..k], laps[k].outcome)
  }

  ghost predicate AllStarted(w: World, b: Budget, startedAt: int, laps: seq<Lap>) {
    forall k :: 0 <= k < |laps| ==> WellStarted(w, b, startedAt, laps, k)
  }

  ghost predicate AllPast(limit: nat, laps: seq<Lap>, n: int)
    requires n <= |laps|
  {
    forall k :: 0 <= k < n ==> WentPast(limit, laps, k)
  }

  ghost predicate Inv(w: World, b: Budget, startedAt: int, s: State) {
    && AllStarted(w, b, startedAt, s.laps)
    && AllPast(AtLeastOne(b.maxNoProgressTurns), s.laps, |s.laps|)
    && s.streak == TrailingIdles(s.laps)
    && s.rejectedOnce == ClaimedBefore(s.laps, |s.laps|)
    && s.rejected == (s.laps != [] && Claims(s.laps[|s.laps| - 1]))
    && LastIs(s.laps, s.finalText, s.plan)
  }

  predicate LastIs(laps: seq<Lap>, text: string, plan: Plan) {
    if laps == [] then text == "" && plan == Plan(0, 0)
    else text == laps[|laps| - 1].outcome.text && plan == laps[|laps| - 1].plan
  }

  /** Why a run ended, said of what it saw. */
  ghost predicate Ended(w: World, b: Budget, startedAt: int, r: Result, laps: seq<Lap>) {
    var limit, n := AtLeastOne(b.maxNoProgressTurns), |laps|;
    && r.turns == n <= AtLeastOne(b.maxTurns)
    && LastIs(laps, r.finalText, r.plan)
    && AllStarted(w, b, startedAt, laps)
    && AllPast(limit, laps, if r.stop.TurnsExhausted? || r.stop.WallTimeExhausted? then n else n - 1)
    && match r.stop
       case TurnsExhausted => n == AtLeastOne(b.maxTurns)
       case WallTimeExhausted => w.clock(laps) - startedAt > b.maxWallTimeMs
       case PausedNeedsUser => n > 0 && laps[n - 1].outcome.status.NeedsUser?
       case Stalled =>
         n > 0 && TrailingIdles(laps) >= limit
         && (Claims(laps[n - 1]) ==> r.plan.total > 0 && r.plan.done < r.plan.total && !ClaimedBefore(laps, n - 1))
       case Completed =>
         n > 0
         && match laps[n - 1].outcome.status
            case Progressed => 0 < r.plan.total <= r.plan.done && TrailingIdles(laps) < limit
            case GoalComplete => r.plan.total <= 0 || r.plan.done >= r.plan.total || ClaimedBefore(laps, n - 1)
            case NeedsUser => false
  }

  lemma OneMoreLap(laps: seq<Lap>, lap: Lap)
    ensures TrailingIdles(laps + [lap]) == if Idles(lap) then TrailingIdles(laps) + 1 else 0
    ensures ClaimedBefore(laps + [lap], |laps| + 1) == (ClaimedBefore(laps, |laps|) || Claims(lap))
    ensures ClaimedBefore(laps + [lap], |laps|) == ClaimedBefore(laps, |laps|)
  {
    var all := laps + [lap];
    assert all[..|laps|] == laps && all[|laps|] == lap;
    if j :| 0 <= j < |laps| && Claims(laps[j]) {
      assert Claims(all[j]);
    }
  }

  lemma PastExtends(limit: nat, laps: seq<Lap>, lap: Lap)
    requires AllPast(limit, laps, |laps|)
    ensures AllPast(limit, laps + [lap], |laps|)
  {
    var all := laps + [lap];
    forall k | 0 <= k < |laps|
      ensures WentPast(limit, all, k)
    {
      assert WentPast(limit, laps, k);
      assert all[..k + 1] == laps[..k + 1];
      assert ClaimedBefore(all, k) ==> ClaimedBefore(laps, k);
    }
  }

  lemma StartedExtends(w: World, b: Budget, startedAt: int, s: State)
    requires Inv(w, b, startedAt, s) && w.clock(s.laps) - startedAt <= b.maxWallTimeMs
    ensures AllStarted(w, b, startedAt, s.laps + [LapOf(w, s)])
  {
    var all := s.laps + [LapOf(w, s)];
    forall k | 0 <= k < |all|
      ensures WellStarted(w, b, startedAt, all, k)
    {
      if k < |s.laps| {
        assert WellStarted(w, b, startedAt, s.laps, k);
        assert all[..k] == s.laps[..k];
      } else {
        assert all[..k] == s.laps;
      }
    }
  }

  lemma TurnKeepsInv(w: World, b: Budget, startedAt: int, s: State)
    requires Inv(w, b, startedAt, s) && w.clock(s.laps) - startedAt <= b.maxWallTimeMs
    requires |s.laps| < AtLeastOne(b.maxTurns)
    ensures match Turn(w, AtLeastOne(b.maxNoProgressTurns), s)
      case Stop(r, laps) => Ended(w, b, startedAt, r, laps)
      case Go(next) => Inv(w, b, startedAt, next)
  {
    var limit := AtLeastOne(b.maxNoProgressTurns);
    var lap := LapOf(w, s);
    OneMoreLap(s.laps, lap);
    PastExtends(limit, s.laps, lap);
    StartedExtends(w, b, startedAt, s);
    var all := s.laps + [lap];
    assert all[..|all|] == all;
    var turned := Turn(w, limit, s);
    if turned.Go? {
      assert WentPast(limit, all, |s.laps|);
    }
  }

  lemma {:induction false} DriveEnds(w: World, b: Budget, startedAt: int, s: State)
    requires Inv(w, b, startedAt, s) && |s.laps| <= AtLeastOne(b.maxTurns)
    ensures var (r, laps) := Drive(w, b, startedAt, s); Ended(w, b, startedAt, r, laps)
    decreases AtLeastOne(b.maxTurns) - |s.laps|
  {
    if |s.laps| < AtLeastOne(b.maxTurns) && w.clock(s.laps) - startedAt <= b.maxWallTimeMs {
      TurnKeepsInv(w, b, startedAt, s);
      var turned := Turn(w, AtLeastOne(b.maxNoProgressTurns), s);
      if turned.Go? {
        DriveEnds(w, b, startedAt, turned.state);
      }
    }
  }

  /** Every run: it counts its turns and stays inside its budgets, and its stop reason is the truth about what it saw. */
  lemma RunEndsForItsReason(w: World, b: Budget, startedAt: int)
    ensures var (r, laps) := Drive(w, b, startedAt, START); Ended(w, b, startedAt, r, laps)
  {
    DriveEnds(w, b, startedAt, START);
  }

  /** "Done" is refused at most once: of two claims the second ends the run as completed, and at most one turn is told of
      a rejection. */
  lemma DoneIsRejectedAtMostOnce(w: World, b: Budget, startedAt: int, i: nat, j: nat)
    requires var (r, laps) := Drive(w, b, startedAt, START); i < j < |laps| && Claims(laps[i])
    ensures var (r, laps) := Drive(w, b, startedAt, START);
      && (Claims(laps[j]) ==> j == |laps| - 1 && r.stop == Completed)
      && (laps[j].toldRejected <==> j == i + 1)
  {
    RunEndsForItsReason(w, b, startedAt);
    var (r, laps) := Drive(w, b, startedAt, START);
    var limit := AtLeastOne(b.maxNoProgressTurns);
    assert WellStarted(w, b, startedAt, laps, j);
    if Claims(laps[j]) {
      SecondClaimEnds(w, b, startedAt, r, laps, i, j);
    }
    if j > i + 1 && Claims(laps[j - 1]) {
      SecondClaimEnds(w, b, startedAt, r, laps, i, j - 1);
    }
  }

  lemma SecondClaimEnds(w: World, b: Budget, startedAt: int, r: Result, laps: seq<Lap>, i: nat, j: nat)
    requires Ended(w, b, startedAt, r, laps) && i < j < |laps| && Claims(laps[i]) && Claims(laps[j])
    ensures j == |laps| - 1 && r.stop == Completed
  {
    assert ClaimedBefore(laps, j);
    assert !WentPast(AtLeastOne(b.maxNoProgressTurns), laps, j);
  }

  /** "Stalled" means that each of the last `maxNoProgressTurns` turns came without a new tool call or had its claim
      rejected, and that no run goes past such a stretch. */
  lemma StalledMeansIdle(w: World, b: Budget, startedAt: int)
    ensures var (r, laps) := Drive(w, b, startedAt, START); var limit := AtLeastOne(b.maxNoProgressTurns);
      && (r.stop == Stalled ==> limit <= |laps| && forall k :: |laps| - limit <= k < |laps| ==> Idles(laps[k]))
      && (forall k :: 0 <= k < |laps| - 1 ==> IdlesUpTo(laps, k) < limit)
  {
    RunEndsForItsReason(w, b, startedAt);
    var (r, laps) := Drive(w, b, startedAt, START);
    var limit := AtLeastOne(b.maxNoProgressTurns);
    if r.stop == Stalled { TrailingIdlesAreLast(laps, limit); }
    forall k | 0 <= k < |laps| - 1
      ensures IdlesUpTo(laps, k) < limit
    {
      assert WentPast(limit, laps, k);
    }
  }
}
