/**
 The turn-taking counter: processes with IDs 0..n-1 share one cell and increment it in turn by
 compare-and-swap until it has reached a limit.  Every access to the cell is a step of its
 own, and any process may be the next to take one.
 */
module TurnCounter {
  // The program's own numbers.
  const COUNTERS := 5
  const LIMIT := 20

  datatype Process =
    | Testing                // at the test of the outer loop
    | Spinning               // waiting for its turn
    | Reading                // past the spin loop, about to copy the value
    | Swapping(oldval: int)    // about to compare and swap
    | Failed                 // the swap failed, and with it the assertion
    | Done                   // past the outer loop

  datatype State = State(value: int, procs: seq<Process>)

  /** Whose turn a value is. */
  function Turn(value: int, n: nat): (i: nat)
    requires n > 0
    ensures i < n
  {
    value % n
  }

  function Next(limit: int, s: State, i: nat): (r: State)
    requires i < |s.procs|
    ensures |r.procs| == |s.procs|
  {
    match s.procs[i]
    case Testing => s.(procs := s.procs[i := if s.value < limit then Spinning else Done])
    case Spinning => if Turn(s.value, |s.procs|) != i then s else s.(procs := s.procs[i := Reading])
    case Reading => s.(procs := s.procs[i := Swapping(s.value)])
    case Swapping(oldval) =>
      if s.value == oldval then State(s.value + 1, s.procs[i := Testing]) else s.(procs := s.procs[i := Failed])
    case Failed => s
    case Done => s
  }

  /** An infinite run: who takes each step. */
  type Schedule = nat -> nat

  predicate Initial(s: State) {
    s.value == 0 && |s.procs| > 0 && forall i :: 0 <= i < |s.procs| ==> s.procs[i].Testing?
  }

  ghost predicate Schedules(sched: Schedule, n: nat) {
    forall t: nat :: sched(t) < n
  }

  /** The state after `t` steps. */
  ghost function At(limit: int, s: State, sched: Schedule, t: nat): (r: State)
    requires Schedules(sched, |s.procs|)
    ensures |r.procs| == |s.procs|
  {
    if t == 0 then s else Next(limit, At(limit, s, sched, t - 1), sched(t - 1))
  }

  // ------------------------------------------------------------------ safety

  predicate InTurn(p: Process) {
    p.Reading? || p.Swapping?
  }

  predicate Active(p: Process) {
    p.Spinning? || InTurn(p)
  }

  /** Whoever is between the spin loop and the swap has its turn, and an up-to-date copy. */
  ghost predicate TurnsKept(s: State) {
    |s.procs| > 0 && forall i :: 0 <= i < |s.procs| ==>
      && !s.procs[i].Failed?
      && (InTurn(s.procs[i]) ==> Turn(s.value, |s.procs|) == i)
      && (s.procs[i].Swapping? ==> s.procs[i].oldval == s.value)
  }

  /** A value was the process's turn, and the step past it left no room to go on. */
  ghost predicate Passed(limit: int, s: State, i: nat) {
    exists v :: limit - 1 <= v < s.value && |s.procs| > 0 && Turn(v, |s.procs|) == i
  }

  /** Nobody is in its loop who has already incremented at limit - 1 or above. */
  ghost predicate StopsAtLimit(limit: int, s: State) {
    && (forall i: nat :: i < |s.procs| && Passed(limit, s, i) ==> !Active(s.procs[i]))
    && (forall i :: 0 <= i < |s.procs| && s.procs[i].Done? ==> s.value >= limit)
  }

  /** The cell never goes n or more past the limit. */
  ghost predicate Bounded(limit: int, s: State) {
    0 <= s.value <= limit + |s.procs| - 1
  }

  ghost predicate Inv(limit: int, s: State) {
    TurnsKept(s) && StopsAtLimit(limit, s) && Bounded(limit, s)
  }

  lemma StepKeepsTurns(limit: int, s: State, i: nat)
    requires TurnsKept(s) && i < |s.procs|
    ensures TurnsKept(Next(limit, s, i))
  {
    assert InTurn(s.procs[i]) ==> forall j :: 0 <= j < |s.procs| && j != i ==> !InTurn(s.procs[j]);
  }

  lemma PassedOneMore(limit: int, s: State, r: State, j: nat)
    requires |s.procs| == |r.procs| > 0 && r.value == s.value + 1
    requires Passed(limit, r, j)
    ensures Passed(limit, s, j) || (s.value >= limit - 1 && Turn(s.value, |s.procs|) == j)
  {
  }

  lemma StepKeepsStops(limit: int, s: State, i: nat)
    requires TurnsKept(s) && StopsAtLimit(limit, s) && i < |s.procs|
    ensures StopsAtLimit(limit, Next(limit, s, i))
  {
    var r := Next(limit, s, i);
    forall j: nat | j < |r.procs| && Passed(limit, r, j)
      ensures !Active(r.procs[j])
    {
      if r.value == s.value {
        assert Passed(limit, s, j);
      } else if j != i {
        PassedOneMore(limit, s, r, j);
      }
    }
  }

  lemma SameTurn(limit: int, n: nat)
    requires n > 0
    ensures Turn(limit + n - 1, n) == Turn(limit - 1, n)
  {
    var x := limit - 1;
    var k := (x + n) / n - x / n - 1;
    assert n * k == x % n - (x + n) % n by {
      assert x == n * (x / n) + x % n;
      assert x + n == n * ((x + n) / n) + (x + n) % n;
    }
    MultipleOf(n, k);
  }

  lemma MultipleOf(n: int, k: int)
    requires n > 0
    ensures k >= 1 ==> n * k >= n
    ensures k <= -1 ==> n * k <= -n
  {
  }

  lemma StepKeepsBound(limit: int, s: State, i: nat)
    requires TurnsKept(s) && StopsAtLimit(limit, s) && Bounded(limit, s) && i < |s.procs|
    ensures Bounded(limit, Next(limit, s, i))
  {
    if s.procs[i].Swapping? && s.value == limit + |s.procs| - 1 {
      SameTurn(limit, |s.procs|);
      assert Turn(limit - 1, |s.procs|) == i;
      assert Passed(limit, s, i);
    }
  }

  /**
   In every schedule and at every moment: no swap has failed, at most one process is between
   its spin loop and its swap, the cell is at most n - 1 past the limit, and nobody has left
   its loop below the limit.
   */
  lemma {:induction false} AlwaysSafe(limit: int, s: State, sched: Schedule, t: nat)
    requires Initial(s) && limit >= 1 && Schedules(sched, |s.procs|)
    ensures Inv(limit, At(limit, s, sched, t))
    ensures AtMostOneInTurn(At(limit, s, sched, t))
  {
    if t > 0 {
      AlwaysSafe(limit, s, sched, t - 1);
      var r := At(limit, s, sched, t - 1);
      StepKeepsTurns(limit, r, sched(t - 1));
      StepKeepsStops(limit, r, sched(t - 1));
      StepKeepsBound(limit, r, sched(t - 1));
    }
  }

  ghost predicate AtMostOneInTurn(s: State) {
    forall i, j :: 0 <= i < |s.procs| && 0 <= j < |s.procs| && InTurn(s.procs[i]) && InTurn(s.procs[j]) ==> i == j
  }

  // ------------------------------------------------------------------ who reaches the exit

  ghost predicate StepsAgain(sched: Schedule, i: nat, t: nat) {
    exists u: nat :: u >= t && sched(u) == i
  }

  /** Every process is scheduled again and again. */
  ghost predicate Fair(sched: Schedule, n: nat) {
    Schedules(sched, n) && forall i: nat, t: nat :: i < n ==> StepsAgain(sched, i, t)
  }

  /** The first step of process `i` from time `t` on. */
  lemma {:induction false} FirstStep(sched: Schedule, i: nat, t: nat, u: nat) returns (first: nat)
    requires t <= u && sched(u) == i
    ensures t <= first && sched(first) == i && forall k: nat :: t <= k < first ==> sched(k) != i
    decreases u - t
  {
    if sched(t) == i {
      first := t;
    } else {
      first := FirstStep(sched, i, t + 1, u);
    }
  }

  /** As long as the process whose turn it is does not step, it and the cell stay as they are. */
  lemma {:induction false} OnlyItsTurnMoves(limit: int, s: State, sched: Schedule, t: nat, u: nat)
    requires Initial(s) && limit >= 1 && Schedules(sched, |s.procs|) && t <= u
    requires forall k: nat :: t <= k < u ==> sched(k) != Turn(At(limit, s, sched, t).value, |s.procs|)
    ensures At(limit, s, sched, u).value == At(limit, s, sched, t).value
    ensures var i := Turn(At(limit, s, sched, t).value, |s.procs|);
            At(limit, s, sched, u).procs[i] == At(limit, s, sched, t).procs[i]
    decreases u - t
  {
    if t < u {
      OnlyItsTurnMoves(limit, s, sched, t, u - 1);
      AlwaysSafe(limit, s, sched, u - 1);
    }
  }

  /** How far the process whose turn it is still has to go to its swap. */
  function Distance(p: Process): nat {
    match p
    case Testing => 3
    case Spinning => 2
    case Reading => 1
    case _ => 0
  }

  function Remaining(target: int, s: State): int
    requires |s.procs| > 0
  {
    4 * (target - s.value) + Distance(s.procs[Turn(s.value, |s.procs|)])
  }

  /** The process whose turn it is has left its loop. */
  predicate TurnDone(s: State) {
    |s.procs| > 0 && s.procs[Turn(s.value, |s.procs|)].Done?
  }

  /** The process whose turn it is leaves, or gets nearer to its swap, or past it. */
  lemma StepInTurn(limit: int, target: int, s: State)
    requires Inv(limit, s) && !TurnDone(s)
    ensures var r := Next(limit, s, Turn(s.value, |s.procs|));
            TurnDone(r) || Remaining(target, r) < Remaining(target, s)
  {
  }

  /** In a fair schedule the cell reaches any target, unless somebody leaves at its turn. */
  lemma {:induction false} ReachesOrLeaves(limit: int, target: int, s: State, sched: Schedule, t: nat) returns (u: nat)
    requires Initial(s) && limit >= 1 && Fair(sched, |s.procs|)
    ensures t <= u && (At(limit, s, sched, u).value >= target || TurnDone(At(limit, s, sched, u)))
    decreases Remaining(target, At(limit, s, sched, t)) + 4 * |s.procs|
  {
    var now := At(limit, s, sched, t);
    AlwaysSafe(limit, s, sched, t);
    if now.value >= target || TurnDone(now) {
      u := t;
    } else {
      var i := Turn(now.value, |s.procs|);
      assert StepsAgain(sched, i, t);
      var some: nat :| some >= t && sched(some) == i;
      var first := FirstStep(sched, i, t, some);
      OnlyItsTurnMoves(limit, s, sched, t, first);
      AlwaysSafe(limit, s, sched, first);
      StepInTurn(limit, target, At(limit, s, sched, first));
      if TurnDone(At(limit, s, sched, first + 1)) {
        u := first + 1;
      } else {
        u := ReachesOrLeaves(limit, target, s, sched, first + 1);
      }
    }
  }

  /** Once the process whose turn it is has left, the cell and all who spin stay as they are. */
  lemma {:induction false} StaysSettled(limit: int, s: State, sched: Schedule, t: nat, u: nat)
    requires Initial(s) && limit >= 1 && Schedules(sched, |s.procs|) && t <= u
    requires TurnDone(At(limit, s, sched, t))
    ensures At(limit, s, sched, u).value == At(limit, s, sched, t).value
    ensures TurnDone(At(limit, s, sched, u))
    ensures forall i :: 0 <= i < |s.procs| && At(limit, s, sched, t).procs[i].Spinning? ==>
              At(limit, s, sched, u).procs[i].Spinning?
    decreases u - t
  {
    if t < u {
      StaysSettled(limit, s, sched, t, u - 1);
      AlwaysSafe(limit, s, sched, u - 1);
    }
  }

  /** The cell never shrinks, and a process that is done stays done. */
  lemma {:induction false} DoneStays(limit: int, s: State, sched: Schedule, t: nat, u: nat)
    requires Schedules(sched, |s.procs|) && t <= u
    ensures At(limit, s, sched, t).value <= At(limit, s, sched, u).value
    ensures forall i :: 0 <= i < |s.procs| && At(limit, s, sched, t).procs[i].Done? ==>
              At(limit, s, sched, u).procs[i].Done?
    decreases u - t
  {
    if t < u {
      DoneStays(limit, s, sched, t, u - 1);
    }
  }

  /** While process `i` is not scheduled it does not move. */
  lemma {:induction false} Untouched(limit: int, s: State, sched: Schedule, i: nat, t: nat, u: nat)
    requires Schedules(sched, |s.procs|) && t <= u && i < |s.procs|
    requires forall k: nat :: t <= k < u ==> sched(k) != i
    ensures At(limit, s, sched, u).procs[i] == At(limit, s, sched, t).procs[i]
    decreases u - t
  {
    if t < u {
      Untouched(limit, s, sched, i, t, u - 1);
    }
  }

  /** A process in front of its test, at or above the limit, leaves when it is next scheduled. */
  lemma LeavesWhenScheduled(limit: int, s: State, sched: Schedule, i: nat, t: nat) returns (u: nat)
    requires Fair(sched, |s.procs|) && i < |s.procs|
    requires At(limit, s, sched, t).value >= limit
    requires At(limit, s, sched, t).procs[i].Testing? || At(limit, s, sched, t).procs[i].Done?
    ensures u >= t && At(limit, s, sched, u).procs[i].Done?
  {
    assert StepsAgain(sched, i, t);
    var some: nat :| some >= t && sched(some) == i;
    var first := FirstStep(sched, i, t, some);
    Untouched(limit, s, sched, i, t, first);
    DoneStays(limit, s, sched, t, first);
    u := first + 1;
  }

  /** A process whose turn has passed at limit - 1 or above reaches its exit. */
  lemma PassedExits(limit: int, s: State, sched: Schedule, i: nat, t: nat) returns (u: nat)
    requires Initial(s) && limit >= 1 && Fair(sched, |s.procs|) && i < |s.procs|
    requires At(limit, s, sched, t).value >= limit && Passed(limit, At(limit, s, sched, t), i)
    ensures u >= t && At(limit, s, sched, u).procs[i].Done?
  {
    AlwaysSafe(limit, s, sched, t);
    u := LeavesWhenScheduled(limit, s, sched, i, t);
  }

  /** The state after `t` steps is settled: a final value, and two processes that have left. */
  ghost predicate Settled(limit: int, r: State, value: int) {
    && r.value == value && TurnDone(r)
    && r.procs[Turn(limit - 1, |r.procs|)].Done?
    && r.procs[Turn(limit, |r.procs|)].Done?
  }

  /**
   In every fair schedule the cell settles between the limit and n - 1 above it, and two
   processes always reach their exit: the one that increments at limit - 1 and the next.
   */
  lemma Settles(limit: int, s: State, sched: Schedule) returns (u: nat, value: int)
    requires Initial(s) && limit >= 1 && Fair(sched, |s.procs|)
    ensures limit <= value <= limit + |s.procs| - 1
    ensures forall t: nat :: t >= u ==> Settled(limit, At(limit, s, sched, t), value)
  {
    var n := |s.procs|;
    var r := ReachesOrLeaves(limit, limit + n, s, sched, 0);
    AlwaysSafe(limit, s, sched, r);
    value := At(limit, s, sched, r).value;
    assert Passed(limit, At(limit, s, sched, r), Turn(limit - 1, n));
    var last := PassedExits(limit, s, sched, Turn(limit - 1, n), r);
    u := last;
    if value > limit {
      assert Passed(limit, At(limit, s, sched, r), Turn(limit, n));
      var next := PassedExits(limit, s, sched, Turn(limit, n), r);
      u := if last < next then next else last;
      DoneStays(limit, s, sched, next, u);
    }
    DoneStays(limit, s, sched, last, u);
    forall t: nat | t >= u
      ensures Settled(limit, At(limit, s, sched, t), value)
    {
      DoneStays(limit, s, sched, u, t);
      StaysSettled(limit, s, sched, r, t);
    }
  }

  /** The program as it is: the processes with IDs 4 and 0 always leave, and the cell is at most 24. */
  lemma FourAndZeroAlwaysExit(s: State, sched: Schedule) returns (u: nat)
    requires Initial(s) && |s.procs| == COUNTERS && Fair(sched, COUNTERS)
    ensures forall t: nat :: t >= u ==> At(LIMIT, s, sched, t).procs[4].Done? && At(LIMIT, s, sched, t).procs[0].Done?
    ensures forall t: nat :: At(LIMIT, s, sched, t).value <= 24
  {
    var value;
    u, value := Settles(LIMIT, s, sched);
    assert Turn(LIMIT - 1, COUNTERS) == 4 && Turn(LIMIT, COUNTERS) == 0;
    forall t: nat
      ensures At(LIMIT, s, sched, t).value <= 24
    {
      AlwaysSafe(LIMIT, s, sched, t);
    }
    forall t: nat | t >= u
      ensures At(LIMIT, s, sched, t).procs[4].Done? && At(LIMIT, s, sched, t).procs[0].Done?
    {
      assert Settled(LIMIT, At(LIMIT, s, sched, t), value);
    }
  }

  // ------------------------------------------------------------------ who need not exit

  /**
   A schedule that leaves process `j` behind: the processes count up to limit - 1 in turn, four
   steps each; then `j` passes its test, the process in turn increments, and the next one
   leaves.  From then on everybody is scheduled in rotation.
   */
  function LeftBehind(limit: nat, n: nat, j: nat, t: nat): (i: nat)
    requires limit >= 1 && j < n
    ensures i < n
  {
    if t < 4 * (limit - 1) then Turn(t / 4, n)
    else if t == 4 * (limit - 1) then j
    else if t <= 4 * limit then Turn(limit - 1, n)
    else if t == 4 * limit + 1 then Turn(limit, n)
    else Turn(t, n)
  }

  function LeavingBehind(limit: nat, n: nat, j: nat): Schedule
    requires limit >= 1 && j < n
  {
    (t: nat) => LeftBehind(limit, n, j, t)
  }

  lemma {:induction false} TurnOf(q: nat, i: nat, n: nat)
    requires i < n
    ensures Turn(n * q + i, n) == i
  {
    if q > 0 {
      TurnOf(q - 1, i, n);
      SameTurn(n * (q - 1) + i + 1, n);
      assert n * q + i == n * (q - 1) + i + n;
    }
  }

  lemma LeavingBehindIsFair(limit: nat, n: nat, j: nat)
    requires limit >= 1 && j < n
    ensures Fair(LeavingBehind(limit, n, j), n)
  {
    var sched := LeavingBehind(limit, n, j);
    forall i: nat, t: nat | i < n
      ensures StepsAgain(sched, i, t)
    {
      var u := LaterTurn(t + 4 * limit + 2, i, n);
      assert sched(u) == LeftBehind(limit, n, j, u) == Turn(u, n);
    }
  }

  /** The rotation reaches everybody after any time. */
  lemma LaterTurn(q: nat, i: nat, n: nat) returns (u: nat)
    requires i < n && q > 0
    ensures u >= q && Turn(u, n) == i
  {
    u := n * q + i;
    TurnOf(q, i, n);
    MultipleOf(q, n);
  }

  /** Four steps of the process whose turn it is: it increments, and is back at its test. */
  lemma TakesItsTurn(limit: int, s: State, sched: Schedule, t: nat)
    requires Schedules(sched, |s.procs|) && |s.procs| > 0
    requires At(limit, s, sched, t).value < limit
    requires var r := At(limit, s, sched, t); var i := Turn(r.value, |r.procs|);
             r.procs[i].Testing? && forall k: nat :: t <= k < t + 4 ==> sched(k) == i
    ensures At(limit, s, sched, t + 4) == State(At(limit, s, sched, t).value + 1, At(limit, s, sched, t).procs)
  {
    var r := At(limit, s, sched, t);
    FourSteps(limit, r, Turn(r.value, |r.procs|));
    var i := Turn(r.value, |r.procs|);
    assert sched(t) == i && sched(t + 1) == i && sched(t + 2) == i && sched(t + 3) == i;
    assert At(limit, s, sched, t + 1) == Next(limit, r, i);
    assert At(limit, s, sched, t + 2) == Next(limit, At(limit, s, sched, t + 1), i);
    assert At(limit, s, sched, t + 3) == Next(limit, At(limit, s, sched, t + 2), i);
    assert At(limit, s, sched, t + 4) == Next(limit, At(limit, s, sched, t + 3), i);
  }

  lemma FourSteps(limit: int, r: State, i: nat)
    requires i < |r.procs| && r.value < limit && i == Turn(r.value, |r.procs|) && r.procs[i].Testing?
    ensures Next(limit, Next(limit, Next(limit, Next(limit, r, i), i), i), i) == State(r.value + 1, r.procs)
  {
    assert r.procs[i := Spinning][i := Reading] == r.procs[i := Reading];
    assert r.procs[i := Reading][i := Swapping(r.value)] == r.procs[i := Swapping(r.value)];
    assert r.procs[i := Swapping(r.value)][i := Testing] == r.procs;
  }

  /** The counting up to limit - 1. */
  lemma {:induction false} CountsUp(limit: nat, s: State, j: nat, v: nat)
    requires Initial(s) && j < |s.procs| && v < limit
    ensures Schedules(LeavingBehind(limit, |s.procs|, j), |s.procs|)
    ensures At(limit, s, LeavingBehind(limit, |s.procs|, j), 4 * v) == State(v, s.procs)
  {
    if v > 0 {
      var sched := LeavingBehind(limit, |s.procs|, j);
      CountsUp(limit, s, j, v - 1);
      forall k: nat | 4 * (v - 1) <= k < 4 * (v - 1) + 4
        ensures sched(k) == Turn(v - 1, |s.procs|)
      {
        assert k / 4 == v - 1;
      }
      TakesItsTurn(limit, s, sched, 4 * (v - 1));
    }
  }

  /** At limit - 1, `j` passes its test, and the process whose turn it is increments. */
  lemma PassesItsTest(limit: nat, s: State, j: nat)
    requires Initial(s) && limit >= 1 && j < |s.procs| && j != Turn(limit - 1, |s.procs|)
    ensures Schedules(LeavingBehind(limit, |s.procs|, j), |s.procs|)
    ensures At(limit, s, LeavingBehind(limit, |s.procs|, j), 4 * limit + 1) == State(limit, s.procs[j := Spinning])
  {
    var sched := LeavingBehind(limit, |s.procs|, j);
    CountsUp(limit, s, j, limit - 1);
    assert sched(4 * (limit - 1)) == j;
    TestsBeforeIncrement(limit, s, sched, 4 * (limit - 1), s.procs, j);
  }

  lemma TestsBeforeIncrement(limit: nat, s: State, sched: Schedule, t: nat, procs: seq<Process>, j: nat)
    requires Schedules(sched, |s.procs|) && limit >= 1 && j < |procs| == |s.procs|
    requires j != Turn(limit - 1, |procs|) && procs[j].Testing? && procs[Turn(limit - 1, |procs|)].Testing?
    requires At(limit, s, sched, t) == State(limit - 1, procs) && sched(t) == j
    requires forall k: nat :: t + 1 <= k < t + 5 ==> sched(k) == Turn(limit - 1, |procs|)
    ensures At(limit, s, sched, t + 5) == State(limit, procs[j := Spinning])
  {
    assert At(limit, s, sched, t + 1) == State(limit - 1, procs[j := Spinning]);
    TakesItsTurn(limit, s, sched, t + 1);
  }

  /** Then the next process leaves, and `j` still spins. */
  lemma LeavesItBehind(limit: nat, s: State, j: nat)
    requires Initial(s) && limit >= 1 && j < |s.procs|
    requires j != Turn(limit - 1, |s.procs|) && j != Turn(limit, |s.procs|)
    ensures Schedules(LeavingBehind(limit, |s.procs|, j), |s.procs|)
    ensures var r := At(limit, s, LeavingBehind(limit, |s.procs|, j), 4 * limit + 2);
            TurnDone(r) && r.procs[j].Spinning?
  {
    PassesItsTest(limit, s, j);
    assert LeavingBehind(limit, |s.procs|, j)(4 * limit + 1) == Turn(limit, |s.procs|);
  }

  /** Beside those two, every process may spin for ever although the schedule is fair. */
  lemma OthersMaySpinForever(limit: nat, s: State, j: nat)
    requires Initial(s) && limit >= 1 && j < |s.procs|
    requires j != Turn(limit - 1, |s.procs|) && j != Turn(limit, |s.procs|)
    ensures Fair(LeavingBehind(limit, |s.procs|, j), |s.procs|)
    ensures !Exits(limit, s, LeavingBehind(limit, |s.procs|, j), j)
  {
    var sched := LeavingBehind(limit, |s.procs|, j);
    LeavingBehindIsFair(limit, |s.procs|, j);
    LeavesItBehind(limit, s, j);
    var u := 4 * limit + 2;
    forall t: nat
      ensures !At(limit, s, sched, t).procs[j].Done?
    {
      if t >= u {
        StaysSettled(limit, s, sched, u, t);
      } else {
        DoneStays(limit, s, sched, t, u);
      }
    }
  }

  /** Process `j` reaches its exit. */
  ghost predicate Exits(limit: int, s: State, sched: Schedule, j: nat)
    requires Schedules(sched, |s.procs|) && j < |s.procs|
  {
    exists t: nat :: At(limit, s, sched, t).procs[j].Done?
  }

  /**
   Who exits: a process reaches its exit in every fair schedule if and only if it is the one
   that increments at limit - 1 or the one after it.
   */
  lemma AlwaysExitsIff(limit: nat, s: State, j: nat)
    requires Initial(s) && limit >= 1 && j < |s.procs|
    ensures (forall sched: Schedule :: Fair(sched, |s.procs|) ==> Exits(limit, s, sched, j))
            <==> j == Turn(limit - 1, |s.procs|) || j == Turn(limit, |s.procs|)
  {
    if j == Turn(limit - 1, |s.procs|) || j == Turn(limit, |s.procs|) {
      forall sched: Schedule | Fair(sched, |s.procs|)
        ensures Exits(limit, s, sched, j)
      {
        var u, value := Settles(limit, s, sched);
        assert Settled(limit, At(limit, s, sched, u), value);
      }
    } else {
      OthersMaySpinForever(limit, s, j);
    }
  }

  /** The program as it is: IDs 4 and 0 exit in every fair schedule; IDs 1, 2 and 3 need not. */
  lemma OnlyFourAndZeroAlwaysExit(s: State, id: nat)
    requires Initial(s) && |s.procs| == COUNTERS && id < COUNTERS
    ensures (forall sched: Schedule :: Fair(sched, COUNTERS) ==> Exits(LIMIT, s, sched, id)) <==> id == 4 || id == 0
  {
    AlwaysExitsIff(LIMIT, s, id);
    assert Turn(LIMIT - 1, COUNTERS) == 4 && Turn(LIMIT, COUNTERS) == 0;
  }
}
