/**
 The condition-variable program as threads that interleave at every operation on the mutex,
 the condition variable and the shared count: any number of incrementers, each counting
 `times` times, and one watcher that sleeps until the count has reached `limit`.  Waking
 without a signal is one of the steps, since pthread_cond_wait may do it at any time.
 */
module Pthreads {
  const BONUS := 125

  // The program's own numbers.
  const INCREMENTERS := 2
  const TCOUNT := 10
  const COUNT_LIMIT := 12

  /** Where an incrementer is in its loop, and how many passes it has completed. */
  datatype Incrementer =
    | Outside(done: nat)      // about to lock, or finished when all passes are done
    | Counting(done: nat)     // has the mutex, about to increment
    | Testing(done: nat)      // has incremented, about to compare with the limit
    | Unlocking(done: nat)    // about to release the mutex

  datatype Watcher =
    | Starting    // about to lock for the first time
    | Checking    // has the mutex, at the test of the while loop
    | Asleep      // in pthread_cond_wait, without the mutex
    | Woken       // in pthread_cond_wait, taking the mutex back
    | Adding      // has the mutex, past the loop
    | Leaving     // has added, about to release the mutex
    | Gone

  datatype Owner = Free | ByIncrementer(i: nat) | ByWatcher

  datatype Program = Program(times: nat, limit: int)

  datatype State = State(count: int, lock: Owner, incs: seq<Incrementer>, watcher: Watcher)

  datatype Step =
    | IncLock(i: nat)
    | IncCount(i: nat)
    | IncTest(i: nat)
    | IncUnlock(i: nat)
    | WatchLock
    | WatchCheck
    | WatchAdd
    | WatchUnlock
    | SpuriousWakeup

  predicate Enabled(pr: Program, s: State, e: Step) {
    match e
    case IncLock(i) => i < |s.incs| && s.incs[i].Outside? && s.incs[i].done < pr.times && s.lock.Free?
    case IncCount(i) => i < |s.incs| && s.incs[i].Counting?
    case IncTest(i) => i < |s.incs| && s.incs[i].Testing?
    case IncUnlock(i) => i < |s.incs| && s.incs[i].Unlocking?
    case WatchLock => (s.watcher.Starting? || s.watcher.Woken?) && s.lock.Free?
    case WatchCheck => s.watcher.Checking?
    case WatchAdd => s.watcher.Adding?
    case WatchUnlock => s.watcher.Leaving?
    case SpuriousWakeup => s.watcher.Asleep?
  }

  /** pthread_cond_signal: a sleeping watcher wakes, otherwise nothing happens. */
  function Signalled(w: Watcher): Watcher {
    if w.Asleep? then Woken else w
  }

  function Next(pr: Program, s: State, e: Step): State
    requires Enabled(pr, s, e)
  {
    match e
    case IncLock(i) => s.(lock := ByIncrementer(i), incs := s.incs[i := Counting(s.incs[i].done)])
    case IncCount(i) => s.(count := s.count + 1, incs := s.incs[i := Testing(s.incs[i].done)])
    case IncTest(i) =>
      s.(incs := s.incs[i := Unlocking(s.incs[i].done)],
         watcher := if s.count == pr.limit then Signalled(s.watcher) else s.watcher)
    case IncUnlock(i) => s.(lock := Free, incs := s.incs[i := Outside(s.incs[i].done + 1)])
    case WatchLock => s.(lock := ByWatcher, watcher := Checking)
    case WatchCheck =>
      if s.count < pr.limit then s.(lock := Free, watcher := Asleep) else s.(watcher := Adding)
    case WatchAdd => s.(count := s.count + BONUS, watcher := Leaving)
    case WatchUnlock => s.(lock := Free, watcher := Gone)
    case SpuriousWakeup => s.(watcher := Woken)
  }

  ghost predicate Initial(s: State) {
    && s.count == 0 && s.lock.Free? && s.watcher.Starting?
    && forall i :: 0 <= i < |s.incs| ==> s.incs[i] == Outside(0)
  }

  predicate Runs(pr: Program, s: State, es: seq<Step>)
    decreases |es|
  {
    es == [] || (Enabled(pr, s, es[0]) && Runs(pr, Next(pr, s, es[0]), es[1..]))
  }

  function Run(pr: Program, s: State, es: seq<Step>): State
    requires Runs(pr, s, es)
    decreases |es|
  {
    if es == [] then s else Run(pr, Next(pr, s, es[0]), es[1..])
  }

  // ------------------------------------------------------------------ what every step keeps

  /** How often an incrementer has incremented. */
  function Increments(t: Incrementer): nat {
    t.done + if t.Testing? || t.Unlocking? then 1 else 0
  }

  /** How many of its rounds an incrementer has begun. */
  function Begun(t: Incrementer): nat {
    t.done + if t.Outside? then 0 else 1
  }

  function Total(ts: seq<Incrementer>): nat {
    if ts == [] then 0 else Increments(ts[0]) + Total(ts[1..])
  }

  function Added(w: Watcher): int {
    if w.Leaving? || w.Gone? then BONUS else 0
  }

  /** The count is what the incrementers have done, plus the watcher's addition. */
  ghost predicate CountKept(s: State) {
    s.count == Total(s.incs) + Added(s.watcher)
  }

  /** Exactly the owner of the mutex is in its critical section. */
  ghost predicate LockHeld(s: State) {
    && (forall i :: 0 <= i < |s.incs| ==> (!s.incs[i].Outside? <==> s.lock == ByIncrementer(i)))
    && (s.lock.ByIncrementer? ==> s.lock.i < |s.incs|)
    && (s.lock.ByWatcher? <==> s.watcher.Checking? || s.watcher.Adding? || s.watcher.Leaving?)
  }

  /** No incrementer passes its number of rounds. */
  ghost predicate WithinRounds(pr: Program, s: State) {
    forall i :: 0 <= i < |s.incs| ==> Increments(s.incs[i]) <= Begun(s.incs[i]) <= pr.times
  }

  /** A watcher asleep at or above the limit is about to be signalled. */
  ghost predicate NoLostSignal(pr: Program, s: State) {
    s.watcher.Asleep? && s.count >= pr.limit ==>
      s.count == pr.limit && s.lock.ByIncrementer? && s.lock.i < |s.incs| && s.incs[s.lock.i].Testing?
  }

  /** The watcher goes past its loop only at or above the limit. */
  ghost predicate AddsAtLimit(pr: Program, s: State) {
    && (s.watcher.Adding? ==> s.count >= pr.limit)
    && (s.watcher.Leaving? || s.watcher.Gone? ==> s.count >= pr.limit + BONUS)
  }

  ghost predicate Inv(pr: Program, s: State) {
    CountKept(s) && LockHeld(s) && WithinRounds(pr, s) && NoLostSignal(pr, s) && AddsAtLimit(pr, s)
  }

  lemma {:induction false} TotalUpdate(ts: seq<Incrementer>, i: nat, t: Incrementer)
    requires i < |ts|
    ensures Total(ts[i := t]) == Total(ts) - Increments(ts[i]) + Increments(t)
  {
    if i == 0 {
      assert ts[i := t][1..] == ts[1..];
    } else {
      assert ts[i := t][1..] == ts[1..][i - 1 := t];
      TotalUpdate(ts[1..], i - 1, t);
    }
  }

  lemma {:induction false} TotalAtMost(ts: seq<Incrementer>, times: nat)
    requires forall i :: 0 <= i < |ts| ==> Increments(ts[i]) <= times
    ensures Total(ts) <= |ts| * times
    ensures (forall i :: 0 <= i < |ts| ==> ts[i] == Outside(times)) ==> Total(ts) == |ts| * times
  {
    if ts != [] {
      assert forall i :: 0 <= i < |ts| - 1 ==> ts[1..][i] == ts[i + 1];
      TotalAtMost(ts[1..], times);
      assert |ts| * times == |ts[1..]| * times + times;
    }
  }

  lemma {:induction false} NothingYet(ts: seq<Incrementer>)
    requires forall i :: 0 <= i < |ts| ==> ts[i] == Outside(0)
    ensures Total(ts) == 0
  {
    if ts != [] {
      NothingYet(ts[1..]);
    }
  }

  lemma StepKeepsCount(pr: Program, s: State, e: Step)
    requires CountKept(s) && Enabled(pr, s, e)
    ensures CountKept(Next(pr, s, e))
  {
    match e
    case IncLock(i) => TotalUpdate(s.incs, i, Counting(s.incs[i].done));
    case IncCount(i) => TotalUpdate(s.incs, i, Testing(s.incs[i].done));
    case IncTest(i) => TotalUpdate(s.incs, i, Unlocking(s.incs[i].done));
    case IncUnlock(i) => TotalUpdate(s.incs, i, Outside(s.incs[i].done + 1));
    case _ =>
  }

  lemma StepKeepsInv(pr: Program, s: State, e: Step)
    requires Inv(pr, s) && Enabled(pr, s, e)
    ensures Inv(pr, Next(pr, s, e))
  {
    StepKeepsCount(pr, s, e);
  }

  lemma InitialOk(pr: Program, s: State)
    requires Initial(s)
    ensures Inv(pr, s)
  {
    NothingYet(s.incs);
  }

  /**
   Over every schedule, spurious wakeups included, the count is exact, one thread at a time is
   in its critical section, and a watcher that sleeps with the mutex free is below the limit.
   */
  lemma {:induction false} RunKeepsInv(pr: Program, s: State, es: seq<Step>)
    requires Inv(pr, s) && Runs(pr, s, es)
    ensures Inv(pr, Run(pr, s, es)) && |Run(pr, s, es).incs| == |s.incs|
    ensures Run(pr, s, es).watcher.Asleep? && Run(pr, s, es).lock.Free? ==> Run(pr, s, es).count < pr.limit
    decreases |es|
  {
    if es != [] {
      StepKeepsInv(pr, s, es[0]);
      RunKeepsInv(pr, Next(pr, s, es[0]), es[1..]);
    }
  }

  // ------------------------------------------------------------------ no deadlock

  predicate Finished(pr: Program, s: State) {
    s.watcher.Gone? && IncrementersDone(pr, s)
  }

  predicate IncrementersDone(pr: Program, s: State) {
    forall i :: 0 <= i < |s.incs| ==> s.incs[i] == Outside(pr.times)
  }

  /** No thread can go on, except by waking without a signal. */
  ghost predicate Stuck(pr: Program, s: State) {
    forall e :: Enabled(pr, s, e) ==> e.SpuriousWakeup?
  }

  /** What the owner of the mutex does next. */
  function OwnersStep(s: State): (e: Step)
    requires LockHeld(s) && !s.lock.Free?
    ensures !e.SpuriousWakeup? && forall pr :: Enabled(pr, s, e)
  {
    match s.lock
    case ByIncrementer(i) =>
      (match s.incs[i]
       case Counting(_) => IncCount(i)
       case Testing(_) => IncTest(i)
       case Unlocking(_) => IncUnlock(i))
    case ByWatcher =>
      (match s.watcher
       case Checking => WatchCheck
       case Adding => WatchAdd
       case Leaving => WatchUnlock)
  }

  /** When nobody can go on, the mutex is free and every incrementer is done. */
  lemma StuckMeansDone(pr: Program, s: State)
    requires Inv(pr, s) && Stuck(pr, s)
    ensures s.lock.Free? && IncrementersDone(pr, s)
    ensures s.watcher.Asleep? || s.watcher.Gone?
  {
    assert !s.lock.Free? ==> Enabled(pr, s, OwnersStep(s));
    assert !Enabled(pr, s, WatchLock);
    forall i | 0 <= i < |s.incs|
      ensures s.incs[i] == Outside(pr.times)
    {
      assert !Enabled(pr, s, IncLock(i));
    }
  }

  /**
   Every run that can go no further has joined all threads exactly when the limit is no more
   than the increments there are; then the count is all increments and the watcher's addition.
   */
  lemma {:induction false} JoinsIffLimitReachable(pr: Program, s: State, es: seq<Step>)
    requires Initial(s) && Runs(pr, s, es) && Stuck(pr, Run(pr, s, es))
    ensures Finished(pr, Run(pr, s, es)) <==> pr.limit <= |s.incs| * pr.times
    ensures Finished(pr, Run(pr, s, es)) ==> Run(pr, s, es).count == |s.incs| * pr.times + BONUS
  {
    InitialOk(pr, s);
    RunKeepsInv(pr, s, es);
    var end := Run(pr, s, es);
    StuckMeansDone(pr, end);
    TotalAtMost(end.incs, pr.times);
  }

  /** A run that has joined all threads leaves the exact count, whatever the schedule was. */
  lemma {:induction false} JoinedCount(pr: Program, s: State, es: seq<Step>)
    requires Initial(s) && Runs(pr, s, es) && Finished(pr, Run(pr, s, es))
    ensures Run(pr, s, es).count == |s.incs| * pr.times + BONUS
  {
    InitialOk(pr, s);
    RunKeepsInv(pr, s, es);
    TotalAtMost(Run(pr, s, es).incs, pr.times);
  }

  /** The program as it is: nobody stays stuck, and the main thread prints 145. */
  lemma {:induction false} ProgramPrints145(pr: Program, s: State, es: seq<Step>)
    requires pr == Program(TCOUNT, COUNT_LIMIT) && Initial(s) && |s.incs| == INCREMENTERS
    requires Runs(pr, s, es) && Stuck(pr, Run(pr, s, es))
    ensures Finished(pr, Run(pr, s, es)) && Run(pr, s, es).count == 145
  {
    JoinsIffLimitReachable(pr, s, es);
  }

  // ------------------------------------------------------------------ every run ends

  /** Steps an incrementer has left; its test weighs three, for the watcher it may wake. */
  function IncWork(pr: Program, t: Incrementer): int {
    6 * (pr.times - t.done) - match t
      case Outside(_) => 0
      case Counting(_) => 1
      case Testing(_) => 2
      case Unlocking(_) => 5
  }

  function IncsWork(pr: Program, ts: seq<Incrementer>): int {
    if ts == [] then 0 else IncWork(pr, ts[0]) + IncsWork(pr, ts[1..])
  }

  function WatcherWork(w: Watcher): nat {
    match w
    case Starting => 5
    case Woken => 5
    case Checking => 4
    case Asleep => 3
    case Adding => 2
    case Leaving => 1
    case Gone => 0
  }

  function Work(pr: Program, s: State): int {
    IncsWork(pr, s.incs) + WatcherWork(s.watcher)
  }

  lemma {:induction false} IncsWorkUpdate(pr: Program, ts: seq<Incrementer>, i: nat, t: Incrementer)
    requires i < |ts|
    ensures IncsWork(pr, ts[i := t]) == IncsWork(pr, ts) - IncWork(pr, ts[i]) + IncWork(pr, t)
  {
    if i == 0 {
      assert ts[i := t][1..] == ts[1..];
    } else {
      assert ts[i := t][1..] == ts[1..][i - 1 := t];
      IncsWorkUpdate(pr, ts[1..], i - 1, t);
    }
  }

  lemma {:induction false} IncsWorkNeverNegative(pr: Program, ts: seq<Incrementer>)
    requires forall i :: 0 <= i < |ts| ==> Begun(ts[i]) <= pr.times
    ensures IncsWork(pr, ts) >= 0
  {
    if ts != [] {
      assert forall i :: 0 <= i < |ts| - 1 ==> ts[1..][i] == ts[i + 1];
      IncsWorkNeverNegative(pr, ts[1..]);
    }
  }

  /** Every step uses up work; only a spurious wakeup adds some, and that is two. */
  lemma StepUsesUpWork(pr: Program, s: State, e: Step)
    requires Enabled(pr, s, e)
    ensures e.SpuriousWakeup? ==> Work(pr, Next(pr, s, e)) == Work(pr, s) + 2
    ensures !e.SpuriousWakeup? ==> Work(pr, Next(pr, s, e)) < Work(pr, s)
  {
    match e
    case IncLock(i) => IncsWorkUpdate(pr, s.incs, i, Counting(s.incs[i].done));
    case IncCount(i) => IncsWorkUpdate(pr, s.incs, i, Testing(s.incs[i].done));
    case IncTest(i) => IncsWorkUpdate(pr, s.incs, i, Unlocking(s.incs[i].done));
    case IncUnlock(i) => IncsWorkUpdate(pr, s.incs, i, Outside(s.incs[i].done + 1));
    case _ =>
  }

  function Spurious(es: seq<Step>): nat {
    if es == [] then 0 else (if es[0].SpuriousWakeup? then 1 else 0) + Spurious(es[1..])
  }

  lemma {:induction false} WorkOverRun(pr: Program, s: State, es: seq<Step>)
    requires Runs(pr, s, es)
    ensures Work(pr, Run(pr, s, es)) + |es| <= Work(pr, s) + 3 * Spurious(es)
    decreases |es|
  {
    if es != [] {
      StepUsesUpWork(pr, s, es[0]);
      WorkOverRun(pr, Next(pr, s, es[0]), es[1..]);
    }
  }

  /** A run is no longer than its work and three steps for each spurious wakeup in it. */
  lemma {:induction false} RunEnds(pr: Program, s: State, es: seq<Step>)
    requires Inv(pr, s) && Runs(pr, s, es)
    ensures |es| <= Work(pr, s) + 3 * Spurious(es)
  {
    WorkOverRun(pr, s, es);
    RunKeepsInv(pr, s, es);
    IncsWorkNeverNegative(pr, Run(pr, s, es).incs);
  }
}
