/**
 The event loop as a step system: one loop thread, any number of other threads, and the
 eventfd that connects them. Every step is one atomic action of the code in
 src/net/EventLoop.cpp, so a run of steps is one interleaving.
 */
module LoopSpec {

  /** Where the loop thread is inside `loop` and `doTask`. */
  datatype Pc =
    | NotStarted   // constructed, `loop` not yet entered
    | CheckExit    // about to evaluate the `while` guard
    | Polling      // inside `poll`
    | Dispatching  // running the handlers of the active channels
    | Swapping     // `_workingFlag` is set, the queue is not swapped yet
    | Running      // running the swapped batch
    | Clearing     // `_workingFlag` is down again, the batch vector dies
    | Exited       // `loop` has returned

  /** Why a thread is going to write the eventfd. */
  datatype Debt = Pushed | Quitting

  /** `batch` is the local vector of `doTask`; its first `ran` tasks have been started.
      `owing` holds the other threads that have pushed a task or set the exit flag, as the debt
      says, and have not written the eventfd yet; `selfOwing` says the same of the loop thread.
      `pushed` and `executed` are histories. `cold` holds the tasks that the loop thread has pushed
      since the last swap in a place where its push wakes nobody. */
  datatype Loop<T> = Loop(
    pc: Pc, tasks: seq<T>, batch: seq<T>, ran: nat,
    wake: nat, woken: bool, exit: bool, working: bool,
    owing: map<nat, Debt>, selfOwing: bool,
    pushed: seq<T>, executed: seq<T>, cold: seq<T>)

  datatype Step<T> =
    | Start                       // enter `loop`
    | Check                       // evaluate the `while` guard
    | PollReturn(ready: bool)     // `poll` returns; `ready`: the wakeup channel is active
    | DrainWake                   // `handleRead` of the wakeup channel
    | BeginTasks                  // `_workingFlag = true`
    | Swap                        // swap the queue under the lock
    | RunTask                     // start the next task of the batch
    | EndTasks                    // `_workingFlag = false`
    | Cleared                     // the batch vector is gone
    | SelfPush(own: T)            // `queueInLoop` in the loop thread: the push
    | SelfWake                    // ... and its eventfd write
    | SelfQuit                    // `quit` in the loop thread
    | Push(tid: nat, task: T)     // `queueInLoop` in thread `tid`: the push
    | Quit(quitter: nat)          // `quit` in another thread: setting the flag
    | Wake(waker: nat)            // the eventfd write of either

  function Init<T>(): Loop<T> {
    Loop(NotStarted, [], [], 0, 0, false, false, false, map[], false, [], [], [])
  }

  /** User code runs in the loop thread only in these places. When the batch vector dies, the closures'
      destructors run, and with them those of the objects that only they still held: a connection's
      channel, for one, then queues the closing of its descriptor. */
  predicate InUserCode<T>(l: Loop<T>) {
    l.pc in {NotStarted, Dispatching, Running, Clearing, Exited} && !l.selfOwing
  }

  /** Where `queueInLoop` in the loop thread writes no wakeup and no swap comes before the next poll. */
  predicate WakesNobody<T>(l: Loop<T>) {
    l.pc in {NotStarted, Clearing}
  }

  predicate Enabled<T>(l: Loop<T>, s: Step<T>) {
    match s
    case Start => l.pc == NotStarted
    case Check => l.pc == CheckExit
    case PollReturn(ready) => l.pc == Polling && (ready ==> l.wake > 0)
    case DrainWake => l.pc == Dispatching && l.woken
    case BeginTasks => l.pc == Dispatching && !l.woken
    case Swap => l.pc == Swapping
    case RunTask => l.pc == Running && !l.selfOwing && l.ran < |l.batch|
    case EndTasks => l.pc == Running && !l.selfOwing && l.ran == |l.batch|
    case Cleared => l.pc == Clearing
    case SelfPush(_) => InUserCode(l)
    case SelfWake => l.selfOwing
    case SelfQuit => InUserCode(l)
    case Push(tid, _) => tid !in l.owing
    case Quit(tid) => tid !in l.owing
    case Wake(tid) => tid in l.owing
  }

  function Next<T>(l: Loop<T>, s: Step<T>): Loop<T>
    requires Enabled(l, s)
  {
    match s
    case Start => l.(pc := CheckExit)
    case Check => l.(pc := if l.exit then Exited else Polling)
    case PollReturn(ready) => l.(pc := Dispatching, woken := ready)
    case DrainWake => l.(wake := 0, woken := false)
    case BeginTasks => l.(pc := Swapping, working := true)
    case Swap => l.(pc := Running, batch := l.tasks, ran := 0, tasks := [], cold := [])
    case RunTask => l.(ran := l.ran + 1, executed := l.executed + [l.batch[l.ran]])
    case EndTasks => l.(pc := Clearing, working := false)
    case Cleared => l.(pc := CheckExit, batch := [], ran := 0)
    case SelfPush(t) =>
      l.(tasks := l.tasks + [t], pushed := l.pushed + [t],
         selfOwing := l.working, cold := if WakesNobody(l) then l.cold + [t] else l.cold)
    case SelfWake => l.(wake := l.wake + 1, selfOwing := false)
    case SelfQuit => l.(exit := true)
    case Push(tid, t) => l.(tasks := l.tasks + [t], pushed := l.pushed + [t], owing := l.owing[tid := Pushed])
    case Quit(tid) => l.(exit := true, owing := l.owing[tid := Quitting])
    case Wake(tid) => l.(wake := l.wake + 1, owing := l.owing - {tid})
  }

  // ---------------------------------------------------------------- runs

  ghost predicate Legal<T>(l: Loop<T>, run: seq<Step<T>>)
    decreases |run|
  {
    run == [] || (Enabled(l, run[0]) && Legal(Next(l, run[0]), run[1..]))
  }

  ghost function After<T>(l: Loop<T>, run: seq<Step<T>>): Loop<T>
    requires Legal(l, run)
    decreases |run|
  {
    if run == [] then l else After(Next(l, run[0]), run[1..])
  }

  lemma {:induction false} AfterSnoc<T>(l: Loop<T>, run: seq<Step<T>>, s: Step<T>)
    requires Legal(l, run) && Enabled(After(l, run), s)
    ensures Legal(l, run + [s])
    ensures After(l, run + [s]) == Next(After(l, run), s)
    decreases |run|
  {
    if run == [] {
      assert [s][1..] == [];
    } else {
      AfterSnoc(Next(l, run[0]), run[1..], s);
      assert (run + [s])[1..] == run[1..] + [s];
    }
  }

  // ---------------------------------------------------------------- the interleaving invariant

  /** The threads between the push and the eventfd write of `queueInLoop`. */
  ghost function Pushers<T>(l: Loop<T>): set<nat> {
    set x | x in l.owing && l.owing[x].Pushed?
  }

  /** The threads between the flag and the eventfd write of `quit`. */
  ghost function Quitters<T>(l: Loop<T>): set<nat> {
    set x | x in l.owing && l.owing[x].Quitting?
  }

  /** Someone who queued a task is due to end the current or the next `poll`, or it ends at once. */
  ghost predicate WakeDue<T>(l: Loop<T>) {
    l.wake > 0 || Pushers(l) != {} || l.selfOwing
  }

  /** What the loop thread's place says of its flags and its batch. */
  ghost predicate PlaceInv<T>(l: Loop<T>) {
    && l.ran <= |l.batch|
    && (l.pc !in {Running, Clearing} ==> l.batch == [])
    && (l.pc == Clearing ==> l.ran == |l.batch|)
    && (l.working <==> l.pc in {Swapping, Running})
    && (l.selfOwing ==> l.pc == Running)
    && (l.woken ==> l.pc == Dispatching)
    && (l.pc == Exited ==> l.exit)
  }

  /** Between a swap and the end of the next poll a wakeup is due, or everything queued was pushed cold. */
  ghost predicate WakeInv<T>(l: Loop<T>) {
    l.pc in {NotStarted, Running, Clearing, CheckExit, Polling} ==> WakeDue(l) || l.tasks == l.cold
  }

  ghost predicate QuitInv<T>(l: Loop<T>) {
    l.pc == Polling && l.exit ==> l.wake > 0 || Quitters(l) != {}
  }

  ghost predicate HistoryInv<T>(l: Loop<T>) {
    l.ran <= |l.batch| && l.pushed == l.executed + l.batch[l.ran..] + l.tasks
  }

  ghost predicate Inv<T>(l: Loop<T>) {
    PlaceInv(l) && WakeInv(l) && QuitInv(l) && HistoryInv(l)
  }

  lemma PushHistory<T>(l: Loop<T>, t: T)
    requires HistoryInv(l)
    ensures l.pushed + [t] == l.executed + l.batch[l.ran..] + (l.tasks + [t])
  {
  }

  lemma RunHistory<T>(l: Loop<T>)
    requires HistoryInv(l) && l.ran < |l.batch|
    ensures l.pushed == l.executed + [l.batch[l.ran]] + l.batch[l.ran + 1..] + l.tasks
  {
    assert l.batch[l.ran..] == [l.batch[l.ran]] + l.batch[l.ran + 1..];
  }

  lemma HistoryKept<T>(l: Loop<T>, s: Step<T>)
    requires PlaceInv(l) && HistoryInv(l) && Enabled(l, s)
    ensures HistoryInv(Next(l, s))
  {
    match s
    case RunTask => RunHistory(l);
    case Swap => assert l.batch[l.ran..] == [] && l.tasks[0..] == l.tasks;
    case Cleared => assert l.batch[l.ran..] == [] && Next(l, s).batch[0..] == [];
    case SelfPush(t) => PushHistory(l, t);
    case Push(_, t) => PushHistory(l, t);
    case _ =>
  }

  lemma PlaceKept<T>(l: Loop<T>, s: Step<T>)
    requires PlaceInv(l) && Enabled(l, s)
    ensures PlaceInv(Next(l, s))
  {
  }

  lemma WakeKept<T>(l: Loop<T>, s: Step<T>)
    requires PlaceInv(l) && WakeInv(l) && Enabled(l, s)
    ensures WakeInv(Next(l, s))
  {
    var m := Next(l, s);
    match s
    case Push(tid, _) => assert tid in Pushers(m);
    case Quit(tid) => forall x | x in Pushers(l) ensures x in Pushers(m) {}
    case _ =>
  }

  lemma QuitKept<T>(l: Loop<T>, s: Step<T>)
    requires PlaceInv(l) && QuitInv(l) && Enabled(l, s)
    ensures QuitInv(Next(l, s))
  {
    var m := Next(l, s);
    match s
    case Push(_, _) => forall x | x in Quitters(l) ensures x in Quitters(m) {}
    case Quit(tid) => assert tid in Quitters(m);
    case _ =>
  }

  lemma InvKept<T>(l: Loop<T>, s: Step<T>)
    requires Inv(l) && Enabled(l, s)
    ensures Inv(Next(l, s))
  {
    PlaceKept(l, s);
    WakeKept(l, s);
    QuitKept(l, s);
    HistoryKept(l, s);
    hide PlaceInv, WakeInv, QuitInv, HistoryInv;
  }

  lemma {:induction false} InvAlongRun<T>(l: Loop<T>, run: seq<Step<T>>)
    requires Inv(l) && Legal(l, run)
    ensures Inv(After(l, run))
    decreases |run|
  {
    if run != [] {
      InvKept(l, run[0]);
      InvAlongRun(Next(l, run[0]), run[1..]);
    }
  }

  // ---------------------------------------------------------------- main results

  /** The loop thread queued nothing before it entered `loop` or while a batch died. */
  ghost predicate Warm<T>(l: Loop<T>, run: seq<Step<T>>)
    requires Legal(l, run)
    decreases |run|
  {
    run == [] ||
    (!(run[0].SelfPush? && l.pc in {NotStarted, Clearing}) && Warm(Next(l, run[0]), run[1..]))
  }

  lemma {:induction false} WarmStaysWarm<T>(l: Loop<T>, run: seq<Step<T>>)
    requires Legal(l, run) && Warm(l, run) && l.cold == []
    ensures After(l, run).cold == []
    decreases |run|
  {
    if run != [] {
      WarmStaysWarm(Next(l, run[0]), run[1..]);
    }
  }

  /** No lost wakeup: in every interleaving in which the loop thread queues nothing before `loop` or
      while a batch dies, a loop that polls or is about to poll while tasks are queued has an
      eventfd that is readable or that a thread which queued a task is about to write. */
  lemma NoLostWakeup<T>(run: seq<Step<T>>)
    requires Legal(Init(), run) && Warm(Init(), run)
    ensures var l := After(Init(), run);
            l.pc in {CheckExit, Polling} && l.tasks != [] ==> l.wake > 0 || Pushers(l) != {}
  {
    InvAlongRun(Init(), run);
    WarmStaysWarm(Init(), run);
  }

  /** The exact condition, in every interleaving whatsoever: when nothing is due to wake a loop that
      polls or is about to, its queue holds precisely the cold pushes since the last swap. So it
      sleeps on a queued task if and only if there was such a push. */
  lemma SleepsExactlyOnColdPushes<T>(run: seq<Step<T>>)
    requires Legal(Init(), run)
    ensures var l := After(Init(), run);
            l.pc in {CheckExit, Polling} && l.wake == 0 && Pushers(l) == {} ==>
              l.tasks == l.cold && (l.tasks != [] <==> l.cold != [])
  {
    InvAlongRun(Init(), run);
  }

  /** A run without any push before `loop` that sleeps on a task: the closure of task 1 dies with the
      batch and a destructor queues task 2. */
  function DyingTaskRun(): seq<Step<int>> {
    [Start, Check, PollReturn(false), SelfPush(1), BeginTasks, Swap]
    + [RunTask, EndTasks, SelfPush(2), Cleared, Check]
  }

  lemma DyingTaskExample()
    ensures Legal(Init(), DyingTaskRun())
    ensures var l := After(Init(), DyingTaskRun());
            l.pc == Polling && l.tasks == [2] && l.wake == 0 && l.owing == map[] && !l.selfOwing
  {
    var swapped := Init<int>().(pc := Running, batch := [1], working := true, pushed := [1]);
    FirstTaskSwapped(swapped);
    TaskDies(swapped);
    var a: seq<Step<int>> := [Start, Check, PollReturn(false), SelfPush(1), BeginTasks, Swap];
    var b: seq<Step<int>> := [RunTask, EndTasks, SelfPush(2), Cleared, Check];
    hide Legal, After;
    RunOn(Init(), a, b);
  }

  lemma FirstTaskSwapped(swapped: Loop<int>)
    requires swapped == Init<int>().(pc := Running, batch := [1], working := true, pushed := [1])
    ensures var a: seq<Step<int>> := [Start, Check, PollReturn(false), SelfPush(1), BeginTasks, Swap];
            Legal(Init(), a) && After(Init(), a) == swapped
  {
    hide Legal, After;
    var l: Loop<int> := Init();
    var queued := l.(pc := Dispatching, tasks := [1], pushed := [1]);
    LastStep(queued.(pc := Swapping, working := true), Swap);
    RunStep(queued, [BeginTasks, Swap], [Swap]);
    assert l.tasks + [1] == [1];
    var c: seq<Step<int>> := [SelfPush(1), BeginTasks, Swap];
    RunStep(l.(pc := Dispatching), c, [BeginTasks, Swap]);
    var d := [PollReturn(false), SelfPush(1), BeginTasks, Swap];
    RunStep(l.(pc := Polling), d, c);
    var e := [Check, PollReturn(false), SelfPush(1), BeginTasks, Swap];
    RunStep(l.(pc := CheckExit), e, d);
    RunStep(l, [Start, Check, PollReturn(false), SelfPush(1), BeginTasks, Swap], e);
  }

  lemma TaskDies(swapped: Loop<int>)
    requires swapped == Init<int>().(pc := Running, batch := [1], working := true, pushed := [1])
    ensures var b: seq<Step<int>> := [RunTask, EndTasks, SelfPush(2), Cleared, Check];
            && Legal(swapped, b)
            && var l := After(swapped, b);
               l.pc == Polling && l.tasks == [2] && l.wake == 0 && l.owing == map[] && !l.selfOwing
  {
    var dying := swapped.(pc := Clearing, ran := 1, working := false, executed := [1]);
    var late := dying.(tasks := [2], pushed := [1, 2], cold := [2]);
    var clear := late.(pc := CheckExit, batch := [], ran := 0);
    hide Legal, After;
    LastStep(clear, Check);
    RunStep(late, [Cleared, Check], [Check]);
    RunStep(dying, [SelfPush(2), Cleared, Check], [Cleared, Check]);
    var d: seq<Step<int>> := [EndTasks, SelfPush(2), Cleared, Check];
    RunStep(swapped.(ran := 1, executed := [1]), d, [SelfPush(2), Cleared, Check]);
    RunStep(swapped, [RunTask, EndTasks, SelfPush(2), Cleared, Check], d);
  }

  lemma LastStep<T>(l: Loop<T>, s: Step<T>)
    requires Enabled(l, s)
    ensures Legal(l, [s]) && After(l, [s]) == Next(l, s)
  {
    assert [s][1..] == [];
  }

  lemma RunStep<T>(l: Loop<T>, run: seq<Step<T>>, rest: seq<Step<T>>)
    requires run != [] && run[1..] == rest && Enabled(l, run[0]) && Legal(Next(l, run[0]), rest)
    ensures Legal(l, run) && After(l, run) == After(Next(l, run[0]), rest)
  {
  }

  lemma {:induction false} RunOn<T>(l: Loop<T>, a: seq<Step<T>>, b: seq<Step<T>>)
    requires Legal(l, a) && Legal(After(l, a), b)
    ensures Legal(l, a + b) && After(l, a + b) == After(After(l, a), b)
    decreases |a|
  {
    if a == [] {
      assert a + b == b;
    } else {
      assert (a + b)[1..] == a[1..] + b;
      RunOn(Next(l, a[0]), a[1..], b);
    }
  }

  /** Steps of the loop thread up to its first `poll`, with no help from other threads. */
  ghost predicate Alone<T>(run: seq<Step<T>>) {
    forall k :: 0 <= k < |run| ==> run[k].SelfPush? || run[k].Start? || run[k].Check? || run[k].SelfQuit?
  }

  lemma {:induction false} AloneRun<T>(l: Loop<T>, run: seq<Step<T>>)
    requires Legal(l, run) && Alone(run)
    requires l.pc in {NotStarted, CheckExit, Polling, Exited}
    requires l.wake == 0 && l.owing == map[] && !l.selfOwing && !l.working
    ensures var m := After(l, run);
            && m.wake == 0 && m.owing == map[] && !m.selfOwing
            && (m.pc == Polling ==> (m.tasks != [] <==> l.tasks != [] || !Warm(l, run)))
    decreases |run|
  {
    if run != [] {
      assert Alone(run[1..]);
      AloneRun(Next(l, run[0]), run[1..]);
      if run[0].SelfPush? && l.pc == Exited {
        ExitedStays(Next(l, run[0]), run[1..]);
      }
    }
  }

  lemma {:induction false} ExitedStays<T>(l: Loop<T>, run: seq<Step<T>>)
    requires Legal(l, run) && l.pc == Exited
    ensures After(l, run).pc == Exited
    decreases |run|
  {
    if run != [] {
      ExitedStays(Next(l, run[0]), run[1..]);
    }
  }

  /** The hypothesis of NoLostWakeup is exact: when no other thread helps, the first `poll` is
      entered with a queued task and nothing due to end it if and only if the loop thread
      called `queueInLoop` before `loop`. */
  lemma FirstPollSleepsIffColdPush<T>(run: seq<Step<T>>)
    requires Legal(Init(), run) && Alone(run) && After(Init(), run).pc == Polling
    ensures var l := After(Init(), run);
            (l.tasks != [] && !WakeDue(l)) <==> !Warm(Init(), run)
  {
    AloneRun(Init(), run);
  }

  lemma ColdPushExample()
    ensures var run: seq<Step<int>> := [SelfPush(7), Start, Check];
            Legal(Init(), run) && After(Init(), run).pc == Polling
            && After(Init(), run).tasks == [7] && !WakeDue(After(Init(), run))
  {
    var a: Loop<int> := Init();
    var push: Step<int> := SelfPush(7);
    var start: Step<int> := Start;
    var check: Step<int> := Check;
    var b := Next(a, push);
    var c := Next(b, start);
    assert [push, start, check][1..] == [start, check];
    assert [start, check][1..] == [check];
    assert [check][1..] == [];
    assert Legal(c, [check]) && Legal(b, [start, check]);
  }

  /** Quit is not lost: a polling loop whose exit flag is set has a readable eventfd, or a thread that called
      `quit` is about to write it. */
  lemma QuitNotLost<T>(run: seq<Step<T>>)
    requires Legal(Init(), run)
    ensures var l := After(Init(), run);
            l.exit && l.pc == Polling ==> l.wake > 0 || Quitters(l) != {}
  {
    InvAlongRun(Init(), run);
  }

  /** Tasks are conserved and start in push order, each at most once; when `loop` has returned no
      batch is left part-run. */
  lemma TasksConserved<T>(run: seq<Step<T>>)
    requires Legal(Init(), run)
    ensures var l := After(Init(), run);
            && l.ran <= |l.batch|
            && l.pushed == l.executed + l.batch[l.ran..] + l.tasks
            && l.executed <= l.pushed
            && (l.pc == Exited ==> l.exit && l.batch == [] && l.pushed == l.executed + l.tasks)
  {
    InvAlongRun(Init(), run);
  }

  /** What the current batch will have executed when it is done. */
  function BatchGoal<T>(l: Loop<T>): seq<T>
    requires l.ran <= |l.batch|
  {
    l.executed + l.batch[l.ran..]
  }

  lemma BatchGoalFixed<T>(l: Loop<T>, s: Step<T>)
    requires Inv(l) && Enabled(l, s) && l.pc == Running
    ensures Inv(Next(l, s))
    ensures BatchGoal(Next(l, s)) == BatchGoal(l)
    ensures Next(l, s).pc != Running ==> Next(l, s).executed == BatchGoal(l)
  {
    InvKept(l, s);
    match s
    case RunTask =>
      assert l.batch[l.ran..] == [l.batch[l.ran]] + l.batch[l.ran + 1..];
    case EndTasks =>
      assert l.batch[l.ran..] == [];
    case _ =>
  }

  /** Every task that was queued at the swap has started before the loop polls again, whatever the
      tasks and the other threads do meanwhile. */
  lemma {:induction false} BatchFinishedBeforePoll<T>(l: Loop<T>, run: seq<Step<T>>)
    requires Inv(l) && l.pc == Running && Legal(l, run)
    requires After(l, run).pc == Polling
    ensures l.executed + l.batch[l.ran..] <= After(l, run).executed
    decreases |run|
  {
    var n := Next(l, run[0]);
    BatchGoalFixed(l, run[0]);
    if n.pc == Running {
      BatchFinishedBeforePoll(n, run[1..]);
    } else {
      ExecutedGrows(n, run[1..]);
    }
  }

  lemma {:induction false} ExecutedGrows<T>(l: Loop<T>, run: seq<Step<T>>)
    requires Legal(l, run)
    ensures l.executed <= After(l, run).executed
    decreases |run|
  {
    if run != [] {
      ExecutedGrows(Next(l, run[0]), run[1..]);
    }
  }
}
