/**
 The event loop's own code (src/net/EventLoop.cpp), with the other threads running between any two of
 its atomic actions. `trace` records every action, and Valid says that it is a run of LoopSpec: so
 what LoopSpec proves about all runs holds of this code.
 */
module EventLoops {
  import opened LoopSpec

  class EventLoop<T(0)> {
    var tasks: seq<T>
    var wakeupFd: nat          // the eventfd counter
    var exitFlag: bool
    var workingFlag: bool

    var owing: map<nat, Debt>  // other threads between their push or flag and their eventfd write

    ghost var pc: Pc
    ghost var batch: seq<T>    // the local vector of doTask
    ghost var ran: nat
    ghost var woken: bool      // the wakeup channel is active and not handled yet
    ghost var selfOwing: bool
    ghost var pushed: seq<T>
    ghost var executed: seq<T>
    ghost var cold: seq<T>     // pushed since the last swap where the loop thread's push wakes nobody
    ghost var trace: seq<Step<T>>

    ghost function View(): Loop<T>
      reads this
    {
      Loop(pc, tasks, batch, ran, wakeupFd, woken, exitFlag, workingFlag, owing, selfOwing, pushed, executed, cold)
    }

    ghost predicate Valid()
      reads this
    {
      Legal(Init(), trace) && After(Init(), trace) == View()
    }

    constructor ()
      ensures Valid() && View() == Init()
    {
      tasks, wakeupFd, exitFlag, workingFlag := [], 0, false, false;
      pc, batch, ran, woken, owing, selfOwing := NotStarted, [], 0, false, map[], false;
      pushed, executed, cold, trace := [], [], [], [];
    }

    /** Note one atomic action that led from `before` to the present state. */
    ghost method Record(before: Loop<T>, s: Step<T>)
      requires Legal(Init(), trace) && After(Init(), trace) == before
      requires Enabled(before, s) && View() == Next(before, s)
      modifies this`trace
      ensures Valid() && trace == old(trace) + [s]
    {
      AfterSnoc(Init(), trace, s);
      trace := trace + [s];
    }

    /** What other threads cannot change: everything but the queue, the exit flag and the eventfd. */
    twostate predicate Meanwhile()
      reads this
    {
      && pc == old(pc) && batch == old(batch) && ran == old(ran) && woken == old(woken)
      && workingFlag == old(workingFlag) && selfOwing == old(selfOwing) && executed == old(executed)
      && old(tasks) <= tasks && old(wakeupFd) <= wakeupFd && (old(exitFlag) ==> exitFlag)
      && old(trace) <= trace
    }

    /** Any number of actions of other threads: pushes, quits and eventfd writes. */
    method Interfere()
      requires Valid()
      modifies this
      ensures Valid() && Meanwhile()
    {
      hide Legal, After;
      var n: nat := *;
      while n > 0
        invariant Valid() && Meanwhile()
      {
        var tid: nat := *;
        var choice: int := *;
        var task: T := *;
        OtherThread(tid, choice, task);
        n := n - 1;
      }
    }

    /** One action of thread tid: the first half or the second half of `queueInLoop` or `quit`. */
    method OtherThread(tid: nat, choice: int, task: T)
      requires Valid()
      modifies this
      ensures Valid() && Meanwhile()
    {
      hide Legal, After, Next, Enabled;
      if tid in owing {
        OtherWakes(tid);
      } else if choice == 0 {
        OtherPushes(tid, task);
      } else {
        OtherQuits(tid);
      }
    }

    method OtherWakes(tid: nat)
      requires Valid() && tid in owing
      modifies this
      ensures Valid() && Meanwhile()
      ensures View() == old(View()).(wake := old(wakeupFd) + 1, owing := old(owing) - {tid})
    {
      hide Legal, After;
      ghost var before := View();
      wakeupFd := wakeupFd + 1;
      owing := owing - {tid};
      Record(before, Wake(tid));
    }

    method OtherPushes(tid: nat, task: T)
      requires Valid() && tid !in owing
      modifies this
      ensures Valid() && Meanwhile()
      ensures tasks == old(tasks) + [task] && owing == old(owing)[tid := Pushed]
      ensures wakeupFd == old(wakeupFd) && exitFlag == old(exitFlag)
    {
      hide Legal, After;
      ghost var before := View();
      tasks := tasks + [task];
      pushed := pushed + [task];
      owing := owing[tid := Pushed];
      Record(before, Push(tid, task));
    }

    method OtherQuits(tid: nat)
      requires Valid() && tid !in owing
      modifies this
      ensures Valid() && Meanwhile()
      ensures View() == old(View()).(exit := true, owing := old(owing)[tid := Quitting])
    {
      hide Legal, After;
      ghost var before := View();
      exitFlag := true;
      owing := owing[tid := Quitting];
      Record(before, Step.Quit(tid));
    }

    /** queueInLoop in the loop thread: the push, then the wakeup if a batch is running. */
    method QueueInLoop(task: T)
      requires Valid() && InUserCode(View())
      modifies this
      ensures Valid() && Meanwhile()
      ensures old(tasks) + [task] <= tasks
      ensures old(workingFlag) ==> wakeupFd > old(wakeupFd)
    {
      hide Legal, After;
      PushTask(task);
      Interfere();
      if workingFlag {
        Wakeup();
      }
    }

    method PushTask(task: T)
      requires Valid() && InUserCode(View())
      modifies this
      ensures Valid() && tasks == old(tasks) + [task] && selfOwing == workingFlag
      ensures pc == old(pc) && batch == old(batch) && ran == old(ran) && woken == old(woken)
      ensures workingFlag == old(workingFlag) && executed == old(executed) && wakeupFd == old(wakeupFd)
      ensures exitFlag == old(exitFlag) && old(trace) <= trace
      ensures cold == if WakesNobody(old(View())) then old(cold) + [task] else old(cold)
    {
      hide Legal, After;
      ghost var before := View();
      tasks := tasks + [task];
      pushed := pushed + [task];
      selfOwing := workingFlag;
      cold := if pc in {NotStarted, Clearing} then cold + [task] else cold;
      Record(before, SelfPush(task));
    }

    /** wakeup, in the loop thread. */
    method Wakeup()
      requires Valid() && selfOwing
      modifies this
      ensures Valid() && View() == old(View()).(wake := old(wakeupFd) + 1, selfOwing := false)
      ensures old(trace) <= trace
    {
      hide Legal, After;
      ghost var before := View();
      wakeupFd := wakeupFd + 1;
      selfOwing := false;
      Record(before, SelfWake);
    }

    /** quit in the loop thread: no wakeup is needed, the guard is tested before the next poll. */
    method Quit()
      requires Valid() && InUserCode(View())
      modifies this
      ensures Valid() && Meanwhile() && exitFlag
    {
      hide Legal, After;
      ghost var before := View();
      exitFlag := true;
      Record(before, SelfQuit);
      Interfere();
    }

    /** Handlers, tasks and destructors: any sequence of queueInLoop and quit calls. */
    method UserCode()
      requires Valid() && InUserCode(View())
      modifies this
      ensures Valid() && Meanwhile()
    {
      hide Legal, After;
      var n: nat := *;
      Interfere();
      while n > 0
        invariant Valid() && Meanwhile()
      {
        var quits: bool := *;
        var task: T := *;
        if quits {
          Quit();
        } else {
          QueueInLoop(task);
        }
        n := n - 1;
      }
    }

    /** handleRead of the wakeup channel: reading an eventfd resets it. */
    method HandleRead()
      requires Valid() && pc == Dispatching && woken
      modifies this
      ensures Valid() && View() == old(View()).(wake := 0, woken := false) && old(trace) <= trace
    {
      hide Legal, After;
      ghost var before := View();
      wakeupFd := 0;
      woken := false;
      Record(before, DrainWake);
    }

    method RaiseFlag()
      requires Valid() && pc == Dispatching && !woken && !selfOwing
      modifies this
      ensures Valid() && pc == Swapping && workingFlag && !selfOwing && !woken
      ensures executed == old(executed) && tasks == old(tasks) && old(trace) <= trace
    {
      hide Legal, After;
      ghost var before := View();
      workingFlag := true;
      pc := Swapping;
      Record(before, BeginTasks);
    }

    /** The swap under the lock: from here on the batch is private to the loop thread. */
    method SwapTasks() returns (swapped: seq<T>)
      requires Valid() && pc == Swapping && workingFlag && !selfOwing && !woken
      modifies this
      ensures Valid() && pc == Running && workingFlag && !selfOwing && !woken
      ensures swapped == old(tasks) && batch == swapped && ran == 0
      ensures executed == old(executed) && tasks == [] && old(trace) <= trace
    {
      hide Legal, After;
      ghost var before := View();
      swapped := tasks;
      tasks := [];
      pc, batch, ran, cold := Running, swapped, 0, [];
      Record(before, Swap);
    }

    /** Run the next task of the batch. */
    method RunTask(task: T)
      requires Valid() && pc == Running && workingFlag && !selfOwing && !woken
      requires ran < |batch| && batch[ran] == task
      modifies this
      ensures Valid() && pc == Running && workingFlag && !selfOwing && !woken
      ensures batch == old(batch) && ran == old(ran) + 1 && executed == old(executed) + [task]
      ensures old(trace) <= trace
    {
      hide Legal, After;
      ghost var before := View();
      ran := ran + 1;
      executed := executed + [task];
      Record(before, Step.RunTask);
      UserCode();
    }

    method RunBatch(swapped: seq<T>)
      requires Valid() && pc == Running && workingFlag && !selfOwing && !woken
      requires batch == swapped && ran == 0
      modifies this
      ensures Valid() && pc == Running && workingFlag && !selfOwing && !woken
      ensures batch == swapped && ran == |swapped| && executed == old(executed) + swapped
      ensures old(trace) <= trace
    {
      hide Legal, After, View;
      Interfere();
      var k := 0;
      while k < |swapped|
        invariant k <= |swapped| && old(trace) <= trace
        invariant Valid() && pc == Running && workingFlag && !selfOwing && !woken
        invariant batch == swapped && ran == k && executed == old(executed) + swapped[..k]
      {
        RunTask(swapped[k]);
        assert swapped[..k + 1] == swapped[..k] + [swapped[k]];
        k := k + 1;
      }
      assert swapped[..k] == swapped;
    }

    method LowerFlag()
      requires Valid() && pc == Running && !selfOwing && ran == |batch|
      modifies this
      ensures Valid() && pc == Clearing && !workingFlag && !selfOwing && woken == old(woken)
      ensures executed == old(executed) && old(trace) <= trace
    {
      hide Legal, After;
      ghost var before := View();
      workingFlag := false;
      pc := Clearing;
      Record(before, EndTasks);
    }

    /** The batch vector goes out of scope, after the flag is down: destructors may queue and quit. */
    method DropBatch()
      requires Valid() && pc == Clearing && !workingFlag && !selfOwing
      modifies this
      ensures Valid() && pc == CheckExit && !workingFlag && !selfOwing && woken == old(woken)
      ensures executed == old(executed) && old(tasks) <= tasks && old(trace) <= trace
    {
      hide Legal, After;
      UserCode();
      ghost var before := View();
      pc, batch, ran := CheckExit, [], 0;
      Record(before, Cleared);
    }

    /** doTask: every task that was queued when it was called is started, in order and before anything
        that was queued later; the working flag is down again at the end, and the batch is gone. */
    method DoTask()
      requires Valid() && pc == Dispatching && !woken && !selfOwing
      modifies this
      ensures Valid() && pc == CheckExit && !workingFlag && !selfOwing && !woken && old(trace) <= trace
      ensures old(executed) + old(tasks) <= executed
    {
      hide Legal, After, View, Next, Enabled;
      RaiseFlag();
      Interfere();
      var swapped := SwapTasks();
      RunBatch(swapped);
      LowerFlag();
      DropBatch();
    }

    /** What the interleaving invariant, which the recorded actions keep, says at a poll and after the loop. */
    lemma TraceInv()
      requires Valid()
      ensures pc == Exited ==> exitFlag && pushed == executed + tasks
      ensures pc == Polling && wakeupFd == 0 && Pushers(View()) == {} ==> tasks == cold
      ensures pc == Polling && exitFlag ==> wakeupFd > 0 || Quitters(View()) != {}
    {
      InvAlongRun(Init<T>(), trace);
    }

    /** One pass of the loop body: poll, dispatch, doTask. `ready` says whether epoll_wait reported the
        wakeup channel, which it only can while the eventfd is readable. */
    method Pass(ready: bool)
      requires Valid() && pc == Polling && !selfOwing && !woken
      modifies this
      ensures Valid() && pc == CheckExit && !selfOwing && !woken && old(trace) <= trace
      ensures old(executed) + old(tasks) <= executed
    {
      hide Legal, After;
      Interfere();
      ghost var before := View();
      var isReady := ready && wakeupFd > 0;
      pc, woken := Dispatching, isReady;
      Record(before, PollReturn(isReady));
      UserCode();
      if isReady {
        HandleRead();
        UserCode();
      }
      DoTask();
    }

    /** The guard of the loop. */
    method CheckGuard() returns (goOn: bool)
      requires Valid() && pc == CheckExit && !selfOwing && !woken
      modifies this
      ensures Valid() && !selfOwing && !woken && old(trace) <= trace
      ensures if goOn then pc == Polling && !old(exitFlag) else pc == Exited
    {
      hide Legal, After;
      Interfere();
      ghost var before := View();
      goOn := !exitFlag;
      pc := if goOn then Polling else Exited;
      Record(before, Check);
    }

    /** loop, for as many passes as the environment allows; `Exited` means that it has returned. A
        returned loop has seen the exit flag, and everything pushed has either been run, in order,
        or is still queued: no batch is left part-run. A polling loop that nothing is due to wake has
        precisely the cold pushes in its queue, and is due to be woken if the exit flag is set. */
    method Run(passes: nat, ready: seq<bool>)
      requires Valid() && pc == NotStarted && !selfOwing && !woken
      modifies this
      ensures Valid() && pc in {Exited, Polling}
      ensures pc == Exited ==> exitFlag && pushed == executed + tasks
      ensures pc == Polling && wakeupFd == 0 && Pushers(View()) == {} ==> tasks == cold
      ensures pc == Polling && exitFlag ==> wakeupFd > 0 || Quitters(View()) != {}
    {
      hide Legal, After, Init, Inv;
      ghost var before := View();
      pc := CheckExit;
      Record(before, Start);
      var left := passes;
      var goOn := CheckGuard();
      while goOn && left > 0
        invariant Valid() && !selfOwing && !woken && pc == if goOn then Polling else Exited
      {
        left := left - 1;
        Pass(if left < |ready| then ready[left] else false);
        goOn := CheckGuard();
      }
      TraceInv();
    }
  }
}
