/** What the actions of a run add up to. */
module LoopLaws {
  import opened LoopSpec

  /** The tasks that one action hands to queueInLoop. */
  function PushedOne<T>(s: Step<T>): seq<T> {
    match s
    case SelfPush(t) => [t]
    case Push(_, t) => [t]
    case _ => []
  }

  /** The tasks handed to queueInLoop, in the order of the pushes. */
  function PushedBy<T>(run: seq<Step<T>>): seq<T> {
    if run == [] then [] else PushedOne(run[0]) + PushedBy(run[1..])
  }

  /** How many tasks were started. */
  function StartedBy<T>(run: seq<Step<T>>): nat {
    if run == [] then 0 else (if run[0].RunTask? then 1 else 0) + StartedBy(run[1..])
  }

  ghost predicate QuitIn<T>(run: seq<Step<T>>) {
    exists k :: 0 <= k < |run| && (run[k].Quit? || run[k].SelfQuit?)
  }

  /** An eventfd that held n: each write adds one, and a read takes everything. */
  function Counter<T>(n: nat, run: seq<Step<T>>): nat
    decreases |run|
  {
    if run == [] then n
    else Counter(if run[0].Wake? || run[0].SelfWake? then n + 1 else if run[0].DrainWake? then 0 else n, run[1..])
  }

  /** The thread has pushed or set the flag, and has not written the eventfd since. */
  function Owes<T>(owed: bool, run: seq<Step<T>>, tid: nat): bool
    decreases |run|
  {
    if run == [] then owed
    else
      Owes(match run[0]
           case Push(x, _) => x == tid || owed
           case Quit(x) => x == tid || owed
           case Wake(x) => x != tid && owed
           case _ => owed,
           run[1..], tid)
  }

  lemma QuitStep<T>(run: seq<Step<T>>)
    requires run != []
    ensures QuitIn(run) <==> run[0].Quit? || run[0].SelfQuit? || QuitIn(run[1..])
  {
    assert run == [run[0]] + run[1..];
    if QuitIn(run) {
      var k :| 0 <= k < |run| && (run[k].Quit? || run[k].SelfQuit?);
      if k > 0 { assert run[1..][k - 1] == run[k]; }
    }
  }

  /** What one action counts for. */
  lemma CountsOne<T>(l: Loop<T>, s: Step<T>)
    requires Enabled(l, s)
    ensures var r := Next(l, s);
            && |r.executed| == |l.executed| + (if s.RunTask? then 1 else 0)
            && (r.exit <==> l.exit || s.Quit? || s.SelfQuit?)
            && r.wake == (if s.Wake? || s.SelfWake? then l.wake + 1 else if s.DrainWake? then 0 else l.wake)
  {
  }

  lemma PushesOne<T>(l: Loop<T>, s: Step<T>)
    requires Enabled(l, s)
    ensures Next(l, s).pushed == l.pushed + PushedOne(s)
  {
    if !s.Push? && !s.SelfPush? { assert l.pushed + [] == l.pushed; }
  }

  lemma {:induction false} PushesAddUp<T>(l: Loop<T>, run: seq<Step<T>>)
    requires Legal(l, run)
    ensures After(l, run).pushed == l.pushed + PushedBy(run)
    decreases |run|
  {
    if run == [] {
      assert l.pushed + [] == l.pushed;
    } else {
      var r := Next(l, run[0]);
      hide Next, PushedOne;
      PushesOne(l, run[0]);
      PushesAddUp(r, run[1..]);
      assert (l.pushed + PushedOne(run[0])) + PushedBy(run[1..]) == l.pushed + (PushedOne(run[0]) + PushedBy(run[1..]));
    }
  }

  lemma {:induction false} CountsAddUp<T>(l: Loop<T>, run: seq<Step<T>>)
    requires Legal(l, run)
    ensures var r := After(l, run);
            && |r.executed| == |l.executed| + StartedBy(run)
            && (r.exit <==> l.exit || QuitIn(run))
            && r.wake == Counter(l.wake, run)
    decreases |run|
  {
    if run != [] {
      hide Next, QuitIn, PushedOne;
      QuitStep(run);
      CountsOne(l, run[0]);
      CountsAddUp(Next(l, run[0]), run[1..]);
    }
  }

  lemma {:induction false} OwingAddsUp<T>(l: Loop<T>, run: seq<Step<T>>, tid: nat)
    requires Legal(l, run)
    ensures tid in After(l, run).owing <==> Owes(tid in l.owing, run, tid)
    decreases |run|
  {
    if run != [] {
      OwingAddsUp(Next(l, run[0]), run[1..], tid);
    }
  }

  /** Every interleaving, by its actions: the tasks handed to queueInLoop are the ones started, in order and
      each once, and then those that wait; the eventfd holds the writes since the last read, one for
      each push and quit of another thread; the loop ends exactly on a quit. */
  lemma RunAddsUp<T>(run: seq<Step<T>>, tid: nat)
    requires Legal(Init(), run)
    ensures var l := After(Init(), run);
            && l.ran <= |l.batch|
            && l.executed + l.batch[l.ran..] + l.tasks == PushedBy(run)
            && |l.executed| == StartedBy(run) <= |PushedBy(run)| && l.executed == PushedBy(run)[..StartedBy(run)]
            && l.wake == Counter(0, run)
            && (tid in l.owing <==> Owes(false, run, tid))
            && (l.exit <==> QuitIn(run)) && (l.pc == Exited ==> QuitIn(run))
            && (l.pc == CheckExit ==> Next(l, Check).pc == if QuitIn(run) then Exited else Polling)
  {
    PushesAddUp(Init(), run);
    CountsAddUp(Init(), run);
    OwingAddsUp(Init(), run, tid);
    TasksConserved(run);
    assert [] + PushedBy(run) == PushedBy(run);
  }

  /** queueInLoop in the loop thread, in every reachable state: the task joins the queue, and a wakeup is owed
      exactly while a batch runs. */
  lemma OwnPushExactly<T>(run: seq<Step<T>>, t: T)
    requires Legal(Init(), run) && Enabled(After(Init(), run), SelfPush(t))
    ensures var l := After(Init(), run);
            var r := Next(l, SelfPush(t));
            && r.tasks == l.tasks + [t] && r.wake == l.wake && r.owing == l.owing
            && (r.selfOwing <==> l.pc == Running)
            && r.cold == (if l.pc == NotStarted || l.pc == Clearing then l.cold + [t] else l.cold)
  {
    InvAlongRun(Init(), run);
  }
}
