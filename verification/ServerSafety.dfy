/**
 What the hand-off protocol guarantees in every interleaving of the loops of one server.
 */
module ServerSafety {
  import opened Lifecycle
  import opened ServerSpec
  import opened ServerProof
  import L = LoopSpec

  // ---------------------------------------------------------------- every step, every run

  lemma StepKept(w: World, s: Step)
    requires Inv(w) && Enabled(w, s)
    ensures Inv(Next(w, s))
  {
    match s
    case LoopMove(i, m) => LoopMoveKept(w, i, m);
    case Poll(i, ready, chans) => PollKept(w, i, ready, chans);
    case Dispatch(i, c, closes) => DispatchKept(w, i, c, closes);
    case RunTask(i) => RunTaskKept(w, i);
    case Exec(i) =>
      if w.nodes[i].todo[0].Post? { PostKept(w, i); }
      else if w.nodes[i].todo[0].Signal? { SignalKept(w, i); }
      else { LocalKept(w, i); }
    case Accept(c, owner) => AcceptKept(w, c, owner);
    case UserShutdown(i, c) => UserShutdownKept(w, i, c);
    case _ => UserStepKept(w, s);
  }

  lemma {:induction false} RunKept(w: World, run: seq<Step>)
    requires Inv(w) && Legal(w, run)
    ensures Inv(After(w, run))
    decreases |run|
  {
    if run != [] {
      StepKept(w, run[0]);
      RunKept(Next(w, run[0]), run[1..]);
    }
  }

  // ---------------------------------------------------------------- who keeps a connection alive

  lemma TokenHolds(n: Node, o: nat, c: ConnId, k: Kind)
    requires Tokens(n, o, c, k) >= 1
    ensures NodeHolds(n, c)
  {
    var t := KindTask(k, c);
    assert TaskNames(t, c);
    if multiset(n.loop.tasks)[t] > 0 {
      assert t in n.loop.tasks;
    } else if n.loop.ran <= |n.loop.batch| && multiset(n.loop.batch[n.loop.ran..])[t] > 0 {
      assert t in n.loop.batch[n.loop.ran..];
      assert t in n.loop.batch;
    } else if multiset(n.todo)[KindMicro(k, c)] > 0 {
      assert KindMicro(k, c) in n.todo && MicroNames(KindMicro(k, c), c);
    } else {
      var m := Post(KindLoop(k, o), t);
      assert m in n.todo && MicroNames(m, c);
    }
  }

  /** The hand-off itself has the connection: it is in `_connFlags` or, out of it, exactly one destroy
      task is pending or running. A removal is only ever under way for a connection in the set. */
  ghost predicate InHandOff(w: World, c: ConnId)
    requires c in w.conns
  {
    var o := w.conns[c].owner;
    && o < |w.nodes|
    && (c !in w.flags ==> Total(w, o, c, Destroying) == 1 && Total(w, o, c, Removing) == 0)
    && (c in w.flags ==> Total(w, o, c, Destroying) == 0 && Total(w, o, c, Removing) <= 1)
  }

  lemma HandOffHolds(w: World, c: ConnId)
    requires Inv(w) && c in w.conns && InHandOff(w, c)
    ensures Held(w, c)
  {
    if c !in w.flags {
      var o := w.conns[c].owner;
      if Tokens(w.nodes[0], o, c, Destroying) >= 1 {
        TokenHolds(w.nodes[0], o, c, Destroying);
        assert NodeHolds(w.nodes[0], c);
      } else {
        TokenHolds(w.nodes[o], o, c, Destroying);
        assert NodeHolds(w.nodes[o], c);
      }
    }
  }

  /** From insertion until its connectionDestroyed task has run, a connection is held by the hand-off
      itself: by `_connFlags` or by one pending or running destroy task, whatever other tasks come
      and go. */
  lemma HeldUntilFinished(w: World, c: ConnId)
    requires Inv(w) && c in w.conns && !w.conns[c].finished
    ensures InHandOff(w, c) && Held(w, c)
  {
    assert ConnInv(w, c);
    HandOffHolds(w, c);
  }

  /** No dangling dispatch: in every reachable state a connection in a loop's activeChannels is kept
      alive by the hand-off, the connections not handled yet are open, and nobody has failed an
      assertion (neither handleClose's, nor connectionEstablished's, nor the erase). */
  lemma ActiveConnectionsAreAlive(w0: World, run: seq<Step>)
    requires Start(w0) && Legal(w0, run)
    ensures var w := After(w0, run);
            && w.ok
            && (forall j, c :: 0 <= j < |w.nodes| && c in w.nodes[j].active ==>
                  c in w.conns && InHandOff(w, c) && Held(w, c))
            && (forall j, c :: 0 <= j < |w.nodes| && c in w.nodes[j].ready ==> c in w.conns && w.conns[c].IsOpen())
            && (forall c :: c in w.conns && !w.conns[c].finished ==> InHandOff(w, c) && Held(w, c))
  {
    StartInv(w0);
    RunKept(w0, run);
    var w := After(w0, run);
    forall c | c in w.conns && !w.conns[c].finished ensures InHandOff(w, c) && Held(w, c) {
      HeldUntilFinished(w, c);
    }
    forall j | 0 <= j < |w.nodes|
      ensures forall c :: c in w.nodes[j].active ==> c in w.conns && !w.conns[c].finished
      ensures forall c :: c in w.nodes[j].ready ==> c in w.conns && w.conns[c].IsOpen()
    {
      assert NodeInv(w, j);
    }
  }

  // ---------------------------------------------------------------- no leak

  /** No loop has a task queued, a batch to run or a call under way. */
  ghost predicate Quiet(w: World) {
    forall j :: 0 <= j < |w.nodes| ==>
      w.nodes[j].loop.tasks == [] && w.nodes[j].loop.batch == [] && w.nodes[j].todo == []
  }

  /** No connection leaks: when every loop is quiet, a connection is in `_connFlags` if and only if it
      is open, and otherwise its connectionDestroyed has run and nothing references it. */
  lemma NothingLeaks(w: World, c: ConnId)
    requires Inv(w) && Quiet(w) && c in w.conns
    ensures c in w.flags <==> w.conns[c].IsOpen()
    ensures c !in w.flags ==> w.conns[c].finished && w.conns[c].status == Disconnected && !Held(w, c)
  {
    assert ConnInv(w, c);
    var o := w.conns[c].owner;
    assert w.nodes[0].todo == [] && w.nodes[o].todo == [];
    assert Total(w, o, c, Opening) == 0 && Total(w, o, c, Removing) == 0 && Total(w, o, c, Destroying) == 0;
    forall j | 0 <= j < |w.nodes| ensures !NodeHolds(w.nodes[j], c) {}
  }

  // ---------------------------------------------------------------- no resurrection

  lemma NodeHoldsAfterMove(n: Node, m: Node, s: L.Step<Task>, c: ConnId)
    requires L.Enabled(n.loop, s) && m.loop == L.Next(n.loop, s) && m.todo == n.todo
    requires NodeHolds(m, c)
    ensures NodeHolds(n, c) || (s.SelfPush? && TaskNames(s.own, c)) || (s.Push? && TaskNames(s.task, c))
  {
    if t :| t in m.loop.tasks && TaskNames(t, c) {
      assert t in n.loop.tasks || (s.SelfPush? && t == s.own) || (s.Push? && t == s.task);
    } else if t :| t in m.loop.batch && TaskNames(t, c) {
      assert t in n.loop.batch || t in n.loop.tasks;
    } else {
      var x :| x in m.todo && MicroNames(x, c);
      assert x in n.todo;
    }
  }

  /** Every name in a node's new call stack comes from its old one or from `extra`. */
  lemma NodeHoldsAfterCall(n: Node, m: Node, extra: seq<Micro>, c: ConnId)
    requires m.loop == n.loop && NodeHolds(m, c)
    requires forall x :: x in m.todo ==> x in n.todo || x in extra
    ensures NodeHolds(n, c) || exists x :: x in extra && MicroNames(x, c)
  {
    if x :| x in m.todo && MicroNames(x, c) {
      assert x in n.todo || x in extra;
    }
  }

  lemma StayUnheld(w: World, v: World, i: nat, c: ConnId)
    requires |v.nodes| == |w.nodes| && !Held(w, c) && c !in v.flags
    requires forall j :: 0 <= j < |w.nodes| && j != i ==> v.nodes[j] == w.nodes[j]
    requires i < |w.nodes| ==> !NodeHolds(v.nodes[i], c)
    ensures !Held(v, c)
  {
    forall j | 0 <= j < |v.nodes| ensures !NodeHolds(v.nodes[j], c) {
      if j != i { assert !NodeHolds(w.nodes[j], c); }
    }
  }

  lemma ExecNeverRevives(w: World, i: nat, c: ConnId)
    requires Inv(w) && Enabled(w, Exec(i)) && c in w.conns && !Held(w, c)
    ensures !Held(Next(w, Exec(i)), c)
  {
    var v := Next(w, Exec(i));
    var n := w.nodes[i];
    var head := n.todo[0];
    assert !NodeHolds(n, c) && head in n.todo && !MicroNames(head, c);
    if head.Post? || head.Signal? {
      var t := head.target;
      var s: L.Step<Task> :=
        if head.Post? then (if t == i then L.SelfPush(head.task) else L.Push(i, head.task))
        else (if t == i then L.SelfWake else L.Wake(i));
      var u := SetLoop(w, t, L.Next(w.nodes[t].loop, s));
      assert !NodeHolds(w.nodes[t], c);
      if NodeHolds(u.nodes[t], c) { NodeHoldsAfterMove(w.nodes[t], u.nodes[t], s, c); }
      StayUnheld(w, u, t, c);
      assert !NodeHolds(u.nodes[i], c);
      if NodeHolds(v.nodes[i], c) { NodeHoldsAfterCall(u.nodes[i], v.nodes[i], [Signal(t)], c); }
      StayUnheld(u, v, i, c);
    } else {
      var extra := if head.Erase? then [Post(w.conns[head.c].owner, Destroy(head.c))] else [];
      if NodeHolds(v.nodes[i], c) { NodeHoldsAfterCall(n, v.nodes[i], extra, c); }
      StayUnheld(w, v, i, c);
    }
  }

  lemma MoveNeverRevives(w: World, v: World, i: nat, s: L.Step<Task>, c: ConnId)
    requires Inv(w) && c in w.conns && !Held(w, c) && i < |w.nodes| && |v.nodes| == |w.nodes|
    requires L.Enabled(w.nodes[i].loop, s) && !s.SelfPush? && (s.Push? ==> s.task == Other)
    requires forall j :: 0 <= j < |w.nodes| && j != i ==> v.nodes[j] == w.nodes[j]
    requires v.nodes[i].loop == L.Next(w.nodes[i].loop, s) && v.nodes[i].todo == w.nodes[i].todo && v.flags == w.flags
    ensures !Held(v, c)
  {
    assert !NodeHolds(w.nodes[i], c);
    if NodeHolds(v.nodes[i], c) { NodeHoldsAfterMove(w.nodes[i], v.nodes[i], s, c); }
    StayUnheld(w, v, i, c);
  }

  /** A call stack that grew by one step which does not name c. */
  lemma CallNeverRevives(w: World, v: World, i: nat, m: Micro, c: ConnId)
    requires c in w.conns && !Held(w, c) && i < |w.nodes| && |v.nodes| == |w.nodes|
    requires forall j :: 0 <= j < |w.nodes| && j != i ==> v.nodes[j] == w.nodes[j]
    requires v.nodes[i].loop == w.nodes[i].loop && v.nodes[i].todo == [m] + w.nodes[i].todo
    requires c !in v.flags && !MicroNames(m, c)
    ensures !Held(v, c)
  {
    assert !NodeHolds(w.nodes[i], c);
    if NodeHolds(v.nodes[i], c) { NodeHoldsAfterCall(w.nodes[i], v.nodes[i], [m], c); }
    StayUnheld(w, v, i, c);
  }

  lemma RunTaskNeverRevives(w: World, i: nat, c: ConnId)
    requires Inv(w) && Enabled(w, RunTask(i)) && c in w.conns && !Held(w, c)
    ensures !Held(Next(w, RunTask(i)), c)
  {
    var v := Next(w, RunTask(i));
    var n := w.nodes[i];
    var t := n.loop.batch[n.loop.ran];
    var u := SetLoop(w, i, L.Next(n.loop, L.RunTask));
    MoveNeverRevives(w, u, i, L.RunTask, c);
    assert NodeInv(w, i) && t in n.loop.batch;
    assert !NodeHolds(n, c) && !TaskNames(t, c);
    if v.nodes[i].todo != [] {
      assert v.nodes[i].todo == [v.nodes[i].todo[0]] + u.nodes[i].todo;
      CallNeverRevives(u, v, i, v.nodes[i].todo[0], c);
    }
  }

  lemma OpenIsHeld(w: World, x: ConnId)
    requires Inv(w) && x in w.conns && w.conns[x].IsOpen()
    ensures Held(w, x)
  {
    assert ConnInv(w, x);
  }

  lemma DispatchNeverRevives(w: World, i: nat, x: ConnId, closes: bool, c: ConnId)
    requires Inv(w) && Enabled(w, Dispatch(i, x, closes)) && c in w.conns && !Held(w, c)
    ensures !Held(Next(w, Dispatch(i, x, closes)), c)
  {
    var u := Taken(w, i, x);
    assert x != c by { assert NodeInv(w, i); OpenIsHeld(w, x); }
    assert !NodeHolds(w.nodes[i], c);
    if NodeHolds(u.nodes[i], c) { NodeHoldsAfterCall(w.nodes[i], u.nodes[i], [], c); }
    StayUnheld(w, u, i, c);
    if closes {
      CallNeverRevives(u, HandleClose(u, i, x), i, if i == 0 then Erase(x) else Post(0, Remove(x)), c);
    }
  }

  /** Once the last reference to a connection is gone nothing names it again. */
  lemma NeverRevives(w: World, s: Step, c: ConnId)
    requires Inv(w) && Enabled(w, s) && c in w.conns && !Held(w, c)
    ensures c in Next(w, s).conns && !Held(Next(w, s), c)
  {
    var v := Next(w, s);
    match s
    case LoopMove(i, m) => MoveNeverRevives(w, v, i, m, c);
    case Poll(i, ready, chans) => MoveNeverRevives(w, v, i, L.PollReturn(ready), c);
    case Dispatch(i, x, closes) => DispatchNeverRevives(w, i, x, closes, c);
    case RunTask(i) => RunTaskNeverRevives(w, i, c);
    case Exec(i) => ExecNeverRevives(w, i, c);
    case Accept(x, owner) => CallNeverRevives(w, v, 0, v.nodes[0].todo[0], c);
    case UserShutdown(i, x) => StayUnheld(w, v, |w.nodes|, c);
    case UserForceClose(i, x) => OpenIsHeld(w, x); CallNeverRevives(w, v, i, v.nodes[i].todo[0], c);
    case UserNotify(i, x) => OpenIsHeld(w, x); CallNeverRevives(w, v, i, v.nodes[i].todo[0], c);
    case UserPost(i, t) => CallNeverRevives(w, v, i, v.nodes[i].todo[0], c);
  }

  /** A connection that nobody references has had its connectionDestroyed run, is disconnected, is in no
      activeChannels, and stays unreferenced for the rest of the run. References are shared pointers:
      the closing task that a dying channel queues has a plain one to the channel. */
  lemma {:induction false} DestroyedForGood(w: World, run: seq<Step>, c: ConnId)
    requires Inv(w) && Legal(w, run) && c in w.conns && !Held(w, c)
    ensures var v := After(w, run);
            && c in v.conns && !Held(v, c)
            && v.conns[c].finished && v.conns[c].status == Disconnected && v.conns[c].cbs == [true, false]
            && (forall j :: 0 <= j < |v.nodes| ==> c !in v.nodes[j].active)
    decreases |run|
  {
    if run == [] {
      if !w.conns[c].finished { HeldUntilFinished(w, c); }
      assert ConnInv(w, c);
      forall j | 0 <= j < |w.nodes| ensures c !in w.nodes[j].active { assert NodeInv(w, j); }
    } else {
      StepKept(w, run[0]);
      NeverRevives(w, run[0], c);
      DestroyedForGood(Next(w, run[0]), run[1..], c);
    }
  }

  // ---------------------------------------------------------------- callbacks and status

  /** How far along a connection is, connectionDestroyed included. */
  function Age(k: Conn): nat {
    Stage(k.status) + if k.finished then 1 else 0
  }

  lemma AgeGrowsInCall(w: World, i: nat, c: ConnId)
    requires Inv(w) && Enabled(w, Exec(i)) && c in w.conns
    ensures c in ExecNext(w, i).conns
    ensures Age(w.conns[c]) <= Age(ExecNext(w, i).conns[c]) && w.conns[c].cbs <= ExecNext(w, i).conns[c].cbs
  {
    if w.nodes[i].todo[0].Open? { OpenConns(w, i); }
    else if w.nodes[i].todo[0].Finish? { FinishConns(w, i); }
  }

  lemma CloseAges(u: World, i: nat, x: ConnId, c: ConnId)
    requires i < |u.nodes| && x in u.conns && u.conns[x].IsOpen() && c in u.conns
    ensures var v := HandleClose(u, i, x);
            c in v.conns && Age(u.conns[c]) <= Age(v.conns[c]) && u.conns[c].cbs <= v.conns[c].cbs
  {
  }

  lemma AgeGrows(w: World, s: Step, c: ConnId)
    requires Inv(w) && Enabled(w, s) && c in w.conns
    ensures c in Next(w, s).conns
    ensures Age(w.conns[c]) <= Age(Next(w, s).conns[c]) && w.conns[c].cbs <= Next(w, s).conns[c].cbs
  {
    hide ConnInv, HandleClose;
    match s
    case Exec(i) => AgeGrowsInCall(w, i, c);
    case Dispatch(i, x, closes) =>
      assert NodeInv(w, i);
      if closes { CloseAges(Taken(w, i, x), i, x, c); }
    case RunTask(i) =>
      var l := w.nodes[i].loop;
      var t := l.batch[l.ran];
      var u := SetLoop(w, i, L.Next(l, L.RunTask));
      if t.ForceClose? && w.conns[t.c].IsOpen() { CloseAges(u, i, t.c, c); }
    case _ =>
  }

  /** The up callback runs once and first, the down callback at most once and after it, the status
      only moves forward and Disconnected is absorbing, in every interleaving. */
  lemma {:induction false} LifeIsMonotone(w: World, run: seq<Step>, c: ConnId)
    requires Inv(w) && Legal(w, run) && c in w.conns
    ensures var v := After(w, run);
            && c in v.conns
            && Age(w.conns[c]) <= Age(v.conns[c])
            && w.conns[c].cbs <= v.conns[c].cbs
            && v.conns[c].cbs == (if v.conns[c].status == Connecting then []
                                  else if v.conns[c].IsOpen() then [true] else [true, false])
    decreases |run|
  {
    if run == [] {
      assert ConnInv(w, c);
    } else {
      StepKept(w, run[0]);
      AgeGrows(w, run[0], c);
      LifeIsMonotone(Next(w, run[0]), run[1..], c);
    }
  }

  /** connectionDestroyed runs at most once for a connection, and always finds it disconnected: with
      no `stop()` and no direct `removeConnection` its own closing branch is dead code. */
  lemma DestroyRunsOnceOnClosed(w: World, i: nat)
    requires Inv(w) && Enabled(w, Exec(i)) && w.nodes[i].todo[0].Finish?
    ensures var c := w.nodes[i].todo[0].c;
            && w.conns[c].owner == i && !w.conns[c].finished
            && w.conns[c].status == Disconnected
            && Next(w, Exec(i)).conns == w.conns[c := w.conns[c].(finished := true)]
  {
    FinishConns(w, i);
  }

  // ---------------------------------------------------------------- progress of the threads

  /** A loop thread in the middle of a call can always take its next micro step, so no hand-off
      gets stuck half-way in a thread. */
  lemma CallsNeverStick(w0: World, run: seq<Step>, i: nat)
    requires Start(w0) && Legal(w0, run)
    requires i < |After(w0, run).nodes| && After(w0, run).nodes[i].todo != []
    ensures Enabled(After(w0, run), Exec(i))
  {
    StartInv(w0);
    RunKept(w0, run);
    var w := After(w0, run);
    var m := w.nodes[i].todo[0];
    assert NodeInv(w, i) && m in w.nodes[i].todo && MicroPlaced(w, i, m);
    if m.Post? && m.target != i {
      assert i in w.nodes[m.target].loop.owing <==> m == Signal(m.target);
    }
    if m.Signal? && m.target != i {
      assert i in w.nodes[m.target].loop.owing <==> m == Signal(m.target);
    }
  }

  /** No hand-off sleeps: when a loop of the server polls with an Establish, Remove or Destroy task
      queued, its eventfd is readable, or an outside thread is about to write it, or some loop
      thread's very next step writes it. Only what user code and destructors queue while a batch
      dies can be slept on. */
  lemma QueuedHandOffWakes(w0: World, run: seq<Step>, t: nat)
    requires Start(w0) && Legal(w0, run) && t < |After(w0, run).nodes|
    requires var l := After(w0, run).nodes[t].loop;
             l.pc == L.Polling && exists task :: task in l.tasks && HandOff(task)
    ensures var w := After(w0, run);
            || w.nodes[t].loop.wake > 0
            || (exists x :: x >= |w.nodes| && x in w.nodes[t].loop.owing)
            || (exists i :: 0 <= i < |w.nodes| && i != t && SignalsNext(w.nodes[i], t) && Enabled(w, Exec(i)))
  {
    StartInv(w0);
    RunKept(w0, run);
    var w := After(w0, run);
    assert NodeInv(w, t);
    var l := w.nodes[t].loop;
    var task :| task in l.tasks && HandOff(task);
    assert task !in l.cold;
    if l.wake == 0 {
      var x :| x in L.Pushers(l);
      assert x in l.owing;
      if x < |w.nodes| {
        assert SignalsNext(w.nodes[x], t);
        CallsNeverStick(w0, run, x);
      }
    }
  }
}
