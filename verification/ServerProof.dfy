/**
 The life of a connection over every interleaving of ServerSpec, step by step. The proof follows a
 token: from insertion until its connectionDestroyed task has run, a connection is on its way through
 exactly one of the three tasks Establish, Remove and Destroy, or it is open and at rest. Each lemma
 below says what one kind of step does to the nodes, to the totals of the tokens, or to the debts
 between the loops; ServerSafety puts them together.
 */
module ServerProof {
  import opened Lifecycle
  import opened ServerSpec
  import L = LoopSpec

  // ---------------------------------------------------------------- tokens

  datatype Kind = Opening | Removing | Destroying

  function KindTask(k: Kind, c: ConnId): Task {
    match k case Opening => Establish(c) case Removing => Remove(c) case Destroying => Destroy(c)
  }

  function KindMicro(k: Kind, c: ConnId): Micro {
    match k case Opening => Open(c) case Removing => Erase(c) case Destroying => Finish(c)
  }

  /** The loop that runs a task of this kind for a connection owned by loop o. */
  function KindLoop(k: Kind, o: nat): nat {
    if k == Removing then 0 else o
  }

  /** Tasks of a loop that have not started. */
  ghost function Waiting(l: L.Loop<Task>, t: Task): nat {
    multiset(l.tasks)[t] + (if l.ran <= |l.batch| then multiset(l.batch[l.ran..])[t] else 0)
  }

  /** Occurrences of the kind-k token of connection c, owned by loop o, in one node. */
  ghost function Tokens(n: Node, o: nat, c: ConnId, k: Kind): nat
  {
    Waiting(n.loop, KindTask(k, c))
    + multiset(n.todo)[Post(KindLoop(k, o), KindTask(k, c))]
    + multiset(n.todo)[KindMicro(k, c)]
  }

  /** Tokens can only be in the base node and in the owner's node. */
  ghost function Total(w: World, o: nat, c: ConnId, k: Kind): nat
    requires 0 < |w.nodes| && o < |w.nodes|
  {
    Tokens(w.nodes[0], o, c, k) + if o == 0 then 0 else Tokens(w.nodes[o], o, c, k)
  }

  // ---------------------------------------------------------------- the invariant

  predicate TaskPlaced(w: World, j: nat, t: Task) {
    match t
    case Establish(c) => Owned(w, j, c)
    case Remove(c) => j == 0 && c in w.conns
    case Destroy(c) => Owned(w, j, c)
    case ForceClose(c) => Owned(w, j, c)
    case Notify(c) => Owned(w, j, c)
    case Other => true
  }

  /** Micro steps that user code and destructors never make by themselves. */
  predicate HandsOff(m: Micro) {
    m.Open? || m.Erase? || m.Finish? || (m.Post? && HandOff(m.task))
  }

  predicate MicroPlaced(w: World, j: nat, m: Micro)
    requires j < |w.nodes|
  {
    && (HandsOff(m) ==> w.nodes[j].loop.pc != L.Clearing)
    && match m
    case Post(t, task) =>
      && t < |w.nodes|
      && TaskPlaced(w, t, task)
      && (match task
          case Establish(c) => j == 0
          case Remove(c) => Owned(w, j, c)
          case Destroy(c) => j == 0
          case ForceClose(c) => t == j
          case Notify(c) => t == j
          case Other => true)
    case Signal(t) => t < |w.nodes|
    case Open(c) => Owned(w, j, c)
    case Erase(c) => j == 0 && c in w.conns
    case Finish(c) => Owned(w, j, c) && w.nodes[j].loop.pc == L.Running
  }

  ghost predicate NodeInv(w: World, j: nat)
    requires j < |w.nodes|
  {
    var n := w.nodes[j];
    && L.Inv(n.loop) && (forall t :: t in n.loop.cold ==> !HandOff(t)) && j !in n.loop.owing
    && (n.todo != [] ==> n.loop.pc in {L.Dispatching, L.Running, L.Clearing})
    && (n.loop.selfOwing <==> n.todo != [] && n.todo[0] == Signal(j))
    && (forall p :: 0 < p < |n.todo| ==> !n.todo[p].Signal?)
    && (forall m :: m in n.todo ==> MicroPlaced(w, j, m))
    && (forall t :: t in n.loop.tasks ==> TaskPlaced(w, j, t))
    && (forall t :: t in n.loop.batch ==> TaskPlaced(w, j, t))
    && (n.active != {} ==> n.loop.pc == L.Dispatching)
    && n.ready <= n.active
    && (forall c :: c in n.active ==> Owned(w, j, c) && w.conns[c].status != Connecting && !w.conns[c].finished)
    && (forall c :: c in n.ready ==> Owned(w, j, c) && w.conns[c].IsOpen())
  }

  /** A loop thread owes loop t a write exactly while its next micro step is that write. */
  ghost predicate OwingInv(w: World) {
    forall i, t :: 0 <= i < |w.nodes| && 0 <= t < |w.nodes| && i != t ==>
      (i in w.nodes[t].loop.owing <==> w.nodes[i].todo != [] && w.nodes[i].todo[0] == Signal(t))
  }

  /** The state of a connection's own fields, given its three totals. */
  ghost predicate ConnOk(k: Conn, held: bool, opening: nat, removing: nat, destroying: nat) {
    match k.status
    case Connecting => k.cbs == [] && !k.finished && held && opening == 1 && removing == 0 && destroying == 0
    case Disconnected =>
      && k.cbs == [true, false] && !(held && k.finished) && opening == 0
      && removing == (if held then 1 else 0)
      && destroying == (if held || k.finished then 0 else 1)
    case _ => k.cbs == [true] && !k.finished && held && opening == 0 && removing == 0 && destroying == 0
  }

  ghost predicate ConnInv(w: World, c: ConnId)
    requires 0 < |w.nodes|
  {
    c in w.conns ==>
      var o := w.conns[c].owner;
      && o < |w.nodes|
      && ConnOk(w.conns[c], c in w.flags, Total(w, o, c, Opening), Total(w, o, c, Removing), Total(w, o, c, Destroying))
  }

  ghost predicate Inv(w: World) {
    && 0 < |w.nodes| && w.ok
    && (forall j :: 0 <= j < |w.nodes| ==> NodeInv(w, j))
    && OwingInv(w)
    && w.flags <= w.conns.Keys
    && (forall c :: ConnInv(w, c))
  }

  // ---------------------------------------------------------------- how one loop step moves tokens

  /** A task at the back of the queue counts once. */
  lemma QueueGrows(tasks: seq<Task>, x: Task, t: Task)
    ensures multiset(tasks + [x])[t] == multiset(tasks)[t] + if x == t then 1 else 0
  {
  }

  /** A task that starts is no longer waiting. */
  lemma BatchShrinks(batch: seq<Task>, ran: nat, t: Task)
    requires ran < |batch|
    ensures multiset(batch[ran..])[t] == multiset(batch[ran + 1..])[t] + if batch[ran] == t then 1 else 0
  {
    assert batch[ran..] == [batch[ran]] + batch[ran + 1..];
  }

  lemma WaitingAfter(l: L.Loop<Task>, s: L.Step<Task>, t: Task)
    requires L.Enabled(l, s) && Steady(l)
    ensures var m := L.Next(l, s);
            Waiting(m, t) + (if s.RunTask? && l.batch[l.ran] == t then 1 else 0)
            == Waiting(l, t) + (if (s.SelfPush? && s.own == t) || (s.Push? && s.task == t) then 1 else 0)
  {
    match s
    case RunTask => BatchShrinks(l.batch, l.ran, t);
    case Swap =>
      assert l.batch[l.ran..] == [];
      assert l.tasks[0..] == l.tasks;
    case Cleared => assert l.batch[l.ran..] == [];
    case SelfPush(x) => QueueGrows(l.tasks, x, t);
    case Push(_, x) => QueueGrows(l.tasks, x, t);
    case _ =>
  }

  lemma TodoHead(todo: seq<Micro>, m: Micro)
    requires todo != []
    ensures multiset(todo)[m] == multiset(todo[1..])[m] + (if todo[0] == m then 1 else 0)
  {
    assert todo == [todo[0]] + todo[1..];
  }

  // ---------------------------------------------------------------- what carries over

  /** Connections only get added and never change owner. */
  predicate SameOwners(w: World, v: World) {
    && |w.nodes| == |v.nodes|
    && (forall c :: c in w.conns ==> c in v.conns && v.conns[c].owner == w.conns[c].owner)
  }

  lemma TaskStaysPlaced(w: World, v: World, j: nat, t: Task)
    requires SameOwners(w, v) && TaskPlaced(w, j, t)
    ensures TaskPlaced(v, j, t)
  {
  }

  lemma MicroStaysPlaced(w: World, v: World, j: nat, m: Micro)
    requires SameOwners(w, v) && j < |w.nodes| && MicroPlaced(w, j, m)
    requires m.Finish? ==> v.nodes[j].loop.pc == L.Running
    requires HandsOff(m) ==> v.nodes[j].loop.pc != L.Clearing
    ensures MicroPlaced(v, j, m)
  {
    match m
    case Post(t, task) => TaskStaysPlaced(w, v, t, task);
    case _ =>
  }

  /** The connections in a node's pass are as NodeInv wants them. */
  ghost predicate PassInv(w: World, j: nat)
    requires j < |w.nodes|
  {
    var n := w.nodes[j];
    && (n.active != {} ==> n.loop.pc == L.Dispatching)
    && n.ready <= n.active
    && (forall c :: c in n.active ==> Owned(w, j, c) && w.conns[c].status != Connecting && !w.conns[c].finished)
    && (forall c :: c in n.ready ==> Owned(w, j, c) && w.conns[c].IsOpen())
  }

  /** A node whose loop and call stack a step did not touch. */
  lemma NodeStays(w: World, v: World, j: nat)
    requires SameOwners(w, v) && j < |w.nodes| && NodeInv(w, j)
    requires v.nodes[j].loop == w.nodes[j].loop && v.nodes[j].todo == w.nodes[j].todo && PassInv(v, j)
    ensures NodeInv(v, j)
  {
    var n := w.nodes[j];
    forall m | m in n.todo ensures MicroPlaced(v, j, m) { MicroStaysPlaced(w, v, j, m); }
    forall t | t in n.loop.tasks ensures TaskPlaced(v, j, t) { TaskStaysPlaced(w, v, j, t); }
    forall t | t in n.loop.batch ensures TaskPlaced(v, j, t) { TaskStaysPlaced(w, v, j, t); }
  }

  /** A node whose loop made one step and whose call stack became `todo`. */
  lemma NodeMoves(w: World, v: World, j: nat, s: L.Step<Task>)
    requires SameOwners(w, v) && j < |w.nodes| && NodeInv(w, j)
    requires L.Enabled(w.nodes[j].loop, s) && v.nodes[j].loop == L.Next(w.nodes[j].loop, s)
    requires s.SelfPush? ==> w.nodes[j].loop.pc != L.NotStarted && TaskPlaced(v, j, s.own)
    requires s.SelfPush? && w.nodes[j].loop.pc == L.Clearing ==> !HandOff(s.own)
    requires s.Push? ==> TaskPlaced(v, j, s.task) && s.tid != j
    requires s.Quit? ==> s.quitter != j
    requires v.nodes[j].todo != [] ==> v.nodes[j].loop.pc in {L.Dispatching, L.Running, L.Clearing}
    requires v.nodes[j].loop.selfOwing <==> v.nodes[j].todo != [] && v.nodes[j].todo[0] == Signal(j)
    requires forall p :: 0 < p < |v.nodes[j].todo| ==> !v.nodes[j].todo[p].Signal?
    requires forall m :: m in v.nodes[j].todo ==> MicroPlaced(v, j, m)
    requires PassInv(v, j)
    ensures NodeInv(v, j)
  {
    var l := w.nodes[j].loop;
    L.InvKept(l, s);
    forall t | t in v.nodes[j].loop.tasks ensures TaskPlaced(v, j, t) {
      if t in l.tasks { TaskStaysPlaced(w, v, j, t); }
    }
    forall t | t in v.nodes[j].loop.batch ensures TaskPlaced(v, j, t) {
      if t in l.tasks { TaskStaysPlaced(w, v, j, t); } else { TaskStaysPlaced(w, v, j, t); }
    }
  }

  /** The totals of a connection follow from the tokens in the nodes that changed. */
  lemma TotalOfChange(w: World, v: World, i: nat, o: nat, c: ConnId, k: Kind)
    requires |v.nodes| == |w.nodes| && i < |w.nodes| && o < |w.nodes|
    requires forall j :: 0 <= j < |w.nodes| && j != i ==> v.nodes[j] == w.nodes[j]
    ensures Total(v, o, c, k) - Total(w, o, c, k)
         == if i == 0 || i == o then Tokens(v.nodes[i], o, c, k) - Tokens(w.nodes[i], o, c, k) else 0
  {
  }

  /** A loop on which WaitingAfter applies. */
  predicate Steady(l: L.Loop<Task>) {
    && l.ran <= |l.batch| && (l.pc !in {L.Running, L.Clearing} ==> l.batch == [])
    && (l.pc == L.Clearing ==> l.ran == |l.batch|)
  }

  predicate IsToken(m: Micro, o: nat, c: ConnId, k: Kind) {
    m == Post(KindLoop(k, o), KindTask(k, c)) || m == KindMicro(k, c)
  }

  lemma TokensOfPop(n: Node, n2: Node, o: nat, c: ConnId, k: Kind)
    requires n.todo != [] && n2.loop == n.loop
    requires n2.todo == n.todo[1..] || (|n2.todo| > 0 && n2.todo[0].Signal? && n2.todo[1..] == n.todo[1..])
    ensures Tokens(n2, o, c, k) == Tokens(n, o, c, k) - if IsToken(n.todo[0], o, c, k) then 1 else 0
  {
    TodoHead(n.todo, Post(KindLoop(k, o), KindTask(k, c)));
    TodoHead(n.todo, KindMicro(k, c));
    if n2.todo != n.todo[1..] {
      TodoHead(n2.todo, Post(KindLoop(k, o), KindTask(k, c)));
      TodoHead(n2.todo, KindMicro(k, c));
    }
  }

  lemma TokensOfStep(n: Node, s: L.Step<Task>, o: nat, c: ConnId, k: Kind)
    requires L.Enabled(n.loop, s) && Steady(n.loop) && !s.RunTask?
    ensures var pushes := (s.SelfPush? && s.own == KindTask(k, c)) || (s.Push? && s.task == KindTask(k, c));
            Tokens(n.(loop := L.Next(n.loop, s)), o, c, k) == Tokens(n, o, c, k) + if pushes then 1 else 0
  {
    WaitingAfter(n.loop, s, KindTask(k, c));
  }

  /** Every connection's totals, and nothing else it depends on, stayed the same. */
  lemma ConnsStay(w: World, v: World)
    requires 0 < |w.nodes| == |v.nodes| && v.conns == w.conns && v.flags == w.flags
    requires forall c :: ConnInv(w, c)
    requires forall c, k :: c in w.conns && w.conns[c].owner < |w.nodes| ==>
               Total(v, w.conns[c].owner, c, k) == Total(w, w.conns[c].owner, c, k)
    ensures forall c :: ConnInv(v, c)
  {
    forall c ensures ConnInv(v, c) {
      assert ConnInv(w, c);
    }
  }

  // ---------------------------------------------------------------- steps of one loop

  lemma LoopMoveNodes(w: World, i: nat, s: L.Step<Task>)
    requires Inv(w) && Enabled(w, LoopMove(i, s))
    ensures forall j :: 0 <= j < |w.nodes| ==> NodeInv(Next(w, LoopMove(i, s)), j)
  {
    var v := Next(w, LoopMove(i, s));
    assert NodeInv(w, i);
    forall m | m in w.nodes[i].todo ensures MicroPlaced(v, i, m) { MicroStaysPlaced(w, v, i, m); }
    NodeMoves(w, v, i, s);
    forall j | 0 <= j < |v.nodes| && j != i ensures NodeInv(v, j) {
      NodeStays(w, v, j);
    }
  }

  lemma LoopMoveConns(w: World, i: nat, s: L.Step<Task>)
    requires Inv(w) && Enabled(w, LoopMove(i, s))
    ensures forall c :: ConnInv(Next(w, LoopMove(i, s)), c)
  {
    var v := Next(w, LoopMove(i, s));
    var n := w.nodes[i];
    assert NodeInv(w, i);
    forall c, k | c in w.conns && w.conns[c].owner < |w.nodes|
      ensures Total(v, w.conns[c].owner, c, k) == Total(w, w.conns[c].owner, c, k)
    {
      TokensOfStep(n, s, w.conns[c].owner, c, k);
      TotalOfChange(w, v, i, w.conns[c].owner, c, k);
    }
    ConnsStay(w, v);
  }

  lemma LoopMoveKept(w: World, i: nat, s: L.Step<Task>)
    requires Inv(w) && Enabled(w, LoopMove(i, s))
    ensures Inv(Next(w, LoopMove(i, s)))
  {
    LoopMoveNodes(w, i, s);
    LoopMoveConns(w, i, s);
  }

  lemma PollNodes(w: World, i: nat, ready: bool, chans: set<ConnId>)
    requires Inv(w) && Enabled(w, Poll(i, ready, chans))
    ensures forall j :: 0 <= j < |w.nodes| ==> NodeInv(Next(w, Poll(i, ready, chans)), j)
  {
    var v := Next(w, Poll(i, ready, chans));
    assert NodeInv(w, i) && w.nodes[i].todo == [];
    forall c | c in chans ensures Owned(v, i, c) && v.conns[c].status != Connecting && !v.conns[c].finished {
      assert ConnInv(w, c);
    }
    NodeMoves(w, v, i, L.PollReturn(ready));
    forall j | 0 <= j < |v.nodes| && j != i ensures NodeInv(v, j) {
      assert NodeInv(w, j);
      NodeStays(w, v, j);
    }
  }

  lemma PollConns(w: World, i: nat, ready: bool, chans: set<ConnId>)
    requires Inv(w) && Enabled(w, Poll(i, ready, chans))
    ensures forall c :: ConnInv(Next(w, Poll(i, ready, chans)), c)
  {
    var v := Next(w, Poll(i, ready, chans));
    var n := w.nodes[i];
    assert NodeInv(w, i);
    forall c, k | c in w.conns && w.conns[c].owner < |w.nodes|
      ensures Total(v, w.conns[c].owner, c, k) == Total(w, w.conns[c].owner, c, k)
    {
      TokensOfStep(n, L.PollReturn(ready), w.conns[c].owner, c, k);
      TokensIgnorePass(n.(loop := v.nodes[i].loop), v.nodes[i], w.conns[c].owner, c, k);
      hide Tokens;
      TotalOfChange(w, v, i, w.conns[c].owner, c, k);
    }
    ConnsStay(w, v);
  }

  lemma PollKept(w: World, i: nat, ready: bool, chans: set<ConnId>)
    requires Inv(w) && Enabled(w, Poll(i, ready, chans))
    ensures Inv(Next(w, Poll(i, ready, chans)))
  {
    PollNodes(w, i, ready, chans);
    PollConns(w, i, ready, chans);
  }

  // ---------------------------------------------------------------- micro steps

  /** A post moves its token from the poster's call stack into the target's queue. */
  lemma PostOwnTotal(w: World, i: nat, o: nat, c: ConnId, k: Kind)
    requires i < |w.nodes| && o < |w.nodes| && Steady(w.nodes[i].loop)
    requires w.nodes[i].todo != [] && ExecEnabled(w, i) && w.nodes[i].todo[0].Post? && w.nodes[i].todo[0].target == i
    requires w.nodes[i].todo[0].task == KindTask(k, c) ==> i == KindLoop(k, o)
    ensures Total(ExecNext(w, i), o, c, k) == Total(w, o, c, k)
  {
    var n := w.nodes[i];
    var v := ExecNext(w, i);
    var mid := n.(loop := v.nodes[i].loop);
    TokensOfStep(n, L.SelfPush(n.todo[0].task), o, c, k);
    TokensOfPop(mid, v.nodes[i], o, c, k);
    TotalOfChange(w, v, i, o, c, k);
  }

  lemma PostAcrossTotal(w: World, i: nat, o: nat, c: ConnId, k: Kind)
    requires i < |w.nodes| && o < |w.nodes|
    requires w.nodes[i].todo != [] && ExecEnabled(w, i) && w.nodes[i].todo[0].Post? && w.nodes[i].todo[0].target != i
    requires Steady(w.nodes[w.nodes[i].todo[0].target].loop)
    requires w.nodes[i].todo[0].task == KindTask(k, c) ==>
               w.nodes[i].todo[0].target == KindLoop(k, o) && i in {0, o}
    ensures Total(ExecNext(w, i), o, c, k) == Total(w, o, c, k)
  {
    var n := w.nodes[i];
    var t, task := n.todo[0].target, n.todo[0].task;
    var v := ExecNext(w, i);
    var u := SetLoop(w, t, v.nodes[t].loop);
    TokensOfStep(w.nodes[t], L.Push(i, task), o, c, k);
    TokensOfPop(n, v.nodes[i], o, c, k);
    hide Tokens;
    TotalOfChange(w, u, t, o, c, k);
    TotalOfChange(u, v, i, o, c, k);
  }

  lemma SignalOwnTotal(w: World, i: nat, o: nat, c: ConnId, k: Kind)
    requires i < |w.nodes| && o < |w.nodes| && Steady(w.nodes[i].loop)
    requires w.nodes[i].todo != [] && ExecEnabled(w, i) && w.nodes[i].todo[0] == Signal(i)
    ensures Total(ExecNext(w, i), o, c, k) == Total(w, o, c, k)
  {
    var n := w.nodes[i];
    var v := ExecNext(w, i);
    TokensOfStep(n, L.SelfWake, o, c, k);
    TokensOfPop(n.(loop := v.nodes[i].loop), v.nodes[i], o, c, k);
    hide Tokens;
    TotalOfChange(w, v, i, o, c, k);
  }

  lemma SignalAcrossTotal(w: World, i: nat, o: nat, c: ConnId, k: Kind)
    requires i < |w.nodes| && o < |w.nodes|
    requires w.nodes[i].todo != [] && ExecEnabled(w, i)
    requires w.nodes[i].todo[0].Signal? && w.nodes[i].todo[0].target != i
    requires Steady(w.nodes[w.nodes[i].todo[0].target].loop)
    ensures Total(ExecNext(w, i), o, c, k) == Total(w, o, c, k)
  {
    var n := w.nodes[i];
    var t := n.todo[0].target;
    var v := ExecNext(w, i);
    var u := SetLoop(w, t, v.nodes[t].loop);
    TokensOfStep(w.nodes[t], L.Wake(i), o, c, k);
    TokensOfPop(n, v.nodes[i], o, c, k);
    hide Tokens;
    TotalOfChange(w, u, t, o, c, k);
    TotalOfChange(u, v, i, o, c, k);
  }

  lemma PostConns(w: World, i: nat)
    requires Inv(w) && Enabled(w, Exec(i)) && w.nodes[i].todo[0].Post?
    ensures forall c :: ConnInv(ExecNext(w, i), c)
  {
    var m := w.nodes[i].todo[0];
    assert NodeInv(w, i) && NodeInv(w, m.target) && MicroPlaced(w, i, m);
    forall c, k | c in w.conns && w.conns[c].owner < |w.nodes|
      ensures Total(ExecNext(w, i), w.conns[c].owner, c, k) == Total(w, w.conns[c].owner, c, k)
    {
      if m.target == i {
        PostOwnTotal(w, i, w.conns[c].owner, c, k);
      } else {
        PostAcrossTotal(w, i, w.conns[c].owner, c, k);
      }
    }
    ConnsStay(w, ExecNext(w, i));
  }

  lemma SignalConns(w: World, i: nat)
    requires Inv(w) && Enabled(w, Exec(i)) && w.nodes[i].todo[0].Signal?
    ensures forall c :: ConnInv(ExecNext(w, i), c)
  {
    assert NodeInv(w, i) && NodeInv(w, w.nodes[i].todo[0].target);
    forall c, k | c in w.conns && w.conns[c].owner < |w.nodes|
      ensures Total(ExecNext(w, i), w.conns[c].owner, c, k) == Total(w, w.conns[c].owner, c, k)
    {
      if w.nodes[i].todo[0] == Signal(i) {
        SignalOwnTotal(w, i, w.conns[c].owner, c, k);
      } else {
        SignalAcrossTotal(w, i, w.conns[c].owner, c, k);
      }
    }
    ConnsStay(w, ExecNext(w, i));
  }

  /** A node of which only the call stack changed: its head went away or was replaced. */
  lemma CallStackMoves(w: World, v: World, j: nat)
    requires SameOwners(w, v) && j < |w.nodes| && NodeInv(w, j)
    requires v.nodes[j].loop == w.nodes[j].loop && w.nodes[j].todo != []
    requires v.nodes[j].todo == w.nodes[j].todo[1..]
          || (|v.nodes[j].todo| > 0 && v.nodes[j].todo[1..] == w.nodes[j].todo[1..]
              && MicroPlaced(v, j, v.nodes[j].todo[0]))
    requires !w.nodes[j].loop.selfOwing && (v.nodes[j].todo != [] ==> v.nodes[j].todo[0] != Signal(j))
    requires PassInv(v, j)
    ensures NodeInv(v, j)
  {
    var n := w.nodes[j];
    var td := v.nodes[j].todo;
    forall m | m in td ensures MicroPlaced(v, j, m) {
      if m in n.todo[1..] {
        MicroStaysPlaced(w, v, j, m);
      } else {
        assert td == [td[0]] + td[1..];
      }
    }
    forall p | 0 < p < |td| ensures !td[p].Signal? {
      if td == n.todo[1..] {
        assert td[p] == n.todo[p + 1];
      } else {
        assert td[p] == td[1..][p - 1] == n.todo[1..][p - 1] == n.todo[p];
      }
    }
    forall t | t in n.loop.tasks ensures TaskPlaced(v, j, t) { TaskStaysPlaced(w, v, j, t); }
    forall t | t in n.loop.batch ensures TaskPlaced(v, j, t) { TaskStaysPlaced(w, v, j, t); }
  }

  /** The nodes that a step on nodes i and t left alone. */
  lemma OthersStay(w: World, v: World, i: nat, t: nat)
    requires v.conns == w.conns && |v.nodes| == |w.nodes|
    requires forall j :: 0 <= j < |w.nodes| ==> NodeInv(w, j)
    requires forall j :: 0 <= j < |w.nodes| && j != i && j != t ==> v.nodes[j] == w.nodes[j]
    ensures forall j :: 0 <= j < |w.nodes| && j != i && j != t ==> NodeInv(v, j)
  {
    forall j | 0 <= j < |v.nodes| && j != i && j != t ensures NodeInv(v, j) {
      assert NodeInv(w, j);
      NodeStays(w, v, j);
    }
  }

  lemma PostOwnNodes(w: World, i: nat)
    requires Inv(w) && Enabled(w, Exec(i)) && w.nodes[i].todo[0].Post? && w.nodes[i].todo[0].target == i
    ensures forall j :: 0 <= j < |w.nodes| ==> NodeInv(ExecNext(w, i), j)
  {
    PostOwnTarget(w, i);
    hide NodeInv;
    OthersStay(w, ExecNext(w, i), i, i);
  }

  /** A post to the loop's own queue. */
  lemma PostOwnTarget(w: World, i: nat)
    requires Inv(w) && Enabled(w, Exec(i)) && w.nodes[i].todo[0].Post? && w.nodes[i].todo[0].target == i
    ensures NodeInv(ExecNext(w, i), i)
  {
    var v := ExecNext(w, i);
    var n := w.nodes[i];
    assert NodeInv(w, i) && MicroPlaced(w, i, n.todo[0]);
    assert n.todo[1..] != [] ==> n.todo[1..][0] == n.todo[1];
    forall m | m in v.nodes[i].todo ensures MicroPlaced(v, i, m) {
      if !m.Signal? { assert m in n.todo; MicroStaysPlaced(w, v, i, m); }
    }
    hide PassInv, MicroPlaced;
    assert PassInv(v, i) by { PassStays(w, v, i); }
    NodeMoves(w, v, i, L.SelfPush(n.todo[0].task));
  }

  /** A pass does not depend on queues and call stacks. */
  lemma PassStays(w: World, v: World, j: nat)
    requires j < |w.nodes| == |v.nodes| && NodeInv(w, j) && v.conns == w.conns
    requires v.nodes[j].active == w.nodes[j].active && v.nodes[j].ready == w.nodes[j].ready
    requires v.nodes[j].loop.pc == w.nodes[j].loop.pc
    ensures PassInv(v, j)
  {
  }

  lemma PostAcrossNodes(w: World, i: nat)
    requires Inv(w) && Enabled(w, Exec(i)) && w.nodes[i].todo[0].Post? && w.nodes[i].todo[0].target != i
    ensures forall j :: 0 <= j < |w.nodes| ==> NodeInv(ExecNext(w, i), j)
  {
    var v := ExecNext(w, i);
    var n := w.nodes[i];
    var t := n.todo[0].target;
    assert NodeInv(w, i);
    PostAcrossTarget(w, i);
    CallStackMoves(w, v, i);
    hide NodeInv;
    OthersStay(w, v, i, t);
  }

  /** The target of a post. */
  lemma PostAcrossTarget(w: World, i: nat)
    requires Inv(w) && Enabled(w, Exec(i)) && w.nodes[i].todo[0].Post? && w.nodes[i].todo[0].target != i
    ensures NodeInv(ExecNext(w, i), w.nodes[i].todo[0].target)
  {
    var v := ExecNext(w, i);
    var t, task := w.nodes[i].todo[0].target, w.nodes[i].todo[0].task;
    assert NodeInv(w, i) && NodeInv(w, t) && MicroPlaced(w, i, w.nodes[i].todo[0]);
    forall m | m in w.nodes[t].todo ensures MicroPlaced(v, t, m) { MicroStaysPlaced(w, v, t, m); }
    NodeMoves(w, v, t, L.Push(i, task));
  }

  lemma SignalOwnNodes(w: World, i: nat)
    requires Inv(w) && Enabled(w, Exec(i)) && w.nodes[i].todo[0] == Signal(i)
    ensures forall j :: 0 <= j < |w.nodes| ==> NodeInv(ExecNext(w, i), j)
  {
    var v := ExecNext(w, i);
    var n := w.nodes[i];
    assert NodeInv(w, i);
    assert n.todo[1..] != [] ==> n.todo[1..][0] == n.todo[1];
    forall m | m in v.nodes[i].todo ensures MicroPlaced(v, i, m) { MicroStaysPlaced(w, v, i, m); }
    NodeMoves(w, v, i, L.SelfWake);
    OthersStay(w, v, i, i);
  }

  lemma SignalAcrossNodes(w: World, i: nat)
    requires Inv(w) && Enabled(w, Exec(i)) && w.nodes[i].todo[0].Signal? && w.nodes[i].todo[0].target != i
    ensures forall j :: 0 <= j < |w.nodes| ==> NodeInv(ExecNext(w, i), j)
  {
    var v := ExecNext(w, i);
    var n := w.nodes[i];
    assert NodeInv(w, i);
    assert n.todo[1..] != [] ==> n.todo[1..][0] == n.todo[1];
    SignalAcrossTarget(w, i);
    CallStackMoves(w, v, i);
    hide NodeInv;
    OthersStay(w, v, i, n.todo[0].target);
  }

  lemma SignalAcrossTarget(w: World, i: nat)
    requires Inv(w) && Enabled(w, Exec(i)) && w.nodes[i].todo[0].Signal? && w.nodes[i].todo[0].target != i
    ensures NodeInv(ExecNext(w, i), w.nodes[i].todo[0].target)
  {
    var v := ExecNext(w, i);
    var t := w.nodes[i].todo[0].target;
    assert NodeInv(w, t);
    forall m | m in w.nodes[t].todo ensures MicroPlaced(v, t, m) { MicroStaysPlaced(w, v, t, m); }
    NodeMoves(w, v, t, L.Wake(i));
  }

  predicate SignalsNext(n: Node, t: nat) {
    n.todo != [] && n.todo[0] == Signal(t)
  }

  /** Thread i is the only one whose debt changed, and only towards loop t. */
  lemma OwingChange(w: World, v: World, i: nat, t: nat)
    requires OwingInv(w) && |v.nodes| == |w.nodes| && i < |w.nodes| && t < |w.nodes|
    requires forall j :: 0 <= j < |w.nodes| && j != i ==> v.nodes[j].todo == w.nodes[j].todo
    requires forall j :: 0 <= j < |w.nodes| && j != t ==> v.nodes[j].loop.owing == w.nodes[j].loop.owing
    requires forall x :: x != i ==> (x in v.nodes[t].loop.owing <==> x in w.nodes[t].loop.owing)
    requires t != i ==> (i in v.nodes[t].loop.owing <==> SignalsNext(v.nodes[i], t))
    requires forall x :: 0 <= x < |w.nodes| && x != t && x != i ==>
               (SignalsNext(v.nodes[i], x) <==> SignalsNext(w.nodes[i], x))
    requires t == i ==> v.nodes[i].loop.owing == w.nodes[i].loop.owing
    ensures OwingInv(v)
  {
    forall a, b | 0 <= a < |v.nodes| && 0 <= b < |v.nodes| && a != b
      ensures a in v.nodes[b].loop.owing <==> v.nodes[a].todo != [] && v.nodes[a].todo[0] == Signal(b)
    {
      assert a in w.nodes[b].loop.owing <==> w.nodes[a].todo != [] && w.nodes[a].todo[0] == Signal(b);
      if a == i {
        assert SignalsNext(v.nodes[i], b) || !SignalsNext(v.nodes[i], b);
      }
    }
  }

  lemma PostOwing(w: World, i: nat)
    requires i < |w.nodes| && OwingInv(w) && Enabled(w, Exec(i)) && w.nodes[i].todo[0].Post?
    requires forall p :: 0 < p < |w.nodes[i].todo| ==> !w.nodes[i].todo[p].Signal?
    ensures OwingInv(ExecNext(w, i))
  {
    var n := w.nodes[i];
    assert n.todo[1..] != [] ==> n.todo[1..][0] == n.todo[1];
    OwingChange(w, ExecNext(w, i), i, n.todo[0].target);
  }

  lemma SignalOwing(w: World, i: nat)
    requires i < |w.nodes| && OwingInv(w) && Enabled(w, Exec(i)) && w.nodes[i].todo[0].Signal?
    requires forall p :: 0 < p < |w.nodes[i].todo| ==> !w.nodes[i].todo[p].Signal?
    ensures OwingInv(ExecNext(w, i))
  {
    var n := w.nodes[i];
    assert n.todo[1..] != [] ==> n.todo[1..][0] == n.todo[1];
    OwingChange(w, ExecNext(w, i), i, n.todo[0].target);
  }

  lemma PostKept(w: World, i: nat)
    requires Inv(w) && Enabled(w, Exec(i)) && w.nodes[i].todo[0].Post?
    ensures Inv(Next(w, Exec(i)))
  {
    if w.nodes[i].todo[0].target == i { PostOwnNodes(w, i); } else { PostAcrossNodes(w, i); }
    PostConns(w, i);
    assert NodeInv(w, i);
    PostOwing(w, i);
  }

  lemma SignalKept(w: World, i: nat)
    requires Inv(w) && Enabled(w, Exec(i)) && w.nodes[i].todo[0].Signal?
    ensures Inv(Next(w, Exec(i)))
  {
    if w.nodes[i].todo[0].target == i { SignalOwnNodes(w, i); } else { SignalAcrossNodes(w, i); }
    SignalConns(w, i);
    assert NodeInv(w, i);
    SignalOwing(w, i);
  }

  // ---------------------------------------------------------------- steps that change a connection

  /** Every connection but x kept its fields and its totals. */
  lemma ConnsStayBut(w: World, v: World, x: ConnId)
    requires 0 < |w.nodes| == |v.nodes|
    requires forall c :: c != x ==> (c in v.conns <==> c in w.conns) && (c in v.flags <==> c in w.flags)
    requires forall c :: c != x && c in w.conns ==> v.conns[c] == w.conns[c]
    requires forall c :: ConnInv(w, c)
    requires forall c, k :: c != x && c in w.conns && w.conns[c].owner < |w.nodes| ==>
               Total(v, w.conns[c].owner, c, k) == Total(w, w.conns[c].owner, c, k)
    requires ConnInv(v, x)
    ensures forall c :: ConnInv(v, c)
  {
    forall c | c != x ensures ConnInv(v, c) {
      assert ConnInv(w, c);
    }
  }

  lemma TokensOfHead(n: Node, head: Micro, rest: seq<Micro>, o: nat, c: ConnId, k: Kind)
    ensures Tokens(n.(todo := [head] + rest), o, c, k)
         == Tokens(n.(todo := rest), o, c, k) + if IsToken(head, o, c, k) then 1 else 0
  {
    assert multiset([head] + rest) == multiset{head} + multiset(rest);
  }

  /** The kind-k token of a connection that the head of node i's call stack carries. */
  lemma HeadCounts(w: World, i: nat, o: nat, c: ConnId, k: Kind)
    requires i < |w.nodes| && o < |w.nodes| && i in {0, o}
    requires w.nodes[i].todo != [] && IsToken(w.nodes[i].todo[0], o, c, k)
    ensures Total(w, o, c, k) >= 1
  {
    TodoHead(w.nodes[i].todo, Post(KindLoop(k, o), KindTask(k, c)));
    TodoHead(w.nodes[i].todo, KindMicro(k, c));
  }

  /** What Open, Erase and Finish do to the tokens: the head token goes, `born` may come. */
  lemma ReplaceTotal(w: World, v: World, i: nat, o: nat, c: ConnId, k: Kind)
    requires |v.nodes| == |w.nodes| && i < |w.nodes| && o < |w.nodes|
    requires forall j :: 0 <= j < |w.nodes| && j != i ==> v.nodes[j] == w.nodes[j]
    requires w.nodes[i].todo != [] && v.nodes[i].loop == w.nodes[i].loop
    requires v.nodes[i].todo == w.nodes[i].todo[1..]
          || (v.nodes[i].todo != [] && v.nodes[i].todo[1..] == w.nodes[i].todo[1..])
    ensures var gone := if i in {0, o} && IsToken(w.nodes[i].todo[0], o, c, k) then 1 else 0;
            var born := if i in {0, o} && v.nodes[i].todo != w.nodes[i].todo[1..]
                           && IsToken(v.nodes[i].todo[0], o, c, k) then 1 else 0;
            Total(v, o, c, k) == Total(w, o, c, k) - gone + born
  {
    var n := w.nodes[i];
    var rest := n.todo[1..];
    assert n.todo == [n.todo[0]] + rest;
    TokensOfHead(n, n.todo[0], rest, o, c, k);
    assert n == n.(todo := [n.todo[0]] + rest);
    var base := n.(todo := rest);
    if v.nodes[i].todo != rest {
      var td := v.nodes[i].todo;
      assert td == [td[0]] + rest;
      TokensOfHead(n, td[0], rest, o, c, k);
    }
    assert v.nodes[i] == v.nodes[i].(loop := n.loop);
    TokensIgnorePass(v.nodes[i], n.(todo := v.nodes[i].todo), o, c, k);
    hide Tokens;
    TotalOfChange(w, v, i, o, c, k);
  }

  lemma TokensIgnorePass(n: Node, m: Node, o: nat, c: ConnId, k: Kind)
    requires n.loop == m.loop && n.todo == m.todo
    ensures Tokens(n, o, c, k) == Tokens(m, o, c, k)
  {
  }

  /** Open, Erase and Finish of connection x leave every other connection's totals alone. */
  lemma OtherTotals(w: World, i: nat)
    requires i < |w.nodes| && Enabled(w, Exec(i))
    requires w.nodes[i].todo[0].Open? || w.nodes[i].todo[0].Erase? || w.nodes[i].todo[0].Finish?
    ensures forall c, k :: c != w.nodes[i].todo[0].c && c in w.conns && w.conns[c].owner < |w.nodes| ==>
              Total(ExecNext(w, i), w.conns[c].owner, c, k) == Total(w, w.conns[c].owner, c, k)
  {
    forall c, k | c != w.nodes[i].todo[0].c && c in w.conns && w.conns[c].owner < |w.nodes|
      ensures Total(ExecNext(w, i), w.conns[c].owner, c, k) == Total(w, w.conns[c].owner, c, k)
    {
      OtherTotal(w, i, w.conns[c].owner, c, k);
    }
    hide Total, ExecNext;
  }

  lemma OtherTotal(w: World, i: nat, o: nat, c: ConnId, k: Kind)
    requires i < |w.nodes| && Enabled(w, Exec(i)) && o < |w.nodes|
    requires w.nodes[i].todo[0].Open? || w.nodes[i].todo[0].Erase? || w.nodes[i].todo[0].Finish?
    requires c != w.nodes[i].todo[0].c
    ensures Total(ExecNext(w, i), o, c, k) == Total(w, o, c, k)
  {
    hide Total;
    ReplaceTotal(w, ExecNext(w, i), i, o, c, k);
  }

  lemma OpenConns(w: World, i: nat)
    requires Inv(w) && Enabled(w, Exec(i)) && w.nodes[i].todo[0].Open?
    ensures var c := w.nodes[i].todo[0].c;
            Owned(w, i, c) && w.conns[c].status == Connecting && ExecNext(w, i).ok
    ensures forall c :: ConnInv(ExecNext(w, i), c)
  {
    var v := ExecNext(w, i);
    var x := w.nodes[i].todo[0].c;
    assert NodeInv(w, i) && MicroPlaced(w, i, w.nodes[i].todo[0]);
    assert ConnInv(w, x);
    HeadCounts(w, i, i, x, Opening);
    forall k: Kind { ReplaceTotal(w, v, i, i, x, k); }
    assert Total(v, i, x, Opening) == 0;
    assert Total(v, i, x, Removing) == Total(w, i, x, Removing);
    assert Total(v, i, x, Destroying) == Total(w, i, x, Destroying);
    OtherTotals(w, i);
    ConnsStayBut(w, v, x);
  }

  lemma EraseConns(w: World, i: nat)
    requires Inv(w) && Enabled(w, Exec(i)) && w.nodes[i].todo[0].Erase?
    ensures var c := w.nodes[i].todo[0].c;
            i == 0 && c in w.flags && w.conns[c].status == Disconnected && w.conns[c].owner < |w.nodes|
            && ExecNext(w, i).ok
    ensures forall c :: ConnInv(ExecNext(w, i), c)
  {
    var v := ExecNext(w, i);
    var x := w.nodes[i].todo[0].c;
    assert NodeInv(w, i) && MicroPlaced(w, i, w.nodes[i].todo[0]);
    assert ConnInv(w, x);
    var o := w.conns[x].owner;
    HeadCounts(w, i, o, x, Removing);
    EraseTotal(w, i, Opening);
    EraseTotal(w, i, Removing);
    EraseTotal(w, i, Destroying);
    assert ConnInv(v, x);
    OtherTotals(w, i);
    hide Total, ConnOk;
    ConnsStayBut(w, v, x);
  }

  /** The erase turns the removal token into a destroy token. */
  lemma EraseTotal(w: World, i: nat, k: Kind)
    requires i == 0 && Enabled(w, Exec(i)) && w.nodes[i].todo[0].Erase?
    requires w.conns[w.nodes[i].todo[0].c].owner < |w.nodes|
    ensures var x := w.nodes[i].todo[0].c;
            var o := w.conns[x].owner;
            Total(ExecNext(w, i), o, x, k)
            == Total(w, o, x, k) + if k == Removing then -1 else if k == Destroying then 1 else 0
  {
    var x := w.nodes[i].todo[0].c;
    hide Total;
    ReplaceTotal(w, ExecNext(w, i), i, w.conns[x].owner, x, k);
  }

  lemma FinishConns(w: World, i: nat)
    requires Inv(w) && Enabled(w, Exec(i)) && w.nodes[i].todo[0].Finish?
    ensures var c := w.nodes[i].todo[0].c;
            Owned(w, i, c) && w.conns[c].status == Disconnected && c !in w.flags && !w.conns[c].finished
    ensures forall c :: ConnInv(ExecNext(w, i), c)
  {
    var v := ExecNext(w, i);
    var x := w.nodes[i].todo[0].c;
    assert NodeInv(w, i) && MicroPlaced(w, i, w.nodes[i].todo[0]);
    assert ConnInv(w, x);
    HeadCounts(w, i, i, x, Destroying);
    forall k: Kind { ReplaceTotal(w, v, i, i, x, k); }
    assert Total(v, i, x, Opening) == Total(w, i, x, Opening);
    assert Total(v, i, x, Removing) == Total(w, i, x, Removing);
    assert Total(v, i, x, Destroying) == 0;
    OtherTotals(w, i);
    ConnsStayBut(w, v, x);
  }

  lemma LocalOwing(w: World, i: nat)
    requires i < |w.nodes| && OwingInv(w) && Enabled(w, Exec(i))
    requires w.nodes[i].todo[0].Open? || w.nodes[i].todo[0].Erase? || w.nodes[i].todo[0].Finish?
    requires forall p :: 0 < p < |w.nodes[i].todo| ==> !w.nodes[i].todo[p].Signal?
    ensures OwingInv(ExecNext(w, i))
  {
    var n := w.nodes[i];
    assert n.todo[1..] != [] ==> n.todo[1..][0] == n.todo[1];
    OwingChange(w, ExecNext(w, i), i, i);
  }

  /** Open, Erase and Finish never touch a connection that is being dispatched. */
  lemma LocalPass(w: World, i: nat, j: nat)
    requires Inv(w) && Enabled(w, Exec(i)) && j < |w.nodes|
    requires w.nodes[i].todo[0].Open? || w.nodes[i].todo[0].Erase? || w.nodes[i].todo[0].Finish?
    ensures PassInv(ExecNext(w, i), j)
  {
    assert NodeInv(w, i) && NodeInv(w, j) && MicroPlaced(w, i, w.nodes[i].todo[0]);
    if w.nodes[i].todo[0].Open? { OpenConns(w, i); } else if w.nodes[i].todo[0].Finish? { FinishConns(w, i); }
  }

  lemma LocalNodes(w: World, i: nat)
    requires Inv(w) && Enabled(w, Exec(i))
    requires w.nodes[i].todo[0].Open? || w.nodes[i].todo[0].Erase? || w.nodes[i].todo[0].Finish?
    ensures forall j :: 0 <= j < |w.nodes| ==> NodeInv(ExecNext(w, i), j)
  {
    var v := ExecNext(w, i);
    forall j | 0 <= j < |v.nodes| && j != i ensures NodeInv(v, j) {
      assert NodeInv(w, j);
      LocalPass(w, i, j);
      NodeStays(w, v, j);
    }
    LocalOwnNode(w, i);
  }

  lemma LocalOwnNode(w: World, i: nat)
    requires Inv(w) && Enabled(w, Exec(i))
    requires w.nodes[i].todo[0].Open? || w.nodes[i].todo[0].Erase? || w.nodes[i].todo[0].Finish?
    ensures NodeInv(ExecNext(w, i), i)
  {
    var n := w.nodes[i];
    assert NodeInv(w, i) && MicroPlaced(w, i, n.todo[0]);
    assert n.todo[1..] != [] ==> n.todo[1..][0] == n.todo[1];
    if n.todo[0].Erase? { EraseConns(w, i); }
    LocalPass(w, i, i);
    CallStackMoves(w, ExecNext(w, i), i);
  }

  lemma LocalKept(w: World, i: nat)
    requires Inv(w) && Enabled(w, Exec(i))
    requires w.nodes[i].todo[0].Open? || w.nodes[i].todo[0].Erase? || w.nodes[i].todo[0].Finish?
    ensures Inv(Next(w, Exec(i)))
  {
    LocalNodes(w, i);
    assert NodeInv(w, i);
    LocalOwing(w, i);
    match w.nodes[i].todo[0]
    case Open(_) => OpenConns(w, i);
    case Erase(_) => EraseConns(w, i);
    case Finish(_) => FinishConns(w, i);
  }

  // ---------------------------------------------------------------- running tasks, dispatch, user code

  /** handleClose hands an open connection its Removing token. */
  lemma CloseConns(u: World, i: nat, x: ConnId)
    requires i < |u.nodes| && Owned(u, i, x) && u.conns[x].IsOpen()
    requires forall c :: ConnInv(u, c)
    ensures forall c :: ConnInv(HandleClose(u, i, x), c)
    ensures HandleClose(u, i, x).ok == u.ok
  {
    var v := HandleClose(u, i, x);
    assert ConnInv(u, x);
    forall c, k | c in u.conns && u.conns[c].owner < |u.nodes|
      ensures Total(v, u.conns[c].owner, c, k)
           == Total(u, u.conns[c].owner, c, k) + if c == x && k == Removing then 1 else 0
    {
      TokensOfHead(u.nodes[i], v.nodes[i].todo[0], u.nodes[i].todo, u.conns[c].owner, c, k);
      TotalOfChange(u, v, i, u.conns[c].owner, c, k);
    }
    ConnsStayBut(u, v, x);
  }

  /** A node whose loop thread entered another call. */
  lemma CallStackPush(w: World, v: World, j: nat, m: Micro)
    requires SameOwners(w, v) && j < |w.nodes| && NodeInv(w, j) && UserCode(w.nodes[j])
    requires v.nodes[j].loop == w.nodes[j].loop && v.nodes[j].todo == [m] + w.nodes[j].todo
    requires !m.Signal? && MicroPlaced(v, j, m) && PassInv(v, j)
    ensures NodeInv(v, j)
  {
    var n := w.nodes[j];
    var td := v.nodes[j].todo;
    forall y | y in td ensures MicroPlaced(v, j, y) {
      if y != m { MicroStaysPlaced(w, v, j, y); }
    }
    forall p | 0 < p < |td| ensures !td[p].Signal? { assert td[p] == n.todo[p - 1]; }
    forall t | t in n.loop.tasks ensures TaskPlaced(v, j, t) { TaskStaysPlaced(w, v, j, t); }
    forall t | t in n.loop.batch ensures TaskPlaced(v, j, t) { TaskStaysPlaced(w, v, j, t); }
  }

  lemma PushedNodes(w: World, v: World, i: nat, m: Micro)
    requires Inv(w) && SameOwners(w, v) && i < |w.nodes| && UserCode(w.nodes[i])
    requires forall j :: 0 <= j < |w.nodes| && j != i ==> v.nodes[j] == w.nodes[j]
    requires v.nodes[i].loop == w.nodes[i].loop && v.nodes[i].todo == [m] + w.nodes[i].todo
    requires !m.Signal? && MicroPlaced(v, i, m)
    requires forall j :: 0 <= j < |w.nodes| ==> PassInv(v, j)
    ensures forall j :: 0 <= j < |w.nodes| ==> NodeInv(v, j)
    ensures OwingInv(v)
  {
    assert NodeInv(w, i);
    CallStackPush(w, v, i, m);
    forall j | 0 <= j < |v.nodes| && j != i ensures NodeInv(v, j) {
      assert NodeInv(w, j);
      NodeStays(w, v, j);
    }
    OwingChange(w, v, i, i);
  }

  lemma TakenConns(w: World, i: nat, c: ConnId)
    requires i < |w.nodes| && forall x :: ConnInv(w, x)
    ensures forall x :: ConnInv(Taken(w, i, c), x)
  {
    var u := Taken(w, i, c);
    forall x, k | x in w.conns && w.conns[x].owner < |w.nodes|
      ensures Total(u, w.conns[x].owner, x, k) == Total(w, w.conns[x].owner, x, k)
    {
      TokensIgnorePass(w.nodes[i], u.nodes[i], w.conns[x].owner, x, k);
      hide Tokens;
      TotalOfChange(w, u, i, w.conns[x].owner, x, k);
    }
    ConnsStay(w, u);
  }

  lemma DispatchKept(w: World, i: nat, c: ConnId, closes: bool)
    requires Inv(w) && Enabled(w, Dispatch(i, c, closes))
    ensures Inv(Next(w, Dispatch(i, c, closes)))
  {
    TakenConns(w, i, c);
    if closes {
      DispatchClosesNodes(w, i, c);
      CloseConns(Taken(w, i, c), i, c);
    } else {
      TakenNodes(w, i, c);
    }
  }

  lemma TakenNodes(w: World, i: nat, c: ConnId)
    requires Inv(w) && i < |w.nodes|
    ensures OwingInv(Taken(w, i, c))
    ensures forall j :: 0 <= j < |w.nodes| ==> NodeInv(Taken(w, i, c), j)
  {
    forall j | 0 <= j < |w.nodes| ensures NodeInv(Taken(w, i, c), j) {
      assert NodeInv(w, j);
      NodeStays(w, Taken(w, i, c), j);
    }
    assert NodeInv(w, i);
    OwingChange(w, Taken(w, i, c), i, i);
  }

  lemma DispatchClosesNodes(w: World, i: nat, c: ConnId)
    requires Inv(w) && Enabled(w, Dispatch(i, c, true))
    ensures Owned(w, i, c) && w.conns[c].IsOpen()
    ensures var v := HandleClose(Taken(w, i, c), i, c);
            OwingInv(v) && forall j :: 0 <= j < |w.nodes| ==> NodeInv(v, j)
  {
    var v := HandleClose(Taken(w, i, c), i, c);
    assert NodeInv(w, i);
    forall j | 0 <= j < |w.nodes| ensures PassInv(v, j) { assert NodeInv(w, j); }
    PushedNodes(w, v, i, if i == 0 then Erase(c) else Post(0, Remove(c)));
  }

  lemma RunTaskConns(w: World, i: nat)
    requires Inv(w) && Enabled(w, RunTask(i))
    ensures forall c :: ConnInv(Next(w, RunTask(i)), c)
    ensures Next(w, RunTask(i)).ok
  {
    var v := Next(w, RunTask(i));
    var n := w.nodes[i];
    var t := n.loop.batch[n.loop.ran];
    var u := SetLoop(w, i, L.Next(n.loop, L.RunTask));
    assert NodeInv(w, i) && TaskPlaced(w, i, t);
    if t.ForceClose? {
      forall c, k | c in w.conns && w.conns[c].owner < |w.nodes|
        ensures Total(u, w.conns[c].owner, c, k) == Total(w, w.conns[c].owner, c, k)
      {
        WaitingAfter(n.loop, L.RunTask, KindTask(k, c));
        TotalOfChange(w, u, i, w.conns[c].owner, c, k);
      }
      ConnsStay(w, u);
      if w.conns[t.c].IsOpen() { CloseConns(u, i, t.c); }
    } else {
      forall c, k | c in w.conns && w.conns[c].owner < |w.nodes|
        ensures Total(v, w.conns[c].owner, c, k) == Total(w, w.conns[c].owner, c, k)
      {
        TokenStarts(n, v.nodes[i], t, w.conns[c].owner, c, k);
        hide Tokens;
        TotalOfChange(w, v, i, w.conns[c].owner, c, k);
      }
      ConnsStay(w, v);
    }
  }

  /** The call that starting a task enters. */
  function Entered(t: Task): seq<Micro> {
    match t
    case Establish(x) => [Open(x)]
    case Remove(x) => [Erase(x)]
    case Destroy(x) => [Finish(x)]
    case _ => []
  }

  /** A started task turns its token from a waiting task into a call. */
  lemma TokenStarts(n: Node, m: Node, t: Task, o: nat, c: ConnId, k: Kind)
    requires Steady(n.loop) && L.Enabled(n.loop, L.RunTask) && n.loop.batch[n.loop.ran] == t
    requires n.todo == [] && m.loop == L.Next(n.loop, L.RunTask) && m.todo == Entered(t)
    ensures Tokens(m, o, c, k) == Tokens(n, o, c, k)
  {
    WaitingAfter(n.loop, L.RunTask, KindTask(k, c));
    if m.todo != [] {
      assert m.todo == [m.todo[0]] + [];
      TokensOfHead(m.(todo := []), m.todo[0], [], o, c, k);
    }
  }

  lemma RunTaskNodes(w: World, i: nat)
    requires Inv(w) && Enabled(w, RunTask(i))
    ensures forall j :: 0 <= j < |w.nodes| ==> NodeInv(Next(w, RunTask(i)), j)
  {
    var v := Next(w, RunTask(i));
    RunTaskOwnNode(w, i);
    forall j | 0 <= j < |v.nodes| && j != i ensures NodeInv(v, j) {
      assert NodeInv(w, j);
      RunTaskPass(w, i, j);
      NodeStays(w, v, j);
    }
  }

  lemma RunTaskPass(w: World, i: nat, j: nat)
    requires Inv(w) && Enabled(w, RunTask(i)) && j < |w.nodes|
    ensures PassInv(Next(w, RunTask(i)), j)
  {
    assert NodeInv(w, i) && NodeInv(w, j);
    assert TaskPlaced(w, i, w.nodes[i].loop.batch[w.nodes[i].loop.ran]);
  }

  lemma RunTaskOwnNode(w: World, i: nat)
    requires Inv(w) && Enabled(w, RunTask(i))
    ensures NodeInv(Next(w, RunTask(i)), i)
  {
    var v := Next(w, RunTask(i));
    var t := w.nodes[i].loop.batch[w.nodes[i].loop.ran];
    assert NodeInv(w, i) && TaskPlaced(w, i, t);
    RunTaskPass(w, i, i);
    assert forall m :: m in v.nodes[i].todo ==> MicroPlaced(v, i, m);
    NodeMoves(w, v, i, L.RunTask);
  }

  lemma RunTaskKept(w: World, i: nat)
    requires Inv(w) && Enabled(w, RunTask(i))
    ensures Inv(Next(w, RunTask(i)))
  {
    RunTaskConns(w, i);
    RunTaskNodes(w, i);
    OwingChange(w, Next(w, RunTask(i)), i, i);
  }

  /** No task and no call names a connection that was never inserted. */
  lemma UnknownHasNoTokens(w: World, j: nat, o: nat, c: ConnId, k: Kind)
    requires j < |w.nodes| && NodeInv(w, j) && c !in w.conns
    ensures Tokens(w.nodes[j], o, c, k) == 0
  {
    var n := w.nodes[j];
    assert KindTask(k, c) !in n.loop.tasks && KindTask(k, c) !in n.loop.batch[n.loop.ran..] by {
      assert !TaskPlaced(w, j, KindTask(k, c));
    }
    assert KindMicro(k, c) !in n.todo by { assert !MicroPlaced(w, j, KindMicro(k, c)); }
    var m := Post(KindLoop(k, o), KindTask(k, c));
    assert m !in n.todo by { assert !TaskPlaced(w, m.target, m.task) && !MicroPlaced(w, j, m); }
  }

  lemma AcceptConns(w: World, c: ConnId, owner: nat)
    requires Inv(w) && Enabled(w, Accept(c, owner))
    ensures forall x :: ConnInv(Next(w, Accept(c, owner)), x)
  {
    var v := Next(w, Accept(c, owner));
    forall x, k | x in v.conns && v.conns[x].owner < |w.nodes|
      ensures Total(v, v.conns[x].owner, x, k)
           == Total(w, v.conns[x].owner, x, k) + if x == c && k == Opening then 1 else 0
    {
      AcceptTotal(w, c, owner, v.conns[x].owner, x, k);
    }
    assert NodeInv(w, 0) && NodeInv(w, owner);
    forall k: Kind ensures Total(w, owner, c, k) == 0 {
      UnknownHasNoTokens(w, 0, owner, c, k);
      UnknownHasNoTokens(w, owner, owner, c, k);
    }
    assert ConnInv(v, c);
    ConnsStayBut(w, v, c);
  }

  lemma AcceptTotal(w: World, c: ConnId, owner: nat, o: nat, x: ConnId, k: Kind)
    requires Enabled(w, Accept(c, owner)) && o < |w.nodes| && (x == c ==> o == owner)
    ensures Total(Next(w, Accept(c, owner)), o, x, k) == Total(w, o, x, k) + if x == c && k == Opening then 1 else 0
  {
    var v := Next(w, Accept(c, owner));
    var m := v.nodes[0].todo[0];
    TokensOfHead(w.nodes[0], m, [], o, x, k);
    assert v.nodes[0] == w.nodes[0].(todo := [m] + []);
    assert w.nodes[0].(todo := []) == w.nodes[0];
    hide Tokens;
    TotalOfChange(w, v, 0, o, x, k);
  }

  lemma AcceptKept(w: World, c: ConnId, owner: nat)
    requires Inv(w) && Enabled(w, Accept(c, owner))
    ensures Inv(Next(w, Accept(c, owner)))
  {
    var v := Next(w, Accept(c, owner));
    forall j | 0 <= j < |w.nodes| ensures PassInv(v, j) { assert NodeInv(w, j); }
    PushedNodes(w, v, 0, v.nodes[0].todo[0]);
    AcceptConns(w, c, owner);
  }

  lemma UserPostTotal(w: World, v: World, i: nat, m: Micro, o: nat, c: ConnId, k: Kind)
    requires |v.nodes| == |w.nodes| && i < |w.nodes| && o < |w.nodes|
    requires forall j :: 0 <= j < |w.nodes| && j != i ==> v.nodes[j] == w.nodes[j]
    requires v.nodes[i] == w.nodes[i].(todo := [m] + w.nodes[i].todo)
    requires m.Post? && (m.task.ForceClose? || m.task.Notify? || m.task.Other?)
    ensures Total(v, o, c, k) == Total(w, o, c, k)
  {
    TokensOfHead(w.nodes[i], m, w.nodes[i].todo, o, c, k);
    assert w.nodes[i].(todo := w.nodes[i].todo) == w.nodes[i];
    hide Tokens;
    TotalOfChange(w, v, i, o, c, k);
  }

  lemma UserStepConns(w: World, s: Step)
    requires Inv(w) && Enabled(w, s) && (s.UserForceClose? || s.UserNotify? || s.UserPost?)
    ensures forall c :: ConnInv(Next(w, s), c)
  {
    var v := Next(w, s);
    forall c, k | c in w.conns && w.conns[c].owner < |w.nodes|
      ensures Total(v, w.conns[c].owner, c, k) == Total(w, w.conns[c].owner, c, k)
    {
      UserPostTotal(w, v, s.i, v.nodes[s.i].todo[0], w.conns[c].owner, c, k);
    }
    if s.UserForceClose? {
      assert ConnInv(w, s.c);
      ConnsStayBut(w, v, s.c);
    } else {
      ConnsStay(w, v);
    }
  }

  lemma UserStepKept(w: World, s: Step)
    requires Inv(w) && Enabled(w, s) && (s.UserForceClose? || s.UserNotify? || s.UserPost?)
    ensures Inv(Next(w, s))
  {
    var v := Next(w, s);
    assert NodeInv(w, s.i);
    forall j | 0 <= j < |w.nodes| ensures PassInv(v, j) { assert NodeInv(w, j); }
    PushedNodes(w, v, s.i, v.nodes[s.i].todo[0]);
    UserStepConns(w, s);
  }

  lemma UserShutdownKept(w: World, i: nat, c: ConnId)
    requires Inv(w) && Enabled(w, UserShutdown(i, c))
    ensures Inv(Next(w, UserShutdown(i, c)))
  {
    var v := Next(w, UserShutdown(i, c));
    assert ConnInv(w, c);
    forall j | 0 <= j < |v.nodes| ensures NodeInv(v, j) {
      assert NodeInv(w, j);
      NodeStays(w, v, j);
    }
    ConnsStayBut(w, v, c);
  }

  lemma StartInv(w: World)
    requires Start(w)
    ensures Inv(w)
  {
  }
}
