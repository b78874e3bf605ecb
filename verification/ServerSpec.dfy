/**
 A server on several event loops: the base loop (node 0) accepts connections and owns
 `_connFlags`, every connection lives in one owner loop, and a closing connection is handed
 from its owner loop to the base loop and back (src/net/TcpServer.cpp). Loop threads interleave
 arbitrarily; each step below is one atomic action of one thread, and every change to a loop is
 a step of LoopSpec.
 */
module ServerSpec {
  import opened Lifecycle
  import L = LoopSpec

  type ConnId = nat

  /** The tasks that get queued. A task that names a connection holds a shared pointer to it. */
  datatype Task =
    | Establish(c: ConnId)    // TcpConnection::connectionEstablished
    | Remove(c: ConnId)       // TcpServer::removeConnectionInLoop
    | Destroy(c: ConnId)      // TcpConnection::connectionDestroyed
    | ForceClose(c: ConnId)   // TcpConnection::forceCloseInLoop
    | Notify(c: ConnId)       // the write-complete callback
    | Other                   // a task that names no connection

  /** The tasks that carry a connection from one loop to another. */
  predicate HandOff(t: Task) {
    t.Establish? || t.Remove? || t.Destroy?
  }

  /** What the code running in a loop thread still has to do, as its call stack has it. */
  datatype Micro =
    | Post(target: nat, task: Task)  // the push of `queueInLoop` on loop `target`
    | Signal(target: nat)            // the eventfd write that follows it
    | Open(c: ConnId)                // run connectionEstablished
    | Erase(c: ConnId)               // run removeConnectionInLoop up to the erase
    | Finish(c: ConnId)              // run connectionDestroyed

  /** `cbs` records the connection callback's `up` arguments; `finished` says that
      connectionDestroyed has run. */
  datatype Conn = Conn(owner: nat, status: Status, cbs: seq<bool>, finished: bool) {
    predicate IsOpen() { status in {Connected, Disconnecting} }
  }

  /** `active` is the connections in this pass's activeChannels, `ready` those not handled yet. */
  datatype Node = Node(loop: L.Loop<Task>, active: set<ConnId>, ready: set<ConnId>, todo: seq<Micro>)

  /** `ok` turns false when an assertion of the code fails. */
  datatype World = World(nodes: seq<Node>, flags: set<ConnId>, conns: map<ConnId, Conn>, ok: bool)

  datatype Step =
    | LoopMove(i: nat, s: L.Step<Task>)
    | Poll(i: nat, ready: bool, chans: set<ConnId>)
    | Dispatch(i: nat, c: ConnId, closes: bool)  // handle one active connection
    | RunTask(i: nat)
    | Exec(i: nat)                               // the loop thread's next micro step
    | Accept(c: ConnId, owner: nat)              // TcpServer::newConnection
    | UserForceClose(i: nat, c: ConnId)          // calls that user code makes in loop thread i
    | UserShutdown(i: nat, c: ConnId)
    | UserNotify(i: nat, c: ConnId)
    | UserPost(i: nat, target: nat)

  ghost predicate Start(w: World) {
    && |w.nodes| > 0
    && (forall j :: 0 <= j < |w.nodes| ==> w.nodes[j] == Node(L.Init(), {}, {}, []))
    && w.flags == {} && w.conns == map[] && w.ok
  }

  /** Between two micro steps the loop thread may be inside a user callback, or inside a destructor when
      a batch dies: there too anything but a hand-off may be queued. */
  predicate UserCode(n: Node) {
    n.loop.pc in {L.Dispatching, L.Running, L.Clearing} && (n.todo == [] || !n.todo[0].Signal?)
  }

  predicate Owned(w: World, i: nat, c: ConnId) {
    c in w.conns && w.conns[c].owner == i
  }

  /** Steps that a loop makes by itself, and steps of threads that are no loop's thread. */
  predicate MoveAllowed(w: World, i: nat, s: L.Step<Task>)
    requires i < |w.nodes|
  {
    var n := w.nodes[i];
    L.Enabled(n.loop, s) &&
    match s
    case Start => true
    case Check => true
    case DrainWake => n.todo == []
    case BeginTasks => n.todo == [] && n.ready == {}
    case Swap => true
    case EndTasks => n.todo == []
    case Cleared => n.todo == []
    case SelfQuit => true
    case Push(tid, t) => tid >= |w.nodes| && t == Other
    case Quit(tid) => tid >= |w.nodes|
    case Wake(tid) => tid >= |w.nodes|
    case _ => false
  }

  predicate ExecEnabled(w: World, i: nat)
    requires i < |w.nodes| && w.nodes[i].todo != []
  {
    var n := w.nodes[i];
    match n.todo[0]
    case Post(t, task) =>
      if t == i then L.InUserCode(n.loop) else t < |w.nodes| && i !in w.nodes[t].loop.owing
    case Signal(t) =>
      if t == i then n.loop.selfOwing else t < |w.nodes| && i in w.nodes[t].loop.owing
    case Open(c) => c in w.conns
    case Erase(c) => c in w.conns
    case Finish(c) => c in w.conns
  }

  predicate Enabled(w: World, s: Step) {
    match s
    case LoopMove(i, m) => i < |w.nodes| && MoveAllowed(w, i, m)
    case Poll(i, ready, chans) =>
      && i < |w.nodes| && L.Enabled(w.nodes[i].loop, L.PollReturn(ready))
      && (forall c :: c in chans ==> Owned(w, i, c) && w.conns[c].IsOpen())
    case Dispatch(i, c, _) =>
      i < |w.nodes| && w.nodes[i].todo == [] && c in w.nodes[i].ready && Owned(w, i, c)
    case RunTask(i) =>
      && i < |w.nodes| && w.nodes[i].todo == [] && L.Enabled(w.nodes[i].loop, L.RunTask)
      && (var t := w.nodes[i].loop.batch[w.nodes[i].loop.ran]; t.ForceClose? ==> t.c in w.conns)
    case Exec(i) => i < |w.nodes| && w.nodes[i].todo != [] && ExecEnabled(w, i)
    case Accept(c, owner) =>
      && 0 < |w.nodes| && owner < |w.nodes| && c !in w.conns
      && w.nodes[0].loop.pc == L.Dispatching && w.nodes[0].todo == []
    case UserForceClose(i, c) => i < |w.nodes| && UserCode(w.nodes[i]) && Owned(w, i, c) && w.conns[c].IsOpen()
    case UserShutdown(i, c) => i < |w.nodes| && UserCode(w.nodes[i]) && Owned(w, i, c) && w.conns[c].status == Connected
    case UserNotify(i, c) => i < |w.nodes| && UserCode(w.nodes[i]) && Owned(w, i, c) && w.conns[c].IsOpen()
    case UserPost(i, t) => i < |w.nodes| && t < |w.nodes| && UserCode(w.nodes[i])
  }

  function SetLoop(w: World, j: nat, l: L.Loop<Task>): World
    requires j < |w.nodes|
  {
    w.(nodes := w.nodes[j := w.nodes[j].(loop := l)])
  }

  function SetTodo(w: World, j: nat, todo: seq<Micro>): World
    requires j < |w.nodes|
  {
    w.(nodes := w.nodes[j := w.nodes[j].(todo := todo)])
  }

  function SetConn(w: World, c: ConnId, k: Conn): World {
    w.(conns := w.conns[c := k])
  }

  /** TcpConnection::handleClose in loop thread i: `removeConnection` runs in place in the base
      loop's thread and is posted to the base loop otherwise. */
  function HandleClose(w: World, i: nat, c: ConnId): World
    requires i < |w.nodes| && c in w.conns
  {
    var k := w.conns[c];
    var w1 := SetConn(w, c, k.(status := Disconnected, cbs := k.cbs + [false])).(ok := w.ok && k.IsOpen());
    SetTodo(w1, i, [if i == 0 then Erase(c) else Post(0, Remove(c))] + w.nodes[i].todo)
  }

  /** Dispatching starts by taking c out of `ready`. */
  function Taken(w: World, i: nat, c: ConnId): World
    requires i < |w.nodes|
  {
    w.(nodes := w.nodes[i := w.nodes[i].(ready := w.nodes[i].ready - {c})])
  }

  function ExecNext(w: World, i: nat): World
    requires i < |w.nodes| && w.nodes[i].todo != [] && ExecEnabled(w, i)
  {
    var n := w.nodes[i];
    var rest := n.todo[1..];
    match n.todo[0]
    case Post(t, task) =>
      if t == i then
        SetTodo(SetLoop(w, i, L.Next(n.loop, L.SelfPush(task))), i, if n.loop.working then [Signal(i)] + rest else rest)
      else
        SetTodo(SetLoop(w, t, L.Next(w.nodes[t].loop, L.Push(i, task))), i, [Signal(t)] + rest)
    case Signal(t) =>
      if t == i then
        SetTodo(SetLoop(w, i, L.Next(n.loop, L.SelfWake)), i, rest)
      else
        SetTodo(SetLoop(w, t, L.Next(w.nodes[t].loop, L.Wake(i))), i, rest)
    case Open(c) =>
      var k := w.conns[c];
      SetTodo(SetConn(w, c, k.(status := Connected, cbs := k.cbs + [true])), i, rest).(
        ok := w.ok && k.status == Connecting)
    case Erase(c) =>
      SetTodo(w, i, [Post(w.conns[c].owner, Destroy(c))] + rest).(flags := w.flags - {c}, ok := w.ok && c in w.flags)
    case Finish(c) =>
      var k := w.conns[c];
      var k1 := if k.status == Connected then k.(status := Disconnected, cbs := k.cbs + [false]) else k;
      SetTodo(SetConn(w, c, k1.(finished := true)), i, rest)
  }

  function TaskNext(w: World, i: nat, t: Task): World
    requires i < |w.nodes| && (t.ForceClose? ==> t.c in w.conns)
  {
    match t
    case Establish(c) => SetTodo(w, i, [Open(c)])
    case Remove(c) => SetTodo(w, i, [Erase(c)])
    case Destroy(c) => SetTodo(w, i, [Finish(c)])
    case ForceClose(c) => if w.conns[c].IsOpen() then HandleClose(w, i, c) else w
    case Notify(_) => w
    case Other => w
  }

  function Next(w: World, s: Step): World
    requires Enabled(w, s)
  {
    match s
    case LoopMove(i, m) =>
      var n := w.nodes[i];
      var active := if m.BeginTasks? then {} else n.active;
      w.(nodes := w.nodes[i := n.(loop := L.Next(n.loop, m), active := active)])
    case Poll(i, ready, chans) =>
      var n := w.nodes[i];
      w.(nodes := w.nodes[i := n.(loop := L.Next(n.loop, L.PollReturn(ready)), active := chans, ready := chans)])
    case Dispatch(i, c, closes) =>
      if closes then HandleClose(Taken(w, i, c), i, c) else Taken(w, i, c)
    case RunTask(i) =>
      var l := w.nodes[i].loop;
      TaskNext(SetLoop(w, i, L.Next(l, L.RunTask)), i, l.batch[l.ran])
    case Exec(i) => ExecNext(w, i)
    case Accept(c, owner) =>
      var w1 := SetConn(w, c, Conn(owner, Connecting, [], false)).(flags := w.flags + {c});
      SetTodo(w1, 0, [if owner == 0 then Open(c) else Post(owner, Establish(c))])
    case UserForceClose(i, c) =>
      var w1 := SetConn(w, c, w.conns[c].(status := Disconnecting));
      SetTodo(w1, i, [Post(i, ForceClose(c))] + w.nodes[i].todo)
    case UserShutdown(i, c) => SetConn(w, c, w.conns[c].(status := Disconnecting))
    case UserNotify(i, c) => SetTodo(w, i, [Post(i, Notify(c))] + w.nodes[i].todo)
    case UserPost(i, t) => SetTodo(w, i, [Post(t, Other)] + w.nodes[i].todo)
  }

  ghost predicate Legal(w: World, run: seq<Step>)
    decreases |run|
  {
    run == [] || (Enabled(w, run[0]) && Legal(Next(w, run[0]), run[1..]))
  }

  ghost function After(w: World, run: seq<Step>): World
    requires Legal(w, run)
    decreases |run|
  {
    if run == [] then w else After(Next(w, run[0]), run[1..])
  }

  // ---------------------------------------------------------------- who holds a connection

  predicate TaskNames(t: Task, c: ConnId) {
    !t.Other? && t.c == c
  }

  predicate MicroNames(m: Micro, c: ConnId) {
    match m
    case Post(_, t) => TaskNames(t, c)
    case Signal(_) => false
    case Open(x) => x == c
    case Erase(x) => x == c
    case Finish(x) => x == c
  }

  /** Queued tasks, the whole vector of the current batch (it lives until it is cleared) and
      the call stack hold shared pointers. */
  ghost predicate NodeHolds(n: Node, c: ConnId) {
    || (exists t :: t in n.loop.tasks && TaskNames(t, c))
    || (exists t :: t in n.loop.batch && TaskNames(t, c))
    || (exists m :: m in n.todo && MicroNames(m, c))
  }

  /** Some shared pointer to `c` exists: the object is not destroyed. */
  ghost predicate Held(w: World, c: ConnId) {
    c in w.flags || exists j :: 0 <= j < |w.nodes| && NodeHolds(w.nodes[j], c)
  }
}
