/**
 One connection of a server, with its buffers and callbacks as ConnSpec has them, inside the world of
 loops that ServerSpec has. A call of ConnSpec is a short run of ServerSpec: what the world sees of the
 connection changes in the same way, with as many closings as close callbacks.
 */
module Composition {
  import opened Lifecycle
  import opened Polling
  import Bytes
  import C = ConnSpec
  import L = LoopSpec
  import P = ServerProof
  import S = ServerSafety
  import W = ServerSpec

  /** What the server's world sees of a connection. */
  function Seen(s: C.Conn, owner: nat, finished: bool): W.Conn {
    W.Conn(owner, s.status, s.cbs, finished)
  }

  // ---------------------------------------------------------------- runs of the world

  lemma {:induction false} Appended(w: W.World, a: seq<W.Step>, b: seq<W.Step>)
    requires W.Legal(w, a) && W.Legal(W.After(w, a), b)
    ensures W.Legal(w, a + b) && W.After(w, a + b) == W.After(W.After(w, a), b)
    ensures Closings(w, a + b) == Closings(w, a) + Closings(W.After(w, a), b)
    decreases |a|
  {
    hide W.Next, W.Enabled, Closing;
    if a == [] {
      assert a + b == b;
    } else {
      assert (a + b)[1..] == a[1..] + b;
      Appended(W.Next(w, a[0]), a[1..], b);
    }
  }

  /** The step runs handleClose. */
  predicate Closing(w: W.World, s: W.Step)
    requires W.Enabled(w, s)
  {
    match s
    case Dispatch(_, _, closes) => closes
    case RunTask(i) =>
      var t := w.nodes[i].loop.batch[w.nodes[i].loop.ran];
      t.ForceClose? && w.conns[t.c].IsOpen()
    case _ => false
  }

  ghost function Closings(w: W.World, run: seq<W.Step>): nat
    requires W.Legal(w, run)
    decreases |run|
  {
    if run == [] then 0
    else (if Closing(w, run[0]) then 1 else 0) + Closings(W.Next(w, run[0]), run[1..])
  }

  lemma OneStep(w: W.World, s: W.Step)
    requires W.Enabled(w, s)
    ensures W.Legal(w, [s]) && W.After(w, [s]) == W.Next(w, s)
    ensures Closings(w, [s]) == if Closing(w, s) then 1 else 0
  {
    assert [s][1..] == [];
  }

  /** A batch is running, so that a push by the loop's own thread is followed by a wakeup. */
  predicate Working(w: W.World, i: nat) {
    i < |w.nodes| && w.nodes[i].loop.working
  }

  // ---------------------------------------------------------------- user code

  /** The push that queueInLoop makes on the caller's own loop, and the eventfd write while a batch runs. */
  function Pushes(i: nat, working: bool): seq<W.Step> {
    [W.Exec(i)] + if working then [W.Exec(i)] else []
  }

  /** A queued write-complete callback. */
  function NoteSteps(s: C.Conn, t: C.Conn, i: nat, c: W.ConnId, working: bool): seq<W.Step> {
    if t.notes != s.notes then [W.UserNotify(i, c)] + Pushes(i, working) else []
  }

  function UserSteps(s: C.Conn, u: C.User, i: nat, c: W.ConnId, working: bool): seq<W.Step> {
    var t := C.UserNext(s, u);
    (if t.forces != s.forces then [W.UserForceClose(i, c)] + Pushes(i, working)
     else if t.status != s.status then [W.UserShutdown(i, c)] else [])
    + NoteSteps(s, t, i, c, working)
  }

  function ScriptSteps(s: C.Conn, us: seq<C.User>, i: nat, c: W.ConnId, working: bool): seq<W.Step>
    decreases |us|
  {
    if us == [] then []
    else UserSteps(s, us[0], i, c, working) + ScriptSteps(C.UserNext(s, us[0]), us[1..], i, c, working)
  }

  /** Loop thread i is in user code and sees connection c in state s. */
  ghost predicate InCode(w: W.World, s: C.Conn, i: nat, c: W.ConnId, working: bool) {
    && C.Inv(s) && i < |w.nodes| && W.UserCode(w.nodes[i])
    && w.nodes[i].loop.working == working && !w.nodes[i].loop.selfOwing
    && c in w.conns && w.conns[c] == Seen(s, i, w.conns[c].finished)
  }

  /** The run is user code of connection c in thread i: it leads to state t and closes nothing. */
  ghost predicate UserRun(w: W.World, run: seq<W.Step>, t: C.Conn, i: nat, c: W.ConnId, working: bool) {
    && W.Legal(w, run) && Closings(w, run) == 0
    && InCode(W.After(w, run), t, i, c, working)
    && c in w.conns && W.After(w, run).conns == w.conns[c := Seen(t, i, w.conns[c].finished)]
  }

  lemma UserRunsOn(w: W.World, a: seq<W.Step>, s: C.Conn, b: seq<W.Step>, t: C.Conn, i: nat, c: W.ConnId, working: bool)
    requires UserRun(w, a, s, i, c, working) && UserRun(W.After(w, a), b, t, i, c, working)
    ensures UserRun(w, a + b, t, i, c, working)
  {
    Appended(w, a, b);
  }

  lemma NoSteps(w: W.World, s: C.Conn, t: C.Conn, i: nat, c: W.ConnId, working: bool)
    requires InCode(w, s, i, c, working) && C.Inv(t) && t.status == s.status && t.cbs == s.cbs
    ensures UserRun(w, [], t, i, c, working)
  {
  }

  /** A post at the head of the call stack goes to the loop's own queue, and the stack is as before it. */
  lemma PushesRun(w: W.World, task: W.Task, rest: seq<W.Micro>, i: nat, working: bool)
    requires i < |w.nodes| && w.nodes[i].todo == [W.Post(i, task)] + rest && L.InUserCode(w.nodes[i].loop)
    requires w.nodes[i].loop.working == working
    ensures W.Legal(w, Pushes(i, working)) && Closings(w, Pushes(i, working)) == 0
    ensures var v := W.After(w, Pushes(i, working));
            && v.conns == w.conns && |v.nodes| == |w.nodes| && v.nodes[i].todo == rest
            && v.nodes[i].loop.pc == w.nodes[i].loop.pc
            && v.nodes[i].loop.working == working && !v.nodes[i].loop.selfOwing
  {
    var v := W.Next(w, W.Exec(i));
    assert w.nodes[i].todo[1..] == rest;
    OneStep(w, W.Exec(i));
    if working {
      assert v.nodes[i].todo == [W.Signal(i)] + rest && v.nodes[i].todo[1..] == rest;
      OneStep(v, W.Exec(i));
      Appended(w, [W.Exec(i)], [W.Exec(i)]);
    } else {
      assert Pushes(i, working) == [W.Exec(i)];
    }
  }

  /** A call that posts to the own loop, up to the end of its queueInLoop. */
  lemma CallRuns(w: W.World, step: W.Step, task: W.Task, t: C.Conn, i: nat, c: W.ConnId, working: bool)
    requires i < |w.nodes| && W.UserCode(w.nodes[i]) && c in w.conns && C.Inv(t)
    requires w.nodes[i].loop.working == working && !w.nodes[i].loop.selfOwing
    requires W.Enabled(w, step) && !Closing(w, step)
    requires var v := W.Next(w, step);
             && |v.nodes| == |w.nodes| && v.nodes[i] == w.nodes[i].(todo := [W.Post(i, task)] + w.nodes[i].todo)
             && v.conns == w.conns[c := Seen(t, i, w.conns[c].finished)]
    ensures UserRun(w, [step] + Pushes(i, working), t, i, c, working)
  {
    hide C.Inv, W.Next, Closing;
    var v := W.Next(w, step);
    OneStep(w, step);
    PushesRun(v, task, w.nodes[i].todo, i, working);
    Appended(w, [step], Pushes(i, working));
  }

  lemma NoteRuns(w: W.World, s: C.Conn, t: C.Conn, i: nat, c: W.ConnId, working: bool)
    requires InCode(w, s, i, c, working) && C.Inv(t) && t.status == s.status && t.cbs == s.cbs
    requires t.notes != s.notes ==> s.IsOpen()
    ensures UserRun(w, NoteSteps(s, t, i, c, working), t, i, c, working)
  {
    if t.notes != s.notes {
      assert w.conns[c := Seen(t, i, w.conns[c].finished)] == w.conns;
      CallRuns(w, W.UserNotify(i, c), W.Notify(c), t, i, c, working);
    } else {
      NoSteps(w, s, t, i, c, working);
    }
  }

  lemma UserRuns(w: W.World, s: C.Conn, u: C.User, i: nat, c: W.ConnId, working: bool)
    requires InCode(w, s, i, c, working)
    ensures UserRun(w, UserSteps(s, u, i, c, working), C.UserNext(s, u), i, c, working)
  {
    hide C.Inv, C.SendInLoop, Apply;
    var t := C.UserNext(s, u);
    C.UserKeeps(s, u);
    if u.ForceClose? && s.IsOpen() {
      CallRuns(w, W.UserForceClose(i, c), W.ForceClose(c), t, i, c, working);
      assert UserSteps(s, u, i, c, working) == [W.UserForceClose(i, c)] + Pushes(i, working);
    } else if u.Shutdown? && s.status == Connected {
      OneStep(w, W.UserShutdown(i, c));
      assert UserSteps(s, u, i, c, working) == [W.UserShutdown(i, c)];
    } else {
      SendsOnly(s, u);
      NoteRuns(w, s, t, i, c, working);
      assert UserSteps(s, u, i, c, working) == NoteSteps(s, t, i, c, working);
    }
  }

  /** Calls that change neither the status nor the queued closes; only a connected one can note. */
  lemma SendsOnly(s: C.Conn, u: C.User)
    requires C.Inv(s) && !(u.ForceClose? && s.IsOpen()) && !(u.Shutdown? && s.status == Connected)
    ensures var t := C.UserNext(s, u);
            && t.status == s.status && t.cbs == s.cbs && t.forces == s.forces
            && (t.notes != s.notes ==> s.IsOpen())
  {
    hide Apply, C.Inv, C.SendInLoop;
    match u
    case Send(data, wrote) => if s.status == Connected { SendSteady(s, data, wrote); }
    case SendInput(wrote) => if s.status == Connected { SendSteady(s, s.inq, wrote); }
    case _ =>
  }

  lemma {:induction false} ScriptRuns(w: W.World, s: C.Conn, us: seq<C.User>, i: nat, c: W.ConnId, working: bool)
    requires InCode(w, s, i, c, working)
    ensures UserRun(w, ScriptSteps(s, us, i, c, working), C.Users(s, us), i, c, working)
    decreases |us|
  {
    if us == [] {
      NoSteps(w, s, s, i, c, working);
    } else {
      hide UserSteps, C.UserNext, C.Inv;
      UserRuns(w, s, us[0], i, c, working);
      var v := W.After(w, UserSteps(s, us[0], i, c, working));
      ScriptRuns(v, C.UserNext(s, us[0]), us[1..], i, c, working);
      UserRunsOn(w, UserSteps(s, us[0], i, c, working), C.UserNext(s, us[0]),
                 ScriptSteps(C.UserNext(s, us[0]), us[1..], i, c, working), C.Users(s, us), i, c, working);
    }
  }

  // ---------------------------------------------------------------- calls

  /** Where a call runs in the world. */
  predicate At(w: W.World, call: C.Call, i: nat, c: W.ConnId) {
    && i < |w.nodes| && c in w.conns
    && var n := w.nodes[i];
       match call
       case Establish(_) => n.todo != [] && n.todo[0] == W.Open(c)
       case OnEvent(_, _) => n.todo == [] && c in n.ready
       case ByUser(_) => W.UserCode(n)
       case Defer(_) => true
       case RunDeferred(_) => W.UserCode(n) && n.loop.pc == L.Running
       case RunForceClose(_) =>
         n.todo == [] && L.Enabled(n.loop, L.RunTask) && n.loop.batch[n.loop.ran] == W.ForceClose(c)
       case Destroy(_) => n.todo != [] && n.todo[0] == W.Finish(c)
  }

  /** The event's handlers run handleClose. */
  predicate EventCloses(rev: set<Event>, io: C.Io) {
    (Hup in rev && In !in rev) || (rev * {In, Pri, RdHup} != {} && io.first.N() == 0)
  }

  /** An established connection, before its up callback runs. */
  function Up(s: C.Conn): C.Conn {
    s.(status := Connected, chan := Apply(s.chan, EnableReading), cbs := s.cbs + [true])
  }

  /** The user code of an event that closes nothing. */
  function HandlerSteps(s: C.Conn, rev: set<Event>, io: C.Io, i: nat, c: W.ConnId, working: bool): seq<W.Step> {
    var gotBytes := rev * {In, Pri, RdHup} != {} && io.first.N() > 0;
    var s2 := C.AfterRead(s, rev, io);
    (if gotBytes then ScriptSteps(C.ReadIn(s, io), io.onMessage, i, c, working) else [])
    + (if Out in rev then NoteSteps(s2, C.HandleWrite(s2, io.wrote), i, c, working) else [])
  }

  function EventSteps(s: C.Conn, rev: set<Event>, io: C.Io, i: nat, c: W.ConnId, working: bool): seq<W.Step> {
    if EventCloses(rev, io) then [W.Dispatch(i, c, true)]
    else [W.Dispatch(i, c, false)] + HandlerSteps(s, rev, io, i, c, working)
  }

  /** The run of the world that a call is. */
  function Steps(s: C.Conn, call: C.Call, i: nat, c: W.ConnId, working: bool): seq<W.Step>
    requires C.Enabled(s, call)
  {
    match call
    case Establish(onUp) => [W.Exec(i)] + ScriptSteps(Up(s), onUp, i, c, working)
    case OnEvent(rev, io) => EventSteps(s, rev, io, i, c, working)
    case ByUser(u) => UserSteps(s, u, i, c, working)
    case Defer(_) => []
    case RunDeferred(_) => NoteSteps(s, C.Next(s, call), i, c, working)
    case RunForceClose(_) => [W.RunTask(i)]
    case Destroy(_) => [W.Exec(i)]
  }

  /** What a call's run of the world does. */
  ghost predicate Refines(w: W.World, run: seq<W.Step>, s: C.Conn, t: C.Conn, i: nat, c: W.ConnId, finished: bool) {
    && W.Legal(w, run)
    && W.After(w, run).conns == w.conns[c := Seen(t, i, finished)]
    && t.closes == s.closes + Closings(w, run) && Closings(w, run) <= 1
  }

  /** Between two calls. */
  ghost predicate Coupled(w: W.World, s: C.Conn, i: nat, c: W.ConnId) {
    && P.Inv(w) && C.Inv(s) && i < |w.nodes| && c in w.conns
    && w.conns[c] == Seen(s, i, w.conns[c].finished)
  }

  lemma CoupledInCode(w: W.World, s: C.Conn, i: nat, c: W.ConnId)
    requires Coupled(w, s, i, c) && W.UserCode(w.nodes[i])
    ensures InCode(w, s, i, c, Working(w, i))
  {
    hide C.Inv;
    assert P.NodeInv(w, i);
  }

  lemma EstablishRefines(w: W.World, s: C.Conn, onUp: seq<C.User>, i: nat, c: W.ConnId)
    requires Coupled(w, s, i, c) && C.Enabled(s, C.Establish(onUp)) && At(w, C.Establish(onUp), i, c)
    ensures Refines(w, Steps(s, C.Establish(onUp), i, c, Working(w, i)), s, C.Next(s, C.Establish(onUp)), i, c,
                    w.conns[c].finished)
  {
    hide C.Inv, P.Inv, C.Users, InCode;
    C.EstablishKeeps(s, onUp);
    C.UsersKeep(Up(s), onUp);
    OneStep(w, W.Exec(i));
    OpenEntersUserCode(w, s, i, c);
    var v := W.Next(w, W.Exec(i));
    ScriptRuns(v, Up(s), onUp, i, c, Working(w, i));
    Appended(w, [W.Exec(i)], ScriptSteps(Up(s), onUp, i, c, Working(w, i)));
  }

  lemma OpenEntersUserCode(w: W.World, s: C.Conn, i: nat, c: W.ConnId)
    requires P.Inv(w) && i < |w.nodes| && c in w.conns && w.conns[c] == Seen(s, i, w.conns[c].finished)
    requires w.nodes[i].todo != [] && w.nodes[i].todo[0] == W.Open(c) && C.Inv(Up(s))
    ensures W.Enabled(w, W.Exec(i)) && InCode(W.Next(w, W.Exec(i)), Up(s), i, c, Working(w, i))
    ensures W.Next(w, W.Exec(i)).conns == w.conns[c := Seen(Up(s), i, w.conns[c].finished)]
  {
    hide C.Inv;
    assert P.NodeInv(w, i);
    var rest := w.nodes[i].todo[1..];
    assert rest != [] ==> rest[0] == w.nodes[i].todo[1];
  }

  lemma DispatchEntersUserCode(w: W.World, i: nat, c: W.ConnId, closes: bool)
    requires P.Inv(w) && i < |w.nodes| && w.nodes[i].todo == [] && c in w.nodes[i].ready
    ensures W.Enabled(w, W.Dispatch(i, c, closes))
    ensures !closes ==> W.UserCode(W.Next(w, W.Dispatch(i, c, closes)).nodes[i])
    ensures !w.nodes[i].loop.selfOwing
    ensures w.conns[c].IsOpen()
  {
    assert P.NodeInv(w, i);
  }

  /** A closing event changes what the world sees as handleClose does, whatever its callbacks do. */
  lemma ClosingEvent(s: C.Conn, rev: set<Event>, io: C.Io)
    requires C.Inv(s) && C.Enabled(s, C.OnEvent(rev, io)) && !C.HangupClash(rev, io.first) && EventCloses(rev, io)
    ensures var t := C.HandleEvent(s, rev, io);
            s.IsOpen() && t.status == Disconnected && t.cbs == s.cbs + [false] && t.closes == s.closes + 1
  {
    hide C.HandleRead, C.Users;
    C.HangupKeeps(s, rev, io);
    C.ReadBits(rev);
    var s1 := C.AfterHangup(s, rev, io);
    C.ReadKeeps(s1, io);
    C.EventKeeps(s, rev, io);
    if Hup in rev && In !in rev {
      Closes(s, io.onDown);
      ReadsClosed(s1, io);
    } else {
      ReadCloses(s, io);
    }
    WritesNothing(C.AfterRead(s1, rev, io), io.wrote);
  }

  lemma Closes(s: C.Conn, onDown: seq<C.User>)
    requires C.Inv(s) && s.IsOpen()
    ensures var t := C.HandleClose(s, onDown);
            C.Inv(t) && t.status == Disconnected && t.cbs == s.cbs + [false] && t.closes == s.closes + 1
  {
    C.CloseKeeps(s, onDown);
    C.UsersKeep(C.CloseDown(s), onDown);
    C.UsersOlder(C.CloseDown(s), onDown);
  }

  lemma ReadCloses(s: C.Conn, io: C.Io)
    requires C.Inv(s) && s.IsOpen() && io.first.N() == 0
    ensures var t := C.HandleRead(s, io);
            C.Inv(t) && t.status == Disconnected && t.cbs == s.cbs + [false] && t.closes == s.closes + 1
  {
    C.ReadInKeeps(s, io);
    Closes(C.ReadIn(s, io), io.onDown);
  }

  lemma ReadsClosed(s: C.Conn, io: C.Io)
    requires C.Inv(s) && s.status == Disconnected
    ensures io.first.N() != 0 ==>
              var t := C.HandleRead(s, io);
              C.Inv(t) && t.status == Disconnected && t.cbs == s.cbs && t.closes == s.closes
  {
    C.ReadInKeeps(s, io);
    C.UsersKeep(C.ReadIn(s, io), io.onMessage);
    C.UsersOlder(C.ReadIn(s, io), io.onMessage);
  }

  /** The drain handler changes neither the status nor the callbacks, and notes on open ones only. */
  lemma WritesNothing(s: C.Conn, wrote: int)
    requires C.Inv(s)
    ensures var t := C.HandleWrite(s, wrote);
            && t.status == s.status && t.cbs == s.cbs && t.closes == s.closes
            && (t.notes != s.notes ==> s.IsOpen())
  {
    hide Apply;
  }

  lemma ClosingEventRefines(w: W.World, s: C.Conn, rev: set<Event>, io: C.Io, i: nat, c: W.ConnId)
    requires Coupled(w, s, i, c) && C.Enabled(s, C.OnEvent(rev, io)) && At(w, C.OnEvent(rev, io), i, c)
    requires !C.HangupClash(rev, io.first) && EventCloses(rev, io)
    ensures Refines(w, EventSteps(s, rev, io, i, c, Working(w, i)), s, C.HandleEvent(s, rev, io), i, c,
                    w.conns[c].finished)
  {
    hide C.Inv, P.Inv;
    DispatchEntersUserCode(w, i, c, true);
    OneStep(w, W.Dispatch(i, c, true));
    ClosingEvent(s, rev, io);
  }

  lemma QuietEventRefines(w: W.World, s: C.Conn, rev: set<Event>, io: C.Io, i: nat, c: W.ConnId)
    requires Coupled(w, s, i, c) && C.Enabled(s, C.OnEvent(rev, io)) && At(w, C.OnEvent(rev, io), i, c)
    requires !EventCloses(rev, io)
    ensures Refines(w, EventSteps(s, rev, io, i, c, Working(w, i)), s, C.HandleEvent(s, rev, io), i, c,
                    w.conns[c].finished)
  {
    hide C.Inv, P.Inv, C.HandleEvent, HandlerSteps;
    DispatchEntersUserCode(w, i, c, false);
    OneStep(w, W.Dispatch(i, c, false));
    var v := W.Next(w, W.Dispatch(i, c, false));
    assert InCode(v, s, i, c, Working(w, i));
    QuietHandlers(v, s, rev, io, i, c, Working(w, i));
    Appended(w, [W.Dispatch(i, c, false)], HandlerSteps(s, rev, io, i, c, Working(w, i)));
  }

  lemma QuietHandlers(v: W.World, s: C.Conn, rev: set<Event>, io: C.Io, i: nat, c: W.ConnId, working: bool)
    requires InCode(v, s, i, c, working) && !EventCloses(rev, io)
    ensures UserRun(v, HandlerSteps(s, rev, io, i, c, working), C.HandleEvent(s, rev, io), i, c, working)
    ensures C.HandleEvent(s, rev, io).closes == s.closes
  {
    hide C.Inv, C.HandleWrite, C.HandleRead, C.AfterRead, InCode, W.Legal, W.After;
    QuietRead(v, s, rev, io, i, c, working);
    var gotBytes := rev * {In, Pri, RdHup} != {} && io.first.N() > 0;
    var script := if gotBytes then ScriptSteps(C.ReadIn(s, io), io.onMessage, i, c, working) else [];
    var s2 := C.AfterRead(s, rev, io);
    QuietWrite(W.After(v, script), s2, rev, io, i, c, working);
    var t := C.HandleEvent(s, rev, io);
    var note := if Out in rev then NoteSteps(s2, C.HandleWrite(s2, io.wrote), i, c, working) else [];
    UserRunsOn(v, script, s2, note, t, i, c, working);
  }

  lemma QuietRead(v: W.World, s: C.Conn, rev: set<Event>, io: C.Io, i: nat, c: W.ConnId, working: bool)
    requires InCode(v, s, i, c, working) && !EventCloses(rev, io)
    ensures var gotBytes := rev * {In, Pri, RdHup} != {} && io.first.N() > 0;
            var s2 := C.AfterRead(s, rev, io);
            s2.closes == s.closes &&
            UserRun(v, if gotBytes then ScriptSteps(C.ReadIn(s, io), io.onMessage, i, c, working) else [], s2, i, c,
                    working)
  {
    C.ReadInKeeps(s, io);
    var s1 := C.ReadIn(s, io);
    if rev * {In, Pri, RdHup} != {} && io.first.N() > 0 {
      C.UsersKeep(s1, io.onMessage);
      ScriptRuns(v, s1, io.onMessage, i, c, working);
    } else {
      NoSteps(v, s, C.AfterRead(s, rev, io), i, c, working);
    }
  }

  lemma QuietWrite(u: W.World, s: C.Conn, rev: set<Event>, io: C.Io, i: nat, c: W.ConnId, working: bool)
    requires InCode(u, s, i, c, working)
    ensures var t := if Out in rev then C.HandleWrite(s, io.wrote) else s;
            && t.closes == s.closes
            && UserRun(u, if Out in rev then NoteSteps(s, t, i, c, working) else [], t, i, c, working)
  {
    var t := if Out in rev then C.HandleWrite(s, io.wrote) else s;
    if Out in rev {
      WritesNothing(s, io.wrote);
      assert s.status != Connecting || t == s;
      if s.status != Connecting { C.WriteKeeps(s, io.wrote); }
      NoteRuns(u, s, t, i, c, working);
    } else {
      NoSteps(u, s, s, i, c, working);
    }
  }

  lemma ForceRefines(w: W.World, s: C.Conn, onDown: seq<C.User>, i: nat, c: W.ConnId)
    requires Coupled(w, s, i, c) && C.Enabled(s, C.RunForceClose(onDown)) && At(w, C.RunForceClose(onDown), i, c)
    ensures Refines(w, [W.RunTask(i)], s, C.Next(s, C.RunForceClose(onDown)), i, c, w.conns[c].finished)
  {
    hide P.Inv, C.HandleClose;
    C.ForceKeeps(s, onDown);
    OneStep(w, W.RunTask(i));
    var s1 := s.(forces := s.forces - 1);
    if s1.IsOpen() {
      Closes(s1, onDown);
    } else {
      assert w.conns[c := w.conns[c]] == w.conns;
    }
  }

  /** connectionDestroyed only ever runs on a closed connection. */
  lemma DestroyRefines(w: W.World, s: C.Conn, onLast: seq<C.User>, i: nat, c: W.ConnId)
    requires Coupled(w, s, i, c) && C.Enabled(s, C.Destroy(onLast)) && At(w, C.Destroy(onLast), i, c)
    ensures s.status == Disconnected
    ensures Refines(w, [W.Exec(i)], s, C.Next(s, C.Destroy(onLast)), i, c, true)
  {
    P.FinishConns(w, i);
    hide P.Inv, C.Inv;
    OneStep(w, W.Exec(i));
  }

  /** A run of user code refines a call that makes no close callback. */
  lemma UserCodeRefines(w: W.World, run: seq<W.Step>, s: C.Conn, t: C.Conn, i: nat, c: W.ConnId, working: bool)
    requires UserRun(w, run, t, i, c, working) && t.closes == s.closes
    ensures Refines(w, run, s, t, i, c, w.conns[c].finished)
  {
  }

  lemma DeferredRefines(w: W.World, s: C.Conn, wrote: int, i: nat, c: W.ConnId)
    requires Coupled(w, s, i, c) && C.Enabled(s, C.RunDeferred(wrote)) && At(w, C.RunDeferred(wrote), i, c)
    ensures Refines(w, Steps(s, C.RunDeferred(wrote), i, c, Working(w, i)), s, C.Next(s, C.RunDeferred(wrote)), i, c,
                    w.conns[c].finished)
  {
    C.DeferredKeeps(s, wrote);
    var t := C.Next(s, C.RunDeferred(wrote));
    SendSteady(s.(deferred := s.deferred[1..]), s.deferred[0], wrote);
    hide P.Inv, C.Inv, C.SendInLoop;
    CoupledInCode(w, s, i, c);
    NoteRuns(w, s, t, i, c, Working(w, i));
    UserCodeRefines(w, NoteSteps(s, t, i, c, Working(w, i)), s, t, i, c, Working(w, i));
  }

  lemma SendSteady(s: C.Conn, data: seq<Bytes.byte>, wrote: int)
    requires s.status != Connecting
    ensures var t := C.SendInLoop(s, data, wrote);
            && t.status == s.status && t.cbs == s.cbs && t.closes == s.closes && t.forces == s.forces
            && (t.notes != s.notes ==> s.IsOpen())
  {
    hide Apply;
  }

  /** A send from another thread is nothing that the world sees yet. */
  lemma DeferRefines(w: W.World, s: C.Conn, data: seq<Bytes.byte>, i: nat, c: W.ConnId)
    requires Coupled(w, s, i, c) && C.Enabled(s, C.Defer(data))
    ensures Refines(w, [], s, C.Next(s, C.Defer(data)), i, c, w.conns[c].finished)
  {
    assert w.conns[c := w.conns[c]] == w.conns;
  }

  /** Every safe call of a connection is a run of the server's world from where the call is made: user
      steps and at most one handleClose. The world's view of the connection follows, no other connection
      changes, and the close callback is made once for each handleClose. */
  lemma CallRefines(w: W.World, s: C.Conn, call: C.Call, i: nat, c: W.ConnId)
    requires Coupled(w, s, i, c) && C.Enabled(s, call) && C.Safe(call) && At(w, call, i, c)
    ensures call.Destroy? ==> s.status == Disconnected
    ensures Refines(w, Steps(s, call, i, c, Working(w, i)), s, C.Next(s, call), i, c,
                    w.conns[c].finished || call.Destroy?)
    ensures Coupled(W.After(w, Steps(s, call, i, c, Working(w, i))), C.Next(s, call), i, c)
  {
    C.CallKeeps(s, call);
    hide C.Inv, P.Inv, EventSteps, UserSteps, C.HandleEvent, C.UserNext, C.SendInLoop, C.HandleClose, C.Users, Closings,
         W.Legal, W.After;
    match call {
      case Establish(onUp) => EstablishRefines(w, s, onUp, i, c);
      case OnEvent(rev, io) =>
        if EventCloses(rev, io) {
          ClosingEventRefines(w, s, rev, io, i, c);
        } else {
          QuietEventRefines(w, s, rev, io, i, c);
        }
      case ByUser(u) =>
        C.UserKeeps(s, u);
        CoupledInCode(w, s, i, c);
        UserRuns(w, s, u, i, c, Working(w, i));
        UserCodeRefines(w, UserSteps(s, u, i, c, Working(w, i)), s, C.UserNext(s, u), i, c, Working(w, i));
      case Defer(data) => DeferRefines(w, s, data, i, c);
      case RunDeferred(wrote) => DeferredRefines(w, s, wrote, i, c);
      case RunForceClose(onDown) => ForceRefines(w, s, onDown, i, c);
      case Destroy(onLast) => DestroyRefines(w, s, onLast, i, c);
    }
    StaysCoupled(w, s, Steps(s, call, i, c, Working(w, i)), C.Next(s, call), i, c,
                 w.conns[c].finished || call.Destroy?);
  }

  lemma StaysCoupled(w: W.World, s: C.Conn, run: seq<W.Step>, t: C.Conn, i: nat, c: W.ConnId, finished: bool)
    requires Coupled(w, s, i, c) && C.Inv(t) && Refines(w, run, s, t, i, c, finished)
    ensures Coupled(W.After(w, run), t, i, c)
  {
    hide C.Inv, P.Inv;
    S.RunKept(w, run);
    AfterNodes(w, run);
  }

  lemma {:induction false} AfterNodes(w: W.World, run: seq<W.Step>)
    requires W.Legal(w, run)
    ensures |W.After(w, run).nodes| == |w.nodes|
    decreases |run|
  {
    if run != [] {
      AfterNodes(W.Next(w, run[0]), run[1..]);
    }
  }

  // ---------------------------------------------------------------- joint runs

  /** A step of the world that leaves connection c's own fields alone, or a call on connection c. */
  datatype Move = Elsewhere(step: W.Step) | Call(call: C.Call)

  ghost predicate CanMove(w: W.World, s: C.Conn, i: nat, c: W.ConnId, m: Move) {
    match m
    case Elsewhere(step) =>
      && W.Enabled(w, step) && c in w.conns
      && c in W.Next(w, step).conns && W.Next(w, step).conns[c] == w.conns[c]
    case Call(call) => C.Enabled(s, call) && C.Safe(call) && At(w, call, i, c)
  }

  ghost function WorldAfter(w: W.World, s: C.Conn, i: nat, c: W.ConnId, m: Move): W.World
    requires CanMove(w, s, i, c, m)
  {
    match m
    case Elsewhere(step) => W.Next(w, step)
    case Call(call) =>
      var run := Steps(s, call, i, c, Working(w, i));
      if W.Legal(w, run) then W.After(w, run) else w
  }

  function ConnAfter(s: C.Conn, m: Move): C.Conn
    requires m.Call? ==> C.Enabled(s, m.call)
  {
    match m case Elsewhere(_) => s case Call(call) => C.Next(s, call)
  }

  ghost predicate JointLegal(w: W.World, s: C.Conn, i: nat, c: W.ConnId, ms: seq<Move>)
    decreases |ms|
  {
    ms == [] || (CanMove(w, s, i, c, ms[0])
                 && JointLegal(WorldAfter(w, s, i, c, ms[0]), ConnAfter(s, ms[0]), i, c, ms[1..]))
  }

  ghost function JointAfter(w: W.World, s: C.Conn, i: nat, c: W.ConnId, ms: seq<Move>): (W.World, C.Conn)
    requires JointLegal(w, s, i, c, ms)
    decreases |ms|
  {
    if ms == [] then (w, s)
    else JointAfter(WorldAfter(w, s, i, c, ms[0]), ConnAfter(s, ms[0]), i, c, ms[1..])
  }

  lemma MoveKeeps(w: W.World, s: C.Conn, i: nat, c: W.ConnId, m: Move)
    requires Coupled(w, s, i, c) && C.HandedOff(s) && CanMove(w, s, i, c, m)
    ensures Coupled(WorldAfter(w, s, i, c, m), ConnAfter(s, m), i, c) && C.HandedOff(ConnAfter(s, m))
  {
    hide C.Inv, P.Inv, Steps, At, C.Next, C.Enabled, C.Safe, W.Next, W.Enabled;
    match m
    case Elsewhere(step) =>
      S.StepKept(w, step);
      AfterNodes(w, [step]);
      OneStep(w, step);
    case Call(call) =>
      CallRefines(w, s, call, i, c);
      C.CallHandsOff(s, call);
  }

  /** In every joint run of the server's threads and of one of its connections, from the acceptance of
      the connection on: the world sees the connection's own status and callbacks, both invariants
      hold, and the close callback, which starts the hand-off, has been made exactly once if the
      connection is closed and not at all otherwise. That connectionDestroyed comes late is no
      assumption here: the hand-off sees to it. */
  lemma {:induction false} OneHandOff(w: W.World, s: C.Conn, i: nat, c: W.ConnId, ms: seq<Move>)
    requires Coupled(w, s, i, c) && C.HandedOff(s) && JointLegal(w, s, i, c, ms)
    ensures var (v, t) := JointAfter(w, s, i, c, ms); Coupled(v, t, i, c) && C.HandedOff(t)
    decreases |ms|
  {
    if ms != [] {
      MoveKeeps(w, s, i, c, ms[0]);
      OneHandOff(WorldAfter(w, s, i, c, ms[0]), ConnAfter(s, ms[0]), i, c, ms[1..]);
    }
  }

  /** A connection that has just been accepted is coupled to a new connection object. */
  lemma AcceptCouples(w: W.World, c: W.ConnId, owner: nat, notify: bool)
    requires P.Inv(w) && W.Enabled(w, W.Accept(c, owner))
    ensures Coupled(W.Next(w, W.Accept(c, owner)), C.Init(notify), owner, c) && C.HandedOff(C.Init(notify))
  {
    S.StepKept(w, W.Accept(c, owner));
    C.InitInv(notify);
  }
}
