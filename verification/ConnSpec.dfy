/** One connection in its loop thread, as src/net/TcpConnection.cpp has it. */
module ConnSpec {
  import opened Bytes
  import opened BufferSpec
  import opened Lifecycle
  import opened Polling

  // Four states, output that is written at once or buffered, a drain handler, and callbacks that call back
  // into the connection. Every kernel answer and every callback script is arbitrary.

  datatype Mark = Mark(written: nat, accepted: nat)

  /** `received`, `consumed`, `written` and `accepted` are histories: what readv delivered, what user
      code took out of the input buffer, what the kernel took, and the payloads of all sendInLoop
      calls that ran before Disconnected. `deferred` holds the payloads that other threads sent,
      `forces` counts queued forceCloseInLoop tasks, `notes` records each queued write-complete
      callback by the numbers of bytes written and accepted at that time, `closes` counts close
      callbacks. */
  datatype Conn = Conn(
    status: Status, chan: Interest, inq: seq<byte>, outq: seq<byte>,
    received: seq<byte>, consumed: seq<byte>, written: seq<byte>, accepted: seq<byte>,
    deferred: seq<seq<byte>>, forces: nat, notify: bool, notes: seq<Mark>,
    cbs: seq<bool>, closes: nat, halfClosed: bool, ok: bool)
  {
    predicate IsOpen() { status in {Connected, Disconnecting} }
    /** No assertion of the connection or of its poller has failed. */
    predicate Fine() { ok && chan.ok }
  }

  function Init(notify: bool): Conn {
    Conn(Connecting, Idle(), [], [], [], [], [], [], [], 0, notify, [], [], 0, false, true)
  }

  /** What a write of len bytes may return: -1, or a count of at most len. */
  function Clip(wrote: int, len: nat): (n: int)
    ensures -1 <= n <= len
  {
    if wrote < 0 then -1 else if wrote <= len then wrote else len
  }

  function Note(s: Conn): Conn {
    if s.notify then s.(notes := s.notes + [Mark(|s.written|, |s.accepted|)]) else s
  }

  predicate Direct(s: Conn) {
    !s.chan.IsWriting() && s.outq == []
  }

  /** How many bytes of a payload the kernel takes at once: none while earlier output is outstanding. */
  function TakenAtOnce(s: Conn, len: nat, wrote: int): (n: nat)
    ensures n <= len
  {
    if Direct(s) && Clip(wrote, len) > 0 then Clip(wrote, len) else 0
  }

  /** The rest of a payload goes to the output buffer, and the channel waits for write events. */
  function BufferRest(s: Conn, rest: seq<byte>): Conn {
    if rest == [] then s
    else s.(outq := s.outq + rest, chan := if s.chan.IsWriting() then s.chan else Apply(s.chan, EnableWriting))
  }

  /** sendInLoop: write directly when nothing is outstanding, buffer what is left. */
  function SendInLoop(s: Conn, data: seq<byte>, wrote: int): Conn {
    if s.status == Disconnected then s
    else
      var n := TakenAtOnce(s, |data|, wrote);
      var s1 := s.(written := s.written + data[..n], accepted := s.accepted + data);
      var s2 := if Direct(s) && Clip(wrote, |data|) == |data| then Note(s1) else s1;
      BufferRest(s2, data[n..])
  }

  /** What user code does to a connection in its loop thread. */
  datatype User =
    | Send(data: seq<byte>, wrote: int)   // send(data, len) and send(string)
    | SendInput(result: int)              // send(*buf): everything in the input buffer
    | Consume(n: nat)                     // retrieve from the input buffer
    | Shutdown
    | ForceClose

  function Take(s: Conn, n: nat): Conn {
    var k := if n <= |s.inq| then n else |s.inq|;
    s.(inq := s.inq[k..], consumed := s.consumed + s.inq[..k])
  }

  function UserNext(s: Conn, u: User): Conn {
    match u
    case Send(data, wrote) => if s.status == Connected then SendInLoop(s, data, wrote) else s
    case SendInput(wrote) =>
      if s.status == Connected then Take(SendInLoop(s, s.inq, wrote), |s.inq|) else s
    case Consume(n) => Take(s, n)
    case Shutdown =>
      if s.status == Connected then
        s.(status := Disconnecting, halfClosed := s.halfClosed || !s.chan.IsWriting())
      else s
    case ForceClose =>
      if s.IsOpen() then s.(status := Disconnecting, forces := s.forces + 1) else s
  }

  function Users(s: Conn, us: seq<User>): Conn
    decreases |us|
  {
    if us == [] then s else Users(UserNext(s, us[0]), us[1..])
  }

  /** handleClose up to and including the entry of the down callback. */
  function CloseDown(s: Conn): Conn {
    s.(ok := s.ok && s.IsOpen(), status := Disconnected, chan := Apply(s.chan, DisableAll), cbs := s.cbs + [false])
  }

  /** handleClose: the down callback runs to its end before the close callback. */
  function HandleClose(s: Conn, onDown: seq<User>): Conn {
    var t := Users(CloseDown(s), onDown);
    t.(closes := t.closes + 1)
  }

  /** The kernel's answers during one event, and what the callbacks do: `onMessage` runs after a read
      that returned bytes, `onDown` in the down callback of a close. */
  datatype Io = Io(first: ReadResult, retry: ReadResult, wrote: int, onMessage: seq<User>, onDown: seq<User>)

  function ReadIn(s: Conn, io: Io): Conn {
    var bytes := Arrived(io.first, io.retry);
    s.(inq := s.inq + bytes, received := s.received + bytes)
  }

  function HandleRead(s: Conn, io: Io): Conn {
    var s1 := ReadIn(s, io);
    if io.first.N() > 0 then Users(s1, io.onMessage)
    else if io.first.N() == 0 then HandleClose(s1, io.onDown)
    else s1
  }

  function HandleWrite(s: Conn, wrote: int): Conn {
    if !s.chan.IsWriting() then s
    else
      var n := Clip(wrote, |s.outq|);
      if n <= 0 then s
      else
        var s1 := s.(written := s.written + s.outq[..n], outq := s.outq[n..]);
        if s1.outq == [] then Note(s1.(chan := Apply(s1.chan, DisableWriting))) else s1
  }

  function AfterHangup(s: Conn, rev: set<Event>, io: Io): Conn {
    if Hup in rev && In !in rev then HandleClose(s, io.onDown) else s
  }

  function AfterRead(s: Conn, rev: set<Event>, io: Io): Conn {
    if rev * {In, Pri, RdHup} != {} then HandleRead(s, io) else s
  }

  /** Channel::handleEvent: close, error, read, write, in this order. The error handler only logs. */
  function HandleEvent(s: Conn, rev: set<Event>, io: Io): Conn {
    var s2 := AfterRead(AfterHangup(s, rev, io), rev, io);
    if Out in rev then HandleWrite(s2, io.wrote) else s2
  }

  /** What the loop thread runs for a connection, and the sends of other threads. */
  datatype Call =
    | Establish(onUp: seq<User>)
    | OnEvent(rev: set<Event>, io: Io)
    | ByUser(u: User)
    | Defer(data: seq<byte>)                 // send from another thread
    | RunDeferred(wrote: int)                // its sendInLoop task
    | RunForceClose(onDown: seq<User>)
    | Destroy(onLast: seq<User>)

  /** The kernel reports events of registered channels only. */
  predicate Enabled(s: Conn, c: Call) {
    s.Fine() &&
    match c
    case Establish(_) => s.status == Connecting
    case OnEvent(_, _) => s.chan.added
    case ByUser(_) => true
    case Defer(_) => true
    case RunDeferred(_) => s.deferred != []
    case RunForceClose(_) => s.forces > 0
    case Destroy(_) => true
  }

  function Next(s: Conn, c: Call): Conn
    requires Enabled(s, c)
  {
    match c
    case Establish(onUp) =>
      Users(s.(status := Connected, chan := Apply(s.chan, EnableReading), cbs := s.cbs + [true]), onUp)
    case OnEvent(rev, io) => HandleEvent(s, rev, io)
    case ByUser(u) => UserNext(s, u)
    case Defer(data) => if s.status == Connected then s.(deferred := s.deferred + [data]) else s
    case RunDeferred(wrote) => SendInLoop(s.(deferred := s.deferred[1..]), s.deferred[0], wrote)
    case RunForceClose(onDown) =>
      var s1 := s.(forces := s.forces - 1);
      if s1.IsOpen() then HandleClose(s1, onDown) else s1
    case Destroy(onLast) =>
      if s.status == Connected then
        Users(s.(status := Disconnected, chan := Apply(s.chan, DisableAll), cbs := s.cbs + [false]), onLast)
      else s
  }

  ghost predicate Legal(s: Conn, calls: seq<Call>)
    decreases |calls|
  {
    calls == [] || (Enabled(s, calls[0]) && Legal(Next(s, calls[0]), calls[1..]))
  }

  ghost function After(s: Conn, calls: seq<Call>): Conn
    requires Legal(s, calls)
    decreases |calls|
  {
    if calls == [] then s else After(Next(s, calls[0]), calls[1..])
  }

  /** A hang-up that is not readable but reported together with PRI or RDHUP, and then read as closed. */
  predicate HangupClash(rev: set<Event>, first: ReadResult) {
    Hup in rev && In !in rev && (Pri in rev || RdHup in rev) && first.N() == 0
  }

  predicate Safe(c: Call) {
    c.OnEvent? ==> !HangupClash(c.rev, c.io.first)
  }

  // ---------------------------------------------------------------- the invariant

  ghost predicate StreamInv(s: Conn) {
    && s.accepted == s.written + s.outq
    && s.received == s.consumed + s.inq
    && (forall m :: m in s.notes ==> m.written == m.accepted <= |s.written|)
  }

  ghost predicate LifeInv(s: Conn) {
    && Agree(s.chan)
    && match s.status
       case Connecting => s.chan.events == {} && s.cbs == [] && s.closes == 0 && s.accepted == [] && s.deferred == []
                          && s.outq == [] && s.forces == 0
       case Disconnected => s.chan.events == {} && s.cbs == [true, false] && s.closes <= 1
       case _ => s.chan.events == READ + (if s.outq == [] then {} else WRITE) && s.cbs == [true] && s.closes == 0
  }

  ghost predicate Inv(s: Conn) {
    s.Fine() && StreamInv(s) && LifeInv(s)
  }

  lemma SendStream(s: Conn, data: seq<byte>, wrote: int)
    requires StreamInv(s)
    ensures StreamInv(SendInLoop(s, data, wrote))
  {
    if s.status != Disconnected {
      var n := TakenAtOnce(s, |data|, wrote);
      SendEffect(s, data, wrote);
      assert data == data[..n] + data[n..];
      assert (s.written + data[..n]) + (s.outq + data[n..]) == s.written + s.outq + data;
    }
  }

  /** sendInLoop's effect on the streams. */
  lemma SendEffect(s: Conn, data: seq<byte>, wrote: int)
    requires s.status != Disconnected
    ensures var r := SendInLoop(s, data, wrote);
            var n := TakenAtOnce(s, |data|, wrote);
            && r.written == s.written + data[..n] && r.outq == s.outq + data[n..]
            && r.accepted == s.accepted + data && r.received == s.received
            && r.consumed == s.consumed && r.inq == s.inq && r.deferred == s.deferred
            && (r.notes == s.notes
                || (r.notes == s.notes + [Mark(|r.written|, |r.accepted|)] && s.outq == [] && n == |data|))
  {
    hide Apply;
    assert s.outq + [] == s.outq;
  }

  lemma SendKeeps(s: Conn, data: seq<byte>, wrote: int)
    requires Inv(s) && s.status != Connecting
    ensures Inv(SendInLoop(s, data, wrote))
    ensures SendInLoop(s, data, wrote).status == s.status
  {
    SendStream(s, data, wrote);
  }

  lemma InterestedIsAdded(s: Conn)
    requires Inv(s)
    ensures s.IsOpen() || s.chan.IsWriting() ==> s.chan.added
  {
  }

  /** The kernel's answer matters only up to clipping. */
  lemma ClippedUser(s: Conn, u: User)
    ensures u.Send? ==> UserNext(s, u) == UserNext(s, Send(u.data, Clip(u.wrote, |u.data|)))
    ensures u.SendInput? ==> UserNext(s, u) == UserNext(s, SendInput(Clip(u.result, |s.inq|)))
    ensures u.Consume? ==> UserNext(s, u) == UserNext(s, Consume(if u.n <= |s.inq| then u.n else |s.inq|))
  {
    hide Apply;
  }

  /** sendInLoop leaves the input buffer alone, and send(*buf) then takes all of it. */
  lemma SendTakesInput(s: Conn, wrote: int)
    ensures var t := SendInLoop(s, s.inq, wrote);
            && t.inq == s.inq && t.consumed == s.consumed
            && Take(t, |s.inq|) == t.(inq := [], consumed := s.consumed + s.inq)
  {
    hide Apply;
    assert s.inq[..|s.inq|] == s.inq;
  }

  lemma TakeKeeps(s: Conn, n: nat)
    requires Inv(s)
    ensures Inv(Take(s, n))
  {
    var k := if n <= |s.inq| then n else |s.inq|;
    assert s.inq == s.inq[..k] + s.inq[k..];
  }

  lemma UserKeeps(s: Conn, u: User)
    requires Inv(s)
    ensures Inv(UserNext(s, u))
    ensures UserNext(s, u).status == Disconnected <==> s.status == Disconnected
    ensures UserNext(s, u).status == Connecting <==> s.status == Connecting
    ensures UserNext(s, u).closes == s.closes
  {
    match u
    case Send(data, wrote) => if s.status == Connected { SendKeeps(s, data, wrote); }
    case SendInput(wrote) =>
      if s.status == Connected {
        SendKeeps(s, s.inq, wrote);
        TakeKeeps(SendInLoop(s, s.inq, wrote), |s.inq|);
      }
    case Consume(n) => TakeKeeps(s, n);
    case _ =>
  }

  lemma {:induction false} UsersKeep(s: Conn, us: seq<User>)
    requires Inv(s)
    ensures Inv(Users(s, us))
    ensures Users(s, us).status == Disconnected <==> s.status == Disconnected
    ensures Users(s, us).status == Connecting <==> s.status == Connecting
    ensures Users(s, us).closes == s.closes
    decreases |us|
  {
    if us != [] {
      UserKeeps(s, us[0]);
      UsersKeep(UserNext(s, us[0]), us[1..]);
    }
  }

  lemma CloseKeeps(s: Conn, onDown: seq<User>)
    requires Inv(s) && s.IsOpen()
    ensures Inv(CloseDown(s)) && CloseDown(s).status == Disconnected
    ensures Inv(HandleClose(s, onDown)) && HandleClose(s, onDown).status == Disconnected
  {
    UsersKeep(CloseDown(s), onDown);
  }

  lemma ClosedIs(s: Conn, onDown: seq<User>)
    ensures HandleClose(s, onDown) == var t := Users(CloseDown(s), onDown); t.(closes := t.closes + 1)
  {
    hide Users, CloseDown;
  }

  lemma ReadInKeeps(s: Conn, io: Io)
    requires Inv(s)
    ensures Inv(ReadIn(s, io)) && ReadIn(s, io).status == s.status
  {
    assert s.received + Arrived(io.first, io.retry) == s.consumed + (s.inq + Arrived(io.first, io.retry));
  }

  /** The read handler is right in every state but one: reading end-of-stream on a connection that is
      already closed. */
  lemma ReadKeeps(s: Conn, io: Io)
    requires Inv(s) && s.status != Connecting
    ensures Inv(HandleRead(s, io)) <==> !(io.first.N() == 0 && s.status == Disconnected)
    ensures HandleRead(s, io).Fine() <==> !(io.first.N() == 0 && s.status == Disconnected)
    ensures HandleRead(s, io).status != Connecting
  {
    ReadInKeeps(s, io);
    var s1 := ReadIn(s, io);
    if io.first.N() > 0 {
      UsersKeep(s1, io.onMessage);
    } else if io.first.N() == 0 {
      if s.IsOpen() {
        CloseKeeps(s1, io.onDown);
      } else {
        UsersStayFailed(CloseDown(s1), io.onDown);
      }
    }
  }

  lemma {:induction false} UsersStayFailed(s: Conn, us: seq<User>)
    requires !s.ok
    ensures !Users(s, us).ok && Users(s, us).status != Connecting <==> s.status != Connecting
    decreases |us|
  {
    if us != [] {
      UsersStayFailed(UserNext(s, us[0]), us[1..]);
    }
  }

  lemma WriteKeeps(s: Conn, wrote: int)
    requires Inv(s) && s.status != Connecting
    ensures Inv(HandleWrite(s, wrote)) && HandleWrite(s, wrote).status == s.status
  {
    var n := Clip(wrote, |s.outq|);
    if s.chan.IsWriting() && n > 0 {
      assert s.outq == s.outq[..n] + s.outq[n..];
    }
  }

  /** After the close handler a read of end-of-stream finds the connection open, unless it clashes. */
  lemma HangupKeeps(s: Conn, rev: set<Event>, io: Io)
    requires Inv(s) && s.chan.added
    ensures s.IsOpen()
    ensures Inv(AfterHangup(s, rev, io)) && AfterHangup(s, rev, io).status != Connecting
    ensures AfterHangup(s, rev, io).status == Disconnected <==> Hup in rev && In !in rev
  {
    if Hup in rev && In !in rev {
      CloseKeeps(s, io.onDown);
    }
  }

  lemma EventKeeps(s: Conn, rev: set<Event>, io: Io)
    requires Inv(s) && s.chan.added
    ensures HandleEvent(s, rev, io).Fine() <==> !HangupClash(rev, io.first)
    ensures !HangupClash(rev, io.first) ==> Inv(HandleEvent(s, rev, io))
  {
    hide HandleRead, HandleClose;
    HangupKeeps(s, rev, io);
    ReadBits(rev);
    var s1 := AfterHangup(s, rev, io);
    ReadKeeps(s1, io);
    var s2 := AfterRead(s1, rev, io);
    if Out in rev && s2.Fine() { WriteKeeps(s2, io.wrote); }
  }

  lemma CallKeeps(s: Conn, c: Call)
    requires Inv(s) && Enabled(s, c) && Safe(c)
    ensures Inv(Next(s, c))
  {
    match c
    case Establish(onUp) =>
      UsersKeep(s.(status := Connected, chan := Apply(s.chan, EnableReading), cbs := s.cbs + [true]), onUp);
    case OnEvent(rev, io) => EventKeeps(s, rev, io);
    case ByUser(u) => UserKeeps(s, u);
    case Defer(data) =>
    case RunDeferred(wrote) => SendKeeps(s.(deferred := s.deferred[1..]), s.deferred[0], wrote);
    case RunForceClose(onDown) =>
      var s1 := s.(forces := s.forces - 1);
      if s1.IsOpen() { CloseKeeps(s1, onDown); }
    case Destroy(onLast) =>
      if s.status == Connected {
        UsersKeep(s.(status := Disconnected, chan := Apply(s.chan, DisableAll), cbs := s.cbs + [false]), onLast);
      }
  }

  lemma ReadBits(rev: set<Event>)
    ensures rev * {In, Pri, RdHup} != {} <==> In in rev || Pri in rev || RdHup in rev
  {
    assert In in rev ==> In in rev * {In, Pri, RdHup};
    assert Pri in rev ==> Pri in rev * {In, Pri, RdHup};
    assert RdHup in rev ==> RdHup in rev * {In, Pri, RdHup};
  }

  lemma EstablishKeeps(s: Conn, onUp: seq<User>)
    requires Inv(s) && s.status == Connecting
    ensures Enabled(s, Establish(onUp)) && Inv(Next(s, Establish(onUp)))
    ensures Inv(s.(status := Connected, chan := Apply(s.chan, EnableReading), cbs := s.cbs + [true]))
  {
    CallKeeps(s, Establish(onUp));
  }

  lemma DestroyKeeps(s: Conn, onLast: seq<User>)
    requires Inv(s)
    ensures Enabled(s, Destroy(onLast)) && Inv(Next(s, Destroy(onLast)))
    ensures s.status == Connected ==>
              Inv(s.(status := Disconnected, chan := Apply(s.chan, DisableAll), cbs := s.cbs + [false]))
  {
    CallKeeps(s, Destroy(onLast));
  }

  lemma ForceKeeps(s: Conn, onDown: seq<User>)
    requires Inv(s) && s.forces > 0
    ensures Enabled(s, RunForceClose(onDown)) && Inv(s.(forces := s.forces - 1)) && Inv(Next(s, RunForceClose(onDown)))
  {
    CallKeeps(s, RunForceClose(onDown));
  }

  lemma DeferredKeeps(s: Conn, wrote: int)
    requires Inv(s) && s.deferred != []
    ensures Enabled(s, RunDeferred(wrote)) && Inv(s.(deferred := s.deferred[1..])) && s.status != Connecting
    ensures Inv(Next(s, RunDeferred(wrote)))
  {
    CallKeeps(s, RunDeferred(wrote));
  }

  // ---------------------------------------------------------------- every run

  ghost predicate AllSafe(calls: seq<Call>) {
    forall k :: 0 <= k < |calls| ==> Safe(calls[k])
  }

  lemma {:induction false} RunKeeps(s: Conn, calls: seq<Call>)
    requires Inv(s) && Legal(s, calls) && AllSafe(calls)
    ensures Inv(After(s, calls))
    decreases |calls|
  {
    if calls != [] {
      CallKeeps(s, calls[0]);
      RunKeeps(Next(s, calls[0]), calls[1..]);
    }
  }

  lemma InitInv(notify: bool)
    ensures Inv(Init(notify))
  {
  }

  /** Output conservation and poller agreement: after every run, what the kernel took followed by the
      output buffer is exactly what was accepted, each write-complete callback was queued when nothing
      accepted was unwritten, the kernel table mirrors the channel, a live connection asks for write
      events exactly while its output buffer is not empty, and no assertion of the connection or of
      the poller has failed. */
  lemma OutputConserved(notify: bool, calls: seq<Call>)
    requires Legal(Init(notify), calls) && AllSafe(calls)
    ensures var s := After(Init(notify), calls);
            && s.Fine()
            && s.accepted == s.written + s.outq
            && s.received == s.consumed + s.inq
            && (forall m :: m in s.notes ==> m.written == m.accepted <= |s.written|)
            && (s.IsOpen() <==> s.chan.added)
            && (s.IsOpen() ==> s.chan.events == if s.outq == [] then {In, Pri} else {In, Pri, Out})
            && (!s.IsOpen() ==> s.chan.events == {})
            && s.chan.entry == (if s.IsOpen() then Some(s.chan.events) else None)
  {
    InitInv(notify);
    RunKeeps(Init(notify), calls);
  }

  /** An event's handlers fail an assertion if and only if the event is a hang-up that is not readable,
      is reported with PRI or RDHUP, and is then read as end-of-stream: handleClose runs twice. The
      channel never asks for RDHUP, and epoll reports what was asked for, errors and hang-ups: so
      among the events that can be reported, PRI makes the clash. */
  lemma EventFailsExactly(s: Conn, rev: set<Event>, io: Io)
    requires Inv(s) && Enabled(s, OnEvent(rev, io))
    ensures Next(s, OnEvent(rev, io)).Fine() <==> !HangupClash(rev, io.first)
    ensures rev <= s.chan.events + {Err, Hup} ==>
              (Next(s, OnEvent(rev, io)).Fine() <==> !({Hup, Pri} <= rev && In !in rev && io.first.N() == 0))
  {
    EventKeeps(s, rev, io);
    assert RdHup !in s.chan.events + {Err, Hup};
  }

  /** A run from a new connection that fails, with events that epoll can report. */
  lemma ClashExample()
    ensures var run := [Establish([]), OnEvent({Hup, Pri}, Io(Delivered([]), Failed, 0, [], []))];
            && Legal(Init(false), run) && !After(Init(false), run).Fine()
            && {Hup, Pri} <= After(Init(false), run[..1]).chan.events + {Err, Hup}
  {
    var io := Io(Delivered([]), Failed, 0, [], []);
    var est, event := Establish([]), OnEvent({Hup, Pri}, io);
    var s := Next(Init(false), est);
    InitInv(false);
    CallKeeps(Init(false), est);
    assert s.status == Connected && s.chan.added;
    EventFailsExactly(s, {Hup, Pri}, io);
    hide Next, Inv;
    OneCall(s, event);
    OneCall(Init(false), est);
    assert [est, event][1..] == [event] && [est, event][..1] == [est];
  }

  lemma OneCall(s: Conn, c: Call)
    requires Enabled(s, c)
    ensures Legal(s, [c]) && After(s, [c]) == Next(s, c)
  {
    assert [c][1..] == [];
  }

  /** sendInLoop, in terms of what write returns: if nothing is outstanding the kernel is offered the whole
      payload, its count of bytes is written, and exactly the others are buffered behind what is
      buffered; otherwise, or if write fails, the whole payload is buffered. Every byte is accepted. */
  lemma SendTakesExactly(s: Conn, data: seq<byte>, wrote: int)
    requires s.status != Disconnected && -1 <= wrote <= |data|
    ensures var k := if Out !in s.chan.events && s.outq == [] && wrote > 0 then wrote else 0;
            var r := SendInLoop(s, data, wrote);
            && r.written == s.written + data[..k] && r.outq == s.outq + data[k..]
            && r.accepted == s.accepted + data && r.deferred == s.deferred
            && r.inq == s.inq && r.consumed == s.consumed && r.received == s.received
  {
    SendEffect(s, data, wrote);
    hide Apply;
  }

  /** A disconnected connection gives a payload up. */
  lemma SendGivesUp(s: Conn, data: seq<byte>, wrote: int)
    requires s.status == Disconnected
    ensures SendInLoop(s, data, wrote) == s
  {
  }

  /** The drain handler: exactly the bytes that write took leave the front of the output buffer. */
  lemma DrainTakesExactly(s: Conn, wrote: int)
    requires -1 <= wrote <= |s.outq|
    ensures var k := if Out in s.chan.events && wrote > 0 then wrote else 0;
            var r := HandleWrite(s, wrote);
            && r.written == s.written + s.outq[..k] && r.outq == s.outq[k..]
            && r.accepted == s.accepted && r.inq == s.inq && r.received == s.received && r.deferred == s.deferred
  {
    hide Apply;
    assert s.outq[..0] == [] && s.written + [] == s.written && s.outq[0..] == s.outq;
  }

  /** A write-complete callback is queued exactly when a call empties the connection's output: a direct
      write that took everything, or a drain that took the last byte; and only if one is set. */
  lemma NotedExactlyWhenDrained(s: Conn, data: seq<byte>, wrote: int)
    requires Inv(s) && s.IsOpen()
    ensures -1 <= wrote <= |data| ==>
              var r := SendInLoop(s, data, wrote);
              var notes := s.notify && s.outq == [] && wrote == |data|;
              && r.notes == (if notes then s.notes + [Mark(|r.accepted|, |r.accepted|)] else s.notes)
              && (notes ==> r.outq == [] && r.written == r.accepted)
    ensures -1 <= wrote <= |s.outq| ==>
              var r := HandleWrite(s, wrote);
              var notes := s.notify && s.outq != [] && wrote == |s.outq|;
              && r.notes == (if notes then s.notes + [Mark(|r.accepted|, |r.accepted|)] else s.notes)
              && (notes ==> r.outq == [] && r.written == r.accepted)
  {
    SendKeeps(s, data, wrote);
    WriteKeeps(s, wrote);
  }

  /** A send from another thread is a promise: its task finds the payload and hands it to sendInLoop. */
  lemma DeferredIsSent(s: Conn, data: seq<byte>, wrote: int)
    requires Inv(s) && s.status == Connected && s.deferred == []
    ensures var r := Next(s, Defer(data));
            && Enabled(r, RunDeferred(wrote)) && r.accepted == s.accepted
            && Next(r, RunDeferred(wrote)).accepted == s.accepted + data
            && Next(r, RunDeferred(wrote)).deferred == []
  {
    hide SendInLoop, Apply, StreamInv, LifeInv;
    var r := Next(s, Defer(data));
    assert r.deferred == [data] && [data][1..] == [];
    SendEffect(r.(deferred := []), data, wrote);
  }

  /** Establishing calls the up callback and asks for input; destroying a connected connection closes it
      and calls the down callback; a queued close is used up and closes an open connection. */
  lemma CallAnswers(s: Conn, script: seq<User>)
    requires Inv(s)
    ensures s.status == Connecting ==>
              var r := Next(s, Establish(script));
              r.IsOpen() && r.cbs == [true] && {In, Pri} <= r.chan.events && r.chan.entry == Some(r.chan.events)
    ensures s.status == Connected ==>
              var r := Next(s, Destroy(script));
              r.status == Disconnected && r.cbs == [true, false] && r.chan.entry == None
    ensures s.status != Connected ==> Next(s, Destroy(script)) == s
    ensures s.forces > 0 ==>
              var r := Next(s, RunForceClose(script));
              r.status == (if s.status == Connecting then Connecting else Disconnected) && r.chan.entry == None
  {
    DestroyKeeps(s, script);
    if s.status == Connecting {
      EstablishKeeps(s, script);
      UsersKeep(s.(status := Connected, chan := Apply(s.chan, EnableReading), cbs := s.cbs + [true]), script);
    }
    if s.forces > 0 {
      ForceKeeps(s, script);
      if s.IsOpen() { CloseKeeps(s.(forces := s.forces - 1), script); }
    }
    if s.status == Connected {
      UsersKeep(s.(status := Disconnected, chan := Apply(s.chan, DisableAll), cbs := s.cbs + [false]), script);
    }
  }

  /** What a read leads to: bytes go to the message callback with the connection still open, end-of-stream
      closes it with one down and one close callback, and an error changes nothing but the input that
      the retry stored. */
  lemma ReadAnswers(s: Conn, io: Io)
    requires Inv(s) && s.IsOpen()
    ensures io.first.Delivered? && io.first.bytes != [] ==>
              && HandleRead(s, io) == Users(s.(inq := s.inq + io.first.bytes, received := s.received + io.first.bytes),
                                            io.onMessage)
              && HandleRead(s, io).IsOpen()
    ensures io.first == Delivered([]) ==>
              var r := HandleRead(s, io);
              r.status == Disconnected && r.cbs == [true, false] && r.closes == 1 && r.chan.entry == None
    ensures io.first == Failed ==>
              HandleRead(s, io) == match io.retry
                                   case Delivered(y) => s.(inq := s.inq + y, received := s.received + y)
                                   case Failed => s
  {
    ReadInKeeps(s, io);
    var s1 := ReadIn(s, io);
    if io.first.N() > 0 {
      UsersKeep(s1, io.onMessage);
    } else if io.first == Delivered([]) {
      CloseKeeps(s1, io.onDown);
      CloseHandsOff(s1, io.onDown);
    }
    assert s.inq + [] == s.inq && s.received + [] == s.received;
  }

  // ---------------------------------------------------------------- the life of a connection

  ghost predicate Older(s: Conn, t: Conn) {
    && Stage(s.status) <= Stage(t.status) && s.cbs <= t.cbs
    && s.accepted <= t.accepted && s.written <= t.written && s.received <= t.received
    && (s.status == Disconnected ==> t.accepted == s.accepted && t.written == s.written && t.cbs == s.cbs)
    && (Stage(s.status) >= 2 ==> t.halfClosed == s.halfClosed)
    && (s.forces <= t.forces || t.status == Disconnected)
  }

  lemma SendOlder(s: Conn, data: seq<byte>, wrote: int)
    ensures Older(s, SendInLoop(s, data, wrote)) && SendInLoop(s, data, wrote).status == s.status
  {
    hide Apply;
  }

  lemma UserOlder(s: Conn, u: User)
    requires Inv(s)
    ensures Older(s, UserNext(s, u))
  {
    hide SendInLoop, Apply;
    match u
    case Send(data, wrote) => SendOlder(s, data, wrote);
    case SendInput(wrote) => SendOlder(s, s.inq, wrote);
    case _ =>
  }

  lemma {:induction false} UsersOlder(s: Conn, us: seq<User>)
    requires Inv(s)
    ensures Older(s, Users(s, us))
    decreases |us|
  {
    if us != [] {
      UserOlder(s, us[0]);
      UserKeeps(s, us[0]);
      UsersOlder(UserNext(s, us[0]), us[1..]);
    }
  }

  lemma CloseOlder(s: Conn, onDown: seq<User>)
    requires Inv(s) && s.IsOpen()
    ensures Older(s, HandleClose(s, onDown))
  {
    CloseKeeps(s, onDown);
    UsersOlder(CloseDown(s), onDown);
  }

  lemma ReadOlder(s: Conn, io: Io)
    requires Inv(s) && (s.IsOpen() || (s.status == Disconnected && io.first.N() != 0))
    ensures Older(s, HandleRead(s, io))
  {
    ReadInKeeps(s, io);
    var s1 := ReadIn(s, io);
    if io.first.N() > 0 { UsersOlder(s1, io.onMessage); }
    else if io.first.N() == 0 { CloseOlder(s1, io.onDown); }
  }

  lemma EventOlder(s: Conn, rev: set<Event>, io: Io)
    requires Inv(s) && s.chan.added && !HangupClash(rev, io.first)
    ensures Older(s, HandleEvent(s, rev, io))
  {
    hide HandleRead, HandleWrite, HandleClose, Users, Arrived;
    HangupKeeps(s, rev, io);
    if Hup in rev && In !in rev { CloseOlder(s, io.onDown); }
    var s1 := AfterHangup(s, rev, io);
    ReadBits(rev);
    ReadKeeps(s1, io);
    if rev * {In, Pri, RdHup} != {} { ReadOlder(s1, io); }
    WriteOlder(AfterRead(s1, rev, io), io.wrote);
  }

  lemma WriteOlder(s: Conn, wrote: int)
    requires Inv(s)
    ensures Older(s, HandleWrite(s, wrote))
  {
    hide Apply;
  }

  lemma EstablishOlder(s: Conn, onUp: seq<User>)
    requires Inv(s) && s.status == Connecting
    ensures Older(s, Next(s, Establish(onUp)))
  {
    hide Users;
    EstablishKeeps(s, onUp);
    UsersOlder(s.(status := Connected, chan := Apply(s.chan, EnableReading), cbs := s.cbs + [true]), onUp);
  }

  lemma ForceOlder(s: Conn, onDown: seq<User>)
    requires Inv(s) && s.forces > 0
    ensures Older(s, Next(s, RunForceClose(onDown)))
  {
    hide HandleClose;
    var s1 := s.(forces := s.forces - 1);
    if s1.IsOpen() {
      CloseKeeps(s1, onDown);
      CloseOlder(s1, onDown);
    }
  }

  lemma DestroyOlder(s: Conn, onLast: seq<User>)
    requires Inv(s)
    ensures Older(s, Next(s, Destroy(onLast)))
  {
    hide Users;
    DestroyKeeps(s, onLast);
    if s.status == Connected {
      UsersOlder(s.(status := Disconnected, chan := Apply(s.chan, DisableAll), cbs := s.cbs + [false]), onLast);
    }
  }

  lemma CallOlder(s: Conn, c: Call)
    requires Inv(s) && Enabled(s, c) && Safe(c)
    ensures Older(s, Next(s, c))
  {
    hide Users, HandleEvent, UserNext, SendInLoop, HandleClose;
    match c
    case Establish(onUp) => EstablishOlder(s, onUp);
    case OnEvent(rev, io) => EventOlder(s, rev, io);
    case ByUser(u) => UserOlder(s, u);
    case RunDeferred(wrote) => SendOlder(s.(deferred := s.deferred[1..]), s.deferred[0], wrote);
    case RunForceClose(onDown) => ForceOlder(s, onDown);
    case Destroy(onLast) => DestroyOlder(s, onLast);
    case _ =>
  }

  /** The status only moves forward, Disconnected is absorbing and freezes the output, the streams only
      grow; the up callback is the first callback, the down callback comes at most once and last. */
  lemma {:induction false} LifeMovesForward(s: Conn, calls: seq<Call>)
    requires Inv(s) && Legal(s, calls) && AllSafe(calls)
    ensures var t := After(s, calls);
            && Older(s, t)
            && t.cbs == (if t.status == Connecting then [] else if t.IsOpen() then [true] else [true, false])
            && t.closes <= 1
    decreases |calls|
  {
    if calls != [] {
      CallKeeps(s, calls[0]);
      CallOlder(s, calls[0]);
      LifeMovesForward(Next(s, calls[0]), calls[1..]);
    }
  }

  /** shutdown is documented to close after everything has been sent. The code half-closes the socket
      only if the output buffer is empty at the call: with output outstanding no later event does,
      not even the one that drains the last byte. */
  lemma ShutdownHalfClosesExactly(s: Conn, calls: seq<Call>)
    requires Inv(s) && s.status == Connected && !s.halfClosed
    requires Legal(UserNext(s, Shutdown), calls) && AllSafe(calls)
    ensures After(UserNext(s, Shutdown), calls).halfClosed <==> s.outq == []
  {
    UserKeeps(s, Shutdown);
    LifeMovesForward(UserNext(s, Shutdown), calls);
  }

  /** Such a run: shutdown is called while a byte is outstanding; the byte is drained later, and the
      socket is still not half-closed. */
  lemma LostShutdownExample()
    ensures var run := [Establish([Send([7], 0), Shutdown]), OnEvent({Out}, Io(Failed, Failed, 1, [], []))];
            && Legal(Init(false), run)
            && var t := After(Init(false), run);
               t.Fine() && t.status == Disconnecting && t.written == [7] && t.outq == [] && !t.halfClosed
  {
    var us := [Send([7], 0), Shutdown];
    var est, event := Establish(us), OnEvent({Out}, Io(Failed, Failed, 1, [], []));
    var up := Init(false).(status := Connected, chan := Apply(Idle(), EnableReading), cbs := [true]);
    var sent := UserNext(up, us[0]);
    assert us[1..] == [Shutdown] && us[1..][1..] == [];
    assert sent.outq == [7] && sent.chan.IsWriting() && sent.written == [];
    var s := UserNext(sent, Shutdown);
    assert Users(sent, [Shutdown]) == s;
    assert Next(Init(false), est) == s;
    assert s.chan.added && s.Fine();
    DrainOne(s);
    hide Inv;
    OneCall(s, event);
    assert [est, event][1..] == [event];
  }

  lemma DrainOne(s: Conn)
    requires s.Fine() && s.chan.added && s.chan.IsWriting() && s.outq == [7] && s.written == []
    ensures var t := HandleEvent(s, {Out}, Io(Failed, Failed, 1, [], []));
            t.status == s.status && t.written == [7] && t.outq == [] && t.halfClosed == s.halfClosed && t.Fine()
  {
    assert {Out} * {In, Pri, RdHup} == {};
  }

  /** forceClose on an open connection cannot be lost: whatever happens next, the connection is closed or
      a queued task is there that closes it when it runs, with output outstanding or not. */
  lemma ForceCloseCloses(s: Conn, calls: seq<Call>, onDown: seq<User>)
    requires Inv(s) && s.IsOpen()
    requires Legal(UserNext(s, ForceClose), calls) && AllSafe(calls)
    ensures var t := After(UserNext(s, ForceClose), calls);
            t.status == Disconnected
            || (Enabled(t, RunForceClose(onDown)) && Next(t, RunForceClose(onDown)).status == Disconnected)
  {
    var s1 := UserNext(s, ForceClose);
    UserKeeps(s, ForceClose);
    LifeMovesForward(s1, calls);
    RunKeeps(s1, calls);
    var t := After(s1, calls);
    if t.status != Disconnected {
      CloseKeeps(t.(forces := t.forces - 1), onDown);
    }
  }

  // ---------------------------------------------------------------- the hand-off to the server

  /** The close callback, with which the server's hand-off starts, has run once for a closed connection
      and not at all for any other. */
  predicate HandedOff(s: Conn) {
    s.closes == if s.status == Disconnected then 1 else 0
  }

  lemma CloseHandsOff(s: Conn, onDown: seq<User>)
    requires Inv(s) && s.IsOpen()
    ensures HandedOff(HandleClose(s, onDown))
  {
    CloseKeeps(s, onDown);
    UsersKeep(CloseDown(s), onDown);
  }

  lemma ReadHandsOff(s: Conn, io: Io)
    requires Inv(s) && HandedOff(s) && (s.IsOpen() || (s.status == Disconnected && io.first.N() != 0))
    ensures HandedOff(HandleRead(s, io))
  {
    ReadInKeeps(s, io);
    var s1 := ReadIn(s, io);
    if io.first.N() > 0 { UsersKeep(s1, io.onMessage); }
    else if io.first.N() == 0 { CloseHandsOff(s1, io.onDown); }
  }

  lemma EventHandsOff(s: Conn, rev: set<Event>, io: Io)
    requires Inv(s) && HandedOff(s) && s.chan.added && !HangupClash(rev, io.first)
    ensures HandedOff(HandleEvent(s, rev, io))
  {
    hide HandleRead, HandleClose, Users, Arrived;
    HangupKeeps(s, rev, io);
    if Hup in rev && In !in rev { CloseHandsOff(s, io.onDown); }
    ReadBits(rev);
    if rev * {In, Pri, RdHup} != {} { ReadHandsOff(AfterHangup(s, rev, io), io); }
  }

  lemma CallHandsOff(s: Conn, c: Call)
    requires Inv(s) && HandedOff(s) && Enabled(s, c) && Safe(c) && (c.Destroy? ==> s.status == Disconnected)
    ensures HandedOff(Next(s, c))
  {
    match c
    case Establish(onUp) =>
      UsersKeep(s.(status := Connected, chan := Apply(s.chan, EnableReading), cbs := s.cbs + [true]), onUp);
    case OnEvent(rev, io) => EventHandsOff(s, rev, io);
    case ByUser(u) => UserKeeps(s, u);
    case RunDeferred(wrote) => SendKeeps(s.(deferred := s.deferred[1..]), s.deferred[0], wrote);
    case RunForceClose(onDown) =>
      var s1 := s.(forces := s.forces - 1);
      if s1.IsOpen() { CloseHandsOff(s1, onDown); }
    case _ =>
  }

  /** connectionDestroyed is only run on a closed connection. */
  ghost predicate DestroyedLate(s: Conn, calls: seq<Call>)
    requires Legal(s, calls)
    decreases |calls|
  {
    calls == [] || ((calls[0].Destroy? ==> s.status == Disconnected) && DestroyedLate(Next(s, calls[0]), calls[1..]))
  }

  /** Over every run in which the server destroys only closed connections, as it does, a connection has
      made its close callback exactly once if it is closed and not at all otherwise: one hand-off
      for each connection. */
  lemma {:induction false} HandedOffExactlyOnce(s: Conn, calls: seq<Call>)
    requires Inv(s) && HandedOff(s) && Legal(s, calls) && AllSafe(calls) && DestroyedLate(s, calls)
    ensures HandedOff(After(s, calls)) && Inv(After(s, calls))
    decreases |calls|
  {
    if calls != [] {
      CallKeeps(s, calls[0]);
      CallHandsOff(s, calls[0]);
      HandedOffExactlyOnce(Next(s, calls[0]), calls[1..]);
    }
  }

  // ---------------------------------------------------------------- the echo server

  /** The echo server's calls: its message callback is send(*buf), made once per read, and nothing else
      in the program sends or takes input. */
  predicate EchoUser(u: User) {
    u.SendInput? || u.Shutdown? || u.ForceClose?
  }

  ghost predicate EchoScript(us: seq<User>) {
    forall k :: 0 <= k < |us| ==> EchoUser(us[k])
  }

  ghost predicate EchoCall(c: Call) {
    match c
    case Establish(onUp) => EchoScript(onUp)
    case OnEvent(_, io) => EchoScript(io.onMessage) && EchoScript(io.onDown)
    case ByUser(u) => EchoUser(u)
    case Defer(_) => false
    case RunDeferred(_) => true
    case RunForceClose(onDown) => EchoScript(onDown)
    case Destroy(onLast) => EchoScript(onLast)
  }

  ghost predicate Echoing(s: Conn) {
    s.accepted == s.consumed && s.deferred == []
  }

  lemma EchoUserKeeps(s: Conn, u: User)
    requires Inv(s) && Echoing(s) && EchoUser(u)
    ensures Echoing(UserNext(s, u))
  {
    if u.SendInput? && s.status == Connected {
      assert s.inq[..|s.inq|] == s.inq;
    }
  }

  lemma {:induction false} EchoScriptKeeps(s: Conn, us: seq<User>)
    requires Inv(s) && Echoing(s) && EchoScript(us)
    ensures Echoing(Users(s, us))
    decreases |us|
  {
    if us != [] {
      EchoUserKeeps(s, us[0]);
      UserKeeps(s, us[0]);
      EchoScriptKeeps(UserNext(s, us[0]), us[1..]);
    }
  }

  lemma EchoReadKeeps(s: Conn, io: Io)
    requires Inv(s) && Echoing(s) && EchoScript(io.onMessage) && EchoScript(io.onDown)
    requires s.IsOpen() || (s.status == Disconnected && io.first.N() != 0)
    ensures Echoing(HandleRead(s, io))
  {
    ReadInKeeps(s, io);
    var s1 := ReadIn(s, io);
    if io.first.N() > 0 { EchoScriptKeeps(s1, io.onMessage); }
    else if io.first.N() == 0 {
      CloseKeeps(s1, io.onDown);
      EchoScriptKeeps(CloseDown(s1), io.onDown);
    }
  }

  lemma EchoEventKeeps(s: Conn, rev: set<Event>, io: Io)
    requires Inv(s) && Echoing(s) && s.chan.added && !HangupClash(rev, io.first)
    requires EchoScript(io.onMessage) && EchoScript(io.onDown)
    ensures Echoing(HandleEvent(s, rev, io))
  {
    HangupKeeps(s, rev, io);
    if Hup in rev && In !in rev {
      CloseKeeps(s, io.onDown);
      EchoScriptKeeps(CloseDown(s), io.onDown);
    }
    ReadBits(rev);
    if rev * {In, Pri, RdHup} != {} { EchoReadKeeps(AfterHangup(s, rev, io), io); }
  }

  lemma EchoCallKeeps(s: Conn, c: Call)
    requires Inv(s) && Echoing(s) && Enabled(s, c) && Safe(c) && EchoCall(c)
    ensures Echoing(Next(s, c))
  {
    match c
    case Establish(onUp) =>
      var s1 := s.(status := Connected, chan := Apply(s.chan, EnableReading), cbs := s.cbs + [true]);
      EchoScriptKeeps(s1, onUp);
    case OnEvent(rev, io) => EchoEventKeeps(s, rev, io);
    case ByUser(u) => EchoUserKeeps(s, u);
    case RunForceClose(onDown) =>
      var s1 := s.(forces := s.forces - 1);
      if s1.IsOpen() { CloseKeeps(s1, onDown); EchoScriptKeeps(CloseDown(s1), onDown); }
    case Destroy(onLast) =>
      if s.status == Connected {
        EchoScriptKeeps(s.(status := Disconnected, chan := Apply(s.chan, DisableAll), cbs := s.cbs + [false]), onLast);
      }
    case _ =>
  }

  lemma {:induction false} EchoRunKeeps(s: Conn, calls: seq<Call>)
    requires Inv(s) && Echoing(s) && Legal(s, calls) && AllSafe(calls)
    requires forall k :: 0 <= k < |calls| ==> EchoCall(calls[k])
    ensures Echoing(After(s, calls)) && Inv(After(s, calls))
    decreases |calls|
  {
    if calls != [] {
      CallKeeps(s, calls[0]);
      EchoCallKeeps(s, calls[0]);
      EchoRunKeeps(Next(s, calls[0]), calls[1..]);
    }
  }

  /** Echo correctness: in every reachable state of an echo server's connection, what was received is
      what was written, followed by the output buffer, followed by the input buffer. So the peer
      always sees a prefix of what it sent, through every short write, failed write, retried read,
      shutdown and close. */
  lemma EchoIsPrefix(notify: bool, calls: seq<Call>)
    requires Legal(Init(notify), calls) && AllSafe(calls)
    requires forall k :: 0 <= k < |calls| ==> EchoCall(calls[k])
    ensures var s := After(Init(notify), calls);
            s.received == s.written + s.outq + s.inq && s.written <= s.received
  {
    InitInv(notify);
    EchoRunKeeps(Init(notify), calls);
  }

  /** Nothing is held back: when the message callback runs on a connected connection, all input, also
      bytes that a silent retry left behind earlier, goes out or into the output buffer. */
  lemma EchoAnswersEachRead(s: Conn, io: Io, wrote: int)
    requires Inv(s) && Echoing(s) && s.status == Connected
    requires io.first.Delivered? && io.first.bytes != [] && io.onMessage == [SendInput(wrote)]
    ensures var t := HandleRead(s, io);
            t.inq == [] && t.received == t.written + t.outq && t.received == s.received + io.first.bytes
  {
    var s1 := ReadIn(s, io);
    ReadInKeeps(s, io);
    UserKeeps(s1, SendInput(wrote));
    EchoUserKeeps(s1, SendInput(wrote));
    assert [SendInput(wrote)][1..] == [];
    var t := UserNext(s1, SendInput(wrote));
    assert Users(t, []) == t;
  }
}
