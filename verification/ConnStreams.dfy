/** What a run of a connection sends, writes, receives and takes. */
module ConnStreams {
  import opened Bytes
  import opened BufferSpec
  import opened ConnSpec
  import opened Lifecycle
  import opened Polling

  // A run is read off as a list of deeds: the system calls it makes with their results, and what its
  // user code hands over and takes. The histories of the connection are then what the deeds say.

  datatype Deed =
    | Wrote(offered: seq<byte>, result: int)   // write(fd, offered) returned result
    | Sent(payload: seq<byte>)                 // sendInLoop before Disconnected
    | Got(bytes: seq<byte>)                    // readv delivered these
    | Took(taken: seq<byte>)                   // user code took these from the input buffer
    | Promised(later: seq<byte>)               // a send from another thread returned true
    | Handed(now: seq<byte>)                   // ... and its task gave the payload to sendInLoop

  /** What the kernel took. */
  function WrittenBy(ds: seq<Deed>): seq<byte> {
    if ds == [] then []
    else
      (match ds[0]
       case Wrote(offered, result) =>
         if result <= 0 then [] else if result <= |offered| then offered[..result] else offered
       case _ => [])
      + WrittenBy(ds[1..])
  }

  function SentBy(ds: seq<Deed>): seq<byte> {
    if ds == [] then [] else (if ds[0].Sent? then ds[0].payload else []) + SentBy(ds[1..])
  }

  function GotBy(ds: seq<Deed>): seq<byte> {
    if ds == [] then [] else (if ds[0].Got? then ds[0].bytes else []) + GotBy(ds[1..])
  }

  function TakenBy(ds: seq<Deed>): seq<byte> {
    if ds == [] then [] else (if ds[0].Took? then ds[0].taken else []) + TakenBy(ds[1..])
  }

  function PromisedBy(ds: seq<Deed>): seq<seq<byte>> {
    if ds == [] then [] else (if ds[0].Promised? then [ds[0].later] else []) + PromisedBy(ds[1..])
  }

  function HandedBy(ds: seq<Deed>): seq<seq<byte>> {
    if ds == [] then [] else (if ds[0].Handed? then [ds[0].now] else []) + HandedBy(ds[1..])
  }

  lemma {:induction false} WrittenSum(a: seq<Deed>, b: seq<Deed>)
    ensures WrittenBy(a + b) == WrittenBy(a) + WrittenBy(b)
  {
    if a == [] { assert a + b == b; } else { assert (a + b)[1..] == a[1..] + b; WrittenSum(a[1..], b); }
  }

  lemma {:induction false} SentSum(a: seq<Deed>, b: seq<Deed>)
    ensures SentBy(a + b) == SentBy(a) + SentBy(b)
  {
    if a == [] { assert a + b == b; } else { assert (a + b)[1..] == a[1..] + b; SentSum(a[1..], b); }
  }

  lemma {:induction false} GotSum(a: seq<Deed>, b: seq<Deed>)
    ensures GotBy(a + b) == GotBy(a) + GotBy(b)
  {
    if a == [] { assert a + b == b; } else { assert (a + b)[1..] == a[1..] + b; GotSum(a[1..], b); }
  }

  lemma {:induction false} TakenSum(a: seq<Deed>, b: seq<Deed>)
    ensures TakenBy(a + b) == TakenBy(a) + TakenBy(b)
  {
    if a == [] { assert a + b == b; } else { assert (a + b)[1..] == a[1..] + b; TakenSum(a[1..], b); }
  }

  lemma {:induction false} PromisedSum(a: seq<Deed>, b: seq<Deed>)
    ensures PromisedBy(a + b) == PromisedBy(a) + PromisedBy(b)
  {
    if a == [] { assert a + b == b; } else { assert (a + b)[1..] == a[1..] + b; PromisedSum(a[1..], b); }
  }

  lemma {:induction false} HandedSum(a: seq<Deed>, b: seq<Deed>)
    ensures HandedBy(a + b) == HandedBy(a) + HandedBy(b)
  {
    if a == [] { assert a + b == b; } else { assert (a + b)[1..] == a[1..] + b; HandedSum(a[1..], b); }
  }

  /** The deeds lead from the histories of s to those of t. Promised payloads are handed over in order,
      and what is promised and not handed over waits in order. */
  ghost predicate Grows(s: Conn, ds: seq<Deed>, t: Conn) {
    && t.written == s.written + WrittenBy(ds)
    && t.accepted == s.accepted + SentBy(ds)
    && t.received == s.received + GotBy(ds)
    && t.consumed == s.consumed + TakenBy(ds)
    && s.deferred + PromisedBy(ds) == HandedBy(ds) + t.deferred
  }

  lemma GrowsOn(s: Conn, a: seq<Deed>, t: Conn, b: seq<Deed>, u: Conn)
    requires Grows(s, a, t) && Grows(t, b, u)
    ensures Grows(s, a + b, u)
  {
    hide WrittenBy, SentBy, GotBy, TakenBy, PromisedBy, HandedBy;
    WrittenSum(a, b);
    SentSum(a, b);
    GotSum(a, b);
    TakenSum(a, b);
    PromisedSum(a, b);
    HandedSum(a, b);
    Joined(s.written, WrittenBy(a), WrittenBy(b));
    Joined(s.accepted, SentBy(a), SentBy(b));
    Joined(s.received, GotBy(a), GotBy(b));
    Joined(s.consumed, TakenBy(a), TakenBy(b));
    Queues(s.deferred, PromisedBy(a), HandedBy(a), t.deferred, PromisedBy(b), HandedBy(b), u.deferred);
  }

  lemma Joined<T>(x: seq<T>, a: seq<T>, b: seq<T>)
    ensures (x + a) + b == x + (a + b)
  {
  }

  lemma Queues<T>(s: seq<T>, pa: seq<T>, ha: seq<T>, t: seq<T>, pb: seq<T>, hb: seq<T>, u: seq<T>)
    requires s + pa == ha + t && t + pb == hb + u
    ensures s + (pa + pb) == (ha + hb) + u
  {
    assert s + (pa + pb) == (s + pa) + pb;
    assert (ha + t) + pb == ha + (t + pb);
    assert ha + (hb + u) == (ha + hb) + u;
  }

  /** Nothing happened to the histories. */
  lemma GrowsNone(s: Conn, t: Conn)
    requires t.written == s.written && t.accepted == s.accepted && t.received == s.received
    requires t.consumed == s.consumed && t.deferred == s.deferred
    ensures Grows(s, [], t)
  {
  }

  // ---------------------------------------------------------------- the deeds of a run

  function SendDeeds(s: Conn, data: seq<byte>, wrote: int): seq<Deed> {
    if s.status == Disconnected then []
    else if Out !in s.chan.events && s.outq == [] then [Sent(data), Wrote(data, wrote)]
    else [Sent(data)]
  }

  function UserDeeds(s: Conn, u: User): seq<Deed> {
    match u
    case Send(data, wrote) => if s.status == Connected then SendDeeds(s, data, wrote) else []
    case SendInput(wrote) => if s.status == Connected then SendDeeds(s, s.inq, wrote) + [Took(s.inq)] else []
    case Consume(n) => [Took(if n <= |s.inq| then s.inq[..n] else s.inq)]
    case Shutdown => []
    case ForceClose => []
  }

  function ScriptDeeds(s: Conn, us: seq<User>): seq<Deed>
    decreases |us|
  {
    if us == [] then [] else UserDeeds(s, us[0]) + ScriptDeeds(UserNext(s, us[0]), us[1..])
  }

  /** A read: the bytes of the first readv, then the message callback, or the close if there were none; or
      the bytes of the retry, and nothing else. */
  function ReadDeeds(s: Conn, io: Io): seq<Deed> {
    match io.first
    case Delivered(bytes) =>
      var s1 := s.(inq := s.inq + bytes, received := s.received + bytes);
      [Got(bytes)] + if bytes == [] then ScriptDeeds(CloseDown(s1), io.onDown) else ScriptDeeds(s1, io.onMessage)
    case Failed =>
      match io.retry
      case Delivered(bytes) => [Got(bytes)]
      case Failed => []
  }

  /** An event: close, read, write. */
  function EventDeeds(s: Conn, rev: set<Event>, io: Io): seq<Deed> {
    var s1 := AfterHangup(s, rev, io);
    var s2 := AfterRead(s1, rev, io);
    (if Hup in rev && In !in rev then ScriptDeeds(CloseDown(s), io.onDown) else [])
    + (if In in rev || Pri in rev || RdHup in rev then ReadDeeds(s1, io) else [])
    + (if Out in rev && Out in s2.chan.events then [Wrote(s2.outq, io.wrote)] else [])
  }

  function CallDeeds(s: Conn, c: Call): seq<Deed>
    requires Enabled(s, c)
  {
    match c
    case Establish(onUp) =>
      ScriptDeeds(s.(status := Connected, chan := Apply(s.chan, EnableReading), cbs := s.cbs + [true]), onUp)
    case OnEvent(rev, io) => EventDeeds(s, rev, io)
    case ByUser(u) => UserDeeds(s, u)
    case Defer(data) => if s.status == Connected then [Promised(data)] else []
    case RunDeferred(wrote) => [Handed(s.deferred[0])] + SendDeeds(s, s.deferred[0], wrote)
    case RunForceClose(onDown) =>
      if s.IsOpen() then ScriptDeeds(CloseDown(s.(forces := s.forces - 1)), onDown) else []
    case Destroy(onLast) =>
      if s.status == Connected then
        ScriptDeeds(s.(status := Disconnected, chan := Apply(s.chan, DisableAll), cbs := s.cbs + [false]), onLast)
      else []
  }

  ghost function RunDeeds(s: Conn, calls: seq<Call>): seq<Deed>
    requires ConnSpec.Legal(s, calls)
    decreases |calls|
  {
    if calls == [] then [] else CallDeeds(s, calls[0]) + RunDeeds(Next(s, calls[0]), calls[1..])
  }

  // ---------------------------------------------------------------- the histories are what the deeds say

  lemma SendGrows(s: Conn, data: seq<byte>, wrote: int)
    ensures Grows(s, SendDeeds(s, data, wrote), SendInLoop(s, data, wrote))
  {
    if s.status == Disconnected {
      GrowsNone(s, s);
    } else {
      hide SendInLoop, Apply;
      var w := if wrote < 0 then -1 else if wrote <= |data| then wrote else |data|;
      SameClip(s, data, wrote, w);
      SendTakesExactly(s, data, w);
      var k := if Out !in s.chan.events && s.outq == [] && w > 0 then w else 0;
      SentGrows(s, data, wrote, k, SendInLoop(s, data, wrote));
    }
  }

  lemma SentGrows(s: Conn, data: seq<byte>, wrote: int, k: nat, t: Conn)
    requires k <= |data| && t.written == s.written + data[..k] && t.accepted == s.accepted + data
    requires t.received == s.received && t.consumed == s.consumed && t.deferred == s.deferred
    requires s.status != Disconnected
    requires k == if Out in s.chan.events || s.outq != [] || wrote <= 0 then 0
                  else if wrote <= |data| then wrote else |data|
    ensures Grows(s, SendDeeds(s, data, wrote), t)
  {
    hide WrittenBy, SentBy, GotBy, TakenBy, PromisedBy, HandedBy;
    SendSays(data, wrote);
    assert data[..0] == [] && data[..|data|] == data;
  }

  /** What the deeds of one sendInLoop say. */
  lemma SendSays(data: seq<byte>, wrote: int)
    ensures var ds, d2 := [Sent(data)], [Sent(data), Wrote(data, wrote)];
            && WrittenBy(ds) == [] && SentBy(ds) == data && GotBy(ds) == [] && TakenBy(ds) == []
            && PromisedBy(ds) == [] && HandedBy(ds) == []
            && WrittenBy(d2) == (if wrote <= 0 then [] else if wrote <= |data| then data[..wrote] else data)
            && SentBy(d2) == data && GotBy(d2) == [] && TakenBy(d2) == []
            && PromisedBy(d2) == [] && HandedBy(d2) == []
  {
    assert [Sent(data), Wrote(data, wrote)][1..] == [Wrote(data, wrote)];
    assert [Sent(data)][1..] == [] && [Wrote(data, wrote)][1..] == [];
  }

  /** write takes no more than it was given. */
  lemma SameClip(s: Conn, data: seq<byte>, wrote: int, w: int)
    requires w == if wrote < 0 then -1 else if wrote <= |data| then wrote else |data|
    ensures SendInLoop(s, data, wrote) == SendInLoop(s, data, w)
  {
    hide Apply, BufferRest;
  }

  lemma UserGrows(s: Conn, u: User)
    ensures Grows(s, UserDeeds(s, u), UserNext(s, u))
  {
    match u
    case Send(data, wrote) => if s.status == Connected { SendGrows(s, data, wrote); } else { GrowsNone(s, s); }
    case SendInput(wrote) =>
      if s.status == Connected {
        SendGrows(s, s.inq, wrote);
        SendTakesInput(s, wrote);
        var t := SendInLoop(s, s.inq, wrote);
        hide SendInLoop;
        assert t.inq[..|t.inq|] == s.inq;
        TakeGrows(t, |t.inq|);
        GrowsOn(s, SendDeeds(s, s.inq, wrote), t, [Took(s.inq)], Take(t, |s.inq|));
      } else { GrowsNone(s, s); }
    case Consume(n) => TakeGrows(s, n);
    case _ => GrowsNone(s, UserNext(s, u));
  }

  lemma TakeGrows(s: Conn, n: nat)
    ensures Grows(s, [Took(if n <= |s.inq| then s.inq[..n] else s.inq)], Take(s, n))
  {
    var d := Took(if n <= |s.inq| then s.inq[..n] else s.inq);
    assert [d][1..] == [] && s.inq[..|s.inq|] == s.inq;
  }

  lemma {:induction false} ScriptGrows(s: Conn, us: seq<User>)
    ensures Grows(s, ScriptDeeds(s, us), Users(s, us))
    decreases |us|
  {
    if us == [] {
      GrowsNone(s, s);
    } else {
      hide UserNext, UserDeeds, Grows;
      UserGrows(s, us[0]);
      ScriptGrows(UserNext(s, us[0]), us[1..]);
      GrowsOn(s, UserDeeds(s, us[0]), UserNext(s, us[0]), ScriptDeeds(UserNext(s, us[0]), us[1..]), Users(s, us));
    }
  }

  /** A script that starts where the histories are still those of s. */
  lemma ScriptGrowsFrom(s: Conn, s1: Conn, us: seq<User>)
    requires s1.written == s.written && s1.accepted == s.accepted && s1.received == s.received
    requires s1.consumed == s.consumed && s1.deferred == s.deferred
    ensures Grows(s, ScriptDeeds(s1, us), Users(s1, us))
  {
    ScriptGrows(s1, us);
  }

  lemma CloseGrows(s: Conn, onDown: seq<User>)
    ensures Grows(s, ScriptDeeds(CloseDown(s), onDown), HandleClose(s, onDown))
  {
    hide Apply;
    ScriptGrowsFrom(s, CloseDown(s), onDown);
  }

  lemma GotGrows(s: Conn, bytes: seq<byte>)
    ensures Grows(s, [Got(bytes)], s.(inq := s.inq + bytes, received := s.received + bytes))
  {
    assert [Got(bytes)][1..] == [];
  }

  lemma ReadGrows(s: Conn, io: Io)
    ensures Grows(s, ReadDeeds(s, io), HandleRead(s, io))
  {
    hide Grows, Users, ScriptDeeds, CloseDown, HandleClose;
    match io.first
    case Delivered(bytes) =>
      var s1 := s.(inq := s.inq + bytes, received := s.received + bytes);
      GotGrows(s, bytes);
      if bytes == [] {
        CloseGrows(s1, io.onDown);
        GrowsOn(s, [Got(bytes)], s1, ScriptDeeds(CloseDown(s1), io.onDown), HandleClose(s1, io.onDown));
      } else {
        ScriptGrows(s1, io.onMessage);
        GrowsOn(s, [Got(bytes)], s1, ScriptDeeds(s1, io.onMessage), Users(s1, io.onMessage));
      }
    case Failed =>
      match io.retry
      case Delivered(bytes) => GotGrows(s, bytes);
      case Failed =>
        assert s.inq + [] == s.inq && s.received + [] == s.received;
        GrowsNone(s, s);
  }

  lemma WriteGrows(s: Conn, wrote: int)
    ensures Grows(s, if Out in s.chan.events then [Wrote(s.outq, wrote)] else [], HandleWrite(s, wrote))
  {
    var w := if wrote < 0 then -1 else if wrote <= |s.outq| then wrote else |s.outq|;
    assert HandleWrite(s, wrote) == HandleWrite(s, w);
    DrainTakesExactly(s, w);
    assert [Wrote(s.outq, wrote)][1..] == [];
    assert HandleWrite(s, wrote).consumed == s.consumed;
  }

  lemma EventGrows(s: Conn, rev: set<Event>, io: Io)
    ensures Grows(s, EventDeeds(s, rev, io), HandleEvent(s, rev, io))
  {
    hide Grows, HandleClose, HandleRead, HandleWrite, ScriptDeeds, ReadDeeds, CloseDown;
    var s1 := AfterHangup(s, rev, io);
    var s2 := AfterRead(s1, rev, io);
    var a := if Hup in rev && In !in rev then ScriptDeeds(CloseDown(s), io.onDown) else [];
    var b := if In in rev || Pri in rev || RdHup in rev then ReadDeeds(s1, io) else [];
    var c := if Out in rev && Out in s2.chan.events then [Wrote(s2.outq, io.wrote)] else [];
    if Hup in rev && In !in rev { CloseGrows(s, io.onDown); } else { GrowsNone(s, s); }
    ReadBits(rev);
    if In in rev || Pri in rev || RdHup in rev { ReadGrows(s1, io); } else { GrowsNone(s1, s1); }
    GrowsOn(s, a, s1, b, s2);
    if Out in rev { WriteGrows(s2, io.wrote); } else { GrowsNone(s2, s2); }
    GrowsOn(s, a + b, s2, c, HandleEvent(s, rev, io));
  }

  lemma DeferGrows(s: Conn, data: seq<byte>)
    requires Enabled(s, Defer(data))
    ensures Grows(s, CallDeeds(s, Defer(data)), Next(s, Defer(data)))
  {
    assert [Promised(data)][1..] == [];
  }

  lemma DeferredGrows(s: Conn, wrote: int)
    requires Enabled(s, RunDeferred(wrote))
    ensures Grows(s, CallDeeds(s, RunDeferred(wrote)), Next(s, RunDeferred(wrote)))
  {
    var s1 := s.(deferred := s.deferred[1..]);
    var d := Handed(s.deferred[0]);
    assert [d][1..] == [] && s.deferred == [s.deferred[0]] + s.deferred[1..];
    assert Grows(s, [d], s1);
    SendGrows(s1, s.deferred[0], wrote);
    GrowsOn(s, [d], s1, SendDeeds(s1, s.deferred[0], wrote), SendInLoop(s1, s.deferred[0], wrote));
  }

  lemma CallGrows(s: Conn, c: Call)
    requires Enabled(s, c)
    ensures Grows(s, CallDeeds(s, c), Next(s, c))
  {
    hide Users, ScriptDeeds, HandleEvent, EventDeeds, UserNext, UserDeeds, SendInLoop, SendDeeds, Apply;
    match c
    case Establish(onUp) =>
      ScriptGrowsFrom(s, s.(status := Connected, chan := Apply(s.chan, EnableReading), cbs := s.cbs + [true]), onUp);
    case OnEvent(rev, io) => EventGrows(s, rev, io);
    case ByUser(u) => UserGrows(s, u);
    case Defer(data) => DeferGrows(s, data);
    case RunDeferred(wrote) => DeferredGrows(s, wrote);
    case RunForceClose(onDown) => if s.IsOpen() { CloseGrows(s.(forces := s.forces - 1), onDown); }
    case Destroy(onLast) =>
      if s.status == Connected {
        ScriptGrowsFrom(s, s.(status := Disconnected, chan := Apply(s.chan, DisableAll), cbs := s.cbs + [false]),
                        onLast);
      }
  }

  /** Over every run, the kernel has taken exactly what its write results say, from payloads exactly as
      they were sent; the program has received exactly what readv delivered; and every send from
      another thread that returned true is handed to sendInLoop in its turn, or still waits for it. */
  lemma {:induction false} RunGrows(s: Conn, calls: seq<Call>)
    requires ConnSpec.Legal(s, calls)
    ensures Grows(s, RunDeeds(s, calls), After(s, calls))
    decreases |calls|
  {
    if calls == [] {
      GrowsNone(s, s);
    } else {
      hide Grows, CallDeeds, Next;
      CallGrows(s, calls[0]);
      RunGrows(Next(s, calls[0]), calls[1..]);
      GrowsOn(s, CallDeeds(s, calls[0]), Next(s, calls[0]), RunDeeds(Next(s, calls[0]), calls[1..]), After(s, calls));
    }
  }

  /** From a new connection: the histories are what the deeds of the run say, spelled out. */
  lemma StreamsAreDeeds(notify: bool, calls: seq<Call>)
    requires ConnSpec.Legal(Init(notify), calls)
    ensures var s := After(Init(notify), calls);
            var ds := RunDeeds(Init(notify), calls);
            && s.written == WrittenBy(ds) && s.accepted == SentBy(ds)
            && s.received == GotBy(ds) && s.consumed == TakenBy(ds)
            && PromisedBy(ds) == HandedBy(ds) + s.deferred
  {
    RunGrows(Init(notify), calls);
    assert [] + PromisedBy(RunDeeds(Init(notify), calls)) == PromisedBy(RunDeeds(Init(notify), calls));
  }

  // ---------------------------------------------------------------- nothing is sent after a close has begun

  function Flat(payloads: seq<seq<byte>>): seq<byte> {
    if payloads == [] then [] else payloads[0] + Flat(payloads[1..])
  }

  /** The connection is closing or closed, and will never have accepted more than `all`. */
  ghost predicate Winding(s: Conn, all: seq<byte>) {
    || (s.status == Disconnecting && s.accepted + Flat(s.deferred) == all)
    || (s.status == Disconnected && s.accepted <= all)
  }

  /** The same payloads have been accepted and wait; a closing connection may have been closed. */
  ghost predicate Idles(s: Conn, t: Conn) {
    && t.accepted == s.accepted && t.deferred == s.deferred
    && (t.status == s.status || (s.status == Disconnecting && t.status == Disconnected))
  }

  lemma IdlesWinding(s: Conn, t: Conn, all: seq<byte>)
    requires Winding(s, all) && Idles(s, t)
    ensures Winding(t, all)
  {
  }

  lemma {:induction false} ScriptIdles(s: Conn, us: seq<User>)
    requires s.status in {Disconnecting, Disconnected}
    ensures Idles(s, Users(s, us)) && Users(s, us).status == s.status
    decreases |us|
  {
    if us != [] { ScriptIdles(UserNext(s, us[0]), us[1..]); }
  }

  lemma CloseIdles(s: Conn, onDown: seq<User>)
    requires s.status in {Disconnecting, Disconnected}
    ensures Idles(s, HandleClose(s, onDown)) && HandleClose(s, onDown).status == Disconnected
  {
    hide Apply;
    ScriptIdles(CloseDown(s), onDown);
  }

  lemma ReadIdles(s: Conn, io: Io)
    requires s.status in {Disconnecting, Disconnected}
    ensures Idles(s, HandleRead(s, io)) && HandleRead(s, io).status in {Disconnecting, Disconnected}
  {
    hide Users, HandleClose, Idles;
    var s1 := ReadIn(s, io);
    if io.first.N() > 0 { ScriptIdles(s1, io.onMessage); }
    else if io.first.N() == 0 { CloseIdles(s1, io.onDown); }
    IdlesFrom(s, s1, HandleRead(s, io));
  }

  lemma IdlesFrom(s: Conn, s1: Conn, t: Conn)
    requires s1.accepted == s.accepted && s1.deferred == s.deferred && s1.status == s.status
    requires Idles(s1, t) || t == s1
    ensures Idles(s, t)
  {
  }

  lemma WriteIdles(s: Conn, wrote: int)
    ensures Idles(s, HandleWrite(s, wrote))
  {
    hide Apply;
  }

  lemma EventIdles(s: Conn, rev: set<Event>, io: Io)
    requires s.status in {Disconnecting, Disconnected}
    ensures Idles(s, HandleEvent(s, rev, io))
  {
    hide HandleClose, HandleRead, HandleWrite;
    var s1 := AfterHangup(s, rev, io);
    if Hup in rev && In !in rev { CloseIdles(s, io.onDown); }
    ReadIdles(s1, io);
    WriteIdles(AfterRead(s1, rev, io), io.wrote);
  }

  lemma CallWinds(s: Conn, c: Call, all: seq<byte>)
    requires Enabled(s, c) && Winding(s, all)
    ensures Winding(Next(s, c), all)
  {
    hide HandleEvent, Users, HandleClose, SendInLoop, Apply;
    match c
    case OnEvent(rev, io) => EventIdles(s, rev, io); IdlesWinding(s, HandleEvent(s, rev, io), all);
    case ByUser(u) => UserWinds(s, u, all);
    case RunDeferred(wrote) => DeferredWinds(s, wrote, all);
    case RunForceClose(onDown) =>
      var s1 := s.(forces := s.forces - 1);
      CloseIdles(s1, onDown);
      IdlesWinding(s, Next(s, c), all);
    case _ =>
  }

  lemma UserWinds(s: Conn, u: User, all: seq<byte>)
    requires Winding(s, all)
    ensures Winding(UserNext(s, u), all)
  {
  }

  lemma DeferredWinds(s: Conn, wrote: int, all: seq<byte>)
    requires Enabled(s, RunDeferred(wrote)) && Winding(s, all)
    ensures Winding(Next(s, RunDeferred(wrote)), all)
  {
    var s1 := s.(deferred := s.deferred[1..]);
    if s.status == Disconnecting {
      SendEffect(s1, s.deferred[0], wrote);
      Joined(s.accepted, s.deferred[0], Flat(s.deferred[1..]));
      assert SendInLoop(s1, s.deferred[0], wrote).status == Disconnecting by { SendOlder(s1, s.deferred[0], wrote); }
    }
  }

  lemma {:induction false} RunWinds(s: Conn, calls: seq<Call>, all: seq<byte>)
    requires ConnSpec.Legal(s, calls) && Winding(s, all)
    ensures Winding(After(s, calls), all)
    decreases |calls|
  {
    if calls != [] {
      CallWinds(s, calls[0], all);
      RunWinds(Next(s, calls[0]), calls[1..], all);
    }
  }

  /** After shutdown or forceClose on a connected connection no later send is accepted, in any continuation,
      from any thread or callback: what is accepted from then on are payloads that other threads had
      been promised before, in their order, and only until the connection is closed. */
  lemma NoSendAfterShutdown(s: Conn, u: User, calls: seq<Call>)
    requires s.status == Connected && (u == Shutdown || u == ForceClose) && ConnSpec.Legal(UserNext(s, u), calls)
    ensures var t := After(UserNext(s, u), calls);
            && t.accepted <= s.accepted + Flat(s.deferred)
            && (t.status == Disconnecting && t.deferred == [] ==> t.accepted == s.accepted + Flat(s.deferred))
            && t.status in {Disconnecting, Disconnected}
  {
    RunWinds(UserNext(s, u), calls, s.accepted + Flat(s.deferred));
    var t := After(UserNext(s, u), calls);
    assert t.accepted + [] == t.accepted;
  }
}
