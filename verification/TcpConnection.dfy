/**
 The connection object of src/net/TcpConnection.h and src/net/TcpConnection.cpp: it owns a channel
 and two array buffers and refines ConnSpec call by call. Kernel answers and callback scripts are
 parameters; callbacks call the object's own methods.
 */
module TcpConnections {
  import opened Bytes
  import opened Lifecycle
  import opened Polling
  import opened ConnSpec
  import BufferSpec
  import B = BufferImpl

  /** The same event, with each readv taking part of what had arrived, and at least a full spill area. */
  ghost predicate Served(io: Io, seen: Io) {
    && seen == io.(first := seen.first, retry := seen.retry)
    && BufferSpec.Offered(io.first, seen.first) && BufferSpec.Offered(io.retry, seen.retry)
  }

  /** The close handler does not depend on what will be read. */
  lemma SameHangup(s: Conn, rev: set<Event>, io: Io, seen: Io)
    requires seen == io.(first := seen.first, retry := seen.retry)
    ensures AfterHangup(s, rev, seen) == AfterHangup(s, rev, io)
  {
  }

  class TcpConnection {
    const chan: Channel
    const oBuffer: B.Buffer
    const iBuffer: B.Buffer
    const notify: bool            // _onWriteCb is set
    var status: Status
    var deferred: seq<seq<byte>>  // sends of other threads, queued in the loop
    var forces: nat               // queued forceCloseInLoop tasks
    var noteTasks: nat            // queued write-complete callbacks
    var cbs: seq<bool>            // calls of the connection callback
    var closes: nat               // calls of the close callback
    var halfClosed: bool          // shutdownWrite was called

    ghost var received: seq<byte>
    ghost var consumed: seq<byte>
    ghost var written: seq<byte>
    ghost var accepted: seq<byte>
    ghost var notes: seq<Mark>

    ghost function Footprint(): set<object>
      reads this, oBuffer, iBuffer
    {
      {this, chan, chan.poller, oBuffer, oBuffer.data, iBuffer, iBuffer.data}
    }

    /** The two buffers share nothing, and each note has its queued callback. */
    ghost predicate Parts()
      reads Footprint()
    {
      oBuffer != iBuffer && oBuffer.data != iBuffer.data && oBuffer.Valid() && iBuffer.Valid()
      && noteTasks == |notes|
    }

    ghost function View(): Conn
      requires Parts()
      reads Footprint()
    {
      Conn(status, chan.View(), iBuffer.Peek(), oBuffer.Peek(), received, consumed, written, accepted,
           deferred, forces, notify, notes, cbs, closes, halfClosed, true)
    }

    ghost predicate Valid()
      reads Footprint()
    {
      Parts() && Inv(View())
    }

    /** The poller's entries of other descriptors are as they were. */
    twostate predicate OthersKept()
      reads chan.poller
    {
      forall x :: x != chan.fd ==> chan.poller.Entry(x) == old(chan.poller.Entry(x))
    }

    constructor (poller: EPollPoller, fd: int, notify: bool)
      requires poller.Entry(fd) == None
      ensures Valid() && View() == Init(notify) && chan.fd == fd && chan.poller == poller
      ensures fresh(Footprint() - {poller})
    {
      chan := new Channel(poller, fd);
      oBuffer := new B.Buffer(1024);
      iBuffer := new B.Buffer(1024);
      this.notify := notify;
      status := Connecting;
      deferred, forces, noteTasks, cbs, closes, halfClosed := [], 0, 0, [], 0, false;
      received, consumed, written, accepted, notes := [], [], [], [], [];
    }

    /** Queue the write-complete callback. */
    method QueueNote()
      requires Parts()
      modifies this`notes, this`noteTasks
      ensures Parts() && View() == Note(old(View()))
    {
      if notify {
        noteTasks := noteTasks + 1;
        notes := notes + [Mark(|written|, |accepted|)];
      }
    }

    /** The end of sendInLoop: buffer what the kernel did not take. */
    method BufferRest(rest: seq<byte>)
      requires Parts()
      modifies chan`events, chan`added, chan.poller, oBuffer, oBuffer.data
      ensures OthersKept()
      ensures Parts() && (oBuffer.data == old(oBuffer.data) || fresh(oBuffer.data))
      ensures View() == ConnSpec.BufferRest(old(View()), rest)
    {
      hide Apply;
      if |rest| > 0 {
        oBuffer.Append(rest);
        if !chan.IsWriting() {
          chan.EnableWriting();
        }
      }
    }

    /** sendInLoop; `wrote` is what write returns if it is called. */
    method SendInLoop(data: seq<byte>, wrote: int)
      requires Valid() && status != Connecting && -1 <= wrote <= |data|
      modifies Footprint()
      ensures OthersKept()
      ensures Valid() && fresh(Footprint() - old(Footprint()))
      ensures View() == ConnSpec.SendInLoop(old(View()), data, wrote)
      ensures old(status) != Disconnected ==>
                var k := if old(Out !in chan.events && oBuffer.Peek() == []) && wrote > 0 then wrote else 0;
                && written == old(written) + data[..k] && oBuffer.Peek() == old(oBuffer.Peek()) + data[k..]
                && accepted == old(accepted) + data
      ensures iBuffer.data == old(iBuffer.data) && iBuffer.View() == old(iBuffer.View())
    {
      hide Inv, Apply, ConnSpec.BufferRest;
      ghost var before := View();
      SendKeeps(before, data, wrote);
      if status == Disconnected {
        return;
      }
      SendTakesExactly(before, data, wrote);
      var nwrote := 0;
      var remaining := |data|;
      accepted := accepted + data;
      if !chan.IsWriting() && oBuffer.ReadableBytes() == 0 {
        nwrote := wrote;
        if nwrote >= 0 {
          remaining := |data| - nwrote;
          written := written + data[..nwrote];
          if remaining == 0 {
            QueueNote();
          }
        } else {
          nwrote := 0;
        }
      }
      assert before.written + data[..0] == before.written;
      assert nwrote == TakenAtOnce(before, |data|, wrote);
      BufferRest(data[nwrote..]);
    }

    /** send in the loop thread. */
    method Send(data: seq<byte>, wrote: int) returns (sent: bool)
      requires Valid() && -1 <= wrote <= |data|
      modifies Footprint()
      ensures OthersKept()
      ensures Valid() && fresh(Footprint() - old(Footprint()))
      ensures View() == UserNext(old(View()), User.Send(data, wrote))
      ensures sent <==> old(status) == Connected
      ensures if sent then accepted == old(accepted) + data else View() == old(View())
    {
      if status == Connected {
        SendInLoop(data, wrote);
        return true;
      }
      return false;
    }

    /** send(*buf) on the input buffer. */
    method SendInput(wrote: int) returns (sent: bool)
      requires Valid() && -1 <= wrote <= |iBuffer.Peek()|
      modifies Footprint()
      ensures OthersKept()
      ensures Valid() && fresh(Footprint() - old(Footprint()))
      ensures View() == UserNext(old(View()), User.SendInput(wrote))
      ensures sent <==> old(status) == Connected
      ensures if sent then iBuffer.Peek() == [] && accepted == old(accepted) + old(iBuffer.Peek())
              else View() == old(View())
    {
      hide Inv, ConnSpec.SendInLoop, Take;
      ghost var before := View();
      UserKeeps(before, User.SendInput(wrote));
      SendTakesInput(before, wrote);
      sent := Send(iBuffer.Peek(), wrote);
      if sent {
        consumed := consumed + iBuffer.Peek();
        iBuffer.RetrieveAll();
      }
    }

    /** Retrieving from the input buffer. */
    method Consume(n: nat)
      requires Valid() && n <= |iBuffer.Peek()|
      modifies this`consumed, iBuffer
      ensures Valid() && Footprint() == old(Footprint()) && View() == UserNext(old(View()), User.Consume(n))
    {
      hide Inv;
      ghost var before := View();
      UserKeeps(before, User.Consume(n));
      consumed := consumed + iBuffer.Peek()[..n];
      iBuffer.Retrieve(n);
    }

    method Shutdown()
      requires Valid()
      modifies this`status, this`halfClosed
      ensures Valid() && View() == UserNext(old(View()), User.Shutdown)
    {
      ghost var before := View();
      UserKeeps(before, User.Shutdown);
      if status == Connected {
        status := Disconnecting;
        ShutdownInLoop();
      }
    }

    method ShutdownInLoop()
      requires Parts()
      modifies this`halfClosed
      ensures Parts() && View() == old(View()).(halfClosed := old(halfClosed) || !chan.IsWriting())
    {
      if !chan.IsWriting() {
        halfClosed := true;
      }
    }

    method ForceClose()
      requires Valid()
      modifies this`status, this`forces
      ensures Valid() && View() == UserNext(old(View()), User.ForceClose)
    {
      ghost var before := View();
      UserKeeps(before, User.ForceClose);
      if status == Connected || status == Disconnecting {
        status := Disconnecting;
        forces := forces + 1;
      }
    }

    /** One call that a callback makes on this connection. */
    method UserCall(u: User)
      requires Valid()
      modifies Footprint()
      ensures OthersKept()
      ensures Valid() && fresh(Footprint() - old(Footprint()))
      ensures View() == UserNext(old(View()), u)
    {
      hide Inv, UserNext;
      ClippedUser(View(), u);
      match u
      case Send(data, wrote) => var _ := Send(data, Clip(wrote, |data|));
      case SendInput(wrote) => var _ := SendInput(Clip(wrote, |iBuffer.Peek()|));
      case Consume(n) => Consume(if n <= |iBuffer.Peek()| then n else |iBuffer.Peek()|);
      case Shutdown => Shutdown();
      case ForceClose => ForceClose();
    }

    /** A user callback: any sequence of calls on this connection. */
    method Callback(us: seq<User>)
      requires Valid()
      modifies Footprint()
      ensures OthersKept()
      ensures Valid() && fresh(Footprint() - old(Footprint()))
      ensures View() == Users(old(View()), us)
    {
      hide Inv, UserNext;
      var k := 0;
      while k < |us|
        invariant k <= |us|
        invariant Valid() && fresh(Footprint() - old(Footprint()))
        invariant OthersKept()
        invariant Users(View(), us[k..]) == Users(old(View()), us)
      {
        assert us[k..][1..] == us[k + 1..];
        UserCall(us[k]);
        k := k + 1;
      }
    }

    /** The close's own effects: status, channel and the entry of the down callback. */
    method GoDown()
      requires Parts() && chan.added
      modifies this`status, this`cbs, chan`events, chan`added, chan.poller
      ensures OthersKept()
      ensures Parts() && View() == old(View()).(status := Disconnected, chan := Apply(old(View().chan), DisableAll),
                                                cbs := old(cbs) + [false])
    {
      hide Apply;
      status := Disconnected;
      chan.DisableAll();
      cbs := cbs + [false];
    }

    /** _onCloseCb. */
    method CountClose()
      requires Parts()
      modifies this`closes
      ensures Parts() && View() == old(View()).(closes := old(closes) + 1)
    {
      closes := closes + 1;
    }

    method HandleClose(onDown: seq<User>)
      requires Valid() && (status == Connected || status == Disconnecting)
      modifies Footprint()
      ensures OthersKept()
      ensures Valid() && fresh(Footprint() - old(Footprint()))
      ensures View() == ConnSpec.HandleClose(old(View()), onDown)
    {
      hide Inv, Users, Apply;
      ghost var before := View();
      CloseKeeps(before, onDown);
      InterestedIsAdded(before);
      GoDown();
      assert View() == CloseDown(before);
      hide CloseDown, ConnSpec.HandleClose;
      Callback(onDown);
      CountClose();
      assert View() == ConnSpec.HandleClose(before, onDown) by { ClosedIs(before, onDown); }
    }

    /** handleRead. `io` is what has arrived and `seen` what the readv calls took of it. A read of
        end-of-stream must not find the connection closed. */
    method HandleRead(io: Io) returns (ghost seen: Io)
      requires Valid() && status != Connecting
      requires io.first.N() == 0 ==> status != Disconnected
      modifies Footprint()
      ensures OthersKept()
      ensures Valid() && fresh(Footprint() - old(Footprint()))
      ensures View() == ConnSpec.HandleRead(old(View()), seen)
      ensures seen == io.(first := BufferSpec.Taken(old(iBuffer.View()), io.first),
                          retry := BufferSpec.Taken(old(iBuffer.View()), io.retry))
    {
      hide Inv, Users, ConnSpec.HandleClose, BufferSpec.Fits, BufferSpec.Offered;
      ghost var before := View();
      seen := io.(first := BufferSpec.Taken(iBuffer.View(), io.first),
                  retry := BufferSpec.Taken(iBuffer.View(), io.retry));
      ReadInKeeps(before, seen);
      var n := ReadInput(io);
      if n > 0 {
        Callback(io.onMessage);
      } else if n == 0 {
        HandleClose(io.onDown);
      }
    }

    /** _iBuffer.readFd. */
    method ReadInput(io: Io) returns (n: int)
      requires Parts()
      modifies iBuffer, iBuffer.data, this`received
      ensures Parts() && (iBuffer.data == old(iBuffer.data) || fresh(iBuffer.data))
      ensures var seen := io.(first := BufferSpec.Taken(old(iBuffer.View()), io.first),
                              retry := BufferSpec.Taken(old(iBuffer.View()), io.retry));
              n == seen.first.N() && View() == ReadIn(old(View()), seen)
    {
      hide BufferSpec.Fits, BufferSpec.Offered;
      var first, retry := Clipped(io.first), Clipped(io.retry);
      n := iBuffer.ReadFd(first, retry);
      received := received + BufferSpec.Arrived(first, retry);
    }

    /** A readv takes at most what the input buffer and the spill area have room for. */
    function Clipped(r: BufferSpec.ReadResult): (t: BufferSpec.ReadResult)
      requires Parts()
      reads Footprint()
      ensures t == BufferSpec.Taken(iBuffer.View(), r)
    {
      if r.Delivered? && |r.bytes| > iBuffer.Room() then BufferSpec.Delivered(r.bytes[..iBuffer.Room()]) else r
    }

    /** The write and what follows it. */
    method Drain(wrote: int)
      requires Parts() && chan.IsWriting() && chan.added
      modifies Footprint()
      ensures OthersKept()
      ensures Parts() && Footprint() == old(Footprint())
      ensures View() == ConnSpec.HandleWrite(old(View()), wrote)
    {
      hide Apply;
      var n := Clip(wrote, |oBuffer.Peek()|);
      if n > 0 {
        written := written + oBuffer.Peek()[..n];
        oBuffer.Retrieve(n);
        if oBuffer.ReadableBytes() == 0 {
          chan.DisableWriting();
          QueueNote();
        }
      }
    }

    method HandleWrite(wrote: int)
      requires Valid() && status != Connecting
      modifies Footprint()
      ensures OthersKept()
      ensures Valid() && Footprint() == old(Footprint())
      ensures View() == ConnSpec.HandleWrite(old(View()), wrote)
      ensures -1 <= wrote <= |old(oBuffer.Peek())| ==>
                var k := if old(Out in chan.events) && wrote > 0 then wrote else 0;
                && written == old(written) + old(oBuffer.Peek())[..k] && oBuffer.Peek() == old(oBuffer.Peek())[k..]
    {
      hide Apply, Inv;
      ghost var before := View();
      if -1 <= wrote <= |before.outq| { DrainTakesExactly(before, wrote); }
      WriteKeeps(before, wrote);
      InterestedIsAdded(before);
      if chan.IsWriting() {
        Drain(wrote);
      }
    }

    method HandleError() {
    }

    /** Channel::handleEvent with this connection's handlers. The kernel reports events of registered
        channels, and no hang-up that clashes with end-of-stream. `seen` differs from io at most in
        what the readv calls took of the bytes that had arrived. */
    method HandleEvent(rev: set<Event>, io: Io) returns (ghost seen: Io)
      requires Valid() && chan.added && !HangupClash(rev, io.first)
      modifies Footprint()
      ensures OthersKept()
      ensures Valid() && fresh(Footprint() - old(Footprint()))
      ensures View() == ConnSpec.HandleEvent(old(View()), rev, seen)
      ensures Served(io, seen)
    {
      hide Inv, Users, Apply, ConnSpec.HandleClose, ConnSpec.HandleRead, ConnSpec.HandleWrite, AfterRead, AfterHangup,
           BufferSpec.Offered;
      ghost var before := View();
      HangupKeeps(before, rev, io);
      EventKeeps(before, rev, io);
      OnHangup(rev, io);
      if Err in rev || Nval in rev {
        HandleError();
      }
      ReadBits(rev);
      seen := OnReadable(rev, io);
      assert AfterHangup(before, rev, seen) == AfterHangup(before, rev, io) by { SameHangup(before, rev, io, seen); }
      if Out in rev {
        HandleWrite(io.wrote);
      }
    }

    method OnHangup(rev: set<Event>, io: Io)
      requires Valid() && status != Connecting && (status == Connected || status == Disconnecting)
      modifies Footprint()
      ensures OthersKept()
      ensures Valid() && fresh(Footprint() - old(Footprint()))
      ensures View() == AfterHangup(old(View()), rev, io)
    {
      hide Inv, ConnSpec.HandleClose;
      if Hup in rev && In !in rev {
        HandleClose(io.onDown);
      }
    }

    method OnReadable(rev: set<Event>, io: Io) returns (ghost seen: Io)
      requires Valid() && status != Connecting
      requires io.first.N() == 0 && rev * {In, Pri, RdHup} != {} ==> status != Disconnected
      modifies Footprint()
      ensures OthersKept()
      ensures Valid() && fresh(Footprint() - old(Footprint()))
      ensures Served(io, seen) && View() == AfterRead(old(View()), rev, seen)
      ensures status != Connecting
    {
      hide Inv, ConnSpec.HandleRead, BufferSpec.Fits;
      ghost var before := View();
      seen := io;
      ReadBits(rev);
      if In in rev || Pri in rev || RdHup in rev {
        seen := HandleRead(io);
        ReadKeeps(before, seen);
      }
    }

    method ConnectionEstablished(onUp: seq<User>)
      requires Valid() && status == Connecting
      modifies Footprint()
      ensures OthersKept()
      ensures Valid() && fresh(Footprint() - old(Footprint()))
      ensures View() == Next(old(View()), Establish(onUp))
    {
      hide Users, Apply;
      ghost var before := View();
      EstablishKeeps(before, onUp);
      status := Connected;
      chan.EnableReading();
      cbs := cbs + [true];
      Callback(onUp);
    }

    method ConnectionDestroyed(onLast: seq<User>)
      requires Valid()
      modifies Footprint()
      ensures OthersKept()
      ensures Valid() && fresh(Footprint() - old(Footprint()))
      ensures View() == Next(old(View()), Destroy(onLast))
    {
      hide Inv, Users, Apply;
      ghost var before := View();
      InterestedIsAdded(before);
      DestroyKeeps(before, onLast);
      if status == Connected {
        GoDown();
        Callback(onLast);
      }
    }

    method ForceCloseInLoop(onDown: seq<User>)
      requires Valid() && forces > 0
      modifies Footprint()
      ensures OthersKept()
      ensures Valid() && fresh(Footprint() - old(Footprint()))
      ensures View() == Next(old(View()), RunForceClose(onDown))
    {
      hide Inv, Users, Apply, ConnSpec.HandleClose;
      ghost var before := View();
      ForceKeeps(before, onDown);
      forces := forces - 1;
      if status == Connected || status == Disconnecting {
        HandleClose(onDown);
      }
    }

    /** send from another thread: a task with a copy of the data. */
    method SendFromOtherThread(data: seq<byte>) returns (sent: bool)
      requires Valid()
      modifies this`deferred
      ensures Valid() && View() == Next(old(View()), Defer(data))
      ensures sent <==> status == Connected
      ensures deferred == if sent then old(deferred) + [data] else old(deferred)
    {
      ghost var before := View();
      CallKeeps(before, Defer(data));
      if status == Connected {
        deferred := deferred + [data];
        return true;
      }
      return false;
    }

    /** The loop runs the oldest such task. */
    method RunDeferredSend(wrote: int)
      requires Valid() && |deferred| > 0 && -1 <= wrote <= |deferred[0]|
      modifies Footprint()
      ensures OthersKept()
      ensures Valid() && fresh(Footprint() - old(Footprint()))
      ensures View() == Next(old(View()), RunDeferred(wrote))
      ensures deferred == old(deferred)[1..]
      ensures accepted == if old(status) == Disconnected then old(accepted) else old(accepted) + old(deferred)[0]
    {
      hide Inv, ConnSpec.SendInLoop;
      ghost var before := View();
      DeferredKeeps(before, wrote);
      var data := deferred[0];
      deferred := deferred[1..];
      if status == Disconnected { SendGivesUp(View(), data, wrote); } else { SendTakesExactly(View(), data, wrote); }
      SendInLoop(data, wrote);
    }
  }

  /** A connection's state does not depend on what else its poller watches. */
  twostate lemma Untouched(c: TcpConnection)
    requires old(c.Valid())
    requires unchanged(c, c.chan, c.oBuffer, c.iBuffer)
    requires unchanged(old(c.oBuffer.data), old(c.iBuffer.data))
    requires c.chan.poller.Entry(c.chan.fd) == old(c.chan.poller.Entry(c.chan.fd))
    ensures c.Valid() && c.View() == old(c.View())
  {
  }

  /** The objects of a connection that no other connection has. */
  ghost function Own(c: TcpConnection): set<object>
    reads c, c.oBuffer, c.iBuffer
  {
    {c, c.chan, c.oBuffer, c.oBuffer.data, c.iBuffer, c.iBuffer.data}
  }

  /** Two connections of one loop share nothing but the poller, where they have different descriptors. */
  ghost predicate Apart(a: TcpConnection, b: TcpConnection)
    reads a, a.oBuffer, a.iBuffer, b, b.oBuffer, b.iBuffer
  {
    a.chan.poller == b.chan.poller && a.chan.fd != b.chan.fd && Own(a) !! Own(b)
  }

  /** The loop handles the events of two active connections one after the other: the second one's state is
      not touched by the first one's handlers, nor the first one's by the second's. */
  method HandleBoth(a: TcpConnection, b: TcpConnection, reva: set<Event>, revb: set<Event>, ioa: Io, iob: Io)
    returns (ghost seena: Io, ghost seenb: Io)
    requires a.Valid() && b.Valid() && Apart(a, b) && a.chan.added && b.chan.added
    requires !HangupClash(reva, ioa.first) && !HangupClash(revb, iob.first)
    modifies a.Footprint(), b.Footprint()
    ensures a.Valid() && a.View() == HandleEvent(old(a.View()), reva, seena) && Served(ioa, seena)
    ensures b.Valid() && b.View() == HandleEvent(old(b.View()), revb, seenb) && Served(iob, seenb)
    ensures Apart(a, b)
  {
    hide Inv, HandleEvent, Served, HangupClash, TcpConnection.View, TcpConnection.Valid, TcpConnection.Parts;
    seena := a.HandleEvent(reva, ioa);
    Untouched(b);
    label One:
    seenb := b.HandleEvent(revb, iob);
    Untouched@One(a);
  }
}
