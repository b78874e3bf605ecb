/**
 A channel's interest mask and the kernel's epoll table: src/net/Channel.h, src/net/Channel.cpp and
 src/net/EPollPoller.cpp. epoll_ctl fails, changing nothing, when it adds a present entry or
 modifies or deletes an absent one.
 */
module Polling {

  datatype Event = In | Pri | Out | Err | Hup | RdHup | Nval

  const READ: set<Event> := {In, Pri}
  const WRITE: set<Event> := {Out}

  datatype Option<T> = None | Some(value: T)

  // ---------------------------------------------------------------- one channel as a value

  /** `entry` is the channel's entry in the kernel table; `ok` turns false when updateChannel's
      assertion fails. */
  datatype Interest = Interest(events: set<Event>, added: bool, entry: Option<set<Event>>, ok: bool) {
    predicate IsWriting() { Out in events }
  }

  datatype Ctl = CtlAdd | CtlMod | CtlDel

  function EpollCtl(op: Ctl, entry: Option<set<Event>>, events: set<Event>): Option<set<Event>> {
    match op
    case CtlAdd => if entry.None? then Some(events) else entry
    case CtlMod => if entry.Some? then Some(events) else entry
    case CtlDel => None
  }

  /** updateChannel. */
  function Update(c: Interest): Interest {
    if c.added then
      if c.events == {} then c.(entry := EpollCtl(CtlDel, c.entry, c.events), added := false)
      else c.(entry := EpollCtl(CtlMod, c.entry, c.events))
    else
      c.(ok := c.ok && c.events != {}, entry := EpollCtl(CtlAdd, c.entry, c.events), added := true)
  }

  function Idle(): Interest {
    Interest({}, false, None, true)
  }

  datatype Change = EnableReading | DisableReading | EnableWriting | DisableWriting | DisableAll

  function Mask(events: set<Event>, g: Change): set<Event> {
    match g
    case EnableReading => events + READ
    case DisableReading => events - READ
    case EnableWriting => events + WRITE
    case DisableWriting => events - WRITE
    case DisableAll => {}
  }

  function Apply(c: Interest, g: Change): Interest {
    Update(c.(events := Mask(c.events, g)))
  }

  function ApplyAll(c: Interest, gs: seq<Change>): Interest
    decreases |gs|
  {
    if gs == [] then c else ApplyAll(Apply(c, gs[0]), gs[1..])
  }

  /** The kernel has an entry iff the flag says so iff the mask is non-empty, and the masks agree. */
  predicate Agree(c: Interest) {
    && (c.added <==> c.events != {})
    && c.entry == (if c.added then Some(c.events) else None)
  }

  /** The assertion of updateChannel fails exactly when a disable leaves a channel without events that
      had none; every other change keeps the kernel table in agreement. */
  lemma ChangeAgrees(c: Interest, g: Change)
    requires Agree(c) && c.ok
    ensures var d := Apply(c, g);
            && (d.ok <==> !(c.events == {} && !g.EnableReading? && !g.EnableWriting?))
            && (d.ok ==> Agree(d))
            && d.events == Mask(c.events, g)
  {
  }

  /** The five changes in the kernel's terms: reading asks for IN and PRI, writing for OUT, and a channel that
      asks for nothing has no entry. */
  lemma ChangesExactly(c: Interest)
    requires Agree(c) && c.ok
    ensures var d := Apply(c, EnableReading);
            d.events == c.events + {In, Pri} && d.entry == Some(c.events + {In, Pri}) && d.added && d.ok
    ensures var d := Apply(c, EnableWriting);
            d.events == c.events + {Out} && d.entry == Some(c.events + {Out}) && d.added && d.ok
    ensures c.events != {} ==>
              var d := Apply(c, DisableReading);
              d.events == c.events - {In, Pri} && d.entry == if d.events == {} then None else Some(c.events - {In, Pri})
    ensures c.events != {} ==>
              var d := Apply(c, DisableWriting);
              d.events == c.events - {Out} && d.entry == if d.events == {} then None else Some(c.events - {Out})
    ensures c.events != {} ==> var d := Apply(c, DisableAll); d.events == {} && d.entry == None && !d.added
  {
    assert In in c.events + {In, Pri} && Out in c.events + {Out};
  }

  /** No disable is made on a channel without events. */
  predicate Sensible(c: Interest, gs: seq<Change>)
    decreases |gs|
  {
    gs == [] ||
    (!(c.events == {} && !gs[0].EnableReading? && !gs[0].EnableWriting?) && Sensible(Apply(c, gs[0]), gs[1..]))
  }

  /** For every run of enables and disables the table and the channel agree at the end and no assertion
      fails, if and only if the run never disables an idle channel. */
  lemma {:induction false} TableAgreesIffSensible(c: Interest, gs: seq<Change>)
    requires Agree(c) && c.ok
    ensures ApplyAll(c, gs).ok <==> Sensible(c, gs)
    ensures Sensible(c, gs) ==> Agree(ApplyAll(c, gs))
    decreases |gs|
  {
    if gs != [] {
      ChangeAgrees(c, gs[0]);
      if Apply(c, gs[0]).ok {
        TableAgreesIffSensible(Apply(c, gs[0]), gs[1..]);
      } else {
        FailedStaysFailed(Apply(c, gs[0]), gs[1..]);
      }
    }
  }

  lemma {:induction false} FailedStaysFailed(c: Interest, gs: seq<Change>)
    requires !c.ok
    ensures !ApplyAll(c, gs).ok
    decreases |gs|
  {
    if gs != [] {
      FailedStaysFailed(Apply(c, gs[0]), gs[1..]);
    }
  }

  // ---------------------------------------------------------------- channels sharing one poller

  class EPollPoller {
    /** The kernel's table, by descriptor. */
    var table: map<int, set<Event>>

    constructor ()
      ensures table == map[]
    {
      table := map[];
    }

    method Ctl(op: Ctl, fd: int, events: set<Event>)
      modifies this
      ensures Entry(fd) == EpollCtl(op, old(Entry(fd)), events)
      ensures forall x :: x != fd ==> Entry(x) == old(Entry(x))
    {
      match op
      case CtlAdd => if fd !in table { table := table[fd := events]; }
      case CtlMod => if fd in table { table := table[fd := events]; }
      case CtlDel => table := table - {fd};
    }

    function Entry(fd: int): Option<set<Event>>
      reads this
    {
      if fd in table then Some(table[fd]) else None
    }

    /** The channel must have events unless it is in the table. */
    method UpdateChannel(c: Channel)
      requires c.poller == this && (c.added || c.events != {})
      modifies this, c`added
      ensures c.View() == Update(old(c.View()))
      ensures forall x :: x != c.fd ==> Entry(x) == old(Entry(x))
    {
      if c.added {
        if c.events == {} {
          Ctl(CtlDel, c.fd, c.events);
          c.added := false;
        } else {
          Ctl(CtlMod, c.fd, c.events);
        }
      } else {
        Ctl(CtlAdd, c.fd, c.events);
        c.added := true;
      }
    }

    /** The destructor's removal. */
    method RemoveChannel(c: Channel)
      requires c.poller == this
      modifies this, c`added
      ensures !c.added && (old(c.added) || old(c.View().entry.None?) ==> c.View().entry.None?)
      ensures forall x :: x != c.fd ==> Entry(x) == old(Entry(x))
    {
      if c.added {
        Ctl(CtlDel, c.fd, c.events);
        c.added := false;
      }
    }
  }

  class Channel {
    const poller: EPollPoller
    const fd: int
    var events: set<Event>
    var revents: set<Event>
    var added: bool   // _pollAddingFlag

    constructor (poller: EPollPoller, fd: int)
      ensures this.poller == poller && this.fd == fd && events == {} && !added
    {
      this.poller, this.fd := poller, fd;
      events, revents, added := {}, {}, false;
    }

    function View(): Interest
      reads this, poller
    {
      Interest(events, added, poller.Entry(fd), true)
    }

    /** kWriteEvent is one bit. */
    predicate IsWriting()
      reads this
    {
      Out in events
    }

    method EnableReading()
      modifies this`events, this`added, poller
      ensures View() == Apply(old(View()), Change.EnableReading)
      ensures forall x :: x != fd ==> poller.Entry(x) == old(poller.Entry(x))
    {
      events := events + READ;
      assert In in events;
      poller.UpdateChannel(this);
    }

    method DisableReading()
      requires added || events - READ != {}
      modifies this`events, this`added, poller
      ensures View() == Apply(old(View()), Change.DisableReading)
      ensures forall x :: x != fd ==> poller.Entry(x) == old(poller.Entry(x))
    {
      events := events - READ;
      poller.UpdateChannel(this);
    }

    method EnableWriting()
      modifies this`events, this`added, poller
      ensures View() == Apply(old(View()), Change.EnableWriting)
      ensures forall x :: x != fd ==> poller.Entry(x) == old(poller.Entry(x))
    {
      events := events + WRITE;
      assert Out in events;
      poller.UpdateChannel(this);
    }

    method DisableWriting()
      requires added || events - WRITE != {}
      modifies this`events, this`added, poller
      ensures View() == Apply(old(View()), Change.DisableWriting)
      ensures forall x :: x != fd ==> poller.Entry(x) == old(poller.Entry(x))
    {
      events := events - WRITE;
      poller.UpdateChannel(this);
    }

    method DisableAll()
      requires added
      modifies this`events, this`added, poller
      ensures View() == Apply(old(View()), Change.DisableAll)
      ensures forall x :: x != fd ==> poller.Entry(x) == old(poller.Entry(x))
    {
      events := {};
      poller.UpdateChannel(this);
    }
  }
}
