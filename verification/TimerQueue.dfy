/**
 The timer queue as src/net/Timer.h and src/net/Timer.cpp have it: heap timers whose sort key
 changes, an ordered set of references to them, and methods that refine the steps of TimerSpec.
 `canceling` and the set hold references; a timer's key may change only while it is outside the set.
 */
module TimerQueues {
  import opened TimerSpec
  import Laws = TimerLaws
  import P = TimerProof

  /** The process-wide id counter. */
  class IdSource {
    var numCreated: nat
    constructor ()
      ensures numCreated == 0
    {
      numCreated := 0;
    }
  }

  class Timer {
    var expireTs: int
    const interval: real
    const id: nat

    constructor (ids: IdSource, expiration: int, interval: real)
      modifies ids
      ensures expireTs == expiration && this.interval == interval
      ensures id == old(ids.numCreated) && ids.numCreated == old(ids.numCreated) + 1
    {
      expireTs := expiration;
      this.interval := interval;
      id := ids.numCreated;
      new;
      ids.numCreated := ids.numCreated + 1;
    }

    ghost function Value(): Entry
      reads this
    {
      Entry(id, expireTs, interval)
    }

    predicate Repeat() {
      interval > 0.0
    }

    method Restart(now: int)
      modifies this
      ensures Value() == if interval > 0.0 then Restarted(old(Value()), now) else Entry(id, 0, interval)
      ensures expireTs == if interval > 0.0 then now + (interval * 1000000.0).Floor else 0
    {
      if Repeat() {
        expireTs := now + Micros(interval);
      } else {
        expireTs := 0;
      }
    }
  }

  /** TimerCmp on references. */
  predicate Before(a: Timer, b: Timer)
    reads a, b
    ensures Before(a, b) == Less(a.Value(), b.Value())
  {
    if a.expireTs == b.expireTs then a.id < b.id else a.expireTs < b.expireTs
  }

  /** The values of a sequence of timers in the current heap. */
  ghost function Values(ts: seq<Timer>): (es: seq<Entry>)
    reads ts
    ensures |es| == |ts| && forall i :: 0 <= i < |ts| ==> es[i] == ts[i].Value()
  {
    seq(|ts|, i requires 0 <= i < |ts| reads ts => ts[i].Value())
  }

  ghost function Objects(ts: seq<Timer>): set<Timer> {
    set t | t in ts
  }

  ghost function ValuesOf(m: map<nat, Timer>): (v: map<nat, Entry>)
    reads m.Values
    ensures v.Keys == m.Keys && forall id :: id in m ==> v[id] == m[id].Value()
  {
    map id | id in m :: m[id].Value()
  }

  datatype TimerId = TimerId(sequence: nat, timer: Timer)

  /** TimerId compares by its sequence number. */
  ghost function Sequences(cs: set<TimerId>): set<nat> {
    set c | c in cs :: c.sequence
  }

  // ---------------------------------------------------------------- positions in an ordered set

  lemma {:induction false} InsertAt(es: seq<Entry>, e: Entry, p: nat)
    requires p <= |es|
    requires forall i :: 0 <= i < p ==> Less(es[i], e)
    requires p < |es| ==> Less(e, es[p])
    ensures Insert(es, e) == es[..p] + [e] + es[p..]
  {
    if p > 0 {
      assert Less(es[0], e) && !Less(e, es[0]);
      InsertAt(es[1..], e, p - 1);
      assert es[1..][..p - 1] == es[1..p] && es[1..][p - 1..] == es[p..];
      assert es[..p] == [es[0]] + es[1..p];
    } else if es == [] {
      assert [] + [e] + es == [e];
    } else {
      assert es[..0] + [e] + es[0..] == [e] + es;
    }
  }

  lemma {:induction false} WithoutAt(es: seq<Entry>, p: nat)
    requires Ordered(es) && p < |es|
    ensures Without(es, {es[p].id}) == es[..p] + es[p + 1..]
  {
    var tail := es[1..];
    if p == 0 {
      assert Ids(tail) !! {es[0].id};
      WithoutNone(tail, {es[0].id});
      assert es[..0] + tail == tail;
    } else {
      OrderedPairs(es, 0, p);
      WithoutAt(tail, p - 1);
      assert tail[p - 1] == es[p];
      assert es[..p] + es[p + 1..] == [es[0]] + (tail[..p - 1] + tail[p..]);
    }
  }

  lemma {:induction false} LowerBoundAt(es: seq<Entry>, key: Entry, p: nat)
    requires p <= |es|
    requires forall i :: 0 <= i < p ==> Less(es[i], key)
    requires p < |es| ==> !Less(es[p], key)
    ensures LowerBound(es, key) == p
  {
    if p > 0 {
      assert Less(es[0], key);
      LowerBoundAt(es[1..], key, p - 1);
    }
  }

  lemma Inserted(ts: seq<Timer>, t: Timer, p: nat)
    requires p <= |ts|
    ensures Values(ts[..p] + [t] + ts[p..]) == Values(ts)[..p] + [t.Value()] + Values(ts)[p..]
    ensures forall x :: x in ts[..p] + [t] + ts[p..] <==> x in ts || x == t
  {
    var all := ts[..p] + [t] + ts[p..];
    var es := Values(ts)[..p] + [t.Value()] + Values(ts)[p..];
    forall i | 0 <= i < |all| ensures Values(all)[i] == es[i] {
      if i > p { assert all[i] == ts[i - 1]; }
    }
    assert ts == ts[..p] + ts[p..];
  }

  lemma Removed(ts: seq<Timer>, p: nat)
    requires p < |ts| && Ordered(Values(ts))
    ensures Values(ts[..p] + ts[p + 1..]) == Values(ts)[..p] + Values(ts)[p + 1..]
    ensures forall x :: x in ts[..p] + ts[p + 1..] <==> x in ts && x != ts[p]
  {
    assert ts == ts[..p] + [ts[p]] + ts[p + 1..];
    forall i | 0 <= i < |ts| && i != p ensures ts[i] != ts[p] {
      OrderedPairs(Values(ts), if i < p then i else p, if i < p then p else i);
    }
  }

  /** lower_bound finds an element of the set itself. */
  lemma PositionOf(ts: seq<Timer>, t: Timer, p: nat)
    requires Ordered(Values(ts)) && t in ts && p <= |ts|
    requires forall i :: 0 <= i < p ==> Less(Values(ts)[i], t.Value())
    requires p < |ts| ==> !Less(Values(ts)[p], t.Value())
    ensures p < |ts| && ts[p] == t
  {
    var k :| 0 <= k < |ts| && ts[k] == t;
    assert Values(ts)[k] == t.Value();
    if p < k {
      OrderedPairs(Values(ts), p, k);
    }
  }

  lemma MemberId(ts: seq<Timer>, t: Timer)
    requires t in ts
    ensures t.id in Ids(Values(ts)) && t.Value() in Values(ts)
  {
    var k :| 0 <= k < |ts| && ts[k] == t;
    assert Values(ts)[k] == t.Value();
  }

  lemma SameIdSameTimer(ts: seq<Timer>, a: Timer, b: Timer)
    requires Ordered(Values(ts)) && a in ts && b in ts && a.id == b.id
    ensures a == b
  {
    var i :| 0 <= i < |ts| && ts[i] == a;
    var j :| 0 <= j < |ts| && ts[j] == b;
    if i < j { OrderedPairs(Values(ts), i, j); } else if j < i { OrderedPairs(Values(ts), j, i); }
  }

  /** Inside one set, a TimerId is known by its sequence number. */
  lemma SequenceKnown(ts: seq<Timer>, cs: set<TimerId>, id: TimerId)
    requires Ordered(Values(ts)) && id.timer in ts && id.sequence == id.timer.id
    requires forall c :: c in cs ==> c.timer in ts && c.sequence == c.timer.id
    ensures id.sequence in Sequences(cs) <==> id in cs
    ensures id !in cs ==> forall c :: c in cs ==> c.timer != id.timer
  {
    forall c | c in cs && c.sequence == id.sequence ensures c == id {
      SameIdSameTimer(ts, c.timer, id.timer);
    }
  }

  lemma PurgedNone(es: seq<Entry>)
    ensures Without(es, Sequences({})) == es && Sequences({}) == {}
  {
    assert Sequences({}) == {};
    WithoutNone(es, {});
  }

  /** Purging one cancel and then the others is purging them all. */
  lemma PurgedOneMore(es: seq<Entry>, left: set<TimerId>, id: TimerId)
    requires id in left
    ensures Sequences(left) == {id.sequence} + Sequences(left - {id})
    ensures Without(Without(es, {id.sequence}), Sequences(left - {id})) == Without(es, Sequences(left))
  {
    assert left == {id} + (left - {id});
    assert Sequences(left) == {id.sequence} + Sequences(left - {id});
    WithoutTwice(es, {id.sequence}, Sequences(left - {id}));
  }

  /** What reset does to the timerfd: nothing for an empty set, and else it is armed for the earliest. */
  ghost predicate Alarmed(es: seq<Entry>, clock: int, alarm0: Alarm, fired0: bool, alarm: Alarm, fired: bool) {
    if es == [] then alarm == alarm0 && fired == fired0
    else alarm == Armed(Max(es[0].expiry, clock + 100), clock) && !fired
  }

  /** The parts of a finished batch make up the state that TimerSpec asks for. */
  lemma EndsAs(q: Queue, r: Queue)
    requires q.phase.Batch?
    requires r == q.(timers := Reinsert(q.timers, q.phase.expired, q.canceling, q.phase.now), phase := Idle,
                     freed := q.freed + Released(q.phase.expired, q.canceling), alarm := r.alarm, fired := r.fired)
    requires Alarmed(r.timers, q.clock, q.alarm, q.fired, r.alarm, r.fired)
    ensures r == EndNext(q)
  {
  }

  lemma AddsAs(q: Queue, r: Queue, id: nat)
    requires id in q.inFlight
    requires r == q.(timers := Insert(q.timers, q.inFlight[id]), inFlight := q.inFlight - {id},
                     alarm := r.alarm, fired := r.fired)
    requires if q.timers == [] || q.inFlight[id].expiry < q.timers[0].expiry
             then r.alarm == Armed(Max(q.inFlight[id].expiry, q.clock + 100), q.clock) && !r.fired
             else r.alarm == q.alarm && r.fired == q.fired
    ensures r == AddNext(q, id)
  {
  }

  datatype Lookup = Known(tid: TimerId) | Unknown

  /** What a timer callback can do to its queue; a cancel names a timer by its id. */
  datatype Action = AddTimer(expiration: int, interval: real) | CancelTimer(id: nat) | Wait(us: nat)

  /** The parts that getExpired leaves. */
  lemma TakesAs(q: Queue, r: Queue)
    requires var n := LowerBound(q.timers, Sentinel(q));
             r == q.(timers := q.timers[n..], phase := Batch(q.clock, q.timers[..n], 0), nextId := q.nextId + 1,
                     elsewhere := q.elsewhere + {q.nextId})
    ensures r == TakeExpired(q)
  {
  }

  lemma ValuesAdded(m: map<nat, Timer>, t: Timer)
    ensures ValuesOf(m[t.id := t]) == ValuesOf(m)[t.id := t.Value()]
  {
  }

  /** Reading the timerfd does not change what is due. */
  lemma DueLater(q: Queue)
    ensures TakeExpired(Purge(q.(fired := false))).phase.Batch?
    ensures TakeExpired(Purge(q.(fired := false))).phase.expired == Due(q)
  {
  }

  /** Timers waiting to be inserted are not the objects of a batch. */
  lemma FlyersApart(m: map<nat, Timer>, ts: seq<Timer>)
    requires forall id :: id in m ==> m[id].id == id && id !in Ids(Values(ts))
    ensures forall id :: id in m ==> m[id] !in ts
  {
    forall id | id in m ensures m[id] !in ts {
      if m[id] in ts { MemberId(ts, m[id]); }
    }
  }

  class TimerQueue {
    const ids: IdSource
    var timers: seq<Timer>          // std::set ordered by TimerCmp
    var canceling: set<TimerId>
    var working: bool               // _timerTaskWorkingFlag
    var alarm: Alarm                // the timerfd
    var fired: bool
    var clock: int

    ghost var phase: Phase
    ghost var batch: seq<Timer>     // the local vector of handleRead
    ghost var inFlight: map<nat, Timer>
    ghost var freed: set<nat>
    ghost var elsewhere: set<nat>
    ghost var log: seq<Firing>

    ghost function View(): Queue
      reads this, ids, timers, batch, inFlight.Values
    {
      Queue(Values(timers), Sequences(canceling),
            if phase.Batch? then Batch(phase.now, Values(batch), phase.next) else Idle,
            alarm, fired, clock, ids.numCreated,
            ValuesOf(inFlight), freed, elsewhere, log, true)
    }

    ghost predicate Valid()
      reads this, ids, timers, batch, inFlight.Values
    {
      && P.Inv(View())
      && (working ==> phase.Batch?)
      && (phase.Idle? ==> batch == [])
      && InSet(canceling)
    }

    /** Ids handed out before belong to the timers of other queues. */
    constructor (ids: IdSource, clock: int)
      ensures Valid() && View() == InitAt(clock, ids.numCreated) && this.ids == ids
    {
      this.ids := ids;
      timers, canceling, working := [], {}, false;
      alarm, fired, this.clock := Off, false, clock;
      phase, batch, inFlight, freed, log := Idle, [], map[], {}, [];
      elsewhere := Below(ids.numCreated);
      new;
      P.InitInv(clock, ids.numCreated);
    }

    /** A new heap Timer takes an id and touches nothing else. */
    method NewTimer(expiration: int, interval: real) returns (t: Timer)
      modifies ids
      ensures fresh(t) && t.Value() == Entry(old(ids.numCreated), expiration, interval)
      ensures View() == old(View()).(nextId := old(ids.numCreated) + 1)
    {
      hide Values, ValuesOf, Sequences;
      t := new Timer(ids, expiration, interval);
    }

    /** addTimer, up to handing the new timer to the loop. */
    method Create(expiration: int, interval: real) returns (t: Timer)
      requires Valid()
      modifies this`inFlight, ids
      ensures Valid() && fresh(t) && t.Value() == Entry(old(ids.numCreated), expiration, interval)
      ensures t.id in inFlight && inFlight[t.id] == t
      ensures View() == Next(old(View()), TimerSpec.Create(expiration, interval))
      ensures timers == old(timers) && batch == old(batch)
    {
      hide P.Inv, Values, ValuesOf, Sequences, InSet, AddNext, CancelNext, BeginNext, EndNext;
      ghost var before := View();
      P.InvOrdered(before);
      P.StepKept(before, TimerSpec.Create(expiration, interval));
      t := NewTimer(expiration, interval);
      ValuesAdded(inFlight, t);
      inFlight := inFlight[t.id := t];
    }

    /** std::set::lower_bound. */
    method LowerBoundOf(key: Timer) returns (p: nat)
      ensures p == LowerBound(Values(timers), key.Value()) && p <= |timers|
      ensures forall i :: 0 <= i < p ==> Less(Values(timers)[i], key.Value())
      ensures p < |timers| ==> !Less(Values(timers)[p], key.Value())
    {
      p := 0;
      while p < |timers| && Before(timers[p], key)
        invariant p <= |timers|
        invariant forall i :: 0 <= i < p ==> Less(Values(timers)[i], key.Value())
      {
        p := p + 1;
      }
      LowerBoundAt(Values(timers), key.Value(), p);
    }

    method InsertTimer(timer: Timer) returns (earliestChanged: bool)
      requires timer.id !in Ids(Values(timers))
      modifies this`timers
      ensures earliestChanged == (old(timers) == [] || timer.expireTs < old(timers)[0].expireTs)
      ensures Values(timers) == Insert(Values(old(timers)), timer.Value())
      ensures forall t :: t in timers <==> t in old(timers) || t == timer
    {
      earliestChanged := |timers| == 0 || timer.expireTs < timers[0].expireTs;
      var p := LowerBoundOf(timer);
      ghost var es := Values(timers);
      if p < |timers| {
        assert es[p] in es && es[p].id in Ids(es);
      }
      if p == |timers| || Before(timer, timers[p]) {
        InsertAt(es, timer.Value(), p);
        ghost var was := timers;
        timers := timers[..p] + [timer] + timers[p..];
        Inserted(was, timer, p);
      }
    }

    /** addTimerInLoop; timer ids are unique, so the set has no equivalent element. */
    method AddTimerInLoop(timer: Timer)
      requires Valid() && timer.id in inFlight && inFlight[timer.id] == timer
      modifies this`timers, this`inFlight, this`alarm, this`fired
      ensures Valid() && View() == AddNext(old(View()), timer.id)
      ensures forall t :: t in timers <==> t in old(timers) || t == timer
    {
      hide P.Inv, Insert, Ids, Less, Sequences, Values, ValuesOf, AddNext, Arm;
      ghost var before := View();
      P.InFlightOnly(before, timer.id);
      P.StepKept(before, Add(timer.id));
      Place(timer);
      inFlight := inFlight - {timer.id};
      assert View().inFlight == before.inFlight - {timer.id};
      AddsAs(before, View(), timer.id);
    }

    method Place(timer: Timer)
      requires timer.id !in Ids(Values(timers))
      modifies this`timers, this`alarm, this`fired
      ensures Values(timers) == Insert(old(Values(timers)), timer.Value())
      ensures if old(timers) == [] || timer.expireTs < old(timers)[0].expireTs
              then alarm == Armed(Max(timer.expireTs, clock + 100), clock) && !fired
              else alarm == old(alarm) && fired == old(fired)
      ensures forall t :: t in timers <==> t in old(timers) || t == timer
    {
      hide Insert, Ids, Less;
      var earliestChanged := InsertTimer(timer);
      if earliestChanged {
        ResetTimerfd(timer.expireTs);
      }
    }

    /** resetTimerfd with howMuchTimeFromNow: at least 100 microseconds ahead. */
    method ResetTimerfd(expiration: int)
      modifies this`alarm, this`fired
      ensures alarm == Armed(Max(expiration, clock + 100), clock) && !fired
    {
      var microseconds := expiration - clock;
      if microseconds < 100 {
        microseconds := 100;
      }
      alarm := Armed(clock + microseconds, clock);
      fired := false;
    }

    /** deleteTimer: the erase must find the timer. */
    method DeleteTimer(timer: Timer)
      requires Ordered(Values(timers)) && timer in timers
      modifies this`timers, this`freed
      ensures Values(timers) == Without(Values(old(timers)), {timer.id})
      ensures freed == old(freed) + {timer.id}
      ensures forall t :: t in timers <==> t in old(timers) && t != timer
    {
      var p := LowerBoundOf(timer);
      ghost var es := Values(timers);
      PositionOf(timers, timer, p);
      assert timers[p] == timer;
      WithoutAt(es, p);
      ghost var was := timers;
      timers := timers[..p] + timers[p + 1..];
      Removed(was, p);
      freed := freed + {timer.id};
    }

    /** cancelInLoop. A callback's cancel is deferred to the next handleRead, whatever it names; any other
        must find its timer, which is deleteTimer's assertion. The queue stays in order exactly if the
        timer is in the set and, outside a batch, not being cancelled already. */
    method CancelInLoop(id: TimerId)
      requires Valid() && (working <==> phase.Batch?)
      requires id.sequence == id.timer.id && (!working ==> id.timer in timers)
      modifies this`timers, this`canceling, this`freed
      ensures View() == CancelNext(old(View()), id.sequence)
      ensures Valid() <==> old(id.timer in timers && (phase.Idle? ==> id !in canceling))
      ensures Valid() ==> SafeCancel(old(View()), id.sequence)
      ensures forall t :: t in timers ==> t in old(timers)
      ensures phase.Batch? ==> timers == old(timers)
    {
      hide P.Inv, Without, Ordered, Less, Values, ValuesOf;
      P.InvOrdered(View());
      if working {
        DeferCancel(id);
      } else {
        CancelNow(id);
      }
    }

    method DeferCancel(id: TimerId)
      requires Valid() && working && id.sequence == id.timer.id
      modifies this`canceling
      ensures View() == CancelNext(old(View()), id.sequence)
      ensures Valid() <==> id.timer in timers
      ensures Valid() ==> SafeCancel(old(View()), id.sequence)
    {
      hide P.Inv, Without, Ordered, Less, Values, ValuesOf;
      ghost var before := View();
      canceling := canceling + {id};
      assert Sequences(canceling) == Sequences(old(canceling)) + {id.sequence};
      assert id in canceling;
      if id.timer in timers {
        MemberId(timers, id.timer);
        P.StepKept(before, Cancel(id.sequence));
      }
    }

    method CancelNow(id: TimerId)
      requires Valid() && phase.Idle? && id.timer in timers && id.sequence == id.timer.id
      modifies this`timers, this`freed
      ensures View() == CancelNext(old(View()), id.sequence)
      ensures Valid() <==> id !in canceling
      ensures Valid() ==> SafeCancel(old(View()), id.sequence)
      ensures forall t :: t in timers ==> t in old(timers)
    {
      hide P.Inv, Without, Ordered, Less, Values, ValuesOf, Sequences;
      ghost var before := View();
      MemberId(timers, id.timer);
      P.InvOrdered(before);
      SequenceKnown(timers, canceling, id);
      DeleteTimer(id.timer);
      assert View() == TimerSpec.DeleteTimer(before, id.sequence);
      if id !in canceling {
        P.StepKept(before, Cancel(id.sequence));
      }
    }

    /** The references of `cs` are timers of the set. */
    ghost predicate InSet(cs: set<TimerId>)
      reads this`timers
    {
      forall c :: c in cs ==> c.timer in timers && c.sequence == c.timer.id
    }

    method PurgeOne(id: TimerId, ghost others: set<TimerId>)
      requires Ordered(Values(timers)) && InSet(others + {id}) && id !in others
      modifies this`timers, this`freed
      ensures Ordered(Values(timers)) && InSet(others)
      ensures Values(timers) == Without(Values(old(timers)), {id.sequence})
      ensures freed == old(freed) + {id.sequence}
      ensures forall t :: t in timers ==> t in old(timers)
    {
      assert id in others + {id};
      SequenceKnown(timers, others, id);
      WithoutOrdered(Values(timers), {id.sequence});
      DeleteTimer(id.timer);
    }

    /** The deferred cancels at the start of handleRead. */
    method PurgeCanceled()
      requires Ordered(Values(timers)) && InSet(canceling)
      modifies this`timers, this`canceling, this`freed
      ensures Values(timers) == Without(Values(old(timers)), Sequences(old(canceling)))
      ensures canceling == {} && freed == old(freed) + Sequences(old(canceling))
      ensures forall t :: t in timers ==> t in old(timers)
    {
      hide Without, Ordered, Less, Values, Ids, Sequences, InSet;
      ghost var es := Values(timers);
      var left := canceling;
      while left != {}
        modifies this`timers, this`freed
        invariant Ordered(Values(timers)) && InSet(left)
        invariant Without(Values(timers), Sequences(left)) == Without(es, Sequences(canceling))
        invariant freed + Sequences(left) == old(freed) + Sequences(canceling)
        invariant forall t :: t in timers ==> t in old(timers)
        decreases |left|
      {
        var id :| id in left;
        assert left - {id} + {id} == left;
        PurgedOneMore(Values(timers), left, id);
        left := left - {id};
        PurgeOne(id, left);
      }
      PurgedNone(Values(timers));
      canceling := {};
    }

    /** getExpired: everything below a sentinel with a fresh id. */
    method GetExpired() returns (expired: seq<Timer>)
      modifies this`timers, this`elsewhere, ids
      ensures expired + timers == old(timers)
      ensures |expired| == LowerBound(Values(old(timers)), Entry(old(ids.numCreated), clock, 0.0))
      ensures Values(expired) == Values(old(timers))[..|expired|] && Values(timers) == Values(old(timers))[|expired|..]
      ensures ids.numCreated == old(ids.numCreated) + 1 && elsewhere == old(elsewhere) + {old(ids.numCreated)}
    {
      var sentinel := new Timer(ids, clock, 0.0);
      elsewhere := elsewhere + {sentinel.id};
      var end := LowerBoundOf(sentinel);
      expired := timers[..end];
      timers := timers[end..];
    }

    /** The expired timers are the batch now. */
    ghost method StartBatch(expired: seq<Timer>)
      modifies this`batch, this`phase
      ensures batch == expired && phase == Batch(clock, Values(expired), 0)
      ensures View() == old(View()).(phase := Batch(clock, Values(expired), 0))
    {
      batch := expired;
      phase := Batch(clock, Values(expired), 0);
    }

    /** The extraction, with the batch as TimerSpec sees it. */
    method TakeBatch() returns (expired: seq<Timer>)
      requires phase.Idle?
      modifies this`timers, this`elsewhere, this`batch, this`phase, ids
      ensures phase.Batch? && phase.next == 0 && phase.now == clock && expired == batch
      ensures View() == TakeExpired(old(View()))
      ensures forall t :: t in batch || t in timers ==> t in old(timers)
    {
      hide LowerBound, Less, Values, ValuesOf, Sequences, TakeExpired;
      ghost var before := View();
      ghost var all := timers;
      expired := GetExpired();
      StartBatch(expired);
      TakesAs(before, View());
      assert forall t :: t in all <==> t in batch + timers;
    }

    /** handleRead's first half: the read of the timerfd and the deferred cancels. */
    method ReadAndPurge()
      requires Ordered(Values(timers)) && InSet(canceling)
      modifies this`fired, this`timers, this`canceling, this`freed
      ensures View() == Purge(old(View()).(fired := false)) && canceling == {}
      ensures forall t :: t in timers ==> t in old(timers)
    {
      hide Without, Ordered, Less, Values, ValuesOf, InSet;
      fired := false;
      PurgeCanceled();
    }

    /** The part of handleRead before the callbacks: one step of TimerSpec, for any order in which the
        deferred cancels are visited. */
    method BeginRead(ghost order: seq<nat>) returns (expired: seq<Timer>)
      requires Valid() && phase.Idle? && Orders(order, Sequences(canceling))
      modifies this`fired, this`timers, this`canceling, this`freed, this`elsewhere, this`batch, this`phase, ids
      ensures Valid() && phase.Batch? && phase.next == 0 && phase.now == clock && working == old(working)
      ensures expired == batch && View() == BeginNext(old(View()), order)
      ensures Values(batch) == Due(old(View()))
      ensures forall t :: t in batch || t in timers ==> t in old(timers)
    {
      hide P.Inv, Ordered, Less, Without, Purge, TakeExpired, BeginNext, Orders, Values, ValuesOf, Sequences;
      ghost var before := View();
      P.InvOrdered(before);
      P.PurgeKept(before, order);
      DueLater(before);
      ReadAndPurge();
      expired := TakeBatch();
    }

    /** Time passes; the kernel's timer expires. */
    method Advance(t: int)
      requires Valid() && t >= clock
      modifies this`clock, this`alarm, this`fired
      ensures Valid() && View() == Next(old(View()), Tick(t))
    {
      hide P.Inv, Values, ValuesOf, Sequences;
      ghost var before := View();
      clock := t;
      if alarm.Armed? && alarm.deadline <= t {
        alarm := Off;
        fired := true;
      }
      P.StepKept(before, Tick(t));
    }

    /** Timer::run for the next timer of the batch, up to entering its callback. */
    method RunTimer()
      requires Valid() && phase.Batch? && phase.next < |batch|
      modifies this`log, this`phase
      ensures Valid() && View() == Next(old(View()), RunNext)
      ensures log == old(log) + [Fire(batch[old(phase.next)].Value(), phase.now)]
      ensures phase == old(phase).(next := old(phase.next) + 1)
    {
      hide P.Inv, ValuesOf, Sequences;
      ghost var before := View();
      log := log + [Fire(batch[phase.next].Value(), phase.now)];
      phase := phase.(next := phase.next + 1);
      P.StepKept(before, RunNext);
    }

    /** reset, with the batch vector going out of scope. */
    method EndRead(expired: seq<Timer>, now: int)
      requires Valid() && phase.Batch? && phase.next == |batch| && !working
      requires expired == batch && now == phase.now
      modifies this`timers, this`freed, this`alarm, this`fired, this`batch, this`phase, Objects(expired)
      ensures Valid() && phase.Idle? && View() == EndNext(old(View()))
    {
      hide P.Inv, Ordered, Less, Reinsert, Released, Sequences, Values, ValuesOf, Ids, EndNext, InSet;
      ghost var before := View();
      P.EndReady(before);
      ResetBatch(expired, now);
      DropBatch();
      EndsAs(before, View());
    }

    ghost method DropBatch()
      modifies this`batch, this`phase
      ensures phase.Idle? && batch == [] && View() == old(View()).(phase := Phase.Idle)
    {
      batch := [];
      phase := Idle;
    }

    /** reset in its queue: the timers that wait to be inserted are left alone. */
    method ResetBatch(expired: seq<Timer>, now: int)
      requires Ordered(Values(timers)) && Ordered(Values(expired)) && Ids(Values(timers)) !! Ids(Values(expired))
      requires forall id :: id in inFlight ==> inFlight[id].id == id && id !in Ids(Values(expired))
      requires InSet(canceling)
      modifies this`timers, this`freed, this`alarm, this`fired, Objects(expired)
      ensures InSet(canceling)
      ensures Alarmed(Values(timers), clock, old(alarm), old(fired), alarm, fired)
      ensures View() == old(View()).(phase := View().phase, alarm := alarm, fired := fired,
                timers := Reinsert(old(Values(timers)), old(Values(expired)), Sequences(canceling), now),
                freed := old(freed) + Released(old(Values(expired)), Sequences(canceling)))
    {
      hide Ordered, Less, Reinsert, Released, Sequences, Ids, Alarmed;
      FlyersApart(inFlight, expired);
      Reset(expired, now);
      assert ValuesOf(inFlight) == old(ValuesOf(inFlight));
    }

    predicate IsCanceled(t: Timer)
      reads this
    {
      exists c :: c in canceling && c.sequence == t.id
    }

    /** reset: repeating timers that are not cancelled get a new key, while they are outside the set, and
        go back; the others are freed. Then the timerfd is armed for the new earliest timer. */
    method Reset(expired: seq<Timer>, now: int)
      requires Ordered(Values(timers)) && Ordered(Values(expired)) && Ids(Values(timers)) !! Ids(Values(expired))
      modifies this`timers, this`freed, this`alarm, this`fired, expired
      ensures Values(timers) == Reinsert(old(Values(timers)), old(Values(expired)), Sequences(canceling), now)
      ensures freed == old(freed) + Released(old(Values(expired)), Sequences(canceling))
      ensures Alarmed(Values(timers), clock, old(alarm), old(fired), alarm, fired)
      ensures forall t :: t in old(timers) ==> t in timers && t.Value() == old(t.Value())
    {
      hide Ordered, Less, Released, Sequences, Ids;
      ghost var es := Values(expired);
      var i := 0;
      assert es[0..] == es;
      while i < |expired|
        modifies this`timers, this`freed, expired
        invariant i <= |expired| && ResetInv(expired, es, i)
        invariant Reinsert(Values(timers), es[i..], Sequences(canceling), now)
               == Reinsert(old(Values(timers)), es, Sequences(canceling), now)
        invariant freed + Released(es[i..], Sequences(canceling)) == old(freed) + Released(es, Sequences(canceling))
        invariant forall t :: t in old(timers) ==> t in timers && t.Value() == old(t.Value())
      {
        ReleasedTail(es, i, Sequences(canceling));
        ResetOne(expired, now, es, i);
        i := i + 1;
      }
      ReleasedNone(Sequences(canceling));
      assert es[i..] == [];
      if |timers| != 0 {
        ResetTimerfd(timers[0].expireTs);
      }
    }

    /** Between two rounds of reset's loop: the rest of the batch is untouched and outside the set. */
    ghost predicate ResetInv(expired: seq<Timer>, es: seq<Entry>, i: nat)
      reads this, timers, expired
    {
      && i <= |expired| == |es| && Ordered(es)
      && (forall j :: i <= j < |es| ==> expired[j].Value() == es[j])
      && (forall j :: 0 <= j < |es| ==> expired[j].id == es[j].id)
      && Ordered(Values(timers)) && Ids(Values(timers)) !! Ids(es[i..])
    }

    method ResetOne(expired: seq<Timer>, now: int, ghost es: seq<Entry>, i: nat)
      requires i < |expired| && ResetInv(expired, es, i)
      modifies this`timers, this`freed, expired[i]
      ensures ResetInv(expired, es, i + 1)
      ensures Reinsert(Values(timers), es[i + 1..], Sequences(canceling), now)
           == Reinsert(old(Values(timers)), es[i..], Sequences(canceling), now)
      ensures freed == old(freed) + if Restarts(es[i], Sequences(canceling)) then {} else {es[i].id}
      ensures forall t :: t in old(timers) ==> t in timers && t.Value() == old(t.Value())
    {
      hide Without;
      var timer := expired[i];
      ghost var was := timers;
      ghost var before := Values(timers);
      BatchHead(es, i, before);
      if timer in timers { MemberId(timers, timer); }
      if timer.Repeat() && !IsCanceled(timer) {
        timer.Restart(now);
        assert Values(was) == before;
        var _ := InsertTimer(timer);
        InsertOrdered(before, Restarted(es[i], now));
        InsertIds(before, Restarted(es[i], now));
      } else {
        freed := freed + {timer.id};
      }
      assert es[i..][1..] == es[i + 1..];
    }

    /** The user's TimerId for an id that is in the set. */
    method FindTimer(id: nat) returns (found: bool, t: Lookup)
      ensures found <==> id in Ids(Values(timers))
      ensures found ==> t.Known? && t.tid.timer in timers && t.tid.sequence == t.tid.timer.id == id
    {
      var i := 0;
      while i < |timers|
        invariant i <= |timers|
        invariant forall j :: 0 <= j < i ==> timers[j].id != id
      {
        if timers[i].id == id {
          MemberId(timers, timers[i]);
          return true, Known(TimerId(id, timers[i]));
        }
        i := i + 1;
      }
      forall e | e in Values(timers) ensures e.id != id {
        var j :| 0 <= j < |timers| && Values(timers)[j] == e;
      }
      return false, Unknown;
    }

    /** addTimer from a callback: created and inserted at once. */
    method AddFromCallback(expiration: int, interval: real) returns (ghost steps: seq<Step>)
      requires Valid() && phase.Batch?
      modifies this`timers, this`inFlight, this`alarm, this`fired, ids
      ensures Valid() && P.Leads(old(View()), steps, View())
    {
      hide P.Inv, P.Leads, Ordered, Less, Values, ValuesOf, Sequences, Ids, AddNext, InSet;
      ghost var before := View();
      P.InvOrdered(before);
      P.LeadsOne(before, TimerSpec.Create(expiration, interval));
      var t := Create(expiration, interval);
      ghost var middle := View();
      P.InvOrdered(middle);
      P.LeadsOne(middle, Add(t.id));
      AddTimerInLoop(t);
      steps := [TimerSpec.Create(expiration, interval)] + [Add(t.id)];
      P.LeadsOn(before, [TimerSpec.Create(expiration, interval)], middle, [Add(t.id)], View());
    }

    /** cancel from a callback; a cancel of a timer that is not in the set is not made. */
    method CancelFromCallback(id: nat) returns (ghost steps: seq<Step>)
      requires Valid() && phase.Batch? && working
      modifies this`timers, this`canceling, this`freed
      ensures Valid() && P.Leads(old(View()), steps, View())
    {
      hide P.Inv, P.Leads, Ordered, Less, Values, ValuesOf, Sequences, Ids, CancelNext;
      ghost var before := View();
      var found, tid := FindTimer(id);
      if found {
        CancelInLoop(tid.tid);
        P.InvOrdered(before);
        P.LeadsOne(before, Cancel(id));
        steps := [Cancel(id)];
      } else {
        steps := [];
        P.LeadsNone(before);
      }
    }

    /** Time passes in a callback. */
    method WaitInCallback(us: nat) returns (ghost steps: seq<Step>)
      requires Valid()
      modifies this`alarm, this`fired, this`clock
      ensures Valid() && P.Leads(old(View()), steps, View())
    {
      hide P.Inv, P.Leads, Ordered, Less, Values, ValuesOf, Sequences, Ids;
      ghost var before := View();
      P.InvOrdered(before);
      P.LeadsOne(before, Tick(clock + us));
      steps := [Tick(clock + us)];
      Advance(clock + us);
    }

    /** One thing a callback does while a batch runs. */
    method UserCall(a: Action) returns (ghost steps: seq<Step>)
      requires Valid() && phase.Batch? && working
      modifies this`timers, this`canceling, this`inFlight, this`alarm, this`fired, this`clock, this`freed, ids
      ensures Valid() && phase == old(phase) && batch == old(batch) && log == old(log)
      ensures P.Leads(old(View()), steps, View())
      ensures forall t :: t in batch ==> t.Value() == old(t.Value())
    {
      hide View, Valid;
      match a
      case AddTimer(expiration, interval) => steps := AddFromCallback(expiration, interval);
      case CancelTimer(id) => steps := CancelFromCallback(id);
      case Wait(us) => steps := WaitInCallback(us);
    }

    /** A callback: any sequence of calls. */
    method Callback(script: seq<Action>) returns (ghost steps: seq<Step>)
      requires Valid() && phase.Batch? && working
      modifies this`timers, this`canceling, this`inFlight, this`alarm, this`fired, this`clock, this`freed, ids
      ensures Valid() && phase == old(phase) && batch == old(batch) && log == old(log)
      ensures P.Leads(old(View()), steps, View())
      ensures forall t :: t in batch ==> t.Value() == old(t.Value())
    {
      hide P.Inv, P.Leads, Ordered, Values, ValuesOf, Sequences;
      ghost var before := View();
      steps := [];
      P.LeadsNone(before);
      var k := 0;
      while k < |script|
        invariant k <= |script|
        invariant Valid() && phase == old(phase) && batch == old(batch) && log == old(log) && working
        invariant P.Leads(before, steps, View())
        invariant forall t :: t in batch ==> t.Value() == old(t.Value())
      {
        ghost var middle := View();
        ghost var more := UserCall(script[k]);
        P.LeadsOn(before, steps, middle, more, View());
        steps := steps + more;
        k := k + 1;
      }
    }

    /** Run the next timer of the batch, callback included. */
    method RunOne(script: seq<Action>) returns (ghost steps: seq<Step>)
      requires Valid() && phase.Batch? && phase.next < |batch| && working
      modifies this`timers, this`canceling, this`alarm, this`fired, this`clock,
               this`phase, this`inFlight, this`freed, this`log, ids
      ensures Valid() && batch == old(batch) && phase == old(phase).(next := old(phase.next) + 1)
      ensures log == old(log) + [Fire(old(Values(batch))[old(phase.next)], phase.now)]
      ensures P.Leads(old(View()), steps, View())
      ensures forall t :: t in batch ==> t.Value() == old(t.Value())
    {
      hide P.Inv, P.Leads, Ordered, Values, ValuesOf, Sequences;
      ghost var before := View();
      RunTimer();
      P.InvOrdered(before);
      P.LeadsOne(before, RunNext);
      ghost var middle := View();
      ghost var more := Callback(script);
      P.LeadsOn(before, [RunNext], middle, more, View());
      steps := [RunNext] + more;
    }

    /** handleRead's loop over the expired timers. */
    method RunBatch(expired: seq<Timer>, scripts: seq<seq<Action>>) returns (ghost steps: seq<Step>)
      requires Valid() && phase.Batch? && phase.next == 0 && !working && expired == batch
      modifies this`timers, this`canceling, this`working, this`alarm, this`fired, this`clock,
               this`phase, this`inFlight, this`freed, this`log, ids
      ensures Valid() && batch == expired && !working
      ensures phase == old(phase).(next := |expired|)
      ensures P.Leads(old(View()), steps, View())
      ensures log == old(log) + Laws.Firings(old(Values(batch)), phase.now)
    {
      hide P.Inv, P.Leads, Ordered, Values, ValuesOf, Sequences, Fire;
      ghost var before := View();
      ghost var es := Values(batch);
      steps := [];
      P.LeadsNone(before);
      assert Laws.Firings(es[..0], phase.now) == [];
      working := true;
      var k := 0;
      while k < |expired|
        invariant k <= |expired| && expired == batch
        invariant Valid() && working && phase == old(phase).(next := k)
        invariant P.Leads(before, steps, View())
        invariant log == old(log) + Laws.Firings(es[..k], phase.now)
        invariant forall t :: t in batch ==> t.Value() == old(t.Value())
      {
        ghost var middle := View();
        ghost var more := RunOne(if k < |scripts| then scripts[k] else []);
        P.LeadsOn(before, steps, middle, more, View());
        Laws.FiringsGrow(es, k, phase.now);
        steps := steps + more;
        k := k + 1;
      }
      working := false;
      assert es[..k] == es;
    }

    /** handleRead; `scripts[k]` is what the callback of the k-th expired timer does. The whole call is a
        legal, safe run of TimerSpec, and it fires exactly the timers that getExpired took, in their
        order in the set. */
    method HandleRead(scripts: seq<seq<Action>>) returns (ghost steps: seq<Step>)
      requires Valid() && phase.Idle? && !working
      modifies this`timers, this`canceling, this`working, this`alarm, this`fired, this`clock,
               this`phase, this`batch, this`inFlight, this`freed, this`elsewhere, this`log, ids, Objects(timers)
      ensures Valid() && phase.Idle? && !working
      ensures P.Leads(old(View()), steps, View())
      ensures log == old(log) + Laws.Firings(Due(old(View())), old(clock))
    {
      hide P.Inv, P.Leads, Ordered, Values, ValuesOf, Sequences, BeginNext, Due, Orders;
      ghost var before := View();
      ghost var order := SomeOrder(before.canceling);
      var now := clock;
      var expired := BeginRead(order);
      P.InvOrdered(before);
      P.LeadsOne(before, BeginBatch(order));
      ghost var begun := View();
      ghost var middle := RunBatch(expired, scripts);
      ghost var last := View();
      P.LeadsOn(before, [BeginBatch(order)], begun, middle, last);
      assert Objects(expired) <= old(Objects(timers));
      EndRead(expired, now);
      P.InvOrdered(last);
      P.LeadsOne(last, EndBatch);
      P.LeadsOn(before, [BeginBatch(order)] + middle, last, [EndBatch], View());
      steps := [BeginBatch(order)] + middle + [EndBatch];
    }
  }

  /** The head of the rest of a batch. */
  lemma BatchHead(es: seq<Entry>, i: nat, others: seq<Entry>)
    requires i < |es| && Ordered(es) && Ids(others) !! Ids(es[i..])
    ensures es[i].id !in Ids(others) && Ids(others) + {es[i].id} !! Ids(es[i + 1..]) && Ids(others) !! Ids(es[i + 1..])
    ensures forall j :: i < j < |es| ==> es[j].id != es[i].id
  {
    assert es[i] in es[i..] && es[i].id in Ids(es[i..]);
    forall j | i < j < |es| ensures es[j].id != es[i].id { OrderedPairs(es, i, j); }
    forall e | e in es[i + 1..] ensures e in es[i..] && e.id != es[i].id {
      var k :| 0 <= k < |es[i + 1..]| && es[i + 1..][k] == e;
      assert es[i..][k + 1] == e && es[i + 1 + k] == e;
    }
  }

  lemma ReleasedTail(es: seq<Entry>, i: nat, canceling: set<nat>)
    requires i < |es|
    ensures Released(es[i..], canceling)
         == (if Restarts(es[i], canceling) then {} else {es[i].id}) + Released(es[i + 1..], canceling)
  {
    assert es[i..] == [es[i]] + es[i + 1..];
  }

  lemma ReleasedNone(canceling: set<nat>)
    ensures Released([], canceling) == {}
  {
  }
}
