/** What each step of the timer queue does, and the schedule of a timer over whole runs. */
module TimerLaws {
  import opened TimerSpec
  import opened TimerProof

  // Expirations, restart times and the 100 microsecond floor are written out here as numbers.

  ghost predicate Sorted(ts: seq<Entry>) {
    forall i, j :: 0 <= i < j < |ts| ==>
      ts[i].expiry < ts[j].expiry || (ts[i].expiry == ts[j].expiry && ts[i].id < ts[j].id)
  }

  lemma OrderedIsSorted(ts: seq<Entry>)
    requires Ordered(ts)
    ensures Sorted(ts)
  {
    forall i, j | 0 <= i < j < |ts| ensures Less(ts[i], ts[j]) { OrderedPairs(ts, i, j); }
  }

  /** The timer of the batch goes back into the set. */
  predicate GoesBack(q: Queue, e: Entry) {
    e.interval > 0.0 && e.id !in q.canceling
  }

  /** The same timer, due one interval after `now`. */
  function OneIntervalLater(e: Entry, now: int): Entry {
    Entry(e.id, now + (e.interval * 1000000.0).Floor, e.interval)
  }

  lemma RestartedIs(e: Entry, now: int)
    requires e.interval > 0.0
    ensures Restarted(e, now) == OneIntervalLater(e, now)
  {
  }

  lemma {:induction false} ReinsertExactly(ts: seq<Entry>, batch: seq<Entry>, canceling: set<nat>, now: int)
    requires Ordered(ts) && Ordered(batch) && Ids(ts) !! Ids(batch)
    ensures var r := Reinsert(ts, batch, canceling, now);
            && (forall e :: e in ts ==> e in r)
            && (forall e :: e in batch && e.interval > 0.0 && e.id !in canceling ==>
                  OneIntervalLater(e, now) in r)
    decreases |batch|
  {
    if batch != [] {
      var b := batch[0];
      var e := Restarted(b, now);
      assert b in batch && b.id in Ids(batch) && batch == [b] + batch[1..];
      assert Ids(batch) == {b.id} + Ids(batch[1..]);
      if Restarts(b, canceling) {
        RestartedIs(b, now);
        InsertOrdered(ts, e);
        InsertIds(ts, e);
        InsertMembers(ts, e);
        assert b.id !in Ids(batch[1..]);
        ReinsertExactly(Insert(ts, e), batch[1..], canceling, now);
      } else {
        ReinsertExactly(ts, batch[1..], canceling, now);
      }
    }
  }

  /** reset, spelled out: a timer of the batch with an interval above zero that is not cancelled is in the
      set again, due its interval in whole microseconds after the batch time; every other timer of
      the batch is freed; the timers of the set stay, nothing else joins them, and the timerfd is
      armed for the earliest, at least 100 microseconds ahead. */
  lemma EndExactly(q: Queue)
    requires Inv(q) && Enabled(q, EndBatch)
    ensures var r := Next(q, EndBatch);
            && (forall e :: e in q.phase.expired && GoesBack(q, e) ==>
                  OneIntervalLater(e, q.phase.now) in r.timers)
            && (forall e :: e in q.phase.expired && !GoesBack(q, e) ==> e.id in r.freed && e.id !in Ids(r.timers))
            && (forall e :: e in q.timers ==> e in r.timers)
            && (forall x :: x in r.timers && x !in q.timers ==>
                  exists e :: e in q.phase.expired && GoesBack(q, e)
                              && x == OneIntervalLater(e, q.phase.now))
            && r.freed == q.freed + (set e | e in q.phase.expired && !GoesBack(q, e) :: e.id)
            && Sorted(r.timers) && r.phase.Idle?
            && (r.timers == [] ==> r.alarm == q.alarm && r.fired == q.fired)
            && (r.timers != [] ==> ArmedFor(r, r.timers[0].expiry))
            && r.log == q.log && r.canceling == q.canceling && r.inFlight == q.inFlight && r.clock == q.clock
  {
    hide Inv, Ordered, Reinsert, Released, Ids, Sorted, GoesBack;
    EndRestarts(q);
    EndFrees(q);
  }

  /** The timerfd was just armed for this expiration, but at least 100 microseconds ahead. */
  predicate ArmedFor(q: Queue, expiry: int) {
    q.alarm == Armed(if expiry < q.clock + 100 then q.clock + 100 else expiry, q.clock) && !q.fired
  }

  /** A repeating timer of the batch that is not cancelled is never dropped. */
  lemma RepeatingGoesBack(q: Queue, e: Entry)
    requires Inv(q) && Enabled(q, EndBatch)
    requires e in q.phase.expired && e.interval > 0.0 && e.id !in q.canceling
    ensures Entry(e.id, q.phase.now + (e.interval * 1000000.0).Floor, e.interval) in Next(q, EndBatch).timers
  {
    hide Inv;
    EndExactly(q);
    assert GoesBack(q, e);
  }

  lemma EndRestarts(q: Queue)
    requires Inv(q) && Enabled(q, EndBatch)
    ensures var r := EndNext(q);
            && (forall e :: e in q.phase.expired && GoesBack(q, e) ==>
                  OneIntervalLater(e, q.phase.now) in r.timers)
            && (forall e :: e in q.timers ==> e in r.timers)
            && (forall x :: x in r.timers && x !in q.timers ==>
                  exists e :: e in q.phase.expired && GoesBack(q, e)
                              && x == OneIntervalLater(e, q.phase.now))
            && Sorted(r.timers)
  {
    hide Inv, Ordered, Reinsert, Released, Ids, Sorted, Arm, Restarted, OneIntervalLater;
    EndReady(q);
    ReinsertExactly(q.timers, q.phase.expired, q.canceling, q.phase.now);
    ReinsertKeeps(q.timers, q.phase.expired, q.canceling, q.phase.now);
    assert EndNext(q).timers == Reinsert(q.timers, q.phase.expired, q.canceling, q.phase.now) by { EndTimers(q); }
    hide EndNext;
    OrderedIsSorted(EndNext(q).timers);
    forall x | x in EndNext(q).timers && x !in q.timers
      ensures exists e :: e in q.phase.expired && GoesBack(q, e)
                          && x == OneIntervalLater(e, q.phase.now)
    {
      var e :| e in q.phase.expired && Restarts(e, q.canceling) && x == Restarted(e, q.phase.now);
      RestartedIs(e, q.phase.now);
      assert GoesBack(q, e);
    }
  }

  lemma EndTimers(q: Queue)
    requires q.phase.Batch?
    ensures EndNext(q).timers == Reinsert(q.timers, q.phase.expired, q.canceling, q.phase.now)
  {
  }

  lemma EndFrees(q: Queue)
    requires Inv(q) && Enabled(q, EndBatch)
    ensures forall e :: e in q.phase.expired && !GoesBack(q, e) ==> e.id in EndNext(q).freed
    ensures forall e :: e in q.phase.expired && !GoesBack(q, e) ==> e.id !in Ids(EndNext(q).timers)
    ensures EndNext(q).freed == q.freed + (set e | e in q.phase.expired && !GoesBack(q, e) :: e.id)
  {
    EndReady(q);
    ReinsertKeeps(q.timers, q.phase.expired, q.canceling, q.phase.now);
    BatchIdsSplit(q.phase.expired, q.canceling);
    forall e | e in q.phase.expired && !GoesBack(q, e)
      ensures e.id in Released(q.phase.expired, q.canceling) && e.id in Ids(q.phase.expired)
    {
      assert !Restarts(e, q.canceling);
    }
  }

  /** addTimer and addTimerInLoop: the set gains one timer, with the next id and with the expiration and the
      interval that addTimer was given, and the timerfd is armed for it exactly if it expires before
      every other timer. */
  lemma AddTimerExactly(q: Queue, expiry: int, interval: real)
    requires Inv(q)
    ensures Enabled(q, Create(expiry, interval)) && Enabled(Next(q, Create(expiry, interval)), Add(q.nextId))
    ensures var r := Next(Next(q, Create(expiry, interval)), Add(q.nextId));
            && (forall x :: x in r.timers <==> x in q.timers || x == Entry(q.nextId, expiry, interval))
            && Sorted(r.timers) && r.nextId == q.nextId + 1
            && (if forall x :: x in q.timers ==> expiry < x.expiry then ArmedFor(r, expiry)
                else r.alarm == q.alarm && r.fired == q.fired)
            && r.phase == q.phase && r.canceling == q.canceling && r.freed == q.freed && r.log == q.log
            && r.clock == q.clock
  {
    StepKept(q, Create(expiry, interval));
    AddExactly(Next(q, Create(expiry, interval)), q.nextId);
  }

  lemma AddExactly(q: Queue, id: nat)
    requires Inv(q) && Enabled(q, Add(id))
    ensures var r := Next(q, Add(id));
            && (forall x :: x in r.timers <==> x in q.timers || x == q.inFlight[id])
            && Sorted(r.timers) && r.inFlight == q.inFlight - {id}
            && (if forall x :: x in q.timers ==> q.inFlight[id].expiry < x.expiry
                then ArmedFor(r, q.inFlight[id].expiry) else r.alarm == q.alarm && r.fired == q.fired)
            && r.phase == q.phase && r.canceling == q.canceling && r.freed == q.freed && r.log == q.log
            && r.nextId == q.nextId && r.clock == q.clock
  {
    hide Inv, Ordered, Insert, Ids, Sorted, Less;
    InvOrdered(q);
    InFlightOnly(q, id);
    InsertMembers(q.timers, q.inFlight[id]);
    InsertOrdered(q.timers, q.inFlight[id]);
    OrderedIsSorted(AddNext(q, id).timers);
    HeadIsEarliest(q.timers, q.inFlight[id].expiry);
  }

  lemma HeadIsEarliest(ts: seq<Entry>, expiry: int)
    requires Ordered(ts)
    ensures (ts == [] || expiry < ts[0].expiry) <==> forall x :: x in ts ==> expiry < x.expiry
  {
    OrderedIsSorted(ts);
    if ts != [] { assert ts[0] in ts; }
  }

  /** cancel of a timer of the set: outside a batch the timer leaves the set and is freed, in a callback it is
      only noted; no other timer is touched. */
  lemma CancelExactly(q: Queue, id: nat)
    requires Inv(q) && SafeCancel(q, id)
    ensures var r := Next(q, Cancel(id));
            && (q.phase.Idle? ==>
                  && (forall x :: x in r.timers <==> x in q.timers && x.id != id)
                  && r == q.(timers := r.timers, freed := q.freed + {id}))
            && (q.phase.Batch? ==> r == q.(canceling := q.canceling + {id}))
            && Sorted(r.timers)
  {
    StepKept(q, Cancel(id));
    OrderedIsSorted(Next(q, Cancel(id)).timers);
    WithoutMembers(q.timers, {id});
  }

  /** The start of handleRead: the cancelled timers are freed, the batch is what is due by the clock, in
      order, and the others stay. */
  lemma BeginExactly(q: Queue, order: seq<nat>)
    requires Inv(q) && Enabled(q, BeginBatch(order))
    ensures var r := Next(q, BeginBatch(order));
            && r.phase.Batch? && r.phase.now == q.clock && r.phase.next == 0
            && (forall x :: x in r.phase.expired <==> x in q.timers && x.id !in q.canceling && x.expiry <= q.clock)
            && (forall x :: x in r.timers <==> x in q.timers && x.id !in q.canceling && x.expiry > q.clock)
            && Sorted(r.phase.expired) && Sorted(r.timers)
            && r.freed == q.freed + q.canceling && r.canceling == {} && !r.fired && r.alarm == q.alarm
            && r.log == q.log && r.inFlight == q.inFlight && r.clock == q.clock && r.nextId == q.nextId + 1
  {
    hide Inv, OwnInv, CancelInv, Ordered, LowerBound, Without, Sorted, BeginNext, Ids;
    PurgedReady(q);
    BeginIs(q, order);
    var q1 := Purge(q.(fired := false));
    ExpiredExactly(q1);
    WithoutMembers(q.timers, q.canceling);
    OrderedIsSorted(TakeExpired(q1).timers);
    OrderedIsSorted(TakeExpired(q1).phase.expired);
  }

  lemma PurgedReady(q: Queue)
    requires Inv(q)
    ensures var r := Purge(q.(fired := false));
            Ordered(r.timers) && (forall e :: e in r.timers ==> e.id < r.nextId)
    ensures q.canceling <= Ids(q.timers)
  {
    OwnSame(q, q.(fired := false));
    PurgeOwn(q.(fired := false));
    SetBelowNextId(Purge(q.(fired := false)));
  }

  /** A timerfd armed for an expiration has fired by the time t exactly if t has reached it and is at least
      100 microseconds past the arming. */
  lemma AlarmRings(q: Queue, expiry: int, t: int)
    requires Inv(q) && ArmedFor(q, expiry) && t >= q.clock
    ensures Next(q, Tick(t)).fired <==> t >= expiry && t >= q.clock + 100
  {
    hide Inv, LogInv, OwnInv;
    InvOrdered(q);
  }

  /** The firings of a batch, in order. */
  ghost function Firings(es: seq<Entry>, now: int): seq<Firing> {
    seq(|es|, i requires 0 <= i < |es| => Fire(es[i], now))
  }

  lemma FiringsGrow(es: seq<Entry>, k: nat, now: int)
    requires k < |es|
    ensures Firings(es[..k + 1], now) == Firings(es[..k], now) + [Fire(es[k], now)]
  {
  }

  /** What a handleRead fires: each timer that is due by the clock and not cancelled, once, with its own id,
      expiration and interval, in order of expiration and then of creation. */
  lemma FiringsAreDue(q: Queue)
    requires Inv(q)
    ensures var fs := Firings(Due(q), q.clock);
            && (forall f :: f in fs <==>
                  exists e :: e in q.timers && e.id !in q.canceling && e.expiry <= q.clock
                              && f == Firing(e.id, q.clock, e.expiry, e.interval))
            && (forall j, k :: 0 <= j < k < |fs| ==>
                  fs[j].due < fs[k].due || (fs[j].due == fs[k].due && fs[j].id < fs[k].id))
  {
    SetBelowNextId(q);
    DueExactly(q);
    var es, fs := Due(q), Firings(Due(q), q.clock);
    hide Inv, Due, Ordered;
    forall e | e in es ensures Firing(e.id, q.clock, e.expiry, e.interval) in fs {
      var k :| 0 <= k < |es| && es[k] == e;
      assert fs[k] == Firing(e.id, q.clock, e.expiry, e.interval);
    }
    forall f | f in fs ensures exists e :: e in es && f == Firing(e.id, q.clock, e.expiry, e.interval) {
      var k :| 0 <= k < |fs| && fs[k] == f;
      assert es[k] in es && f == Firing(es[k].id, q.clock, es[k].expiry, es[k].interval);
    }
    forall j, k | 0 <= j < k < |fs| ensures Less(es[j], es[k]) { OrderedPairs(es, j, k); }
  }

  // ---------------------------------------------------------------- a repeating timer stays

  /** A timer with this id and interval. */
  ghost predicate Holds(ts: seq<Entry>, id: nat, interval: real) {
    exists e :: e in ts && e.id == id && e.interval == interval
  }

  ghost predicate Here(q: Queue, id: nat, interval: real) {
    Holds(q.timers, id, interval) || Holds(BatchOf(q), id, interval)
  }

  lemma StaysOne(q: Queue, s: Step, id: nat, interval: real)
    requires Inv(q) && Enabled(q, s) && Safe(q, s) && s != Cancel(id)
    requires Here(q, id, interval) && interval > 0.0 && id !in q.canceling
    ensures Here(Next(q, s), id, interval) && id !in Next(q, s).canceling
  {
    var e :| e in q.timers + BatchOf(q) && e.id == id && e.interval == interval;
    var r := Next(q, s);
    match s
    case Add(x) => AddExactly(q, x); assert e in r.timers + BatchOf(r);
    case Cancel(x) => CancelExactly(q, x); assert e in r.timers + BatchOf(r);
    case BeginBatch(order) => BeginExactly(q, order); assert e in r.timers + BatchOf(r);
    case EndBatch =>
      EndExactly(q);
      if e !in q.timers {
        assert GoesBack(q, e);
        var x := OneIntervalLater(e, q.phase.now);
        assert x in r.timers;
      }
    case _ => assert e in r.timers + BatchOf(r);
  }

  /** A repeating timer of the set that is not cancelled is, in every later state of every safe run that does
      not cancel it, in the set or in the running batch, with its interval. */
  lemma {:induction false} RepeatingStays(q: Queue, run: seq<Step>, id: nat, interval: real)
    requires Inv(q) && Legal(q, run) && AllSafe(q, run)
    requires Here(q, id, interval) && interval > 0.0 && id !in q.canceling
    requires forall k :: 0 <= k < |run| ==> run[k] != Cancel(id)
    ensures Here(After(q, run), id, interval) && id !in After(q, run).canceling
    decreases |run|
  {
    if run != [] {
      hide Inv, Here;
      StaysOne(q, run[0], id, interval);
      StepKept(q, run[0]);
      RepeatingStays(Next(q, run[0]), run[1..], id, interval);
    }
  }

  /** From its creation on, a repeating timer that is not cancelled waits to be inserted, as addTimer was told,
      or is in the set or the running batch, with its interval. */
  lemma {:induction false} RepeatingNeverLost(q: Queue, run: seq<Step>, id: nat, expiry: int, interval: real)
    requires Inv(q) && Legal(q, run) && AllSafe(q, run)
    requires id in q.inFlight && q.inFlight[id] == Entry(id, expiry, interval) && interval > 0.0
    requires forall k :: 0 <= k < |run| ==> run[k] != Cancel(id)
    ensures var r := After(q, run);
            || (id in r.inFlight && r.inFlight[id] == Entry(id, expiry, interval))
            || Here(r, id, interval)
    ensures Add(id) in run ==> Here(After(q, run), id, interval)
    decreases |run|
  {
    if run != [] {
      hide Inv, Here, Next, Enabled, Safe;
      var s, r := run[0], Next(q, run[0]);
      StepKept(q, s);
      assert run == [s] + run[1..];
      if s == Add(id) {
        Lands(q, id, expiry, interval);
        RepeatingStays(r, run[1..], id, interval);
      } else {
        FlyingOn(q, s, id);
        RepeatingNeverLost(r, run[1..], id, expiry, interval);
      }
    }
  }

  lemma Lands(q: Queue, id: nat, expiry: int, interval: real)
    requires Inv(q) && Enabled(q, Add(id)) && q.inFlight[id] == Entry(id, expiry, interval)
    ensures Here(Next(q, Add(id)), id, interval) && id !in Next(q, Add(id)).canceling
  {
    hide Inv, AddNext;
    AddExactly(q, id);
    InFlightOnly(q, id);
    InvOrdered(q);
  }

  lemma FlyingOn(q: Queue, s: Step, id: nat)
    requires Inv(q) && Enabled(q, s) && Safe(q, s) && s != Add(id) && id in q.inFlight
    ensures id in Next(q, s).inFlight && Next(q, s).inFlight[id] == q.inFlight[id]
  {
    assert Places(q, id) == One(id < q.nextId);
    match s
    case Cancel(x) => CancelExactly(q, x);
    case BeginBatch(order) => BeginExactly(q, order);
    case _ =>
  }

  // ---------------------------------------------------------------- the schedule of one timer

  /** When the timer is due next, by the log: at its first expiration, and then its interval after the batch
      in which it ran last. */
  function DueNext(log: seq<Firing>, id: nat, expiry: int, interval: real): int {
    if log == [] then expiry
    else
      var f := log[|log| - 1];
      if f.id == id then f.at + (interval * 1000000.0).Floor else DueNext(log[..|log| - 1], id, expiry, interval)
  }

  ghost predicate LogOnSchedule(log: seq<Firing>, id: nat, expiry: int, interval: real) {
    forall k :: 0 <= k < |log| && log[k].id == id ==>
      log[k].interval == interval && log[k].due == DueNext(log[..k], id, expiry, interval)
  }

  /** Everywhere the timer can be, it has its interval and is due when the log says. */
  ghost predicate OnSchedule(q: Queue, id: nat, expiry: int, interval: real) {
    var due := DueNext(q.log, id, expiry, interval);
    && id < q.nextId
    && LogOnSchedule(q.log, id, expiry, interval)
    && (id in q.inFlight ==> q.inFlight[id] == Entry(id, due, interval))
    && (forall e :: e in q.timers && e.id == id ==> e == Entry(id, due, interval))
    && (q.phase.Batch? ==> q.phase.next <= |q.phase.expired|)
    && (q.phase.Batch? ==> forall j :: q.phase.next <= j < |q.phase.expired| && q.phase.expired[j].id == id ==>
          q.phase.expired[j] == Entry(id, due, interval))
    && (q.phase.Batch? ==> forall j :: 0 <= j < q.phase.next && q.phase.expired[j].id == id ==>
          q.phase.expired[j].interval == interval && due == q.phase.now + (interval * 1000000.0).Floor)
  }

  lemma Logged(log: seq<Firing>, f: Firing, id: nat, expiry: int, interval: real)
    requires LogOnSchedule(log, id, expiry, interval)
    requires f.id == id ==> f.interval == interval && f.due == DueNext(log, id, expiry, interval)
    ensures LogOnSchedule(log + [f], id, expiry, interval)
    ensures DueNext(log + [f], id, expiry, interval)
         == if f.id == id then f.at + (interval * 1000000.0).Floor else DueNext(log, id, expiry, interval)
  {
    var all := log + [f];
    assert all[..|log|] == log;
    forall k | 0 <= k < |all| && all[k].id == id
      ensures all[k].interval == interval && all[k].due == DueNext(all[..k], id, expiry, interval)
    {
      if k < |log| { assert all[..k] == log[..k]; }
    }
  }

  lemma RunOnSchedule(q: Queue, id: nat, expiry: int, interval: real)
    requires Inv(q) && Enabled(q, RunNext) && OnSchedule(q, id, expiry, interval)
    ensures OnSchedule(Next(q, RunNext), id, expiry, interval)
  {
    hide Inv, DueNext, LogOnSchedule;
    var p := q.phase;
    var e := p.expired[p.next];
    Logged(q.log, Firing(e.id, p.now, e.expiry, e.interval), id, expiry, interval);
    InBatchOnly(q, p.next);
  }

  /** A timer of the batch is there once and nowhere else. */
  lemma InBatchOnly(q: Queue, k: nat)
    requires Inv(q) && q.phase.Batch? && k < |q.phase.expired|
    ensures var id := q.phase.expired[k].id;
            && id !in q.inFlight && (forall e :: e in q.timers ==> e.id != id)
            && (forall j :: 0 <= j < |q.phase.expired| && j != k ==> q.phase.expired[j].id != id)
  {
    var e := q.phase.expired[k];
    assert e in BatchOf(q) && e.id in Ids(BatchOf(q));
    assert Places(q, e.id) == One(e.id < q.nextId);
    OrderedDistinct(q.phase.expired);
    forall x | x in q.timers ensures x.id != e.id { assert x.id in Ids(q.timers); }
  }

  lemma EndOnSchedule(q: Queue, id: nat, expiry: int, interval: real)
    requires Inv(q) && Enabled(q, EndBatch) && OnSchedule(q, id, expiry, interval)
    ensures OnSchedule(Next(q, EndBatch), id, expiry, interval)
  {
    hide Inv, DueNext, LogOnSchedule;
    EndExactly(q);
    var r := Next(q, EndBatch);
    forall x | x in r.timers && x.id == id
      ensures x == Entry(id, DueNext(q.log, id, expiry, interval), interval)
    {
      if x !in q.timers {
        var e :| e in q.phase.expired && GoesBack(q, e) && x == OneIntervalLater(e, q.phase.now);
        var j :| 0 <= j < |q.phase.expired| && q.phase.expired[j] == e;
      }
    }
  }

  lemma StepOnSchedule(q: Queue, s: Step, id: nat, expiry: int, interval: real)
    requires Inv(q) && Enabled(q, s) && Safe(q, s) && OnSchedule(q, id, expiry, interval)
    ensures OnSchedule(Next(q, s), id, expiry, interval)
  {
    hide Inv, DueNext, LogOnSchedule, EndNext, AddNext, CancelNext, BeginNext;
    match s
    case Add(x) => AddExactly(q, x); InFlightOnly(q, x);
    case Cancel(x) => CancelExactly(q, x);
    case BeginBatch(order) => BeginExactly(q, order);
    case RunNext => RunOnSchedule(q, id, expiry, interval);
    case EndBatch => EndOnSchedule(q, id, expiry, interval);
    case _ =>
  }

  lemma {:induction false} StaysOnSchedule(q: Queue, run: seq<Step>, id: nat, expiry: int, interval: real)
    requires Inv(q) && Legal(q, run) && AllSafe(q, run) && OnSchedule(q, id, expiry, interval)
    ensures OnSchedule(After(q, run), id, expiry, interval)
    decreases |run|
  {
    if run != [] {
      hide Inv, OnSchedule;
      StepOnSchedule(q, run[0], id, expiry, interval);
      StepKept(q, run[0]);
      StaysOnSchedule(Next(q, run[0]), run[1..], id, expiry, interval);
    }
  }

  lemma StartsOnSchedule(q: Queue, expiry: int, interval: real)
    requires Inv(q)
    ensures OnSchedule(Next(q, Create(expiry, interval)), q.nextId, expiry, interval)
    ensures forall k :: 0 <= k < |q.log| ==> q.log[k].id != q.nextId
  {
    var id := q.nextId;
    assert Places(q, id) == 0;
    forall k | 0 <= k < |q.log| ensures q.log[k].id != id { assert q.log[k] in q.log; }
    forall e | e in q.timers ensures e.id != id { assert e.id in Ids(q.timers); }
    forall e | e in BatchOf(q) ensures e.id != id { assert e.id in Ids(BatchOf(q)); }
    NeverRan(q.log, id, expiry, interval);
  }

  lemma {:induction false} NeverRan(log: seq<Firing>, id: nat, expiry: int, interval: real)
    requires forall k :: 0 <= k < |log| ==> log[k].id != id
    ensures DueNext(log, id, expiry, interval) == expiry
    decreases |log|
  {
    if log != [] { NeverRan(log[..|log| - 1], id, expiry, interval); }
  }

  lemma {:induction false} RanLast(log: seq<Firing>, k: nat, expiry: int, interval: real)
    requires k < |log| && forall j :: k < j < |log| ==> log[j].id != log[k].id
    ensures DueNext(log, log[k].id, expiry, interval) == log[k].at + (interval * 1000000.0).Floor
    decreases |log|
  {
    if k < |log| - 1 { RanLast(log[..|log| - 1], k, expiry, interval); }
  }

  /** The schedule of every timer, over every safe run after its creation: its first run is for the expiration
      that addTimer was given, and each later one for the batch time of the run before plus its
      interval in whole microseconds; it has the interval that addTimer was given. */
  lemma FiresOnSchedule(q: Queue, expiry: int, interval: real, run: seq<Step>)
    requires Inv(q) && Legal(Next(q, Create(expiry, interval)), run) && AllSafe(Next(q, Create(expiry, interval)), run)
    ensures var log := After(Next(q, Create(expiry, interval)), run).log;
            var id := q.nextId;
            && (forall k :: 0 <= k < |log| && log[k].id == id ==> log[k].interval == interval)
            && (forall k :: 0 <= k < |log| && log[k].id == id && (forall j :: 0 <= j < k ==> log[j].id != id) ==>
                  log[k].due == expiry)
            && (forall j, k :: 0 <= j < k < |log| && log[j].id == id && log[k].id == id
                               && (forall m :: j < m < k ==> log[m].id != id) ==>
                  log[k].due == log[j].at + (interval * 1000000.0).Floor)
  {
    var q1 := Next(q, Create(expiry, interval));
    var id := q.nextId;
    StepKept(q, Create(expiry, interval));
    StartsOnSchedule(q, expiry, interval);
    StaysOnSchedule(q1, run, id, expiry, interval);
    var log := After(q1, run).log;
    hide Inv, DueNext, Next, After, Legal, AllSafe;
    forall k | 0 <= k < |log| && log[k].id == id && (forall j :: 0 <= j < k ==> log[j].id != id)
      ensures log[k].due == expiry
    {
      NeverRan(log[..k], id, expiry, interval);
    }
    forall j, k | 0 <= j < k < |log| && log[j].id == id && log[k].id == id
                  && (forall m :: j < m < k ==> log[m].id != id)
      ensures log[k].due == log[j].at + (interval * 1000000.0).Floor
    {
      RanLast(log[..k], j, expiry, interval);
    }
  }

  /** How often the timer has run. */
  function RunsOf(log: seq<Firing>, id: nat): nat {
    if log == [] then 0 else RunsOf(log[..|log| - 1], id) + if log[|log| - 1].id == id then 1 else 0
  }

  lemma {:induction false} DueGrows(log: seq<Firing>, id: nat, expiry: int, interval: real)
    requires LogOnSchedule(log, id, expiry, interval) && forall f :: f in log ==> f.due <= f.at
    ensures DueNext(log, id, expiry, interval) >= expiry + RunsOf(log, id) * (interval * 1000000.0).Floor
    decreases |log|
  {
    if log != [] {
      var rest, f := log[..|log| - 1], log[|log| - 1];
      var us := (interval * 1000000.0).Floor;
      forall k | 0 <= k < |rest| && rest[k].id == id
        ensures rest[k].interval == interval && rest[k].due == DueNext(rest[..k], id, expiry, interval)
      {
        assert rest[..k] == log[..k];
      }
      DueGrows(rest, id, expiry, interval);
      assert f in log && log[..|log| - 1] == rest;
      assert (RunsOf(rest, id) + 1) * us == RunsOf(rest, id) * us + us;
    }
  }

  /** runEvery: over every safe run, the n-th run of the timer is at least n intervals after the call. */
  lemma RunEveryKeepsPace(q: Queue, interval: real, run: seq<Step>)
    requires Inv(q) && interval > 0.0
    requires var s := Create(q.clock + (interval * 1000000.0).Floor, interval);
             Legal(Next(q, s), run) && AllSafe(Next(q, s), run)
    ensures var us := (interval * 1000000.0).Floor;
            var log := After(Next(q, Create(q.clock + us, interval)), run).log;
            forall k :: 0 <= k < |log| && log[k].id == q.nextId ==>
              log[k].at >= q.clock + RunsOf(log[..k + 1], q.nextId) * us
  {
    var us := (interval * 1000000.0).Floor;
    var id, r := q.nextId, After(Next(q, Create(q.clock + us, interval)), run);
    hide Inv, Next, After, Legal, AllSafe, LogOnSchedule, RunsOf;
    CreatedSchedule(q, q.clock + us, interval, run);
    forall k | 0 <= k < |r.log| && r.log[k].id == id
      ensures r.log[k].at >= q.clock + RunsOf(r.log[..k + 1], id) * us
    {
      Paced(r.log, k, q.clock + us, interval);
    }
  }

  /** The schedule of a new timer and the log's own invariant, together. */
  lemma CreatedSchedule(q: Queue, expiry: int, interval: real, run: seq<Step>)
    requires Inv(q) && Legal(Next(q, Create(expiry, interval)), run) && AllSafe(Next(q, Create(expiry, interval)), run)
    ensures var log := After(Next(q, Create(expiry, interval)), run).log;
            LogOnSchedule(log, q.nextId, expiry, interval) && forall f :: f in log ==> f.due <= f.at
  {
    var q1 := Next(q, Create(expiry, interval));
    StepKept(q, Create(expiry, interval));
    StartsOnSchedule(q, expiry, interval);
    hide Next, LogOnSchedule;
    RunKept(q1, run);
    StaysOnSchedule(q1, run, q.nextId, expiry, interval);
    LoggedInTime(After(q1, run));
  }

  lemma Paced(log: seq<Firing>, k: nat, expiry: int, interval: real)
    requires k < |log| && LogOnSchedule(log, log[k].id, expiry, interval) && forall f :: f in log ==> f.due <= f.at
    ensures var us := (interval * 1000000.0).Floor;
            log[k].at >= expiry - us + RunsOf(log[..k + 1], log[k].id) * us
  {
    var id, us, was := log[k].id, (interval * 1000000.0).Floor, log[..k];
    forall j | 0 <= j < k && was[j].id == id
      ensures was[j].interval == interval && was[j].due == DueNext(was[..j], id, expiry, interval)
    {
      assert was[..j] == log[..j];
    }
    forall f | f in was ensures f.due <= f.at { assert f in log; }
    DueGrows(was, id, expiry, interval);
    assert log[..k + 1][..k] == was && log[k] in log;
    assert (RunsOf(was, id) + 1) * us == RunsOf(was, id) * us + us;
  }

  lemma LoggedInTime(q: Queue)
    requires Inv(q)
    ensures forall f :: f in q.log ==> f.due <= f.at
  {
  }
}
