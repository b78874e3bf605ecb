/** The timer queue of src/net/Timer.h and src/net/Timer.cpp as a step system. */
module TimerSpec {

  // An ordered set of timers, deferred cancellation, batches of expired timers whose callbacks add and
  // cancel timers, and one hardware timer. Times are microseconds. Other threads create timers and the
  // clock advances between any two steps. A step is a piece of loop-thread code without callbacks; the
  // clock stands still in it, although BeginBatch reads the timerfd and then the clock, and arming reads
  // the clock and then sets the timerfd.

  /** One heap Timer: its id, its sort key and its constant interval in seconds. */
  datatype Entry = Entry(id: nat, expiry: int, interval: real) {
    predicate Repeats() { interval > 0.0 }
  }

  /** Timestamp::addTime: seconds to whole microseconds, truncated towards zero. */
  function Micros(seconds: real): int {
    if seconds >= 0.0 then (seconds * 1000000.0).Floor else -((-seconds * 1000000.0).Floor)
  }

  /** TimerCmp. */
  predicate Less(a: Entry, b: Entry) {
    if a.expiry == b.expiry then a.id < b.id else a.expiry < b.expiry
  }

  /** Strictly sorted by TimerCmp, and no id twice. */
  ghost predicate Ordered(ts: seq<Entry>) {
    ts == [] || ((forall x :: x in ts[1..] ==> Less(ts[0], x) && x.id != ts[0].id) && Ordered(ts[1..]))
  }

  ghost function Ids(ts: seq<Entry>): set<nat> {
    set e | e in ts :: e.id
  }

  /** std::set::insert: an element with an equivalent key is left alone. */
  function Insert(ts: seq<Entry>, e: Entry): seq<Entry> {
    if ts == [] then [e]
    else if Less(e, ts[0]) then [e] + ts
    else if Less(ts[0], e) then [ts[0]] + Insert(ts[1..], e)
    else ts
  }

  /** Erase the timers whose ids are in `ids`. */
  function Without(ts: seq<Entry>, ids: set<nat>): seq<Entry> {
    if ts == [] then []
    else (if ts[0].id in ids then [] else [ts[0]]) + Without(ts[1..], ids)
  }

  /** std::set::lower_bound: how many leading elements are below the key. */
  function LowerBound(ts: seq<Entry>, key: Entry): (n: nat)
    ensures n <= |ts|
  {
    if ts == [] || !Less(ts[0], key) then 0 else 1 + LowerBound(ts[1..], key)
  }

  /** The hardware timer: `at` is when it was armed. */
  datatype Alarm = Off | Armed(deadline: int, at: int)

  datatype Phase = Idle | Batch(now: int, expired: seq<Entry>, next: nat)

  /** One callback run: at batch time `at`, of a timer that was due at `due`. */
  datatype Firing = Firing(id: nat, at: int, due: int, interval: real)

  /** `inFlight` holds timers created but not yet inserted, `elsewhere` the ids that went to sentinels
      and to other loops' timers. `ok` turns false when deleteTimer is handed a timer that is not in the
      set. For a timer that still exists its assertion then fails; for a freed one the lookup already
      reads freed memory, and what happens there is not defined. */
  datatype Queue = Queue(
    timers: seq<Entry>, canceling: set<nat>, phase: Phase,
    alarm: Alarm, fired: bool, clock: int,
    nextId: nat, inFlight: map<nat, Entry>, freed: set<nat>, elsewhere: set<nat>,
    log: seq<Firing>, ok: bool)

  datatype Step =
    | Tick(t: int)                             // time passes
    | Skip                                     // another queue takes an id
    | Create(expiry: int, interval: real)      // addTimer in any thread: the new Timer
    | Add(id: nat)                             // addTimerInLoop
    | Cancel(id: nat)                          // cancelInLoop
    | BeginBatch(order: seq<nat>)              // handleRead: read, purge in this order, getExpired
    | RunNext                                  // handleRead: the next callback starts
    | EndBatch                                 // handleRead: reset

  function Init(clock: int): Queue {
    Queue([], {}, Idle, Off, false, clock, 0, map[], {}, {}, [], true)
  }

  ghost function Below(n: nat): (s: set<nat>)
    ensures forall x: nat :: x in s <==> x < n
  {
    if n == 0 then {} else Below(n - 1) + {n - 1}
  }

  /** A queue constructed after n ids have been handed out. */
  ghost function InitAt(clock: int, n: nat): Queue {
    Init(clock).(nextId := n, elsewhere := Below(n))
  }

  /** `order` lists every element of s once: the order in which an unordered set is visited. */
  ghost predicate Orders(order: seq<nat>, s: set<nat>) {
    && (forall i, j :: 0 <= i < j < |order| ==> order[i] != order[j])
    && (forall x :: x in order <==> x in s)
  }

  ghost predicate Enabled(q: Queue, s: Step) {
    q.ok &&
    match s
    case Tick(t) => t >= q.clock
    case Skip => true
    case Create(_, _) => true
    case Add(id) => id in q.inFlight
    case Cancel(_) => true
    case BeginBatch(order) => q.phase.Idle? && Orders(order, q.canceling)
    case RunNext => q.phase.Batch? && q.phase.next < |q.phase.expired|
    case EndBatch => q.phase.Batch? && q.phase.next == |q.phase.expired|
  }

  function Max(a: int, b: int): int {
    if a < b then b else a
  }

  /** resetTimerfd: at least 100 microseconds from now; setting the timer clears a pending expiry. */
  function Arm(q: Queue, expiry: int): Queue {
    q.(alarm := Armed(Max(expiry, q.clock + 100), q.clock), fired := false)
  }

  function AddNext(q: Queue, id: nat): Queue
    requires id in q.inFlight
  {
    var e := q.inFlight[id];
    var earliest := q.timers == [] || e.expiry < q.timers[0].expiry;
    var q1 := q.(timers := Insert(q.timers, e), inFlight := q.inFlight - {id});
    if earliest then Arm(q1, e.expiry) else q1
  }

  /** deleteTimer: it must be handed a timer of the set. */
  ghost function DeleteTimer(q: Queue, id: nat): Queue {
    if id in Ids(q.timers) then q.(timers := Without(q.timers, {id}), freed := q.freed + {id})
    else q.(ok := false)
  }

  ghost function CancelNext(q: Queue, id: nat): Queue {
    if q.phase.Batch? then q.(canceling := q.canceling + {id}) else DeleteTimer(q, id)
  }

  function Sentinel(q: Queue): Entry {
    Entry(q.nextId, q.clock, 0.0)
  }

  /** handleRead's loop over the deferred cancels: one deleteTimer after the other. */
  ghost function DeleteAll(q: Queue, order: seq<nat>): Queue
    decreases |order|
  {
    if order == [] || !q.ok then q else DeleteAll(DeleteTimer(q, order[0]), order[1..])
  }

  function TakeExpired(q: Queue): Queue {
    var n := LowerBound(q.timers, Sentinel(q));
    q.(timers := q.timers[n..], phase := Batch(q.clock, q.timers[..n], 0),
       nextId := q.nextId + 1, elsewhere := q.elsewhere + {q.nextId})
  }

  ghost function BeginNext(q: Queue, order: seq<nat>): Queue {
    var q1 := DeleteAll(q.(fired := false), order);
    if q1.ok then TakeExpired(q1.(canceling := {})) else q1
  }

  /** The timers of a batch that go back into the set, with their new keys. */
  predicate Restarts(e: Entry, canceling: set<nat>) {
    e.Repeats() && e.id !in canceling
  }

  function Restarted(e: Entry, now: int): Entry {
    e.(expiry := now + Micros(e.interval))
  }

  function Reinsert(ts: seq<Entry>, batch: seq<Entry>, canceling: set<nat>, now: int): seq<Entry>
    decreases |batch|
  {
    if batch == [] then ts
    else if Restarts(batch[0], canceling) then
      Reinsert(Insert(ts, Restarted(batch[0], now)), batch[1..], canceling, now)
    else Reinsert(ts, batch[1..], canceling, now)
  }

  ghost function Released(batch: seq<Entry>, canceling: set<nat>): set<nat> {
    set e | e in batch && !Restarts(e, canceling) :: e.id
  }

  ghost function EndNext(q: Queue): Queue
    requires q.phase.Batch?
  {
    var ts := Reinsert(q.timers, q.phase.expired, q.canceling, q.phase.now);
    var q1 := q.(timers := ts, freed := q.freed + Released(q.phase.expired, q.canceling), phase := Idle);
    if ts == [] then q1 else Arm(q1, ts[0].expiry)
  }

  function Fire(e: Entry, now: int): Firing {
    Firing(e.id, now, e.expiry, e.interval)
  }

  ghost function Next(q: Queue, s: Step): Queue
    requires Enabled(q, s)
  {
    match s
    case Tick(t) =>
      if q.alarm.Armed? && q.alarm.deadline <= t then q.(clock := t, alarm := Off, fired := true)
      else q.(clock := t)
    case Skip => q.(nextId := q.nextId + 1, elsewhere := q.elsewhere + {q.nextId})
    case Create(expiry, interval) =>
      q.(nextId := q.nextId + 1, inFlight := q.inFlight[q.nextId := Entry(q.nextId, expiry, interval)])
    case Add(id) => AddNext(q, id)
    case Cancel(id) => CancelNext(q, id)
    case BeginBatch(order) => BeginNext(q, order)
    case RunNext =>
      var p := q.phase;
      q.(log := q.log + [Fire(p.expired[p.next], p.now)], phase := p.(next := p.next + 1))
    case EndBatch => EndNext(q)
  }

  /** The caller's side of cancel: it names a timer in the set, and outside a batch not one whose
      cancellation is already waiting. */
  ghost predicate SafeCancel(q: Queue, id: nat) {
    id in Ids(q.timers) && (q.phase.Idle? ==> id !in q.canceling)
  }

  ghost predicate Safe(q: Queue, s: Step) {
    s.Cancel? ==> SafeCancel(q, s.id)
  }

  ghost predicate Legal(q: Queue, run: seq<Step>)
    decreases |run|
  {
    run == [] || (Enabled(q, run[0]) && Legal(Next(q, run[0]), run[1..]))
  }

  ghost function After(q: Queue, run: seq<Step>): Queue
    requires Legal(q, run)
    decreases |run|
  {
    if run == [] then q else After(Next(q, run[0]), run[1..])
  }

  ghost predicate AllSafe(q: Queue, run: seq<Step>)
    requires Legal(q, run)
    decreases |run|
  {
    run == [] || (Safe(q, run[0]) && AllSafe(Next(q, run[0]), run[1..]))
  }

  // ---------------------------------------------------------------- the ordered set

  lemma {:induction false} OrderedPairs(ts: seq<Entry>, i: nat, j: nat)
    requires Ordered(ts) && i < j < |ts|
    ensures Less(ts[i], ts[j]) && ts[i].id != ts[j].id
  {
    if i == 0 {
      assert ts[j] == ts[1..][j - 1];
    } else {
      OrderedPairs(ts[1..], i - 1, j - 1);
    }
  }

  lemma {:induction false} InsertMembers(ts: seq<Entry>, e: Entry)
    requires e.id !in Ids(ts)
    ensures forall x :: x in Insert(ts, e) <==> x in ts || x == e
  {
    if ts != [] {
      assert ts == [ts[0]] + ts[1..];
      assert ts[0] in ts && ts[0].id in Ids(ts);
      assert Ids(ts[1..]) <= Ids(ts);
      InsertMembers(ts[1..], e);
    }
  }

  lemma {:induction false} InsertOrdered(ts: seq<Entry>, e: Entry)
    requires Ordered(ts) && e.id !in Ids(ts)
    ensures Ordered(Insert(ts, e))
  {
    if ts != [] {
      assert ts[0] in ts && ts[0].id in Ids(ts);
      assert Ids(ts[1..]) <= Ids(ts);
      if Less(e, ts[0]) {
        var all := [e] + ts;
        assert all[1..] == ts;
        forall x | x in ts ensures Less(e, x) && x.id != e.id {
          assert x.id in Ids(ts);
          assert x == ts[0] || x in ts[1..];
        }
      } else {
        InsertOrdered(ts[1..], e);
        InsertMembers(ts[1..], e);
        var all := [ts[0]] + Insert(ts[1..], e);
        assert all[1..] == Insert(ts[1..], e);
      }
    }
  }

  lemma InsertIds(ts: seq<Entry>, e: Entry)
    requires e.id !in Ids(ts)
    ensures Ids(Insert(ts, e)) == Ids(ts) + {e.id}
  {
    InsertMembers(ts, e);
    forall id ensures id in Ids(Insert(ts, e)) <==> id in Ids(ts) + {e.id} {
      if id in Ids(ts) {
        var x :| x in ts && x.id == id;
        assert x in Insert(ts, e);
      }
      if id == e.id { assert e in Insert(ts, e); }
    }
  }

  /** The first element after an insertion is the newcomer exactly when insertTimer says so. */
  lemma InsertHead(ts: seq<Entry>, e: Entry)
    ensures Insert(ts, e) != []
    ensures (ts == [] || e.expiry < ts[0].expiry) ==> Insert(ts, e)[0] == e
    ensures ts != [] && e.expiry >= ts[0].expiry ==> Insert(ts, e)[0].expiry == ts[0].expiry
  {
  }

  lemma {:induction false} WithoutMembers(ts: seq<Entry>, ids: set<nat>)
    ensures forall e :: e in Without(ts, ids) <==> e in ts && e.id !in ids
  {
    if ts != [] {
      WithoutMembers(ts[1..], ids);
      assert ts == [ts[0]] + ts[1..];
    }
  }

  lemma {:induction false} WithoutOrdered(ts: seq<Entry>, ids: set<nat>)
    requires Ordered(ts)
    ensures Ordered(Without(ts, ids))
  {
    if ts != [] {
      WithoutOrdered(ts[1..], ids);
      WithoutMembers(ts[1..], ids);
      var rest := Without(ts[1..], ids);
      if ts[0].id !in ids {
        assert ([ts[0]] + rest)[1..] == rest;
      } else {
        assert [] + rest == rest;
      }
    }
  }

  lemma WithoutIds(ts: seq<Entry>, ids: set<nat>)
    ensures Ids(Without(ts, ids)) == Ids(ts) - ids
  {
    WithoutMembers(ts, ids);
    forall id | id in Ids(ts) - ids ensures id in Ids(Without(ts, ids)) {
      var x :| x in ts && x.id == id;
      assert x in Without(ts, ids);
    }
  }

  lemma {:induction false} WithoutNone(es: seq<Entry>, ids: set<nat>)
    requires Ids(es) !! ids
    ensures Without(es, ids) == es
  {
    if es != [] {
      assert es[0] in es && es[0].id in Ids(es);
      assert Ids(es[1..]) <= Ids(es);
      WithoutNone(es[1..], ids);
    }
  }

  lemma {:induction false} WithoutTwice(es: seq<Entry>, a: set<nat>, b: set<nat>)
    ensures Without(Without(es, a), b) == Without(es, a + b)
  {
    if es != [] {
      WithoutTwice(es[1..], a, b);
      var rest := Without(es[1..], a);
      if es[0].id !in a {
        assert ([es[0]] + rest)[1..] == rest;
      } else {
        assert [] + rest == rest;
      }
    }
  }

  // ---------------------------------------------------------------- the deferred cancels

  /** All deferred cancels at once. */
  ghost function Purge(q: Queue): Queue {
    q.(timers := Without(q.timers, q.canceling), freed := q.freed + q.canceling, canceling := {})
  }

  lemma OrdersTail(order: seq<nat>, ids: set<nat>)
    requires Orders(order, ids) && order != []
    ensures order[0] in ids && Orders(order[1..], ids - {order[0]})
  {
    var tail := order[1..];
    assert order == [order[0]] + tail;
    forall x ensures x in tail <==> x in ids - {order[0]} {
      if x in tail {
        var k :| 0 <= k < |tail| && tail[k] == x;
        assert order[k + 1] == x;
      }
    }
  }

  /** Deleting one by one succeeds if and only if every id is in the set, in whatever order the ids are
      visited; then all of them, and nothing else, have gone. */
  lemma {:induction false} DeleteAllExactly(q: Queue, order: seq<nat>, ids: set<nat>)
    requires q.ok && Orders(order, ids)
    ensures DeleteAll(q, order).ok <==> ids <= Ids(q.timers)
    ensures ids <= Ids(q.timers) ==>
              DeleteAll(q, order) == q.(timers := Without(q.timers, ids), freed := q.freed + ids)
    decreases |order|
  {
    if order == [] {
      assert ids == {};
      WithoutNone(q.timers, ids);
    } else {
      var x := order[0];
      OrdersTail(order, ids);
      assert ids == {x} + (ids - {x});
      var q1 := DeleteTimer(q, x);
      if q1.ok {
        WithoutIds(q.timers, {x});
        WithoutTwice(q.timers, {x}, ids - {x});
        DeleteAllExactly(q1, order[1..], ids - {x});
        assert ids - {x} <= Ids(q1.timers) <==> ids <= Ids(q.timers);
      }
    }
  }

  /** What handleRead's first half does when no deferred cancel misses. */
  lemma BeginIs(q: Queue, order: seq<nat>)
    requires q.ok && Orders(order, q.canceling) && q.canceling <= Ids(q.timers)
    ensures BeginNext(q, order) == TakeExpired(Purge(q.(fired := false)))
  {
    DeleteAllExactly(q.(fired := false), order, q.canceling);
  }

  lemma {:induction false} SomeOrder(s: set<nat>) returns (order: seq<nat>)
    ensures Orders(order, s)
    decreases |s|
  {
    if s == {} {
      order := [];
    } else {
      var x :| x in s;
      var rest := SomeOrder(s - {x});
      order := [x] + rest;
    }
  }

  /** The batch that the next handleRead takes. */
  ghost function Due(q: Queue): seq<Entry> {
    TakeExpired(Purge(q)).phase.expired
  }

  /** It is exactly the timers that are due and not cancelled, in their order in the set. */
  lemma DueExactly(q: Queue)
    requires Ordered(q.timers) && forall e :: e in q.timers ==> e.id < q.nextId
    ensures Ordered(Due(q))
    ensures forall e :: e in Due(q) <==> e in q.timers && e.id !in q.canceling && e.expiry <= q.clock
  {
    WithoutOrdered(q.timers, q.canceling);
    WithoutMembers(q.timers, q.canceling);
    ExpiredExactly(Purge(q));
  }

  /** Erasing never brings a later expiration to the front. */
  lemma {:induction false} WithoutHead(ts: seq<Entry>, ids: set<nat>)
    requires Ordered(ts) && Without(ts, ids) != []
    ensures ts != [] && ts[0].expiry <= Without(ts, ids)[0].expiry
  {
    WithoutMembers(ts, ids);
    var h := Without(ts, ids)[0];
    assert h in ts;
    assert h == ts[0] || h in ts[1..];
  }

  /** Split at the sentinel: below it is what has expired, because no id reaches the sentinel's. */
  lemma {:induction false} LowerBoundSplits(ts: seq<Entry>, key: Entry)
    requires Ordered(ts) && forall e :: e in ts ==> e.id < key.id
    ensures var n := LowerBound(ts, key);
            && (forall e :: e in ts[..n] ==> e.expiry <= key.expiry)
            && (forall e :: e in ts[n..] ==> e.expiry > key.expiry)
            && Ordered(ts[..n]) && Ordered(ts[n..])
  {
    if ts != [] && Less(ts[0], key) {
      var n := LowerBound(ts, key);
      LowerBoundSplits(ts[1..], key);
      assert ts[..n] == [ts[0]] + ts[1..][..n - 1];
      assert ts[..n][1..] == ts[1..][..n - 1];
      assert ts[n..] == ts[1..][n - 1..];
    } else if ts != [] {
      assert ts[0] in ts;
      forall e | e in ts ensures e.expiry > key.expiry {
        assert e == ts[0] || e in ts[1..];
      }
      assert ts[0..] == ts && ts[..0] == [];
    }
  }

  /** getExpired is exact because the sentinel's id is above every id in the set: it takes the timers
      with expiration at most now, in order, and leaves the others. */
  lemma ExpiredExactly(q: Queue)
    requires Ordered(q.timers) && forall e :: e in q.timers ==> e.id < q.nextId
    ensures var r := TakeExpired(q);
            && r.phase.expired + r.timers == q.timers
            && Ordered(r.phase.expired) && Ordered(r.timers)
            && (forall e :: e in r.phase.expired <==> e in q.timers && e.expiry <= q.clock)
            && (forall e :: e in r.timers <==> e in q.timers && e.expiry > q.clock)
  {
    LowerBoundSplits(q.timers, Sentinel(q));
    var r := TakeExpired(q);
    assert r.phase.expired + r.timers == q.timers;
    forall e ensures e in q.timers <==> e in r.phase.expired || e in r.timers {
      assert e in q.timers <==> e in r.phase.expired + r.timers;
    }
  }
}
