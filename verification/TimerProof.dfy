/** What TimerSpec guarantees over every run whose cancels are safe, and what an unsafe cancel does. */
module TimerProof {
  import opened TimerSpec

  ghost function BatchOf(q: Queue): seq<Entry> {
    if q.phase.Batch? then q.phase.expired else []
  }

  // ---------------------------------------------------------------- ownership

  function One(b: bool): nat {
    if b then 1 else 0
  }

  /** In how many places a timer is: waiting to be inserted, in the set, in the running batch, freed,
      or not a timer of this queue at all. */
  ghost function Places(q: Queue, id: nat): nat {
    One(id in q.inFlight) + One(id in Ids(q.timers)) + One(id in Ids(BatchOf(q)))
    + One(id in q.freed) + One(id in q.elsewhere)
  }

  ghost predicate OwnInv(q: Queue) {
    && (forall id: nat :: Places(q, id) == One(id < q.nextId))
    && (forall id :: id in q.inFlight ==> q.inFlight[id].id == id)
    && Ordered(q.timers) && Ordered(BatchOf(q))
  }

  // ---------------------------------------------------------------- the hardware timer

  ghost predicate AlarmInv(q: Queue) {
    && (q.alarm.Armed? ==> q.alarm.at <= q.clock < q.alarm.deadline)
    && (q.phase.Idle? && q.timers != [] && !q.fired ==>
          q.alarm.Armed? && q.alarm.deadline <= Max(q.timers[0].expiry, q.alarm.at + 100))
  }

  // ---------------------------------------------------------------- firings

  /** A timer that fired as f may be in the set only if it repeats and has rested its interval. */
  predicate Rested(f: Firing, e: Entry) {
    f.id == e.id ==> e.Repeats() && f.interval == e.interval && f.at + Micros(e.interval) <= e.expiry
  }

  predicate FiredBy(f: Firing, e: Entry, now: int) {
    f.id == e.id ==> f.interval == e.interval && f.at <= now
  }

  ghost predicate LogInv(q: Queue) {
    && (forall f :: f in q.log ==> f.due <= f.at)
    && (forall k, l :: 0 <= k < l < |q.log| && q.log[k].id == q.log[l].id ==>
          q.log[l].interval > 0.0 && q.log[k].at + Micros(q.log[l].interval) <= q.log[l].at)
    && (forall f :: f in q.log ==> f.id in Ids(q.timers) || f.id in Ids(BatchOf(q)) || f.id in q.freed)
    && (forall f, e :: f in q.log && e in q.timers ==> Rested(f, e))
    && (q.phase.Batch? ==>
          && q.phase.next <= |q.phase.expired|
          && (forall e :: e in q.phase.expired ==> e.expiry <= q.phase.now)
          && (forall f, j :: f in q.log && q.phase.next <= j < |q.phase.expired| ==> Rested(f, q.phase.expired[j]))
          && (forall f, j :: f in q.log && 0 <= j < q.phase.next ==> FiredBy(f, q.phase.expired[j], q.phase.now)))
  }

  /** Deferred cancels name timers that the next handleRead will find. */
  ghost predicate CancelInv(q: Queue) {
    q.ok && q.canceling <= Ids(q.timers)
  }

  ghost predicate Inv(q: Queue) {
    CancelInv(q) && OwnInv(q) && AlarmInv(q) && LogInv(q)
  }

  // ---------------------------------------------------------------- helpers

  lemma {:induction false} SplitIds(ts: seq<Entry>, n: nat)
    requires Ordered(ts) && n <= |ts|
    ensures Ids(ts[..n]) + Ids(ts[n..]) == Ids(ts) && Ids(ts[..n]) !! Ids(ts[n..])
  {
    forall id ensures id in Ids(ts) <==> id in Ids(ts[..n]) || id in Ids(ts[n..]) {
      assert ts == ts[..n] + ts[n..];
      if id in Ids(ts) {
        var x :| x in ts && x.id == id;
        assert x in ts[..n] || x in ts[n..];
      }
    }
    forall a, b | a in ts[..n] && b in ts[n..] ensures a.id != b.id {
      var i :| 0 <= i < n && ts[i] == a;
      var j :| n <= j < |ts| && ts[j] == b;
      OrderedPairs(ts, i, j);
    }
  }

  ghost function Kept(batch: seq<Entry>, canceling: set<nat>): set<nat> {
    set e | e in batch && Restarts(e, canceling) :: e.id
  }

  lemma {:induction false} BatchIdsSplit(batch: seq<Entry>, canceling: set<nat>)
    requires Ordered(batch)
    ensures Kept(batch, canceling) + Released(batch, canceling) == Ids(batch)
    ensures Kept(batch, canceling) !! Released(batch, canceling)
  {
    forall a, b | a in batch && b in batch && a.id == b.id ensures a == b {
      var i :| 0 <= i < |batch| && batch[i] == a;
      var j :| 0 <= j < |batch| && batch[j] == b;
      if i < j { OrderedPairs(batch, i, j); } else if j < i { OrderedPairs(batch, j, i); }
    }
    forall id | id in Ids(batch) ensures id in Kept(batch, canceling) + Released(batch, canceling) {
      var x :| x in batch && x.id == id;
    }
  }

  /** reset: the set stays ordered, and gains exactly the restarted timers of the batch. */
  lemma {:induction false} ReinsertKeeps(ts: seq<Entry>, batch: seq<Entry>, canceling: set<nat>, now: int)
    requires Ordered(ts) && Ordered(batch) && Ids(ts) !! Ids(batch)
    ensures var r := Reinsert(ts, batch, canceling, now);
            && Ordered(r)
            && Ids(r) == Ids(ts) + Kept(batch, canceling)
            && (forall x :: x in r ==>
                  x in ts || exists e :: e in batch && Restarts(e, canceling) && x == Restarted(e, now))
    decreases |batch|
  {
    if batch != [] {
      var b := batch[0];
      assert b in batch && b.id in Ids(batch);
      assert batch == [b] + batch[1..];
      assert Ids(batch) == {b.id} + Ids(batch[1..]);
      var e := Restarted(b, now);
      if Restarts(b, canceling) {
        InsertOrdered(ts, e);
        InsertIds(ts, e);
        InsertMembers(ts, e);
        assert b.id !in Ids(batch[1..]);
        ReinsertKeeps(Insert(ts, e), batch[1..], canceling, now);
        assert Kept(batch, canceling) == {b.id} + Kept(batch[1..], canceling);
      } else {
        ReinsertKeeps(ts, batch[1..], canceling, now);
        assert Kept(batch, canceling) == Kept(batch[1..], canceling);
      }
    }
  }

  // ---------------------------------------------------------------- each step

  lemma AddOwn(q: Queue, id: nat)
    requires OwnInv(q) && Enabled(q, Add(id))
    ensures OwnInv(AddNext(q, id)) && Ids(AddNext(q, id).timers) == Ids(q.timers) + {id}
  {
    var e := q.inFlight[id];
    assert Places(q, id) == One(id < q.nextId);
    InsertOrdered(q.timers, e);
    InsertIds(q.timers, e);
    forall x: nat ensures Places(AddNext(q, id), x) == One(x < q.nextId) {
      assert Places(q, x) == One(x < q.nextId);
    }
  }

  lemma InvOrdered(q: Queue)
    requires Inv(q)
    ensures Ordered(q.timers) && Ordered(BatchOf(q)) && q.canceling <= Ids(q.timers) && q.ok
  {
  }

  lemma InFlightOnly(q: Queue, id: nat)
    requires Inv(q) && id in q.inFlight
    ensures id !in Ids(q.timers) && id !in Ids(BatchOf(q)) && id !in q.freed && q.inFlight[id].id == id && q.ok
  {
    assert Places(q, id) == One(id < q.nextId);
  }

  lemma CreateOwn(q: Queue, s: Step)
    requires OwnInv(q) && Enabled(q, s) && (s.Create? || s.Skip?)
    ensures OwnInv(Next(q, s))
  {
    assert Places(q, q.nextId) == 0;
    forall x: nat ensures Places(Next(q, s), x) == One(x < q.nextId + 1) {
      assert Places(q, x) == One(x < q.nextId);
    }
  }

  lemma CancelOwn(q: Queue, id: nat)
    requires OwnInv(q) && CancelInv(q) && SafeCancel(q, id)
    ensures OwnInv(CancelNext(q, id)) && CancelInv(CancelNext(q, id))
  {
    WithoutOrdered(q.timers, {id});
    WithoutIds(q.timers, {id});
    forall x: nat ensures Places(CancelNext(q, id), x) == One(x < q.nextId) {
      assert Places(q, x) == One(x < q.nextId);
    }
  }

  lemma PurgeOwn(q: Queue)
    requires OwnInv(q) && CancelInv(q)
    ensures OwnInv(Purge(q)) && CancelInv(Purge(q)) && Purge(q).canceling == {}
  {
    WithoutOrdered(q.timers, q.canceling);
    WithoutIds(q.timers, q.canceling);
    forall x: nat ensures Places(Purge(q), x) == One(x < q.nextId) {
      assert Places(q, x) == One(x < q.nextId);
    }
  }

  lemma SetBelowNextId(q: Queue)
    requires OwnInv(q)
    ensures forall e :: e in q.timers ==> e.id < q.nextId
  {
    forall e | e in q.timers ensures e.id < q.nextId {
      assert e.id in Ids(q.timers);
      assert Places(q, e.id) == One(e.id < q.nextId);
    }
  }

  lemma TakePlaces(q: Queue, x: nat)
    requires OwnInv(q) && q.phase.Idle?
    ensures Places(TakeExpired(q), x) == Places(q, x) + One(x == q.nextId)
  {
    SplitIds(q.timers, LowerBound(q.timers, Sentinel(q)));
    assert Places(q, q.nextId) == One(q.nextId < q.nextId);
    hide OwnInv;
  }

  lemma TakeOrdered(q: Queue)
    requires OwnInv(q)
    ensures Ordered(TakeExpired(q).timers) && Ordered(TakeExpired(q).phase.expired)
  {
    SetBelowNextId(q);
    LowerBoundSplits(q.timers, Sentinel(q));
  }

  lemma TakeOwn(q: Queue)
    requires OwnInv(q) && q.phase.Idle?
    ensures OwnInv(TakeExpired(q))
  {
    TakeOrdered(q);
    var r := TakeExpired(q);
    forall x: nat ensures Places(r, x) == One(x < r.nextId) {
      TakePlaces(q, x);
      assert Places(q, x) == One(x < q.nextId);
    }
    hide Places;
  }

  lemma BatchDisjoint(q: Queue)
    requires OwnInv(q)
    ensures Ids(q.timers) !! Ids(BatchOf(q))
  {
    forall id: nat ensures !(id in Ids(q.timers) && id in Ids(BatchOf(q))) {
      assert Places(q, id) == One(id < q.nextId);
    }
  }

  lemma EndOwn(q: Queue)
    requires OwnInv(q) && CancelInv(q) && Enabled(q, EndBatch)
    ensures OwnInv(EndNext(q)) && CancelInv(EndNext(q))
  {
    BatchDisjoint(q);
    ReinsertKeeps(q.timers, q.phase.expired, q.canceling, q.phase.now);
    BatchIdsSplit(q.phase.expired, q.canceling);
    var r := EndNext(q);
    forall x: nat ensures Places(r, x) == One(x < q.nextId) {
      assert Places(q, x) == One(x < q.nextId);
    }
  }

  /** Steps that move no timer. */
  lemma OwnSame(q: Queue, r: Queue)
    requires OwnInv(q) && CancelInv(q)
    requires r.timers == q.timers && BatchOf(r) == BatchOf(q) && r.inFlight == q.inFlight && r.freed == q.freed
    requires r.elsewhere == q.elsewhere && r.nextId == q.nextId && r.canceling == q.canceling && r.ok
    ensures OwnInv(r) && CancelInv(r)
  {
    forall x: nat ensures Places(r, x) == One(x < r.nextId) {
      assert Places(q, x) == One(x < q.nextId);
    }
  }

  lemma BeginOwn(q: Queue, order: seq<nat>)
    requires OwnInv(q) && CancelInv(q) && Enabled(q, BeginBatch(order))
    ensures OwnInv(BeginNext(q, order)) && CancelInv(BeginNext(q, order))
  {
    BeginIs(q, order);
    OwnSame(q, q.(fired := false));
    PurgeOwn(q.(fired := false));
    TakeOwn(Purge(q.(fired := false)));
  }

  lemma OwnKept(q: Queue, s: Step)
    requires OwnInv(q) && CancelInv(q) && Enabled(q, s) && Safe(q, s)
    ensures OwnInv(Next(q, s)) && CancelInv(Next(q, s))
  {
    match s
    case Skip => CreateOwn(q, s);
    case Create(_, _) => CreateOwn(q, s);
    case Add(id) => AddOwn(q, id);
    case Cancel(id) => CancelOwn(q, id);
    case BeginBatch(order) => BeginOwn(q, order);
    case EndBatch => EndOwn(q);
    case _ => OwnSame(q, Next(q, s));
  }

  lemma AlarmKept(q: Queue, s: Step)
    requires OwnInv(q) && CancelInv(q) && AlarmInv(q) && Enabled(q, s) && Safe(q, s)
    ensures AlarmInv(Next(q, s))
  {
    match s
    case Add(id) => InsertHead(q.timers, q.inFlight[id]);
    case Cancel(id) => if q.phase.Idle? && Without(q.timers, {id}) != [] { WithoutHead(q.timers, {id}); }
    case BeginBatch(order) => BeginIs(q, order);
    case _ =>
  }

  // ---------------------------------------------------------------- firings, step by step

  lemma AddLog(q: Queue, id: nat)
    requires OwnInv(q) && LogInv(q) && Enabled(q, Add(id))
    ensures LogInv(AddNext(q, id))
  {
    var e := q.inFlight[id];
    var r := AddNext(q, id);
    assert Places(q, id) == One(id < q.nextId);
    InsertMembers(q.timers, e);
    InsertIds(q.timers, e);
    forall f, x | f in r.log && x in r.timers ensures Rested(f, x) {
      if x == e { assert f.id != id; }
    }
  }

  lemma CancelLog(q: Queue, id: nat)
    requires LogInv(q) && SafeCancel(q, id)
    ensures LogInv(CancelNext(q, id))
  {
    WithoutMembers(q.timers, {id});
    WithoutIds(q.timers, {id});
  }

  lemma PurgeLog(q: Queue)
    requires LogInv(q) && CancelInv(q)
    ensures LogInv(Purge(q))
  {
    WithoutMembers(q.timers, q.canceling);
    WithoutIds(q.timers, q.canceling);
  }

  lemma TakeLog(q: Queue)
    requires OwnInv(q) && LogInv(q) && q.phase.Idle?
    ensures LogInv(TakeExpired(q))
  {
    SetBelowNextId(q);
    var n := LowerBound(q.timers, Sentinel(q));
    LowerBoundSplits(q.timers, Sentinel(q));
    SplitIds(q.timers, n);
    var r := TakeExpired(q);
    forall f, j | f in r.log && 0 <= j < |r.phase.expired| ensures Rested(f, r.phase.expired[j]) {
      assert r.phase.expired[j] == q.timers[j];
    }
    forall f, e | f in r.log && e in r.timers ensures Rested(f, e) {
      assert e in q.timers;
    }
  }

  lemma {:induction false} OrderedDistinct(ts: seq<Entry>)
    requires Ordered(ts)
    ensures forall i, j :: 0 <= i < |ts| && 0 <= j < |ts| && i != j ==> ts[i].id != ts[j].id
  {
    forall i, j | 0 <= i < j < |ts| ensures ts[i].id != ts[j].id { OrderedPairs(ts, i, j); }
  }

  /** The timer that runs next is in the batch once, and not in the set. */
  lemma NextAlone(q: Queue)
    requires OwnInv(q) && Enabled(q, RunNext)
    ensures var p := q.phase;
            && (forall j :: 0 <= j < |p.expired| && j != p.next ==> p.expired[j].id != p.expired[p.next].id)
            && (forall x :: x in q.timers ==> x.id != p.expired[p.next].id)
            && p.expired[p.next].id in Ids(BatchOf(q))
  {
    var e := q.phase.expired[q.phase.next];
    OrderedDistinct(q.phase.expired);
    BatchDisjoint(q);
    assert e in BatchOf(q) && e.id in Ids(BatchOf(q));
    forall x | x in q.timers ensures x.id != e.id { assert x.id in Ids(q.timers); }
  }

  /** The key step: the timer that runs next was due, and rested since each earlier run. */
  lemma RunLog(q: Queue)
    requires OwnInv(q) && LogInv(q) && Enabled(q, RunNext)
    ensures LogInv(Next(q, RunNext))
  {
    hide OwnInv, Ordered, Ids;
    NextAlone(q);
    var p := q.phase;
    var e := p.expired[p.next];
    var f := Fire(e, p.now);
    var r := Next(q, RunNext);
    assert e in p.expired && r.log[|q.log|] == f;
    forall k | 0 <= k < |q.log| ensures q.log[k] in q.log && Rested(q.log[k], p.expired[p.next]) {}
    forall g, x | g in r.log && x in r.timers ensures Rested(g, x) {
      if g == f { assert x.id != e.id; }
    }
    forall g, j | g in r.log && r.phase.next <= j < |p.expired| ensures Rested(g, r.phase.expired[j]) {}
    forall g, j | g in r.log && 0 <= j < r.phase.next ensures FiredBy(g, r.phase.expired[j], p.now) {
      if g in q.log && j == p.next {
        assert Rested(g, p.expired[p.next]);
        assert e.Repeats() ==> Micros(e.interval) >= 0;
      }
    }
  }

  lemma EndLog(q: Queue)
    requires OwnInv(q) && LogInv(q) && Enabled(q, EndBatch)
    ensures LogInv(EndNext(q))
  {
    var p := q.phase;
    var r := EndNext(q);
    BatchDisjoint(q);
    ReinsertKeeps(q.timers, p.expired, q.canceling, p.now);
    BatchIdsSplit(p.expired, q.canceling);
    forall f, x | f in r.log && x in r.timers ensures Rested(f, x) {
      if x !in q.timers {
        var e :| e in p.expired && Restarts(e, q.canceling) && x == Restarted(e, p.now);
        var j :| 0 <= j < |p.expired| && p.expired[j] == e;
        assert FiredBy(f, p.expired[j], p.now);
      }
    }
  }

  lemma LogKept(q: Queue, s: Step)
    requires OwnInv(q) && CancelInv(q) && LogInv(q) && Enabled(q, s) && Safe(q, s)
    ensures LogInv(Next(q, s))
  {
    match s
    case Add(id) => AddLog(q, id);
    case Cancel(id) => CancelLog(q, id);
    case BeginBatch(order) =>
      var q0 := q.(fired := false);
      BeginIs(q, order);
      OwnSame(q, q0);
      PurgeOwn(q0);
      PurgeLog(q0);
      TakeLog(Purge(q0));
    case RunNext => RunLog(q);
    case EndBatch => EndLog(q);
    case _ =>
  }

  // ---------------------------------------------------------------- every safe run

  lemma StepKept(q: Queue, s: Step)
    requires Inv(q) && Enabled(q, s) && Safe(q, s)
    ensures Inv(Next(q, s))
  {
    OwnKept(q, s);
    AlarmKept(q, s);
    LogKept(q, s);
  }

  lemma PurgeKept(q: Queue, order: seq<nat>)
    requires Inv(q) && q.phase.Idle? && Orders(order, q.canceling)
    ensures Inv(BeginNext(q, order)) && BeginNext(q, order) == TakeExpired(Purge(q.(fired := false)))
  {
    StepKept(q, BeginBatch(order));
    BeginIs(q, order);
  }

  /** What reset may rely on, and that it keeps the invariant. */
  lemma EndReady(q: Queue)
    requires Inv(q) && Enabled(q, EndBatch)
    ensures Ordered(q.timers) && Ordered(q.phase.expired) && Ids(q.timers) !! Ids(q.phase.expired)
    ensures forall id :: id in q.inFlight ==> q.inFlight[id].id == id && id !in Ids(q.phase.expired)
    ensures Inv(EndNext(q))
  {
    StepKept(q, EndBatch);
    BatchDisjoint(q);
    forall id | id in q.inFlight ensures q.inFlight[id].id == id && id !in Ids(q.phase.expired) {
      InFlightOnly(q, id);
    }
  }

  /** A run that is legal and safe and leads from q to r. */
  ghost predicate Leads(q: Queue, run: seq<Step>, r: Queue) {
    Legal(q, run) && AllSafe(q, run) && After(q, run) == r
  }

  lemma {:induction false} LeadsOn(q: Queue, a: seq<Step>, r: Queue, b: seq<Step>, t: Queue)
    requires Leads(q, a, r) && Leads(r, b, t)
    ensures Leads(q, a + b, t)
    decreases |a|
  {
    if a == [] {
      assert a + b == b;
    } else {
      LeadsOn(Next(q, a[0]), a[1..], r, b, t);
      assert (a + b)[1..] == a[1..] + b;
    }
  }

  lemma LeadsOne(q: Queue, s: Step)
    requires Enabled(q, s) && Safe(q, s)
    ensures Leads(q, [s], Next(q, s))
  {
    assert [s][1..] == [];
  }

  lemma LeadsNone(q: Queue)
    ensures Leads(q, [], q)
  {
  }

  lemma {:induction false} RunKept(q: Queue, run: seq<Step>)
    requires Inv(q) && Legal(q, run) && AllSafe(q, run)
    ensures Inv(After(q, run))
    decreases |run|
  {
    if run != [] {
      StepKept(q, run[0]);
      RunKept(Next(q, run[0]), run[1..]);
    }
  }

  lemma InitInv(clock: int, n: nat)
    ensures Inv(Init(clock)) && Inv(InitAt(clock, n))
  {
    forall x: nat ensures Places(InitAt(clock, n), x) == One(x < n) {}
  }

  /** Ownership is conserved: every id handed out is in exactly one place, the set and the running
      batch stay strictly ordered, and no deferred cancel will miss. */
  lemma TimersConserved(clock: int, run: seq<Step>)
    requires Legal(Init(clock), run) && AllSafe(Init(clock), run)
    ensures var q := After(Init(clock), run);
            && (forall id: nat :: Places(q, id) == One(id < q.nextId))
            && (forall i, j :: 0 <= i < j < |q.timers| ==>
                  q.timers[i].expiry < q.timers[j].expiry
                  || (q.timers[i].expiry == q.timers[j].expiry && q.timers[i].id < q.timers[j].id))
            && q.ok && q.canceling <= Ids(q.timers)
  {
    InitInv(clock, 0);
    RunKept(Init(clock), run);
    var q := After(Init(clock), run);
    forall i, j | 0 <= i < j < |q.timers| ensures Less(q.timers[i], q.timers[j]) {
      OrderedPairs(q.timers, i, j);
    }
  }

  /** A freed timer stays freed, so it is freed once and never touched again. */
  lemma {:induction false} FreedForGood(q: Queue, run: seq<Step>, id: nat)
    requires Inv(q) && Legal(q, run) && AllSafe(q, run) && id in q.freed
    ensures var r := After(q, run);
            id in r.freed && id !in r.inFlight && id !in Ids(r.timers) && id !in Ids(BatchOf(r))
    decreases |run|
  {
    if run == [] {
      assert Places(q, id) == One(id < q.nextId);
    } else {
      StepKept(q, run[0]);
      if run[0].BeginBatch? { BeginIs(q, run[0].order); }
      FreedForGood(Next(q, run[0]), run[1..], id);
    }
  }

  /** No timer is stranded: outside handleRead, a non-empty set has a hardware timer that has fired, or
      is armed for a deadline still ahead and no later than the earliest expiration, up to the
      100 microsecond floor at the time of arming. So an earliest timer that is overdue by more
      than that floor is always due to be handled. */
  lemma NoTimerStranded(clock: int, run: seq<Step>)
    requires Legal(Init(clock), run) && AllSafe(Init(clock), run)
    ensures var q := After(Init(clock), run);
            q.phase.Idle? && q.timers != [] && !q.fired ==>
              && q.alarm.Armed? && q.alarm.at <= q.clock < q.alarm.deadline
              && (q.alarm.deadline <= q.timers[0].expiry || q.alarm.deadline <= q.alarm.at + 100)
              && (q.clock < q.timers[0].expiry || q.clock < q.alarm.at + 100)
  {
    InitInv(clock, 0);
    RunKept(Init(clock), run);
  }

  /** Firing over whole runs: a callback runs only at a batch time at or past its expiration; a
      one-shot timer runs at most once; two runs of one repeating timer are at least its interval
      in microseconds apart. */
  lemma FiringDiscipline(clock: int, run: seq<Step>)
    requires Legal(Init(clock), run) && AllSafe(Init(clock), run)
    ensures var log := After(Init(clock), run).log;
            && (forall k :: 0 <= k < |log| ==> log[k].due <= log[k].at)
            && (forall k, l :: 0 <= k < l < |log| && log[k].id == log[l].id ==>
                  log[l].interval > 0.0 && log[k].at + (log[l].interval * 1000000.0).Floor <= log[l].at)
  {
    InitInv(clock, 0);
    RunKept(Init(clock), run);
  }

  // ---------------------------------------------------------------- cancellation

  /** The timer is out of reach of every later batch. */
  ghost predicate Condemned(q: Queue, id: nat) {
    id in q.freed || (id in q.canceling && id in Ids(q.timers) && id !in Ids(BatchOf(q)))
  }

  lemma CondemnedKept(q: Queue, s: Step, id: nat)
    requires Inv(q) && Enabled(q, s) && Safe(q, s) && Condemned(q, id)
    ensures Condemned(Next(q, s), id) && q.log <= Next(q, s).log
    ensures forall k :: |q.log| <= k < |Next(q, s).log| ==> Next(q, s).log[k].id != id
  {
    assert Places(q, id) == One(id < q.nextId);
    match s
    case Add(x) => AddOwn(q, x);
    case Cancel(x) => WithoutIds(q.timers, {x});
    case BeginBatch(order) => BeginIs(q, order);
    case RunNext =>
      var p := q.phase;
      assert p.expired[p.next] in p.expired && p.expired[p.next].id in Ids(BatchOf(q));
    case EndBatch =>
      BatchDisjoint(q);
      ReinsertKeeps(q.timers, q.phase.expired, q.canceling, q.phase.now);
    case _ =>
  }

  lemma {:induction false} CondemnedNeverFires(q: Queue, run: seq<Step>, id: nat)
    requires Inv(q) && Legal(q, run) && AllSafe(q, run) && Condemned(q, id)
    ensures var r := After(q, run);
            q.log <= r.log && forall k :: |q.log| <= k < |r.log| ==> r.log[k].id != id
    decreases |run|
  {
    if run != [] {
      StepKept(q, run[0]);
      CondemnedKept(q, run[0], id);
      CondemnedNeverFires(Next(q, run[0]), run[1..], id);
    }
  }

  /** A timer that is in the set when it is cancelled never runs again, although a cancel made by a
      callback leaves it in the set until the next handleRead. */
  lemma CancelledNeverFires(q: Queue, id: nat, run: seq<Step>)
    requires Inv(q) && SafeCancel(q, id) && Enabled(q, Cancel(id))
    requires Legal(Next(q, Cancel(id)), run) && AllSafe(Next(q, Cancel(id)), run)
    ensures var r := After(Next(q, Cancel(id)), run);
            && q.log <= r.log && (forall k :: |q.log| <= k < |r.log| ==> r.log[k].id != id)
            && (q.phase.Batch? ==> id in Ids(Next(q, Cancel(id)).timers))
  {
    StepKept(q, Cancel(id));
    assert Places(q, id) == One(id < q.nextId);
    CondemnedNeverFires(Next(q, Cancel(id)), run, id);
  }

  /** The next handleRead hands deleteTimer a timer that is not in the set if and only if a deferred cancel
      names one, in whatever order it visits them; otherwise it frees exactly those. */
  lemma PurgeFailsExactly(q: Queue, order: seq<nat>)
    requires Enabled(q, BeginBatch(order))
    ensures Next(q, BeginBatch(order)).ok <==> q.canceling <= Ids(q.timers)
    ensures Next(q, BeginBatch(order)).ok ==> Next(q, BeginBatch(order)).freed == q.freed + q.canceling
  {
    DeleteAllExactly(q.(fired := false), order, q.canceling);
  }

  /** The timer `id` is inserted before the first handleRead of the run, if there is one. */
  predicate InsertedInTime(run: seq<Step>, id: nat)
    decreases |run|
  {
    run == [] || run[0] == Add(id) || (!run[0].BeginBatch? && InsertedInTime(run[1..], id))
  }

  predicate FlightIds(q: Queue) {
    forall x :: x in q.inFlight ==> q.inFlight[x].id == x
  }

  /** The id waits in `_cancelingTimers` for a timer that is not in the set and cannot come back. */
  ghost predicate Lost(q: Queue, id: nat) {
    id in q.canceling && id !in Ids(q.timers) && id !in q.inFlight && id < q.nextId && FlightIds(q)
  }

  lemma {:induction false} ReinsertSkips(ts: seq<Entry>, batch: seq<Entry>, canceling: set<nat>, now: int, id: nat)
    requires id in canceling && id !in Ids(ts)
    ensures id !in Ids(Reinsert(ts, batch, canceling, now))
    decreases |batch|
  {
    if batch != [] {
      if Restarts(batch[0], canceling) {
        var e := Restarted(batch[0], now);
        InsertAddsOne(ts, e);
        assert id !in Ids(Insert(ts, e));
        ReinsertSkips(Insert(ts, e), batch[1..], canceling, now, id);
      } else {
        ReinsertSkips(ts, batch[1..], canceling, now, id);
      }
    }
  }

  lemma {:induction false} InsertAddsOne(ts: seq<Entry>, e: Entry)
    ensures forall x :: x in Insert(ts, e) ==> x in ts || x == e
  {
    if ts != [] {
      InsertAddsOne(ts[1..], e);
    }
  }

  lemma LostKept(q: Queue, s: Step, id: nat)
    requires Lost(q, id) && Enabled(q, s)
    ensures s.BeginBatch? ==> !Next(q, s).ok
    ensures !s.BeginBatch? ==> Lost(Next(q, s), id)
    ensures s != Add(id)
  {
    match s
    case Add(x) => InsertAddsOne(q.timers, q.inFlight[x]);
    case Cancel(x) => WithoutIds(q.timers, {x});
    case BeginBatch(order) => PurgeFailsExactly(q, order);
    case EndBatch => ReinsertSkips(q.timers, q.phase.expired, q.canceling, q.phase.now, id);
    case _ =>
  }

  lemma {:induction false} LostRunsFail(q: Queue, run: seq<Step>, id: nat)
    requires Lost(q, id) && Legal(q, run)
    requires exists k :: 0 <= k < |run| && run[k].BeginBatch?
    ensures !After(q, run).ok
    decreases |run|
  {
    LostKept(q, run[0], id);
    if run[0].BeginBatch? {
      assert run[1..] == [];
    } else {
      var k :| 0 <= k < |run| && run[k].BeginBatch?;
      assert run[1..][k - 1].BeginBatch?;
      LostRunsFail(Next(q, run[0]), run[1..], id);
    }
  }

  lemma {:induction false} LostRunsExactly(q: Queue, run: seq<Step>, id: nat)
    requires Lost(q, id) && q.ok && Legal(q, run) && AllSafe(q, run)
    ensures After(q, run).ok <==> InsertedInTime(run, id)
    decreases |run|
  {
    if run != [] {
      LostKept(q, run[0], id);
      if run[0].BeginBatch? {
        assert run[1..] == [];
      } else {
        LostRunsExactly(Next(q, run[0]), run[1..], id);
      }
    }
  }

  // ---------------------------------------------------------------- cancelling before the insertion

  /** The queue as if the cancel of `id` had not been made. */
  ghost function Uncancelled(q: Queue, id: nat): Queue {
    q.(canceling := q.canceling - {id})
  }

  /** The cancel of a timer that is not inserted yet is deferred; all else is in order. */
  ghost predicate Pending(q: Queue, id: nat) {
    id in q.canceling && (id in q.inFlight || id >= q.nextId) && Inv(Uncancelled(q, id))
  }

  lemma {:induction false} ReinsertIgnores(ts: seq<Entry>, batch: seq<Entry>, canceling: set<nat>, now: int, id: nat)
    requires id !in Ids(batch)
    ensures Reinsert(ts, batch, canceling, now) == Reinsert(ts, batch, canceling - {id}, now)
    ensures Released(batch, canceling) == Released(batch, canceling - {id})
    decreases |batch|
  {
    forall e | e in batch ensures e.id != id && (Restarts(e, canceling) <==> Restarts(e, canceling - {id})) {
      assert e.id in Ids(batch);
    }
    if batch != [] {
      assert batch[0] in batch;
      assert Ids(batch[1..]) <= Ids(batch);
      ReinsertIgnores(ts, batch[1..], canceling, now, id);
      ReinsertIgnores(Insert(ts, Restarted(batch[0], now)), batch[1..], canceling, now, id);
    }
  }

  lemma PendingApart(q: Queue, id: nat)
    requires Pending(q, id)
    ensures id !in Ids(q.timers) && id !in Ids(BatchOf(q)) && id !in q.freed && q.ok && FlightIds(q)
    ensures id >= q.nextId ==> id !in q.inFlight
  {
    assert Places(Uncancelled(q, id), id) == One(id < q.nextId);
    assert BatchOf(Uncancelled(q, id)) == BatchOf(q);
  }

  /** Steps other than handleRead's purge do the same with and without the cancel of such a timer. */
  lemma StepCommutes(q: Queue, s: Step, id: nat)
    requires Pending(q, id) && Enabled(q, s) && Safe(q, s) && !s.BeginBatch?
    ensures Enabled(Uncancelled(q, id), s) && Safe(Uncancelled(q, id), s)
    ensures Uncancelled(Next(q, s), id) == Next(Uncancelled(q, id), s) && id in Next(q, s).canceling
  {
    PendingApart(q, id);
    match s
    case Cancel(x) =>
      assert x != id;
      assert (q.canceling + {x}) - {id} == (q.canceling - {id}) + {x};
    case EndBatch => ReinsertIgnores(q.timers, q.phase.expired, q.canceling, q.phase.now, id);
    case _ =>
  }

  /** The invariant with one more good cancel. */
  lemma CancelledInv(q: Queue, id: nat)
    requires Inv(Uncancelled(q, id)) && id in Ids(q.timers)
    ensures Inv(q)
  {
    var q0 := Uncancelled(q, id);
    assert q.canceling <= Ids(q.timers) by { assert q.canceling <= q0.canceling + {id}; }
    assert BatchOf(q) == BatchOf(q0);
    forall x: nat ensures Places(q, x) == One(x < q.nextId) {
      assert Places(q0, x) == One(x < q0.nextId);
    }
  }

  lemma PendingStep(q: Queue, s: Step, id: nat)
    requires Pending(q, id) && Enabled(q, s) && Safe(q, s)
    ensures s == Add(id) ==> Inv(Next(q, s))
    ensures s.BeginBatch? ==> !Next(q, s).ok
    ensures s != Add(id) && !s.BeginBatch? ==> Next(q, s).ok && (Pending(Next(q, s), id) || Lost(Next(q, s), id))
  {
    PendingApart(q, id);
    if s.BeginBatch? {
      PurgeFailsExactly(q, s.order);
    } else {
      StepCommutes(q, s, id);
      StepKept(Uncancelled(q, id), s);
      if s == Add(id) {
        AddOwn(Uncancelled(q, id), id);
        CancelledInv(Next(q, s), id);
      } else {
        PendingGoesOn(q, s, id);
      }
    }
  }

  /** An id that nobody has been given yet may go to another queue: then it is lost here. */
  lemma PendingGoesOn(q: Queue, s: Step, id: nat)
    requires Pending(q, id) && Enabled(q, s) && Safe(q, s) && s != Add(id) && !s.BeginBatch?
    requires Inv(Uncancelled(Next(q, s), id)) && id in Next(q, s).canceling
    ensures Pending(Next(q, s), id) || Lost(Next(q, s), id)
  {
    hide Inv;
    PendingApart(q, id);
    var r := Next(q, s);
    if s == Skip && id == q.nextId {
      assert Lost(r, id);
    } else {
      assert id in r.inFlight || id >= r.nextId;
    }
  }

  lemma {:induction false} PendingRunsExactly(q: Queue, run: seq<Step>, id: nat)
    requires Pending(q, id) && Legal(q, run) && AllSafe(q, run)
    ensures After(q, run).ok <==> InsertedInTime(run, id)
    decreases |run|
  {
    PendingApart(q, id);
    if run != [] {
      var r := Next(q, run[0]);
      PendingStep(q, run[0], id);
      if run[0] == Add(id) {
        RunKept(r, run[1..]);
      } else if run[0].BeginBatch? {
        assert run[1..] == [];
      } else if Pending(r, id) {
        PendingRunsExactly(r, run[1..], id);
      } else {
        LostRunsExactly(r, run[1..], id);
      }
    }
  }

  // ---------------------------------------------------------------- when a cancel is fatal

  /** A cancel that is not safe but does not fail at once: its id now waits for a timer that is not in
      the set, and either cannot come any more or has not been inserted yet. */
  lemma UnsafeCancelWaits(q: Queue, id: nat)
    requires Inv(q) && Enabled(q, Cancel(id)) && !SafeCancel(q, id) && Next(q, Cancel(id)).ok
    ensures Lost(Next(q, Cancel(id)), id) || Pending(Next(q, Cancel(id)), id)
  {
    var r := Next(q, Cancel(id));
    assert Places(q, id) == One(id < q.nextId);
    if q.phase.Batch? {
      assert id !in q.canceling;
      assert Uncancelled(r, id) == q;
    } else {
      WithoutIds(q.timers, {id});
    }
  }

  /** The fate of every cancel, over every run that follows it and whose later cancels are safe.
      deleteTimer is only ever handed timers of the set if and only if the cancel is safe, or it
      passes its own check (a callback's cancel is only deferred; any other must find its timer) and
      its timer is inserted before the next handleRead. So a callback may cancel a timer whose
      insertion is still queued if that insertion runs first; after cancelling a timer of the running
      batch, a freed timer, or outside a batch a timer whose cancel is waiting already, the next
      handleRead hands over a timer that is freed by then. */
  lemma CancelFailsExactly(q: Queue, id: nat, run: seq<Step>)
    requires Inv(q) && Enabled(q, Cancel(id))
    requires Legal(Next(q, Cancel(id)), run) && AllSafe(Next(q, Cancel(id)), run)
    ensures After(Next(q, Cancel(id)), run).ok
       <==> SafeCancel(q, id) || ((q.phase.Batch? || id in Ids(q.timers)) && InsertedInTime(run, id))
  {
    var r := Next(q, Cancel(id));
    if SafeCancel(q, id) {
      StepKept(q, Cancel(id));
      RunKept(r, run);
    } else if r.ok {
      UnsafeCancelWaits(q, id);
      if Lost(r, id) { LostRunsExactly(r, run, id); } else { PendingRunsExactly(r, run, id); }
    } else {
      assert run == [];
    }
  }

  /** No run of safe steps hands deleteTimer a timer that is not in the set. */
  ghost predicate NeverFails(q: Queue) {
    forall run :: Legal(q, run) && AllSafe(q, run) ==> After(q, run).ok
  }

  /** The loop can always go on to its next handleRead without inserting a timer. */
  lemma {:induction false} ReachRead(q: Queue, id: nat) returns (run: seq<Step>)
    requires q.ok && (q.phase.Batch? ==> q.phase.next <= |q.phase.expired|)
    ensures Legal(q, run) && AllSafe(q, run) && !InsertedInTime(run, id)
    decreases if q.phase.Batch? then 1 + |q.phase.expired| - q.phase.next else 0
  {
    var s: Step;
    var rest: seq<Step> := [];
    if q.phase.Idle? {
      var order := SomeOrder(q.canceling);
      s := BeginBatch(order);
    } else {
      s := if q.phase.next < |q.phase.expired| then RunNext else EndBatch;
      rest := ReachRead(Next(q, s), id);
    }
    run := [s] + rest;
    assert run[1..] == rest;
  }

  /** A cancel is safe if and only if nothing can ever fail after it: whenever it names a timer outside
      the set, or outside a batch one whose cancel is waiting already, some continuation fails. */
  lemma SafeCancelExactly(q: Queue, id: nat)
    requires Inv(q) && Enabled(q, Cancel(id))
    ensures SafeCancel(q, id) <==> NeverFails(Next(q, Cancel(id)))
  {
    var r := Next(q, Cancel(id));
    forall run | Legal(r, run) && AllSafe(r, run)
      ensures SafeCancel(q, id) ==> After(r, run).ok
    {
      CancelFailsExactly(q, id, run);
    }
    if !SafeCancel(q, id) {
      if r.ok {
        var run := ReachRead(r, id);
        CancelFailsExactly(q, id, run);
      } else {
        assert Legal(r, []) && AllSafe(r, []) && !After(r, []).ok;
      }
    }
  }

  /** Cancelling from a callback a timer of the running batch (even the running one itself), or one that
      is already freed, is fatal: in every continuation, safe or not, the next handleRead hands
      deleteTimer a freed timer. */
  lemma CancelInBatchIsFatal(q: Queue, id: nat, run: seq<Step>)
    requires Inv(q) && q.phase.Batch? && Enabled(q, Cancel(id))
    requires id in Ids(q.phase.expired) || id in q.freed
    requires Legal(Next(q, Cancel(id)), run) && exists k :: 0 <= k < |run| && run[k].BeginBatch?
    ensures !After(Next(q, Cancel(id)), run).ok
  {
    assert Places(q, id) == One(id < q.nextId);
    LostRunsFail(Next(q, Cancel(id)), run, id);
  }

  lemma {:induction false} RunAppend(q: Queue, a: seq<Step>, b: seq<Step>)
    requires Legal(q, a) && Legal(After(q, a), b)
    ensures Legal(q, a + b) && After(q, a + b) == After(After(q, a), b)
    decreases |a|
  {
    if a == [] {
      assert a + b == b;
    } else {
      RunAppend(Next(q, a[0]), a[1..], b);
      assert (a + b)[1..] == a[1..] + b;
    }
  }

  lemma RunOne(q: Queue, s: Step, rest: seq<Step>)
    requires Enabled(q, s) && Legal(Next(q, s), rest)
    ensures Legal(q, [s] + rest) && After(q, [s] + rest) == After(Next(q, s), rest)
  {
    assert ([s] + rest)[1..] == rest;
  }

  /** A one-shot timer whose callback cancels it, and a second timer that brings the next handleRead. */
  function SelfCancelRun(): seq<Step> {
    [Create(0, 0.0), Create(300, 0.0)]
    + ([Add(0), Add(1)] + ([Tick(100), BeginBatch([]), RunNext] + [Cancel(0), EndBatch, Tick(300), BeginBatch([0])]))
  }

  /** Such a run from a new queue. */
  lemma SelfCancelExample() returns (run: seq<Step>)
    ensures Legal(Init(0), run) && !After(Init(0), run).ok
    ensures run == SelfCancelRun()
  {
    run := SelfCancelRun();
    var e, f := Entry(0, 0, 0.0), Entry(1, 300, 0.0);
    TwoCreated(e, f);
    hide Legal, After, Next;
    var q2 := After(Init(0), [Create(0, 0.0), Create(300, 0.0)]);
    TwoInserted(q2, e, f);
    var q4 := After(q2, [Add(0), Add(1)]);
    FirstRuns(q4, e, f);
    var q7 := After(q4, [Tick(100), BeginBatch([]), RunNext]);
    SelfCancelEnds(q7, e, f);
    var ends := [Cancel(0), EndBatch, Tick(300), BeginBatch([0])];
    RunAppend(q4, [Tick(100), BeginBatch([]), RunNext], ends);
    RunAppend(q2, [Add(0), Add(1)], [Tick(100), BeginBatch([]), RunNext] + ends);
    RunAppend(Init(0), [Create(0, 0.0), Create(300, 0.0)],
              [Add(0), Add(1)] + ([Tick(100), BeginBatch([]), RunNext] + ends));
  }

  lemma TwoCreated(e: Entry, f: Entry)
    requires e == Entry(0, 0, 0.0) && f == Entry(1, 300, 0.0)
    ensures var run := [Create(0, 0.0), Create(300, 0.0)];
            Legal(Init(0), run) && After(Init(0), run) == Init(0).(nextId := 2, inFlight := map[0 := e][1 := f])
  {
    var q1 := Next(Init(0), Create(0, 0.0));
    RunOne(q1, Create(300, 0.0), []);
    RunOne(Init(0), Create(0, 0.0), [Create(300, 0.0)] + []);
    assert [Create(0, 0.0), Create(300, 0.0)] == [Create(0, 0.0)] + ([Create(300, 0.0)] + []);
  }

  lemma TwoInserted(q: Queue, e: Entry, f: Entry)
    requires e == Entry(0, 0, 0.0) && f == Entry(1, 300, 0.0)
    requires q == Init(0).(nextId := 2, inFlight := map[0 := e][1 := f])
    ensures Legal(q, [Add(0), Add(1)])
    ensures After(q, [Add(0), Add(1)]) == q.(inFlight := map[], timers := [e, f], alarm := Armed(100, 0))
  {
    var q1 := Next(q, Add(0));
    assert q1.timers == [e] && q1.inFlight == map[1 := f] && q1.alarm == Armed(100, 0);
    assert [e][1..] == [] && Insert([], f) == [f] && Insert([e], f) == [e] + [f];
    assert q1.inFlight - {1} == map[];
    RunOne(q1, Add(1), []);
    RunOne(q, Add(0), [Add(1)] + []);
    assert [Add(0), Add(1)] == [Add(0)] + ([Add(1)] + []);
  }

  /** The first timer is taken and starts, the second is left. */
  lemma FirstRuns(q: Queue, e: Entry, f: Entry)
    requires e == Entry(0, 0, 0.0) && f == Entry(1, 300, 0.0)
    requires q.ok && q.phase.Idle? && q.timers == [e, f] && q.canceling == {} && q.clock == 0
    requires q.alarm == Armed(100, 0) && q.nextId == 2
    ensures var run := [Tick(100), BeginBatch([]), RunNext];
            && Legal(q, run)
            && var r := After(q, run);
               r.ok && r.phase == Batch(100, [e], 1) && r.timers == [f] && r.canceling == {} && r.clock == 100
  {
    var q1 := Next(q, Tick(100));
    assert [e, f][1..] == [f] && [e, f][..1] == [e];
    assert LowerBound([f], Sentinel(q1)) == 0;
    assert LowerBound([e, f], Sentinel(q1)) == 1;
    var q2 := Next(q1, BeginBatch([]));
    assert q2.phase == Batch(100, [e], 0) && q2.timers == [f];
    hide LowerBound, BeginNext;
    RunOne(q2, RunNext, []);
    RunOne(q1, BeginBatch([]), [RunNext] + []);
    RunOne(q, Tick(100), [BeginBatch([])] + ([RunNext] + []));
    assert [Tick(100), BeginBatch([]), RunNext] == [Tick(100)] + ([BeginBatch([])] + ([RunNext] + []));
  }

  lemma SelfCancelEnds(q: Queue, e: Entry, f: Entry)
    requires q.ok && q.phase == Batch(100, [e], 1) && q.timers == [f] && q.canceling == {} && q.clock == 100
    requires !e.Repeats() && e.id == 0 && f.id == 1 && f.expiry == 300
    ensures var run := [Cancel(0), EndBatch, Tick(300), BeginBatch([0])];
            Legal(q, run) && !After(q, run).ok
  {
    var q1 := Next(q, Cancel(0));
    assert q1.canceling == {0};
    assert [e][1..] == [] && Reinsert([f], [e], {0}, 100) == [f];
    var q2 := Next(q1, EndBatch);
    assert q2.timers == [f] && q2.alarm == Armed(300, 100);
    var q3 := Next(q2, Tick(300));
    hide EndNext, CancelNext, Reinsert;
    assert f in [f] && Ids([f]) == {1};
    PurgeFailsExactly(q3, [0]);
    hide BeginNext;
    RunOne(q3, BeginBatch([0]), []);
    RunOne(q2, Tick(300), [BeginBatch([0])] + []);
    RunOne(q1, EndBatch, [Tick(300)] + ([BeginBatch([0])] + []));
    RunOne(q, Cancel(0), [EndBatch] + ([Tick(300)] + ([BeginBatch([0])] + [])));
    assert [Cancel(0), EndBatch, Tick(300), BeginBatch([0])]
        == [Cancel(0)] + ([EndBatch] + ([Tick(300)] + ([BeginBatch([0])] + [])));
  }
}
