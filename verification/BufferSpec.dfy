/**
 The buffer of src/net/Buffer.h and src/net/Buffer.cpp as a value: the readable bytes, the two
 numbers that decide when it compacts and grows, and the cost of its reallocations.
 */
module BufferSpec {
  import opened Bytes

  const SPILL: nat := 65536   // the stack area that readFd offers to readv

  /** `copied` counts the bytes that reallocations have moved. */
  datatype Buf = Buf(contents: seq<byte>, reader: nat, size: nat, copied: nat) {
    function Writer(): nat { reader + |contents| }
    predicate Valid() { Writer() <= size }
    function Writable(): nat requires Valid() { size - Writer() }
  }

  function Fresh(initSize: nat): Buf {
    Buf([], 0, initSize, 0)
  }

  function Max(a: nat, b: nat): nat {
    if a < b then b else a
  }

  /** ensureWritableBytes: nothing, compaction, or reallocation. */
  function Ensure(b: Buf, len: nat): (r: Buf)
    requires b.Valid()
    ensures r.Valid() && r.Writable() >= len && r.contents == b.contents
  {
    if len <= b.Writable() then b
    else if b.reader + b.Writable() >= len then b.(reader := 0)
    else b.(reader := 0, size := Max(2 * b.size, |b.contents| + len), copied := b.copied + |b.contents|)
  }

  function Append(b: Buf, data: seq<byte>): (r: Buf)
    requires b.Valid()
    ensures r.Valid() && r.contents == b.contents + data
  {
    var e := Ensure(b, |data|);
    e.(contents := e.contents + data)
  }

  function RetrieveAll(b: Buf): Buf {
    b.(contents := [], reader := 0)
  }

  function Retrieve(b: Buf, n: nat): (r: Buf)
    requires b.Valid() && n <= |b.contents|
    ensures r.Valid() && r.contents == b.contents[n..]
  {
    if n < |b.contents| then b.(contents := b.contents[n..], reader := b.reader + n) else RetrieveAll(b)
  }

  /** The result of one readv: the bytes the kernel delivered, or an error. */
  datatype ReadResult = Delivered(bytes: seq<byte>) | Failed {
    function N(): int { if Delivered? then |bytes| else -1 }
  }

  /** The room that readFd offers: the writable part, and the spill area when that is smaller. */
  function Room(b: Buf): nat
    requires b.Valid()
  {
    b.Writable() + if b.Writable() < SPILL then SPILL else 0
  }

  predicate Fits(b: Buf, r: ReadResult)
    requires b.Valid()
  {
    r.Delivered? ==> |r.bytes| <= Room(b)
  }

  /** What readv takes of the bytes that have arrived: as many as there is room for, and there is always
      room for some. */
  function Taken(b: Buf, r: ReadResult): (t: ReadResult)
    requires b.Valid()
    ensures Fits(b, t) && Offered(r, t)
    ensures Fits(b, r) ==> t == r
    ensures (t.N() == 0 <==> r.N() == 0) && (t.N() > 0 <==> r.N() > 0)
  {
    if r.Delivered? && |r.bytes| > Room(b) then Delivered(r.bytes[..Room(b)]) else r
  }

  /** `t` is r, or a part of r's bytes that at least fills the spill area. */
  predicate Offered(r: ReadResult, t: ReadResult) {
    t == r || (r.Delivered? && t.Delivered? && t.bytes <= r.bytes && SPILL <= |t.bytes|)
  }

  /** Bytes that arrived by readv: in place while they fit, the rest appended from the spill area. */
  function Absorb(b: Buf, data: seq<byte>): (r: Buf)
    requires b.Valid()
    ensures r.Valid() && r.contents == b.contents + data
  {
    var k := b.Writable();
    if |data| <= k then b.(contents := b.contents + data)
    else
      assert data == data[..k] + data[k..];
      Append(b.(contents := b.contents + data[..k]), data[k..])
  }

  /** What a readFd call delivers: the retry's bytes when the first readv fails. */
  function Arrived(first: ReadResult, retry: ReadResult): seq<byte> {
    if first.Delivered? then first.bytes else if retry.Delivered? then retry.bytes else []
  }

  function ReadFd(b: Buf, first: ReadResult, retry: ReadResult): Buf
    requires b.Valid()
  {
    if first.Failed? && retry.Failed? then b else Absorb(b, Arrived(first, retry))
  }

  // ---------------------------------------------------------------- runs

  datatype Op =
    | AppendOp(data: seq<byte>)
    | RetrieveOp(n: nat)
    | RetrieveAllOp
    | ReadOp(first: ReadResult, retry: ReadResult)

  predicate Allowed(b: Buf, op: Op)
    requires b.Valid()
  {
    match op
    case RetrieveOp(n) => n <= |b.contents|
    case ReadOp(first, retry) => Fits(b, first) && Fits(b, retry)
    case _ => true
  }

  function Do(b: Buf, op: Op): (r: Buf)
    requires b.Valid() && Allowed(b, op)
    ensures r.Valid()
  {
    match op
    case AppendOp(data) => Append(b, data)
    case RetrieveOp(n) => Retrieve(b, n)
    case RetrieveAllOp => RetrieveAll(b)
    case ReadOp(first, retry) => ReadFd(b, first, retry)
  }

  ghost predicate Legal(b: Buf, ops: seq<Op>)
    requires b.Valid()
    decreases |ops|
  {
    ops == [] || (Allowed(b, ops[0]) && Legal(Do(b, ops[0]), ops[1..]))
  }

  ghost function DoAll(b: Buf, ops: seq<Op>): (r: Buf)
    requires b.Valid() && Legal(b, ops)
    ensures r.Valid()
    decreases |ops|
  {
    if ops == [] then b else DoAll(Do(b, ops[0]), ops[1..])
  }

  /** The plain byte queue that a buffer stands for: bytes in at the back, bytes out at the front,
      no indices and no capacity. */
  function QueueAll(q: seq<byte>, ops: seq<Op>): seq<byte>
    decreases |ops|
  {
    if ops == [] then q
    else
      var q' := match ops[0]
                case AppendOp(data) => q + data
                case RetrieveOp(n) => if n <= |q| then q[n..] else []
                case RetrieveAllOp => []
                case ReadOp(Delivered(bytes), _) => q + bytes
                case ReadOp(Failed, Delivered(bytes)) => q + bytes
                case ReadOp(Failed, Failed) => q;
      QueueAll(q', ops[1..])
  }

  /** Through every compaction, reallocation and spilled read, the readable slice is the byte queue. */
  lemma {:induction false} BufferIsQueue(b: Buf, ops: seq<Op>)
    requires b.Valid() && Legal(b, ops)
    ensures DoAll(b, ops).contents == QueueAll(b.contents, ops)
    decreases |ops|
  {
    if ops != [] {
      BufferIsQueue(Do(b, ops[0]), ops[1..]);
      assert b.contents + [] == b.contents;
    }
  }

  /** A read adds what readv delivered, every byte of it and in order: the first readv's bytes, or the
      retry's if the first one failed. Its result is the first count. */
  lemma ReadAddsDelivered(b: Buf, first: ReadResult, retry: ReadResult)
    requires b.Valid()
    ensures ReadFd(b, first, retry).contents
         == b.contents + match first
                         case Delivered(x) => x
                         case Failed => (match retry case Delivered(y) => y case Failed => [])
    ensures first.N() == match first case Delivered(x) => |x| case Failed => -1
  {
    assert b.contents + [] == b.contents;
  }

  /** What readFd offers to readv: the writable bytes, and 65536 more if those are fewer. */
  lemma RoomExactly(b: Buf)
    requires b.Valid()
    ensures b.Writable() == b.size - b.reader - |b.contents|
    ensures Room(b) == if b.Writable() < 65536 then b.Writable() + 65536 else b.Writable()
  {
  }

  /** Taking bytes out never moves the others: the reader advances, or both indices rewind when nothing
      is left. */
  lemma RetrieveExactly(b: Buf, n: nat)
    requires b.Valid() && n <= |b.contents|
    ensures var r := Retrieve(b, n);
            && r.contents == b.contents[n..] && r.size == b.size && r.copied == b.copied
            && r.reader == if n == |b.contents| then 0 else b.reader + n
  {
  }

  // ---------------------------------------------------------------- growth

  /** A buffer grows only when the bytes would not fit even at its front, and then to twice its size or to
      what is needed; it compacts only when they would not fit behind, and otherwise does nothing. */
  lemma EnsureExactly(b: Buf, len: nat)
    requires b.Valid()
    ensures var r := Ensure(b, len);
            && r.contents == b.contents
            && (b.reader + |b.contents| + len <= b.size ==> r == b)
            && (b.reader + |b.contents| + len > b.size ==> r.reader == 0)
            && (|b.contents| + len <= b.size ==> r.size == b.size && r.copied == b.copied)
            && (|b.contents| + len > b.size ==>
                  && r.size == (if 2 * b.size < |b.contents| + len then |b.contents| + len else 2 * b.size)
                  && r.copied == b.copied + |b.contents|)
  {
  }

  /** The largest readable length of a run. */
  ghost function Peak(b: Buf, ops: seq<Op>): nat
    requires b.Valid() && Legal(b, ops)
    decreases |ops|
  {
    if ops == [] then |b.contents| else Max(|b.contents|, Peak(Do(b, ops[0]), ops[1..]))
  }

  /** One operation's copying is paid for by the capacity that it adds, and the capacity it adds
      is bounded by twice what it then has to hold. */
  lemma GrowthOfOne(b: Buf, op: Op)
    requires b.Valid() && Allowed(b, op)
    ensures var r := Do(b, op);
            && b.size <= r.size
            && r.copied - b.copied <= r.size - b.size
            && (r.size == b.size || r.size <= 2 * |r.contents|)
  {
  }

  lemma {:induction false} GrowthOfRun(b: Buf, ops: seq<Op>)
    requires b.Valid() && Legal(b, ops)
    ensures var r := DoAll(b, ops);
            && b.size <= r.size
            && r.copied - b.copied <= r.size - b.size
            && r.size <= Max(b.size, 2 * Peak(b, ops))
    decreases |ops|
  {
    if ops != [] {
      GrowthOfOne(b, ops[0]);
      GrowthOfRun(Do(b, ops[0]), ops[1..]);
    }
  }

  /** Over any life of a buffer the reallocations together copy no more bytes than the capacity that
      was added, and the capacity never exceeds the larger of the initial size and twice the
      largest readable length ever reached. */
  lemma GrowthBounds(initSize: nat, ops: seq<Op>)
    requires Legal(Fresh(initSize), ops)
    ensures var r := DoAll(Fresh(initSize), ops);
            && r.copied <= r.size - initSize
            && r.size <= Max(initSize, 2 * Peak(Fresh(initSize), ops))
  {
    GrowthOfRun(Fresh(initSize), ops);
  }

  // ---------------------------------------------------------------- readFd's result

  /** readFd returns the first readv's count. A positive result means new bytes, zero means that the
      peer closed; but a failed first readv whose retry succeeds stores bytes and still reports
      the error. The result tells the truth exactly when the first readv did not fail or the retry
      delivered nothing. */
  lemma ResultTellsTruthIff(b: Buf, first: ReadResult, retry: ReadResult)
    requires b.Valid() && Fits(b, first) && Fits(b, retry)
    ensures (first.N() > 0 <==> ReadFd(b, first, retry).contents != b.contents)
        <==> !(first.Failed? && retry.Delivered? && retry.bytes != [])
  {
    var r := ReadFd(b, first, retry);
    assert |r.contents| == |b.contents| + |Arrived(first, retry)|;
  }

  lemma SilentRetryExample()
    ensures var b := Fresh(1024);
            var first, retry := Failed, Delivered([7]);
            Fits(b, first) && Fits(b, retry)
            && first.N() < 0 && ReadFd(b, first, retry).contents == [7]
  {
  }

  // ---------------------------------------------------------------- typed integers

  function AppendItem(b: Buf, i: Item): (r: Buf)
    requires b.Valid() && InRange(i.t, i.v)
    ensures r.Valid()
  {
    Append(b, Encode(i))
  }

  /** A typed read needs as many readable bytes as the type has. */
  function ReadItem(b: Buf, t: IntType): (r: (int, Buf))
    requires b.Valid() && t.width.Size() <= |b.contents|
    ensures r.1.Valid()
  {
    (Decode(t, b.contents[..t.width.Size()]), Retrieve(b, t.width.Size()))
  }

  /** A run of typed appends and typed reads in any order. */
  datatype TypedOp = Put(i: Item) | Get(t: IntType)

  /** The typed queue: reads name the type of the oldest pending item. */
  ghost predicate TypedLegal(pending: seq<Item>, ops: seq<TypedOp>)
    decreases |ops|
  {
    ops == [] ||
    match ops[0]
    case Put(i) => InRange(i.t, i.v) && TypedLegal(pending + [i], ops[1..])
    case Get(t) => pending != [] && pending[0].t == t && TypedLegal(pending[1..], ops[1..])
  }

  /** What the typed queue hands out, and what stays pending. */
  ghost function TypedQueue(pending: seq<Item>, ops: seq<TypedOp>): (seq<int>, seq<Item>)
    requires TypedLegal(pending, ops)
    decreases |ops|
  {
    if ops == [] then ([], pending)
    else
      match ops[0]
      case Put(i) => TypedQueue(pending + [i], ops[1..])
      case Get(_) =>
        var (vs, rest) := TypedQueue(pending[1..], ops[1..]);
        ([pending[0].v] + vs, rest)
  }

  /** The same run on a buffer: the values read and the final buffer, or nothing if a read runs short. */
  ghost function TypedRun(b: Buf, ops: seq<TypedOp>): (r: (bool, seq<int>, Buf))
    requires b.Valid()
    requires forall k :: 0 <= k < |ops| && ops[k].Put? ==> InRange(ops[k].i.t, ops[k].i.v)
    ensures r.2.Valid()
    decreases |ops|
  {
    if ops == [] then (true, [], b)
    else
      match ops[0]
      case Put(i) => TypedRun(AppendItem(b, i), ops[1..])
      case Get(t) =>
        if t.width.Size() > |b.contents| then (false, [], b)
        else
          var (v, b1) := ReadItem(b, t);
          var (ok, vs, b2) := TypedRun(b1, ops[1..]);
          (ok, [v] + vs, b2)
  }

  lemma {:induction false} TypedPutsInRange(pending: seq<Item>, ops: seq<TypedOp>)
    requires TypedLegal(pending, ops)
    ensures forall k :: 0 <= k < |ops| && ops[k].Put? ==> InRange(ops[k].i.t, ops[k].i.v)
    decreases |ops|
  {
    if ops != [] {
      match ops[0]
      case Put(i) => TypedPutsInRange(pending + [i], ops[1..]);
      case Get(_) => TypedPutsInRange(pending[1..], ops[1..]);
    }
  }

  /** The first item of a buffer that holds its encoding and further bytes. */
  lemma FirstItemReads(b: Buf, i: Item, rest: seq<byte>)
    requires b.Valid() && InRange(i.t, i.v) && b.contents == Encode(i) + rest
    ensures i.t.width.Size() <= |b.contents|
    ensures ReadItem(b, i.t).0 == i.v && ReadItem(b, i.t).1.contents == rest
  {
    hide Encode, Decode;
    DecodeEncode(i);
    assert b.contents[..|Encode(i)|] == Encode(i) && b.contents[|Encode(i)|..] == rest;
  }

  lemma OldestItemReads(b: Buf, pending: seq<Item>)
    requires b.Valid() && AllInRange(pending) && pending != [] && b.contents == EncodeAll(pending)
    ensures pending[0].t.width.Size() <= |b.contents|
    ensures var r := ReadItem(b, pending[0].t);
            r.0 == pending[0].v && r.1.contents == EncodeAll(pending[1..])
  {
    hide Encode;
    FirstItemReads(b, pending[0], EncodeAll(pending[1..]));
  }

  /** Codec round trip: a buffer that holds the encoding of the pending items behaves, under every
      interleaving of typed appends and matching typed reads, as the queue of the values
      themselves; afterwards it holds exactly the encoding of what is still pending. */
  lemma {:induction false} TypedBufferIsTypedQueue(b: Buf, pending: seq<Item>, ops: seq<TypedOp>)
    requires b.Valid() && AllInRange(pending) && b.contents == EncodeAll(pending)
    requires TypedLegal(pending, ops)
    ensures forall k :: 0 <= k < |ops| && ops[k].Put? ==> InRange(ops[k].i.t, ops[k].i.v)
    ensures var (ok, vs, b1) := TypedRun(b, ops);
            var (ws, rest) := TypedQueue(pending, ops);
            ok && vs == ws && AllInRange(rest) && b1.contents == EncodeAll(rest)
    decreases |ops|
  {
    TypedPutsInRange(pending, ops);
    if ops != [] {
      match ops[0]
      case Put(i) =>
        EncodeAllSnoc(pending, i);
        TypedBufferIsTypedQueue(AppendItem(b, i), pending + [i], ops[1..]);
      case Get(t) =>
        OldestItemReads(b, pending);
        TypedBufferIsTypedQueue(ReadItem(b, t).1, pending[1..], ops[1..]);
    }
  }

  function ReadTypes(b: Buf, ts: seq<IntType>): (r: (bool, seq<int>, Buf))
    requires b.Valid()
    decreases |ts|
  {
    if ts == [] then (true, [], b)
    else if ts[0].width.Size() > |b.contents| then (false, [], b)
    else
      var (v, b1) := ReadItem(b, ts[0]);
      var (ok, vs, b2) := ReadTypes(b1, ts[1..]);
      (ok, [v] + vs, b2)
  }

  function Types(items: seq<Item>): (ts: seq<IntType>)
    ensures |ts| == |items| && forall k :: 0 <= k < |items| ==> ts[k] == items[k].t
  {
    if items == [] then [] else [items[0].t] + Types(items[1..])
  }

  function Values(items: seq<Item>): (vs: seq<int>)
    ensures |vs| == |items| && forall k :: 0 <= k < |items| ==> vs[k] == items[k].v
  {
    if items == [] then [] else [items[0].v] + Values(items[1..])
  }

  /** Reading the types of a list of items in order returns their values and leaves every later byte
      untouched, whatever the buffer's indices and capacity are. */
  lemma {:induction false} ListRoundTrip(b: Buf, items: seq<Item>, later: seq<byte>)
    requires b.Valid() && AllInRange(items) && b.contents == EncodeAll(items) + later
    ensures var (ok, vs, b1) := ReadTypes(b, Types(items));
            ok && vs == Values(items) && b1.contents == later
    decreases |items|
  {
    if items == [] {
      assert b.contents == later;
    } else {
      hide ReadItem, Encode;
      assert b.contents == Encode(items[0]) + (EncodeAll(items[1..]) + later);
      hide EncodeAll;
      FirstItemReads(b, items[0], EncodeAll(items[1..]) + later);
      ListRoundTrip(ReadItem(b, items[0].t).1, items[1..], later);
      assert Types(items)[1..] == Types(items[1..]);
    }
  }
}
