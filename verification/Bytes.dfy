/** Bytes and the big-endian integer codec of src/net/Buffer.h. */
module Bytes {

  type byte = x: int | 0 <= x < 256

  datatype Width = W8 | W16 | W32 | W64 {
    function Size(): nat {
      match this case W8 => 1 case W16 => 2 case W32 => 4 case W64 => 8
    }
  }

  /** One of the eight integer types that the buffer can append and read. */
  datatype IntType = IntType(width: Width, signed: bool)

  /** A value together with the type it is written as. */
  datatype Item = Item(t: IntType, v: int)

  function Pow256(n: nat): nat
    ensures Pow256(n) > 0
  {
    if n == 0 then 1 else 256 * Pow256(n - 1)
  }

  /** The values of the C++ type: [0, 2^bits) or [-2^(bits-1), 2^(bits-1)). */
  predicate InRange(t: IntType, v: int) {
    var m: int := Pow256(t.width.Size());
    if t.signed then -m <= 2 * v < m else 0 <= v < m
  }

  /** Conversion to the unsigned type of the same width: reduction modulo 2^bits. */
  function ToRaw(t: IntType, v: int): (r: nat)
    requires InRange(t, v)
    ensures r < Pow256(t.width.Size())
  {
    if v < 0 then v + Pow256(t.width.Size()) else v
  }

  /** Conversion of an unsigned value to the signed type of the same width. */
  function FromRaw(t: IntType, r: nat): int
    requires r < Pow256(t.width.Size())
  {
    if t.signed && 2 * r >= Pow256(t.width.Size()) then r - Pow256(t.width.Size()) else r
  }

  /** The bytes of r in network order, most significant first (htobe). */
  function BigEndian(r: nat, size: nat): (s: seq<byte>)
    ensures |s| == size
  {
    if size == 0 then [] else BigEndian(r / 256, size - 1) + [r % 256]
  }

  /** The number that a byte string denotes in network order (betoh). */
  function Value(s: seq<byte>): nat {
    if s == [] then 0 else 256 * Value(s[..|s| - 1]) + s[|s| - 1]
  }

  lemma {:induction false} ValueBound(s: seq<byte>)
    ensures Value(s) < Pow256(|s|)
  {
    if s != [] {
      ValueBound(s[..|s| - 1]);
    }
  }

  lemma {:induction false} ValueOfBigEndian(r: nat, size: nat)
    requires r < Pow256(size)
    ensures Value(BigEndian(r, size)) == r
  {
    if size > 0 {
      ValueOfBigEndian(r / 256, size - 1);
      var s := BigEndian(r, size);
      assert s[..|s| - 1] == BigEndian(r / 256, size - 1);
    }
  }

  lemma {:induction false} BigEndianOfValue(s: seq<byte>)
    ensures BigEndian(Value(s), |s|) == s
  {
    if s != [] {
      BigEndianOfValue(s[..|s| - 1]);
      assert s == s[..|s| - 1] + [s[|s| - 1]];
    }
  }

  function Encode(i: Item): (s: seq<byte>)
    requires InRange(i.t, i.v)
    ensures |s| == i.t.width.Size()
  {
    BigEndian(ToRaw(i.t, i.v), i.t.width.Size())
  }

  function Decode(t: IntType, s: seq<byte>): int
    requires |s| == t.width.Size()
  {
    ValueBound(s);
    FromRaw(t, Value(s))
  }

  /** Decoding is a left inverse of encoding on every value of every type ... */
  lemma DecodeEncode(i: Item)
    requires InRange(i.t, i.v)
    ensures Decode(i.t, Encode(i)) == i.v
  {
    ValueOfBigEndian(ToRaw(i.t, i.v), i.t.width.Size());
  }

  /** ... and a right inverse on every byte string of the type's size: no two byte strings denote the
      same value and every byte string denotes one. */
  lemma EncodeDecode(t: IntType, s: seq<byte>)
    requires |s| == t.width.Size()
    ensures InRange(t, Decode(t, s)) && Encode(Item(t, Decode(t, s))) == s
  {
    ValueBound(s);
    BigEndianOfValue(s);
  }

  // ---------------------------------------------------------------- the wire format, in plain numbers

  /** The values of the eight types. */
  lemma Ranges(v: int)
    ensures InRange(IntType(W8, false), v) <==> 0 <= v < 256
    ensures InRange(IntType(W8, true), v) <==> -128 <= v < 128
    ensures InRange(IntType(W16, false), v) <==> 0 <= v < 65536
    ensures InRange(IntType(W16, true), v) <==> -32768 <= v < 32768
    ensures InRange(IntType(W32, false), v) <==> 0 <= v < 0x1_0000_0000
    ensures InRange(IntType(W32, true), v) <==> -0x8000_0000 <= v < 0x8000_0000
    ensures InRange(IntType(W64, false), v) <==> 0 <= v < 0x1_0000_0000_0000_0000
    ensures InRange(IntType(W64, true), v) <==> -0x8000_0000_0000_0000 <= v < 0x8000_0000_0000_0000
  {
    Powers();
  }

  lemma Powers()
    ensures Pow256(1) == 256 && Pow256(2) == 65536 && Pow256(4) == 0x1_0000_0000
    ensures Pow256(8) == 0x1_0000_0000_0000_0000
  {
    assert Pow256(0) == 1 && Pow256(1) == 256 && Pow256(2) == 65536;
    assert Pow256(3) == 0x100_0000 && Pow256(4) == 0x1_0000_0000;
    assert Pow256(5) == 0x100_0000_0000 && Pow256(6) == 0x1_0000_0000_0000;
    assert Pow256(7) == 0x100_0000_0000_0000;
  }

  /** The bytes of every value of one and two bytes. Division rounds down, which gives two's complement for
      negative values. */
  lemma Wire8And16(signed: bool, v: int)
    ensures InRange(IntType(W8, signed), v) ==> Encode(Item(IntType(W8, signed), v)) == [v % 256]
    ensures InRange(IntType(W16, signed), v) ==>
              Encode(Item(IntType(W16, signed), v)) == [v / 256 % 256, v % 256]
  {
    Powers();
    if InRange(IntType(W8, signed), v) { Last(ToRaw(IntType(W8, signed), v), 1); }
    if InRange(IntType(W16, signed), v) { Last2(ToRaw(IntType(W16, signed), v), 2); }
  }

  lemma Wire32(signed: bool, v: int)
    requires InRange(IntType(W32, signed), v)
    ensures Encode(Item(IntType(W32, signed), v))
         == [v / 0x100_0000 % 256, v / 0x1_0000 % 256, v / 0x100 % 256, v % 256]
  {
    Powers();
    Last4(ToRaw(IntType(W32, signed), v), 4);
    hide BigEndian, Encode;
    if v < 0 {
      SameByte(v, 0x100_0000, 1);
      SameByte(v, 0x1_0000, 0x100);
      SameByte(v, 0x100, 0x1_0000);
      SameByte(v, 1, 0x100_0000);
    }
  }

  lemma Wire64(signed: bool, v: int)
    requires InRange(IntType(W64, signed), v)
    ensures Encode(Item(IntType(W64, signed), v))
         == [v / 0x100_0000_0000_0000 % 256, v / 0x1_0000_0000_0000 % 256,
             v / 0x100_0000_0000 % 256, v / 0x1_0000_0000 % 256,
             v / 0x100_0000 % 256, v / 0x1_0000 % 256, v / 0x100 % 256, v % 256]
  {
    Powers();
    Last8(ToRaw(IntType(W64, signed), v));
    hide BigEndian, Encode;
    if v < 0 {
      SameByte(v, 0x100_0000_0000_0000, 1);
      SameByte(v, 0x1_0000_0000_0000, 0x100);
      SameByte(v, 0x100_0000_0000, 0x1_0000);
      SameByte(v, 0x1_0000_0000, 0x100_0000);
      SameByte(v, 0x100_0000, 0x1_0000_0000);
      SameByte(v, 0x1_0000, 0x100_0000_0000);
      SameByte(v, 0x100, 0x1_0000_0000_0000);
      SameByte(v, 1, 0x100_0000_0000_0000);
    }
  }

  lemma Quotient(d: nat, q: int, r: nat)
    requires r < d
    ensures (d * q + r) / d == q
  {
    var x := (d * q + r) / d;
    assert d * x <= d * q + r < d * x + d;
    if x < q { Multiples(d, x + 1, q); }
    if x > q { Multiples(d, q + 1, x); }
  }

  lemma Multiples(d: nat, a: int, b: int)
    requires a <= b
    ensures d * a <= d * b
  {
  }

  /** A value and its unsigned image have the same byte at each place. */
  lemma SameByte(v: int, d: nat, m: nat)
    requires d > 0
    ensures (v + d * (256 * m)) / d % 256 == v / d % 256
  {
    var q, r := v / d, v % d;
    assert v == d * q + r;
    assert v + d * (256 * m) == d * (q + 256 * m) + r;
    Quotient(d, q + 256 * m, r);
    assert (q + 256 * m) % 256 == q % 256;
  }

  lemma Last(r: nat, size: nat)
    requires size >= 1
    ensures BigEndian(r, size) == BigEndian(r / 256, size - 1) + [r % 256]
  {
  }

  lemma Last2(r: nat, size: nat)
    requires size >= 2
    ensures BigEndian(r, size) == BigEndian(r / 0x1_0000, size - 2) + [r / 0x100 % 256, r % 256]
  {
    Last(r, size);
    Last(r / 256, size - 1);
    assert r / 256 / 256 == r / 0x1_0000;
  }

  lemma Last4(r: nat, size: nat)
    requires size >= 4
    ensures BigEndian(r, size)
         == BigEndian(r / 0x1_0000_0000, size - 4)
            + [r / 0x100_0000 % 256, r / 0x1_0000 % 256, r / 0x100 % 256, r % 256]
  {
    Last2(r, size);
    Last2(r / 0x1_0000, size - 2);
    assert r / 0x1_0000 / 0x1_0000 == r / 0x1_0000_0000 && r / 0x1_0000 / 0x100 == r / 0x100_0000;
  }

  lemma Last8(r: nat)
    requires r < 0x1_0000_0000_0000_0000
    ensures BigEndian(r, 8)
         == [r / 0x100_0000_0000_0000 % 256, r / 0x1_0000_0000_0000 % 256,
             r / 0x100_0000_0000 % 256, r / 0x1_0000_0000 % 256,
             r / 0x100_0000 % 256, r / 0x1_0000 % 256, r / 0x100 % 256, r % 256]
  {
    Last4(r, 8);
    Last4(r / 0x1_0000_0000, 4);
    hide BigEndian;
    var h := r / 0x1_0000_0000;
    assert h / 0x100 == r / 0x100_0000_0000 && h / 0x1_0000 == r / 0x1_0000_0000_0000;
    assert h / 0x100_0000 == r / 0x100_0000_0000_0000;
    assert BigEndian(h / 0x1_0000_0000, 0) == [];
  }

  ghost predicate AllInRange(items: seq<Item>) {
    forall k :: 0 <= k < |items| ==> InRange(items[k].t, items[k].v)
  }

  function EncodeAll(items: seq<Item>): seq<byte>
    requires AllInRange(items)
  {
    if items == [] then [] else Encode(items[0]) + EncodeAll(items[1..])
  }

  lemma {:induction false} EncodeAllSnoc(items: seq<Item>, i: Item)
    requires AllInRange(items) && InRange(i.t, i.v)
    ensures AllInRange(items + [i]) && EncodeAll(items + [i]) == EncodeAll(items) + Encode(i)
  {
    if items == [] {
      assert [i][1..] == [];
      assert EncodeAll([i]) == Encode(i) + [];
      assert items + [i] == [i];
    } else {
      EncodeAllSnoc(items[1..], i);
      assert (items + [i])[1..] == items[1..] + [i];
      assert Encode(items[0]) + (EncodeAll(items[1..]) + Encode(i)) == EncodeAll(items) + Encode(i);
    }
  }
}
