/** Bytes, base-128 varints, and 64-bit integers as the wire carries them. */
module Varint {
  import opened Common

  type Byte = x: int | 0 <= x < 0x100
  type Bytes = seq<Byte>

  const TWO63: int := 0x8000_0000_0000_0000
  const TWO64: int := 0x1_0000_0000_0000_0000

  type U32 = x: int | 0 <= x < 0x1_0000_0000
  type U64 = x: int | 0 <= x < TWO64 witness 0
  type I64 = x: int | -TWO63 <= x < TWO63 witness 0

  /** uint64(v): two's complement. */
  function ToU64(v: I64): (u: U64)
    ensures ToI64(u) == v
  {
    if v < 0 then v + TWO64 else v
  }

  /** int64(u) */
  function ToI64(u: U64): I64 {
    if u < TWO63 then u else u - TWO64
  }

  /** binary.AppendUvarint onto nothing. */
  function AppendUvarint(x: nat): (r: Bytes)
    ensures |r| > 0
  {
    if x < 0x80 then [x] else [x % 0x80 + 0x80] + AppendUvarint(x / 0x80)
  }

  const MAX_VARINT_LEN: nat := 10

  /** A value and how many bytes it took. */
  datatype Read = Read(value: nat, size: nat)

  /** What the bytes of a varint from the i-th on can add up to: the tenth byte is 0 or 1. */
  function Room(i: nat): (r: nat)
    requires i < MAX_VARINT_LEN
    ensures r >= 2
    decreases MAX_VARINT_LEN - i
  {
    if i == MAX_VARINT_LEN - 1 then 2 else 0x80 * Room(i + 1)
  }

  lemma RoomForAll()
    ensures Room(0) == TWO64
  {
    assert Room(6) == 2 * 0x80 * 0x80 * 0x80;
    assert Room(3) == 0x80 * 0x80 * 0x80 * Room(6);
    assert Room(0) == 0x80 * 0x80 * 0x80 * Room(3);
  }

  /** The rest of a varint whose first i bytes are read. */
  function UvarintFrom(b: Bytes, i: nat): (r: Option<Read>)
    requires i <= MAX_VARINT_LEN
    ensures r.Some? ==> i < MAX_VARINT_LEN && r.value.value < Room(i) && 0 < r.value.size <= |b|
    decreases |b|
  {
    if b == [] || i == MAX_VARINT_LEN then None
    else if b[0] < 0x80 then
      if i == MAX_VARINT_LEN - 1 && b[0] > 1 then None else Some(Read(b[0], 1))
    else
      match UvarintFrom(b[1..], i + 1)
      case None => None
      case Some(rest) => Some(Read(b[0] - 0x80 + 0x80 * rest.value, rest.size + 1))
  }

  /** uvarint: nothing for what is cut off or does not fit 64 bits. */
  function Uvarint(b: Bytes): (r: Option<Read>)
    ensures r.Some? ==> r.value.value < TWO64 && 0 < r.value.size <= |b|
  {
    RoomForAll();
    UvarintFrom(b, 0)
  }

  /** Seven bits from each byte, the lowest first. */
  function Sevens(b: Bytes): nat {
    if b == [] then 0 else b[0] % 0x80 + 0x80 * Sevens(b[1..])
  }

  /** The first so many bytes go on to the last of them, which ends. */
  predicate GoesOn(b: Bytes, size: nat) {
    0 < size <= |b| && b[size - 1] < 0x80 && forall k :: 0 <= k < size - 1 ==> b[k] >= 0x80
  }

  lemma {:induction false} ReadsFrom(b: Bytes, i: nat, size: nat)
    requires i < MAX_VARINT_LEN && GoesOn(b, size)
    ensures UvarintFrom(b, i) == if i + size <= MAX_VARINT_LEN && Sevens(b[..size]) < Room(i) then Some(Read(Sevens(b[..size]), size)) else None
    decreases |b|
  {
    assert b[..size][0] == b[0] && b[..size][1..] == b[1..][..size - 1];
    if size > 1 {
      if i + 1 < MAX_VARINT_LEN {
        ReadsFrom(b[1..], i + 1, size - 1);
      }
    } else {
      assert Sevens(b[..size][1..]) == 0;
    }
  }

  lemma {:induction false} ReadsGoOn(b: Bytes, i: nat)
    requires i <= MAX_VARINT_LEN && UvarintFrom(b, i).Some?
    ensures GoesOn(b, UvarintFrom(b, i).value.size)
    decreases |b|
  {
    if b[0] >= 0x80 {
      ReadsGoOn(b[1..], i + 1);
    }
  }

  /** A varint is read exactly when it ends within ten bytes and its sevens add up to less than 2^64; longer forms are read too. */
  lemma UvarintExactly(b: Bytes, v: nat, size: nat)
    ensures Uvarint(b) == Some(Read(v, size)) <==>
      GoesOn(b, size) && size <= 10 && v == Sevens(b[..size]) && v < 0x1_0000_0000_0000_0000
  {
    RoomForAll();
    if GoesOn(b, size) {
      ReadsFrom(b, 0, size);
    }
    if Uvarint(b).Some? {
      ReadsGoOn(b, 0);
    }
  }

  lemma {:induction false} VarintFromRoundTrip(x: nat, i: nat, rest: Bytes)
    requires i < MAX_VARINT_LEN && x < Room(i)
    ensures UvarintFrom(AppendUvarint(x) + rest, i) == Some(Read(x, |AppendUvarint(x)|))
    decreases x
  {
    var b := AppendUvarint(x) + rest;
    if x < 0x80 {
      assert b[0] == x;
    } else {
      assert b[0] == x % 0x80 + 0x80;
      assert b[1..] == AppendUvarint(x / 0x80) + rest;
      VarintFromRoundTrip(x / 0x80, i + 1, rest);
    }
  }

  /** What AppendUvarint wrote, Uvarint reads back, whatever follows. */
  lemma VarintRoundTrip(x: nat, rest: Bytes)
    requires x < TWO64
    ensures Uvarint(AppendUvarint(x) + rest) == Some(Read(x, |AppendUvarint(x)|))
  {
    RoomForAll();
    VarintFromRoundTrip(x, 0, rest);
  }

  lemma {:induction false} UvarintFromPrefix(b: Bytes, c: Bytes, i: nat)
    requires i <= MAX_VARINT_LEN && UvarintFrom(b, i).Some?
    ensures UvarintFrom(b + c, i) == UvarintFrom(b, i)
    decreases |b|
  {
    assert (b + c)[0] == b[0] && (b + c)[1..] == b[1..] + c;
    if b[0] >= 0x80 {
      UvarintFromPrefix(b[1..], c, i + 1);
    }
  }

  /** A varint that reads, reads the same with more behind it. */
  lemma UvarintPrefix(b: Bytes, c: Bytes)
    requires Uvarint(b).Some?
    ensures Uvarint(b + c) == Uvarint(b)
  {
    UvarintFromPrefix(b, c, 0);
  }

  lemma {:induction false} AppendUvarintLength(x: nat, i: nat)
    requires i < MAX_VARINT_LEN && x < Room(i)
    ensures |AppendUvarint(x)| <= MAX_VARINT_LEN - i
    decreases x
  {
    if x >= 0x80 {
      AppendUvarintLength(x / 0x80, i + 1);
    }
  }

  /** No 64-bit value needs more than ten bytes. */
  lemma VarintFits(x: nat)
    requires x < TWO64
    ensures |AppendUvarint(x)| <= MAX_VARINT_LEN
  {
    RoomForAll();
    AppendUvarintLength(x, 0);
  }

  // ---- fixed-width values ------------------------------------------------------

  /** binary.LittleEndian.AppendUint32, AppendUint64 */
  function LittleEndian(x: nat, n: nat): (r: Bytes)
    ensures |r| == n
  {
    if n == 0 then [] else [x % 0x100] + LittleEndian(x / 0x100, n - 1)
  }

  /** binary.LittleEndian.Uint32, Uint64 */
  function FromLittleEndian(b: Bytes): nat {
    if b == [] then 0 else b[0] + 0x100 * FromLittleEndian(b[1..])
  }

  function Pow256(n: nat): (r: nat)
    ensures r > 0
  {
    if n == 0 then 1 else 0x100 * Pow256(n - 1)
  }

  lemma {:induction false} LittleEndianRoundTrip(x: nat, n: nat)
    requires x < Pow256(n)
    ensures FromLittleEndian(LittleEndian(x, n)) == x
  {
    if n > 0 {
      LittleEndianRoundTrip(x / 0x100, n - 1);
      assert LittleEndian(x, n)[1..] == LittleEndian(x / 0x100, n - 1);
    }
  }

  lemma {:induction false} LittleEndianBound(b: Bytes)
    ensures FromLittleEndian(b) < Pow256(|b|)
  {
    if b != [] {
      LittleEndianBound(b[1..]);
    }
  }

  lemma Widths()
    ensures Pow256(4) == 0x1_0000_0000 && Pow256(8) == TWO64
  {
    assert Pow256(4) == 0x100 * 0x100 * 0x100 * Pow256(1);
    assert Pow256(8) == 0x100 * 0x100 * 0x100 * 0x100 * Pow256(4);
  }
}
