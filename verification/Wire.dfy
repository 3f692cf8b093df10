/** Protocol Buffers messages, one level at a time: a sequence of numbered fields. */
module Wire {
  import opened Common
  import opened Varint

  const WIRE_VARINT: nat := 0
  const WIRE_64: nat := 1
  const WIRE_BYTES: nat := 2
  const WIRE_32: nat := 5

  datatype Field = Field(num: nat, typ: nat, u: U64, bytes: Bytes)
  {
    /** int, bool */
    function Int(): I64 { ToI64(u) }
    function Bool(): bool { u != 0 }
  }

  datatype Error =
    | Truncated | Unsupported(num: nat, typ: nat)
    | MissingUrl | NoManga | InManga(index: nat, cause: Error)

  datatype Result<T> = Ok(value: T) | Err(error: Error)

  /** A field and how many bytes it took. */
  datatype Got = Got(field: Field, size: nat)

  function ReadFixed(b: Bytes, at: nat, num: nat, typ: nat, width: nat): (r: Result<Got>)
    requires at <= |b| && width <= 8
    ensures r.Ok? ==> r.value.size == at + width <= |b|
  {
    if |b| - at < width then Err(Truncated) else
      var u := FromLittleEndian(b[at..at + width]);
      LittleEndianBound(b[at..at + width]);
      FixedFits(width);
      Ok(Got(Field(num, typ, u, []), at + width))
  }

  lemma FixedFits(width: nat)
    requires width <= 8
    ensures Pow256(width) <= TWO64
  {
    Widths();
    PowGrows(width, 8);
  }

  lemma {:induction false} PowGrows(m: nat, n: nat)
    requires m <= n
    ensures Pow256(m) <= Pow256(n)
    decreases n
  {
    if m < n {
      PowGrows(m, n - 1);
    }
  }

  function ReadBytes(b: Bytes, at: nat, num: nat): (r: Result<Got>)
    requires at <= |b|
    ensures r.Ok? ==> at < r.value.size <= |b|
  {
    match Uvarint(b[at..])
    case None => Err(Truncated)
    case Some(l) =>
      var start := at + l.size;
      if |b| - start < l.value then Err(Truncated)
      else Ok(Got(Field(num, WIRE_BYTES, 0, b[start..start + l.value]), start + l.value))
  }

  function ReadVarint(b: Bytes, at: nat, num: nat): (r: Result<Got>)
    requires at <= |b|
    ensures r.Ok? ==> at < r.value.size <= |b|
  {
    match Uvarint(b[at..])
    case None => Err(Truncated)
    case Some(v) => Ok(Got(Field(num, WIRE_VARINT, v.value, []), at + v.size))
  }

  function ReadPayload(b: Bytes, at: nat, num: nat, typ: nat): (r: Result<Got>)
    requires at <= |b|
    ensures r.Ok? ==> at < r.value.size <= |b|
  {
    if typ == WIRE_VARINT then ReadVarint(b, at, num)
    else if typ == WIRE_64 then ReadFixed(b, at, num, typ, 8)
    else if typ == WIRE_32 then ReadFixed(b, at, num, typ, 4)
    else if typ == WIRE_BYTES then ReadBytes(b, at, num)
    else Err(Unsupported(num, typ))
  }

  /** The first field of a message: one turn of the loop in fields. */
  function ReadField(b: Bytes): (r: Result<Got>)
    ensures r.Ok? ==> 0 < r.value.size <= |b|
  {
    match Uvarint(b)
    case None => Err(Truncated)
    case Some(key) => ReadPayload(b, key.size, key.value / 8, key.value % 8)
  }

  /** fields: every field of a message in turn goes to step. */
  function Run<S>(b: Bytes, s: S, step: (S, Field) -> Result<S>): Result<S>
    decreases |b|
  {
    if b == [] then Ok(s) else
      match ReadField(b)
      case Err(e) => Err(e)
      case Ok(got) =>
        match step(s, got.field)
        case Err(e) => Err(e)
        case Ok(t) => Run(b[got.size..], t, step)
  }

  method Fields<S>(data: Bytes, init: S, step: (S, Field) -> Result<S>) returns (r: Result<S>)
    ensures r == Run(data, init, step)
  {
    var b, s := data, init;
    while b != []
      invariant Run(b, s, step) == Run(data, init, step)
      decreases |b|
    {
      var got := ReadField(b);
      if got.Err? {
        return Err(got.error);
      }
      var next := step(s, got.value.field);
      if next.Err? {
        return Err(next.error);
      }
      b, s := b[got.value.size..], next.value;
    }
    r := Ok(s);
  }

  // ---- reading a message in two parts --------------------------------------------

  /** A sequence of whole fields. */
  predicate WellFormed(b: Bytes)
    decreases |b|
  {
    b == [] || (var got := ReadField(b); got.Ok? && WellFormed(b[got.value.size..]))
  }

  lemma ReadFixedPrefix(a: Bytes, b: Bytes, at: nat, num: nat, typ: nat, width: nat)
    requires at <= |a| && width <= 8 && ReadFixed(a, at, num, typ, width).Ok?
    ensures ReadFixed(a + b, at, num, typ, width) == ReadFixed(a, at, num, typ, width)
  {
    assert (a + b)[at..at + width] == a[at..at + width];
  }

  lemma ReadBytesPrefix(a: Bytes, b: Bytes, at: nat, num: nat)
    requires at <= |a| && ReadBytes(a, at, num).Ok?
    ensures ReadBytes(a + b, at, num) == ReadBytes(a, at, num)
  {
    assert (a + b)[at..] == a[at..] + b;
    UvarintPrefix(a[at..], b);
    var l := Uvarint(a[at..]).value;
    var start := at + l.size;
    assert (a + b)[start..start + l.value] == a[start..start + l.value];
  }

  lemma ReadPayloadPrefix(a: Bytes, b: Bytes, at: nat, num: nat, typ: nat)
    requires at <= |a| && ReadPayload(a, at, num, typ).Ok?
    ensures ReadPayload(a + b, at, num, typ) == ReadPayload(a, at, num, typ)
  {
    if typ == WIRE_VARINT {
      assert (a + b)[at..] == a[at..] + b;
      UvarintPrefix(a[at..], b);
    } else if typ == WIRE_64 {
      ReadFixedPrefix(a, b, at, num, typ, 8);
    } else if typ == WIRE_32 {
      ReadFixedPrefix(a, b, at, num, typ, 4);
    } else {
      ReadBytesPrefix(a, b, at, num);
    }
  }

  lemma ReadFieldPrefix(a: Bytes, b: Bytes)
    requires ReadField(a).Ok?
    ensures ReadField(a + b) == ReadField(a)
  {
    UvarintPrefix(a, b);
    var key := Uvarint(a).value;
    ReadPayloadPrefix(a, b, key.size, key.value / 8, key.value % 8);
  }

  /** fields is a homomorphism: what follows whole fields is read from the state they leave. */
  lemma {:induction false} RunConcat<S>(a: Bytes, b: Bytes, s: S, step: (S, Field) -> Result<S>)
    requires WellFormed(a)
    ensures Run(a + b, s, step) == if Run(a, s, step).Ok? then Run(b, Run(a, s, step).value, step) else Run(a, s, step)
    decreases |a|
  {
    if a == [] {
      assert a + b == b;
    } else {
      ReadFieldPrefix(a, b);
      var got := ReadField(a).value;
      assert (a + b)[got.size..] == a[got.size..] + b;
      var next := step(s, got.field);
      if next.Ok? {
        RunConcat(a[got.size..], b, next.value, step);
      }
    }
  }

  /** What a callback accepts to the end was a sequence of whole fields. */
  lemma {:induction false} RunWellFormed<S>(b: Bytes, s: S, step: (S, Field) -> Result<S>)
    requires Run(b, s, step).Ok?
    ensures WellFormed(b)
    decreases |b|
  {
    if b != [] {
      var got := ReadField(b).value;
      RunWellFormed(b[got.size..], step(s, got.field).value, step);
    }
  }

  /** Every field of b is one that skip holds of. */
  predicate AllFields(b: Bytes, skip: Field -> bool)
    requires WellFormed(b)
    decreases |b|
  {
    b == [] || (var got := ReadField(b).value; skip(got.field) && AllFields(b[got.size..], skip))
  }

  lemma {:induction false} RunSkips<S>(b: Bytes, s: S, step: (S, Field) -> Result<S>, skip: Field -> bool)
    requires WellFormed(b) && AllFields(b, skip)
    requires forall t, f {:trigger step(t, f)} :: skip(f) ==> step(t, f) == Ok(t)
    ensures Run(b, s, step) == Ok(s)
    decreases |b|
  {
    if b != [] {
      var got := ReadField(b).value;
      RunSkips(b[got.size..], s, step, skip);
    }
  }

  /** Fields a callback ignores may stand between any two others. */
  lemma RunInsertion<S>(a: Bytes, u: Bytes, c: Bytes, s: S, step: (S, Field) -> Result<S>, skip: Field -> bool)
    requires WellFormed(a) && WellFormed(u) && AllFields(u, skip)
    requires forall t, f {:trigger step(t, f)} :: skip(f) ==> step(t, f) == Ok(t)
    ensures Run(a + u + c, s, step) == Run(a + c, s, step)
  {
    assert a + u + c == a + (u + c);
    RunConcat(a, u + c, s, step);
    RunConcat(a, c, s, step);
    if Run(a, s, step).Ok? {
      var t := Run(a, s, step).value;
      RunConcat(u, c, t, step);
      RunSkips(u, t, step, skip);
    }
  }

  // ---- writing fields --------------------------------------------------------------

  /** Fields the writer makes: a varint, bytes or a 32-bit value. */
  predicate Writable(f: Field) {
    && f.num < TWO64 / 8
    && (f.typ == WIRE_VARINT || f.typ == WIRE_BYTES || f.typ == WIRE_32)
    && (f.typ == WIRE_BYTES ==> f.u == 0)
    && (f.typ != WIRE_BYTES ==> f.bytes == [])
    && (f.typ == WIRE_32 ==> f.u < 0x1_0000_0000)
  }

  function Key(num: nat, typ: nat): Bytes {
    AppendUvarint(num * 8 + typ)
  }

  function Payload(f: Field): Bytes {
    if f.typ == WIRE_VARINT then AppendUvarint(f.u)
    else if f.typ == WIRE_32 then LittleEndian(f.u, 4)
    else AppendUvarint(|f.bytes|) + f.bytes
  }

  function EncField(f: Field): (r: Bytes)
    ensures |r| > |f.bytes| || f.typ != WIRE_BYTES
  {
    Key(f.num, f.typ) + Payload(f)
  }

  function EncFields(fs: seq<Field>): Bytes {
    if fs == [] then [] else EncField(fs[0]) + EncFields(fs[1..])
  }

  lemma ReadKey(num: nat, typ: nat, rest: Bytes)
    requires num < TWO64 / 8 && typ < 8
    ensures Uvarint(Key(num, typ) + rest).Some?
    ensures var key := Uvarint(Key(num, typ) + rest).value;
      key.size == |Key(num, typ)| && key.value / 8 == num && key.value % 8 == typ
  {
    VarintRoundTrip(num * 8 + typ, rest);
  }

  /** A written field reads back, whatever follows. */
  lemma ReadEncField(f: Field, rest: Bytes)
    requires Writable(f) && |f.bytes| < TWO64
    ensures ReadField(EncField(f) + rest) == Ok(Got(f, |EncField(f)|))
  {
    ReadAfterKey(f, Key(f.num, f.typ), Payload(f), rest, EncField(f) + rest);
  }

  lemma ReadAfterKey(f: Field, key: Bytes, payload: Bytes, rest: Bytes, b: Bytes)
    requires Writable(f) && |f.bytes| < TWO64
    requires key == Key(f.num, f.typ) && payload == Payload(f) && b == key + payload + rest
    ensures ReadField(b) == Ok(Got(f, |key| + |payload|))
  {
    assert b == key + (payload + rest);
    ReadKey(f.num, f.typ, payload + rest);
    assert b[|key|..] == payload + rest;
    ReadEncPayload(f, b, |key|, rest);
  }

  lemma ReadEncPayload(f: Field, b: Bytes, at: nat, rest: Bytes)
    requires Writable(f) && |f.bytes| < TWO64
    requires at <= |b| && b[at..] == Payload(f) + rest
    ensures ReadPayload(b, at, f.num, f.typ) == Ok(Got(f, at + |Payload(f)|))
  {
    if f.typ == WIRE_VARINT {
      VarintRoundTrip(f.u, rest);
    } else if f.typ == WIRE_32 {
      ReadEncFixed(f, b, at, rest);
    } else {
      ReadEncBytes(f, b, at, rest);
    }
  }

  lemma ReadEncFixed(f: Field, b: Bytes, at: nat, rest: Bytes)
    requires Writable(f) && f.typ == WIRE_32
    requires at <= |b| && b[at..] == Payload(f) + rest
    ensures ReadFixed(b, at, f.num, f.typ, 4) == Ok(Got(f, at + 4))
  {
    assert b[at..at + 4] == b[at..][..4] == LittleEndian(f.u, 4);
    Widths();
    LittleEndianRoundTrip(f.u, 4);
  }

  lemma ReadEncBytes(f: Field, b: Bytes, at: nat, rest: Bytes)
    requires Writable(f) && f.typ == WIRE_BYTES && |f.bytes| < TWO64
    requires at <= |b| && b[at..] == Payload(f) + rest
    ensures ReadBytes(b, at, f.num) == Ok(Got(f, at + |Payload(f)|))
  {
    var len := AppendUvarint(|f.bytes|);
    assert Payload(f) + rest == len + (f.bytes + rest);
    VarintRoundTrip(|f.bytes|, f.bytes + rest);
    Behind(b, at, len, f.bytes, rest);
    BytesAfter(b, at, f.num, |len|, f.bytes);
  }

  lemma BytesAfter(b: Bytes, at: nat, num: nat, size: nat, m: Bytes)
    requires at <= |b| && Uvarint(b[at..]) == Some(Read(|m|, size))
    requires at + size + |m| <= |b| && b[at + size..at + size + |m|] == m
    ensures ReadBytes(b, at, num) == Ok(Got(Field(num, WIRE_BYTES, 0, m), at + size + |m|))
  {
  }

  lemma Behind(b: Bytes, at: nat, a: Bytes, m: Bytes, rest: Bytes)
    requires at <= |b| && b[at..] == a + (m + rest)
    ensures at + |a| + |m| <= |b| && b[at + |a|..at + |a| + |m|] == m
  {
    assert |b[at..]| == |a| + |m| + |rest|;
    var tail := b[at..];
    forall i | 0 <= i < |m| ensures b[at + |a| + i] == m[i] {
      assert b[at + |a| + i] == tail[|a| + i];
    }
  }

  /** The step taken for each of a list of fields. */
  function Fold<S>(fs: seq<Field>, s: S, step: (S, Field) -> Result<S>): Result<S> {
    if fs == [] then Ok(s) else
      match step(s, fs[0])
      case Err(e) => Err(e)
      case Ok(t) => Fold(fs[1..], t, step)
  }

  predicate AllWritable(fs: seq<Field>) {
    forall i :: 0 <= i < |fs| ==> Writable(fs[i])
  }

  /** A message is longer than any field's bytes in it. */
  lemma {:induction false} PartShorter(fs: seq<Field>, i: nat)
    requires i < |fs| && fs[i].typ == WIRE_BYTES
    ensures |fs[i].bytes| < |EncFields(fs)|
  {
    if i > 0 {
      PartShorter(fs[1..], i - 1);
    }
  }

  /** Reading a written message is taking the step for each field written. */
  lemma {:induction false} RunEncFields<S>(fs: seq<Field>, s: S, step: (S, Field) -> Result<S>)
    requires AllWritable(fs) && |EncFields(fs)| < TWO64
    ensures Run(EncFields(fs), s, step) == Fold(fs, s, step)
  {
    if fs != [] {
      var rest := EncFields(fs[1..]);
      if fs[0].typ == WIRE_BYTES {
        PartShorter(fs, 0);
      }
      ReadEncField(fs[0], rest);
      assert EncFields(fs)[|EncField(fs[0])|..] == rest;
      var next := step(s, fs[0]);
      if next.Ok? {
        RunEncFields(fs[1..], next.value, step);
      }
    }
  }

  lemma {:induction false} EncFieldsConcat(a: seq<Field>, b: seq<Field>)
    ensures EncFields(a + b) == EncFields(a) + EncFields(b)
  {
    if a == [] {
      assert a + b == b;
    } else {
      assert (a + b)[0] == a[0] && (a + b)[1..] == a[1..] + b;
      EncFieldsConcat(a[1..], b);
    }
  }

  lemma {:induction false} FoldConcat<S>(a: seq<Field>, b: seq<Field>, s: S, step: (S, Field) -> Result<S>)
    ensures Fold(a + b, s, step) == if Fold(a, s, step).Ok? then Fold(b, Fold(a, s, step).value, step) else Fold(a, s, step)
  {
    if a == [] {
      assert a + b == b;
    } else {
      assert (a + b)[0] == a[0] && (a + b)[1..] == a[1..] + b;
      var next := step(s, a[0]);
      if next.Ok? {
        FoldConcat(a[1..], b, next.value, step);
      }
    }
  }

  // ---- repeated integers -------------------------------------------------------------

  /** ints over packed bytes, with the numbers before them. */
  function Packed(b: Bytes, out: seq<I64>): Result<seq<I64>>
    decreases |b|
  {
    if b == [] then Ok(out) else
      match Uvarint(b)
      case None => Err(Truncated)
      case Some(v) => Packed(b[v.size..], out + [ToI64(v.value)])
  }

  /** ints: a repeated integer field, packed or not. */
  function Ints(f: Field): Result<seq<I64>> {
    if f.typ != WIRE_BYTES then Ok([f.Int()]) else Packed(f.bytes, [])
  }

  method ReadInts(f: Field) returns (r: Result<seq<I64>>)
    ensures r == Ints(f)
  {
    if f.typ != WIRE_BYTES {
      return Ok([f.Int()]);
    }
    var out, b := [], f.bytes;
    while b != []
      invariant Packed(f.bytes, []) == Packed(b, out)
      decreases |b|
    {
      var v := Uvarint(b);
      if v.None? {
        return Err(Truncated);
      }
      out, b := out + [ToI64(v.value.value)], b[v.value.size..];
    }
    r := Ok(out);
  }

  function PackInts(vs: seq<I64>): Bytes {
    if vs == [] then [] else AppendUvarint(ToU64(vs[0])) + PackInts(vs[1..])
  }

  /** A packed list reads back whole. */
  lemma {:induction false} PackedRoundTrip(vs: seq<I64>, out: seq<I64>)
    ensures Packed(PackInts(vs), out) == Ok(out + vs)
  {
    if vs == [] {
      assert out + vs == out;
    } else {
      var head, tail := AppendUvarint(ToU64(vs[0])), PackInts(vs[1..]);
      VarintRoundTrip(ToU64(vs[0]), tail);
      assert (head + tail)[|head|..] == tail;
      PackedRoundTrip(vs[1..], out + [vs[0]]);
      assert out + [vs[0]] + vs[1..] == out + vs;
    }
  }
}
