/** What stands on the wire for one field, told by its bytes: every field that reads, and why any other does not. */
module WireFields {
  import opened Common
  import opened Varint
  import opened Wire

  /** A varint of so many bytes stands at a place; forms longer than needed are read too. */
  predicate VarintAt(b: Bytes, at: nat, v: nat, size: nat) {
    at <= |b| && GoesOn(b[at..], size) && size <= 10 && v == Sevens(b[at..][..size]) && v < 0x1_0000_0000_0000_0000
  }

  lemma VarintReads(b: Bytes, at: nat, v: nat, size: nat)
    requires at <= |b|
    ensures Uvarint(b[at..]) == Some(Read(v, size)) <==> VarintAt(b, at, v, size)
  {
    UvarintExactly(b[at..], v, size);
  }

  /** A fixed-width value, lowest byte first. */
  predicate FixedAt(b: Bytes, at: nat, width: nat, v: nat) {
    at + width <= |b| && v == FromLittleEndian(b[at..at + width])
  }

  /** So many bytes after a varint of their number. */
  ghost predicate BytesAt(b: Bytes, at: nat, text: Bytes, end: nat) {
    exists l: nat, n: nat :: VarintAt(b, at, l, n) && end == at + n + l && end <= |b| && text == b[at + n..end]
  }

  /** The payload of a field, by its wire type: 0, 1, 5 and 2. */
  ghost predicate PayloadAt(b: Bytes, at: nat, f: Field, end: nat) {
    || (f.typ == 0 && f.bytes == [] && at < end && VarintAt(b, at, f.u, end - at))
    || (f.typ == 1 && f.bytes == [] && end == at + 8 && FixedAt(b, at, 8, f.u))
    || (f.typ == 5 && f.bytes == [] && end == at + 4 && FixedAt(b, at, 4, f.u))
    || (f.typ == 2 && f.u == 0 && BytesAt(b, at, f.bytes, end))
  }

  /** The first field: a key with its number and wire type, then its payload. */
  ghost predicate FieldAt(b: Bytes, f: Field, end: nat) {
    exists key: nat, n: nat :: VarintAt(b, 0, key, n) && f.num == key / 8 && f.typ == key % 8 && PayloadAt(b, n, f, end)
  }

  lemma BytesRead(b: Bytes, at: nat, num: nat, f: Field, end: nat)
    requires at <= |b|
    ensures ReadBytes(b, at, num) == Ok(Got(f, end)) <==> f.num == num && f.typ == 2 && f.u == 0 && BytesAt(b, at, f.bytes, end)
  {
    var l := Uvarint(b[at..]);
    if l.Some? {
      VarintReads(b, at, l.value.value, l.value.size);
    }
    if BytesAt(b, at, f.bytes, end) {
      var v: nat, n: nat :| VarintAt(b, at, v, n) && end == at + n + v && end <= |b| && f.bytes == b[at + n..end];
      VarintReads(b, at, v, n);
    }
  }

  lemma VarintRead(b: Bytes, at: nat, num: nat, f: Field, end: nat)
    requires at <= |b|
    ensures ReadVarint(b, at, num) == Ok(Got(f, end)) <==>
      f.num == num && f.typ == 0 && f.bytes == [] && at < end && VarintAt(b, at, f.u, end - at)
  {
    if at < end {
      VarintReads(b, at, f.u, end - at);
    }
  }

  lemma FixedRead(b: Bytes, at: nat, num: nat, typ: nat, width: nat, f: Field, end: nat)
    requires at <= |b| && width <= 8
    ensures ReadFixed(b, at, num, typ, width) == Ok(Got(f, end)) <==>
      f.num == num && f.typ == typ && f.bytes == [] && end == at + width && FixedAt(b, at, width, f.u)
  {
  }

  lemma PayloadReads(b: Bytes, at: nat, num: nat, typ: nat, f: Field, end: nat)
    requires at <= |b|
    ensures ReadPayload(b, at, num, typ) == Ok(Got(f, end)) <==> f.num == num && f.typ == typ && PayloadAt(b, at, f, end)
  {
    BytesRead(b, at, num, f, end);
    VarintRead(b, at, num, f, end);
    FixedRead(b, at, num, typ, 8, f, end);
    FixedRead(b, at, num, typ, 4, f, end);
  }

  /** A field is read exactly when one stands first. */
  lemma FieldExactly(b: Bytes, f: Field, end: nat)
    ensures ReadField(b) == Ok(Got(f, end)) <==> FieldAt(b, f, end)
  {
    assert b[0..] == b;
    var key := Uvarint(b);
    if key.Some? {
      VarintReads(b, 0, key.value.value, key.value.size);
      PayloadReads(b, key.value.size, key.value.value / 8, key.value.value % 8, f, end);
    }
    if FieldAt(b, f, end) {
      var k: nat, n: nat :| VarintAt(b, 0, k, n) && f.num == k / 8 && f.typ == k % 8 && PayloadAt(b, n, f, end);
      VarintReads(b, 0, k, n);
    }
  }

  /** A key with a number and a wire type. */
  ghost predicate KeyAt(b: Bytes, num: nat, typ: nat) {
    exists key: nat, n: nat :: VarintAt(b, 0, key, n) && num == key / 8 && typ == key % 8
  }

  /** Otherwise the field's wire type is none of these, or the message is cut off. */
  lemma FieldFails(b: Bytes, num: nat, typ: nat)
    ensures ReadField(b) == Err(Unsupported(num, typ)) <==> KeyAt(b, num, typ) && typ != 0 && typ != 1 && typ != 2 && typ != 5
    ensures ReadField(b).Err? ==> ReadField(b).error.Truncated? || ReadField(b).error.Unsupported?
  {
    assert b[0..] == b;
    var key := Uvarint(b);
    if key.Some? {
      VarintReads(b, 0, key.value.value, key.value.size);
    }
    if KeyAt(b, num, typ) {
      var k: nat, n: nat :| VarintAt(b, 0, k, n) && num == k / 8 && typ == k % 8;
      VarintReads(b, 0, k, n);
    }
  }
}
