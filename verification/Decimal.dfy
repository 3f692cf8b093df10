/** Decimal integers and url segments as byte strings. */
module Decimal {
  import opened Common
  import opened Varint

  const MINUS: Byte := 0x2D
  const PLUS: Byte := 0x2B
  const ZERO: Byte := 0x30
  const NINE: Byte := 0x39
  const SLASH: Byte := 0x2F

  predicate IsDigit(c: Byte) { ZERO <= c <= NINE }

  function FormatNat(n: nat): Bytes {
    if n < 10 then [ZERO + n] else FormatNat(n / 10) + [ZERO + n % 10]
  }

  /** strconv.FormatInt(v, 10) */
  function FormatInt(v: I64): Bytes {
    if v < 0 then [MINUS] + FormatNat(0 - v) else FormatNat(v)
  }

  /** strconv.ParseUint: nothing on a syntax error, the largest value once the number leaves range. */
  function ParseUint(s: Bytes, n: nat): (r: Option<nat>) {
    if s == [] then Some(n)
    else if !IsDigit(s[0]) then None
    else if n >= TWO64 / 10 + 1 then Some(TWO64 - 1)
    else
      var next := 10 * n + (s[0] - ZERO);
      if next >= TWO64 then Some(TWO64 - 1) else ParseUint(s[1..], next)
  }

  /** strconv.ParseInt(s, 10, 64) with its error dropped: 0 for bad syntax, the nearest bound out of range. */
  function ParseInt(s: Bytes): I64 {
    var neg := s != [] && s[0] == MINUS;
    var digits := if s != [] && (s[0] == MINUS || s[0] == PLUS) then s[1..] else s;
    if digits == [] then 0 else
      match ParseUint(digits, 0)
      case None => 0
      case Some(n) =>
        if !neg then (if n >= TWO63 then TWO63 - 1 else n)
        else if n > TWO63 then -TWO63 else 0 - n
  }

  function Value(s: Bytes): nat {
    if s == [] then 0 else 10 * Value(s[..|s| - 1]) + (if IsDigit(s[|s| - 1]) then s[|s| - 1] - ZERO else 0)
  }

  /** Digits without a leading zero. */
  predicate IsDecimal(s: Bytes) {
    s != [] && (forall i :: 0 <= i < |s| ==> IsDigit(s[i])) && (s[0] != ZERO || |s| == 1)
  }

  /** The one way FormatInt writes each 64-bit value. */
  predicate Canonical(s: Bytes) {
    if s != [] && s[0] == MINUS then IsDecimal(s[1..]) && s[1..] != [ZERO] && Value(s[1..]) <= TWO63
    else IsDecimal(s) && Value(s) < TWO63
  }

  lemma {:induction false} FormatNatIsDecimal(n: nat)
    ensures IsDecimal(FormatNat(n)) && Value(FormatNat(n)) == n
    ensures n > 0 ==> FormatNat(n)[0] != ZERO
  {
    if n >= 10 {
      FormatNatIsDecimal(n / 10);
      assert FormatNat(n)[..|FormatNat(n)| - 1] == FormatNat(n / 10);
    }
  }

  lemma {:induction false} FormatValue(s: Bytes)
    requires IsDecimal(s)
    ensures FormatNat(Value(s)) == s
    ensures s != [ZERO] ==> Value(s) > 0
  {
    var p := s[..|s| - 1];
    assert s == p + [s[|s| - 1]];
    if p != [] {
      FormatValue(p);
    } else {
      assert Value(s) == s[0] - ZERO;
    }
  }

  lemma {:induction false} ParseFormatNat(n: nat, rest: Bytes)
    requires n < TWO64
    ensures ParseUint(FormatNat(n) + rest, 0) == ParseUint(rest, n)
  {
    if n < 10 {
      assert ([ZERO + n] + rest)[1..] == rest;
    } else {
      var last: Bytes := [ZERO + n % 10];
      assert FormatNat(n) + rest == FormatNat(n / 10) + (last + rest);
      ParseFormatNat(n / 10, last + rest);
      assert (last + rest)[1..] == rest;
    }
  }

  /** What FormatInt wrote, ParseInt reads. */
  lemma ParseFormatInt(v: I64)
    ensures ParseInt(FormatInt(v)) == v
  {
    var n: nat := if v < 0 then 0 - v else v;
    FormatNatIsDecimal(n);
    ParseFormatNat(n, []);
    assert FormatNat(n) + [] == FormatNat(n);
    if v < 0 {
      assert FormatInt(v)[1..] == FormatNat(n);
    }
  }

  lemma FormatIntIsCanonical(v: I64)
    ensures Canonical(FormatInt(v))
  {
    var n: nat := if v < 0 then 0 - v else v;
    FormatNatIsDecimal(n);
    if v < 0 {
      assert FormatInt(v)[1..] == FormatNat(n);
    }
  }

  lemma CanonicalIsFormatted(s: Bytes)
    requires Canonical(s)
    ensures exists v: I64 :: s == FormatInt(v)
  {
    if s != [] && s[0] == MINUS {
      FormatValue(s[1..]);
      assert s == FormatInt(0 - Value(s[1..]));
    } else {
      FormatValue(s);
      assert s == FormatInt(Value(s));
    }
  }

  /** A string survives being parsed and written exactly when it is canonical. */
  lemma CanonicalRoundTrip(s: Bytes)
    ensures FormatInt(ParseInt(s)) == s <==> Canonical(s)
  {
    FormatIntIsCanonical(ParseInt(s));
    if Canonical(s) {
      CanonicalIsFormatted(s);
      var v: I64 :| s == FormatInt(v);
      ParseFormatInt(v);
    }
  }

  // ---- url segments ---------------------------------------------------------------

  /** strings.TrimRight(s, "/") */
  function TrimSlashes(s: Bytes): Bytes {
    if s != [] && s[|s| - 1] == SLASH then TrimSlashes(s[..|s| - 1]) else s
  }

  /** The last of strings.Split(s, "/"). */
  function LastSegment(s: Bytes): Bytes {
    if s == [] || s[|s| - 1] == SLASH then [] else LastSegment(s[..|s| - 1]) + [s[|s| - 1]]
  }

  lemma {:induction false} LastSegmentHasNoSlash(s: Bytes)
    ensures SLASH !in LastSegment(s)
  {
    if s != [] && s[|s| - 1] != SLASH {
      LastSegmentHasNoSlash(s[..|s| - 1]);
    }
  }

  lemma {:induction false} LastSegmentAfterSlash(a: Bytes, s: Bytes)
    requires a != [] && a[|a| - 1] == SLASH && SLASH !in s
    ensures LastSegment(a + s) == s
  {
    if s == [] {
      assert a + s == a;
    } else {
      var t := s[..|s| - 1];
      assert (a + s)[..|a + s| - 1] == a + t;
      assert forall c :: c in t ==> c in s;
      LastSegmentAfterSlash(a, t);
    }
  }

  /** The segment read back from a prefix and an id is the id exactly when the id has no slash. */
  lemma SegmentRoundTrip(prefix: Bytes, id: Bytes)
    requires prefix != [] && prefix[|prefix| - 1] == SLASH && id != []
    ensures LastSegment(TrimSlashes(prefix + id)) == id <==> SLASH !in id
  {
    LastSegmentHasNoSlash(TrimSlashes(prefix + id));
    if SLASH !in id {
      assert (prefix + id)[|prefix + id| - 1] == id[|id| - 1];
      LastSegmentAfterSlash(prefix, id);
    }
  }
}
