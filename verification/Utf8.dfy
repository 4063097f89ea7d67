/** The strict UTF-8 decoder of the text measurer, against RFC 3629. */
module Utf8 {

  type Byte = b: int | 0 <= b < 0x100

  predicate IsScalar(v: int) {
    0 <= v <= 0xD7FF || 0xE000 <= v <= 0x10FFFF
  }

  /** A Unicode scalar value: a code point that is not a surrogate. */
  type Scalar = v: int | 0 <= v <= 0xD7FF || 0xE000 <= v <= 0x10FFFF

  // ----- RFC 3629, section 3: how a scalar value is encoded -----

  function EncodedLength(v: Scalar): nat {
    if v < 0x80 then 1 else if v < 0x800 then 2 else if v < 0x10000 then 3 else 4
  }

  function Encode(v: Scalar): (s: seq<Byte>)
    ensures |s| == EncodedLength(v)
  {
    if v < 0x80 then var b: Byte := v; [b]
    else if v < 0x800 then [0xC0 + v / 0x40, 0x80 + v % 0x40]
    else if v < 0x10000 then
      [0xE0 + v / 0x1000, 0x80 + v / 0x40 % 0x40, 0x80 + v % 0x40]
    else
      [0xF0 + v / 0x40000, 0x80 + v / 0x1000 % 0x40, 0x80 + v / 0x40 % 0x40, 0x80 + v % 0x40]
  }

  // ----- RFC 3629, section 4: the grammar of well-formed sequences -----

  predicate IsTail(b: Byte) {
    0x80 <= b <= 0xBF
  }

  /** The production UTF8-char. */
  predicate IsUtf8Char(s: seq<Byte>) {
    match |s|
    case 1 => s[0] <= 0x7F
    case 2 => 0xC2 <= s[0] <= 0xDF && IsTail(s[1])
    case 3 =>
      && IsTail(s[2])
      && (|| (s[0] == 0xE0 && 0xA0 <= s[1] <= 0xBF)
          || (0xE1 <= s[0] <= 0xEC && IsTail(s[1]))
          || (s[0] == 0xED && 0x80 <= s[1] <= 0x9F)
          || (0xEE <= s[0] <= 0xEF && IsTail(s[1])))
    case 4 =>
      && IsTail(s[2]) && IsTail(s[3])
      && (|| (s[0] == 0xF0 && 0x90 <= s[1] <= 0xBF)
          || (0xF1 <= s[0] <= 0xF3 && IsTail(s[1]))
          || (s[0] == 0xF4 && 0x80 <= s[1] <= 0x8F))
    case _ => false
  }

  /** Some well-formed character starts at `cursor`. */
  ghost predicate CharAt(text: seq<Byte>, cursor: nat) {
    exists n: nat :: StartsChar(text, cursor, n)
  }

  ghost predicate StartsChar(text: seq<Byte>, cursor: nat, n: nat) {
    1 <= n <= 4 && cursor + n <= |text| && IsUtf8Char(text[cursor..cursor + n])
  }

  lemma EncodingIsWellFormed(v: Scalar)
    ensures IsUtf8Char(Encode(v))
  {
    if 0x800 <= v < 0x10000 {
      assert v / 0x40 == v / 0x1000 * 0x40 + v / 0x40 % 0x40;
    } else if 0x10000 <= v {
      assert v / 0x1000 == v / 0x40000 * 0x40 + v / 0x1000 % 0x40;
      assert 0x10 <= v / 0x1000 < 0x110;
    }
  }

  /** The value the six low bits of each continuation byte add to. */
  function Assemble(lead: nat, tail: seq<Byte>): nat {
    if tail == [] then lead
    else Assemble(lead, tail[..|tail| - 1]) * 0x40 + tail[|tail| - 1] % 0x40
  }

  /** The lead byte's payload bits and the number of continuation bytes it announces. */
  function Lead(first: Byte): (int, nat) {
    if 0xC2 <= first <= 0xDF then (1, first % 0x20)
    else if 0xE0 <= first <= 0xEF then (2, first % 0x10)
    else if 0xF0 <= first <= 0xF4 then (3, first % 0x08)
    else (0, 0)
  }

  lemma AssembleUnfolds(lead: nat, tail: seq<Byte>)
    requires |tail| <= 3
    ensures |tail| == 1 ==> Assemble(lead, tail) == lead * 0x40 + tail[0] % 0x40
    ensures |tail| == 2 ==>
              Assemble(lead, tail) == (lead * 0x40 + tail[0] % 0x40) * 0x40 + tail[1] % 0x40
    ensures |tail| == 3 ==>
              Assemble(lead, tail)
              == ((lead * 0x40 + tail[0] % 0x40) * 0x40 + tail[1] % 0x40) * 0x40 + tail[2] % 0x40
  {
    if |tail| == 2 {
      assert tail[..1] == [tail[0]];
      assert [tail[0]][..0] == [];
    } else if |tail| == 3 {
      AssembleUnfolds(lead, tail[..2]);
    }
  }

  /** The range tests the decoder makes on an assembled value. */
  predicate Acceptable(count: nat, value: int) {
    && !(count == 2 && value < 0x800)
    && !(count == 3 && value < 0x10000)
    && !(0xD800 <= value <= 0xDFFF)
    && value <= 0x10FFFF
  }

  /** The decoder's tests accept exactly the grammar, and what they accept is an encoding. */
  lemma MultiByte(s: seq<Byte>, count: nat)
    requires 1 <= count <= 3 && |s| == count + 1
    requires Lead(s[0]).0 == count
    requires forall k :: 1 <= k < |s| ==> IsTail(s[k])
    ensures var value := Assemble(Lead(s[0]).1, s[1..]);
            && (IsUtf8Char(s) <==> Acceptable(count, value))
            && (Acceptable(count, value) ==> IsScalar(value) && Encode(value) == s)
  {
    var tail := s[1..];
    assert forall k :: 0 <= k < |tail| ==> tail[k] == s[k + 1] && IsTail(tail[k]);
    AssembleUnfolds(Lead(s[0]).1, tail);
    match count
    case 1 => MultiByte2(s[0], s[1]);
    case 2 => MultiByte3(s[0], s[1], s[2]);
    case 3 => MultiByte4(s[0], s[1], s[2], s[3]);
  }

  lemma TailBits(b: Byte)
    requires IsTail(b)
    ensures b % 0x40 == b - 0x80
  {
  }

  lemma MultiByte2(b0: Byte, b1: Byte)
    requires 0xC2 <= b0 <= 0xDF && IsTail(b1)
    ensures var v := b0 % 0x20 * 0x40 + b1 % 0x40;
            0x80 <= v < 0x800 && Encode(v) == [b0, b1]
  {
    TailBits(b1);
    TwoBytes(b0 - 0xC0, b1 - 0x80);
  }

  lemma MultiByte3(b0: Byte, b1: Byte, b2: Byte)
    requires 0xE0 <= b0 <= 0xEF && IsTail(b1) && IsTail(b2)
    ensures var v := (b0 % 0x10 * 0x40 + b1 % 0x40) * 0x40 + b2 % 0x40;
            && (IsUtf8Char([b0, b1, b2]) <==> Acceptable(2, v))
            && (Acceptable(2, v) ==> IsScalar(v) && Encode(v) == [b0, b1, b2])
  {
    TailBits(b1);
    TailBits(b2);
    ThreeBytes(b0 - 0xE0, b1 - 0x80, b2 - 0x80);
  }

  lemma MultiByte4(b0: Byte, b1: Byte, b2: Byte, b3: Byte)
    requires 0xF0 <= b0 <= 0xF4 && IsTail(b1) && IsTail(b2) && IsTail(b3)
    ensures var v := ((b0 % 0x08 * 0x40 + b1 % 0x40) * 0x40 + b2 % 0x40) * 0x40 + b3 % 0x40;
            && (IsUtf8Char([b0, b1, b2, b3]) <==> Acceptable(3, v))
            && (Acceptable(3, v) ==> IsScalar(v) && Encode(v) == [b0, b1, b2, b3])
  {
    TailBits(b1);
    TailBits(b2);
    TailBits(b3);
    FourBytes(b0 - 0xF0, b1 - 0x80, b2 - 0x80, b3 - 0x80);
  }

  lemma TwoBytes(a: nat, b: nat)
    requires 2 <= a < 0x20 && b < 0x40
    ensures var v := a * 0x40 + b;
            0x80 <= v < 0x800 && Encode(v) == [0xC0 + a, 0x80 + b]
  {
  }

  lemma Digits(a: nat, b: nat, c: nat)
    requires b < 0x40 && c < 0x40
    ensures var v := (a * 0x40 + b) * 0x40 + c;
            v / 0x40 == a * 0x40 + b && v / 0x1000 == a && v % 0x40 == c && v / 0x40 % 0x40 == b
  {
  }

  lemma ThreeBytes(a: nat, b: nat, c: nat)
    requires a < 0x10 && b < 0x40 && c < 0x40
    ensures var v := (a * 0x40 + b) * 0x40 + c;
            var s: seq<Byte> := [0xE0 + a, 0x80 + b, 0x80 + c];
            && (IsUtf8Char(s) <==> Acceptable(2, v))
            && (Acceptable(2, v) ==> IsScalar(v) && Encode(v) == s)
  {
    Digits(a, b, c);
  }

  /** Where a four-byte value lies is decided by its two leading digits. */
  lemma LeadingDigits(a: nat, b: nat, c: nat, d: nat)
    requires b < 0x40 && c < 0x40 && d < 0x40
    ensures var v := ((a * 0x40 + b) * 0x40 + c) * 0x40 + d;
            && (v < 0x10000 <==> a == 0 && b < 0x10)
            && (v > 0x10FFFF <==> a > 4 || (a == 4 && b >= 0x10))
            && v / 0x40000 == a && v / 0x1000 % 0x40 == b
  {
    var v := ((a * 0x40 + b) * 0x40 + c) * 0x40 + d;
    assert v / 0x1000 == a * 0x40 + b;
  }

  lemma FourBytes(a: nat, b: nat, c: nat, d: nat)
    requires a <= 4 && b < 0x40 && c < 0x40 && d < 0x40
    ensures var v := ((a * 0x40 + b) * 0x40 + c) * 0x40 + d;
            var s: seq<Byte> := [0xF0 + a, 0x80 + b, 0x80 + c, 0x80 + d];
            && (IsUtf8Char(s) <==> Acceptable(3, v))
            && (Acceptable(3, v) ==> IsScalar(v) && Encode(v) == s)
  {
    Digits(a * 0x40 + b, c, d);
    LeadingDigits(a, b, c, d);
  }

  /** No encoding is a proper prefix of another: a character's end is fixed by its start. */
  lemma OneCharPerPosition(text: seq<Byte>, cursor: nat, n: nat, m: nat)
    requires StartsChar(text, cursor, n) && StartsChar(text, cursor, m)
    ensures n == m
  {
    assert text[cursor..cursor + n][0] == text[cursor] == text[cursor..cursor + m][0];
  }

  lemma EncodeInjective(a: Scalar, b: Scalar)
    requires Encode(a) == Encode(b)
    ensures a == b
  {
    EncodingIsWellFormed(a);
    Reassemble(a);
    Reassemble(b);
  }

  /** The payload bits of an encoding add up to the value encoded. */
  function Payload(s: seq<int>): int {
    match |s|
    case 1 => s[0]
    case 2 => (s[0] - 0xC0) * 0x40 + (s[1] - 0x80)
    case 3 => (s[0] - 0xE0) * 0x1000 + (s[1] - 0x80) * 0x40 + (s[2] - 0x80)
    case 4 => (s[0] - 0xF0) * 0x40000 + (s[1] - 0x80) * 0x1000 + (s[2] - 0x80) * 0x40 + (s[3] - 0x80)
    case _ => 0
  }

  lemma Reassemble(v: Scalar)
    ensures Payload(Encode(v)) == v
  {
    assert v == v / 0x40 * 0x40 + v % 0x40;
    assert v / 0x40 == v / 0x1000 * 0x40 + v / 0x40 % 0x40;
    assert v / 0x1000 == v / 0x40000 * 0x40 + v / 0x1000 % 0x40;
  }

  lemma WellFormedLength(s: seq<Byte>)
    requires IsUtf8Char(s)
    ensures |s| == if s[0] <= 0x7F then 1 else Lead(s[0]).0 + 1
    ensures forall k :: 1 <= k < |s| ==> IsTail(s[k])
  {
  }

  /** Sections 3 and 4 agree: the grammar generates exactly the encodings of scalar values. */
  lemma SectionsAgree(s: seq<Byte>)
    ensures IsUtf8Char(s) <==> exists v: Scalar :: Encode(v) == s
  {
    if IsUtf8Char(s) {
      WellFormedLength(s);
      if |s| == 1 {
        var v: Scalar := s[0];
        assert Encode(v) == s;
      } else {
        MultiByte(s, |s| - 1);
      }
    } else if v: Scalar :| Encode(v) == s {
      EncodingIsWellFormed(v);
    }
  }

  /** A character that starts at `start` has the length its lead byte announces, all tails. */
  lemma AnnouncedLength(text: seq<Byte>, start: nat, count: nat)
    requires start < |text| && text[start] > 0x7F && Lead(text[start]).0 == count
    ensures CharAt(text, start) ==>
              && 1 <= count && start + count < |text|
              && StartsChar(text, start, count + 1)
              && forall k :: start < k <= start + count ==> IsTail(text[k])
  {
    if CharAt(text, start) {
      var n: nat :| StartsChar(text, start, n);
      var s := text[start..start + n];
      WellFormedLength(s);
      forall k | start < k <= start + count ensures IsTail(text[k]) {
        assert text[k] == s[k - start];
      }
    }
  }

  /** With the announced tail bytes in place, the range tests decide. */
  lemma RangeTestsDecide(text: seq<Byte>, start: nat, count: nat, value: int)
    requires start + count < |text| && 1 <= count <= 3 && Lead(text[start]).0 == count
    requires forall k :: start < k <= start + count ==> IsTail(text[k])
    requires value == Assemble(Lead(text[start]).1, text[start + 1..start + count + 1])
    ensures CharAt(text, start) <==> Acceptable(count, value)
    ensures Acceptable(count, value) ==>
              IsScalar(value) && text[start..start + count + 1] == Encode(value)
  {
    var s := text[start..start + count + 1];
    assert s[1..] == text[start + 1..start + count + 1];
    MultiByte(s, count);
    AnnouncedLength(text, start, count);
    assert IsUtf8Char(s) ==> StartsChar(text, start, count + 1);
  }

  /** Reads one character: succeeds exactly where the grammar has one, and then the bytes
      passed over are the encoding of the value returned. */
  method NextCodePoint(text: seq<Byte>, start: nat)
    returns (ok: bool, cursor: nat, codePoint: int)
    ensures ok <==> CharAt(text, start)
    ensures ok ==> start < cursor <= |text| && IsScalar(codePoint)
    ensures ok ==> text[start..cursor] == Encode(codePoint)
  {
    cursor, codePoint := start, 0;
    if cursor >= |text| {
      return false, cursor, codePoint;
    }
    var first := text[cursor];
    cursor := cursor + 1;
    if first <= 0x7F {
      assert StartsChar(text, start, 1);
      return true, cursor, first;
    }
    var continuationCount: nat, value: nat := 0, 0;
    if 0xC2 <= first <= 0xDF {
      continuationCount, value := 1, first % 0x20;
    } else if 0xE0 <= first <= 0xEF {
      continuationCount, value := 2, first % 0x10;
    } else if 0xF0 <= first <= 0xF4 {
      continuationCount, value := 3, first % 0x08;
    }
    AnnouncedLength(text, start, continuationCount);
    if continuationCount == 0 || cursor + continuationCount > |text| {
      return false, cursor, codePoint;
    }
    ok, cursor, value := Continue(text, cursor, continuationCount, value);
    if !ok {
      return false, cursor, codePoint;
    }
    RangeTestsDecide(text, start, continuationCount, value);
    if (continuationCount == 2 && value < 0x800) || (continuationCount == 3 && value < 0x10000)
       || (0xD800 <= value <= 0xDFFF) || value > 0x10FFFF {
      return false, cursor, codePoint;
    }
    return true, cursor, value;
  }

  /** The continuation loop: takes `count` tail bytes, six bits each. */
  method Continue(text: seq<Byte>, start: nat, count: nat, lead: nat)
    returns (ok: bool, cursor: nat, value: nat)
    requires start + count <= |text|
    ensures ok <==> forall k :: start <= k < start + count ==> IsTail(text[k])
    ensures ok ==> cursor == start + count && value == Assemble(lead, text[start..cursor])
  {
    cursor, value := start, lead;
    for index := 0 to count
      invariant cursor == start + index && value == Assemble(lead, text[start..cursor])
      invariant forall k :: start <= k < cursor ==> IsTail(text[k])
    {
      var next: int := text[cursor];
      cursor := cursor + 1;
      if !(0x80 <= next <= 0xBF) {
        return false, cursor, value;
      }
      value := value * 0x40 + next % 0x40;
      assert text[start..cursor][..index] == text[start..cursor - 1];
    }
    ok := true;
  }

  // ----- Whole texts -----

  function EncodeAll(cps: seq<Scalar>): seq<Byte> {
    if cps == [] then [] else EncodeAll(cps[..|cps| - 1]) + Encode(cps[|cps| - 1])
  }

  /** The byte offset of code point `i`. */
  function Offset(cps: seq<Scalar>, i: nat): nat
    requires i <= |cps|
  {
    if i == 0 then 0 else Offset(cps, i - 1) + EncodedLength(cps[i - 1])
  }

  lemma {:induction false} OffsetOfPrefix(cps: seq<Scalar>, n: nat, i: nat)
    requires i <= n <= |cps|
    ensures Offset(cps[..n], i) == Offset(cps, i)
  {
    if i > 0 {
      OffsetOfPrefix(cps, n, i - 1);
    }
  }

  lemma {:induction false} OffsetIncreasing(cps: seq<Scalar>, i: nat, j: nat)
    requires i <= j <= |cps|
    ensures Offset(cps, i) + (j - i) <= Offset(cps, j)
  {
    if i < j {
      OffsetIncreasing(cps, i, j - 1);
    }
  }

  lemma {:induction false} EncodeAllLength(cps: seq<Scalar>)
    ensures |EncodeAll(cps)| == Offset(cps, |cps|)
  {
    if cps != [] {
      var n := |cps| - 1;
      EncodeAllLength(cps[..n]);
      OffsetOfPrefix(cps, n, n);
    }
  }

  lemma SliceOfPrefix<T>(s: seq<T>, t: seq<T>, i: nat, j: nat)
    requires i <= j <= |s|
    ensures (s + t)[i..j] == s[i..j]
  {
  }

  /** The bytes between two neighbouring offsets are the encoding of the code point there. */
  lemma {:induction false} EncodeAllAt(cps: seq<Scalar>, i: nat)
    requires i < |cps|
    ensures Offset(cps, i + 1) <= |EncodeAll(cps)|
    ensures EncodeAll(cps)[Offset(cps, i)..Offset(cps, i + 1)] == Encode(cps[i])
  {
    var n := |cps| - 1;
    EncodeAllLength(cps[..n]);
    OffsetOfPrefix(cps, n, n);
    if i < n {
      EncodeAllAt(cps[..n], i);
      OffsetOfPrefix(cps, n, i);
      OffsetOfPrefix(cps, n, i + 1);
      SliceOfPrefix(EncodeAll(cps[..n]), Encode(cps[n]), Offset(cps, i), Offset(cps, i + 1));
    }
  }

  /** Decoding at a code-point boundary of an encoded text yields that code point. */
  lemma DecodesBack(cps: seq<Scalar>, i: nat, next: nat, v: Scalar)
    requires i < |cps|
    requires var text := EncodeAll(cps);
             Offset(cps, i) < next <= |text| && text[Offset(cps, i)..next] == Encode(v)
    ensures v == cps[i] && next == Offset(cps, i + 1)
  {
    var text, at := EncodeAll(cps), Offset(cps, i);
    EncodeAllAt(cps, i);
    EncodingIsWellFormed(v);
    EncodingIsWellFormed(cps[i]);
    assert StartsChar(text, at, |Encode(v)|);
    assert StartsChar(text, at, |Encode(cps[i])|);
    OneCharPerPosition(text, at, |Encode(v)|, |Encode(cps[i])|);
    EncodeInjective(v, cps[i]);
  }

  lemma BoundaryStartsChar(cps: seq<Scalar>, i: nat)
    requires i < |cps|
    ensures CharAt(EncodeAll(cps), Offset(cps, i))
  {
    EncodeAllAt(cps, i);
    EncodingIsWellFormed(cps[i]);
    assert StartsChar(EncodeAll(cps), Offset(cps, i), |Encode(cps[i])|);
  }

  /** Two decodable prefixes of one text agree as far as the first goes. */
  lemma {:induction false} SamePrefix(a: seq<Scalar>, b: seq<Scalar>, n: nat)
    requires EncodeAll(a) <= EncodeAll(b) && n <= |a|
    ensures n <= |b| && Offset(a, n) == Offset(b, n)
    ensures forall k :: 0 <= k < n ==> a[k] == b[k]
  {
    if n > 0 {
      SamePrefix(a, b, n - 1);
      SameNext(a, b, n - 1);
    }
  }

  lemma SameNext(a: seq<Scalar>, b: seq<Scalar>, n: nat)
    requires EncodeAll(a) <= EncodeAll(b)
    requires n < |a| && n <= |b| && Offset(a, n) == Offset(b, n)
    ensures n < |b| && a[n] == b[n] && Offset(a, n + 1) == Offset(b, n + 1)
  {
    EncodeAllLength(b);
    EncodeAllAt(a, n);
    OffsetIncreasing(a, n, n + 1);
    var at, next := Offset(a, n), Offset(a, n + 1);
    assert EncodeAll(b)[at..next] == EncodeAll(a)[at..next];
    DecodesBack(b, n, next, a[n]);
  }

  lemma PrefixOfText(a: seq<Scalar>, b: seq<Scalar>)
    requires EncodeAll(a) <= EncodeAll(b)
    ensures a <= b
  {
    SamePrefix(a, b, |a|);
  }

  /** A text is the encoding of at most one code-point sequence. */
  lemma EncodeAllInjective(a: seq<Scalar>, b: seq<Scalar>)
    requires EncodeAll(a) == EncodeAll(b)
    ensures a == b
  {
    PrefixOfText(a, b);
    PrefixOfText(b, a);
  }
}
