/**
  * Modified UTF-8 (section 4.4.7 of the Java Virtual Machine Specification) and UTF-16 (section 2.1 of RFC 2781, for
  * the surrogate pairs), as the converters read and write them: on bytes and 16-bit units, well formed or not.
  */
module UtfSpec {

  type Byte = bv8
  type Utf16 = bv16

  const UTF16_REPLACEMENT_CHAR: bv32 := 0xfffd
  const UNICODE_UPPER_LIMIT: bv32 := 0x10fffd

  // ----- encoding -----

  function EncodeUnit(u: Utf16): (bytes: seq<Byte>)
    ensures 1 <= |bytes| <= 3
  {
    if u > 0x07ff then [((u >> 12) | 0xe0) as Byte, (((u >> 6) & 0x3f) | 0x80) as Byte, ((u & 0x3f) | 0x80) as Byte]
    else if u > 0x7f || u == 0 then [((u >> 6) | 0xc0) as Byte, ((u & 0x3f) | 0x80) as Byte]
    else [u as Byte]
  }

  function Encode(us: seq<Utf16>): seq<Byte> {
    if us == [] then [] else EncodeUnit(us[0]) + Encode(us[1..])
  }

  // ----- decoding -----

  predicate Continues(b: Byte) {
    b & 0xc0 == 0x80
  }

  /** The shift-and-mask table for the number of bytes a lead byte announces, less one. */
  function SeqLengthLess1(b: Byte): bv32 {
    (0xe5000000 >> (((b as bv32) >> 3) & 0x1e)) & 3
  }

  function SeqLength(b: Byte): (n: nat)
    ensures 1 <= n <= 4
  {
    var less1 := SeqLengthLess1(b);
    if less1 == 0 then 1 else if less1 == 1 then 2 else if less1 == 2 then 3 else 4
  }

  /** What the trick computes: the count the leading bits announce; lead bytes 0xf8 and above count as four. */
  lemma SeqLengthByLeadingBits(b: Byte)
    ensures SeqLength(b) == if b < 0xc0 then 1 else if b < 0xe0 then 2 else if b < 0xf0 then 3 else 4
  {}

  function LeaderMask(n: nat): bv32
    requires 1 <= n <= 4
  {
    if n == 1 then 0xff else if n == 2 then 0x1f else if n == 3 then 0x0f else 0x07
  }

  /** A code point and the number of bytes it took. */
  datatype Decoded = Decoded(code: bv32, used: nat)

  /** One decoding step: the continuation byte's six bits go below what has been read. */
  function Join(code: bv32, b: Byte): bv32 {
    (code << 6) | (0x3f & b) as bv32
  }

  /** Reads the continuation bytes `i..n`; the string ends where the bytes do. */
  function DecodeTail(s: seq<Byte>, i: nat, n: nat, code: bv32): (d: Decoded)
    requires i <= n && i <= |s|
    ensures i <= d.used <= n && d.used <= |s|
    decreases n - i
  {
    if i == n then Decoded(code, i)
    else if i == |s| || !Continues(s[i]) then Decoded(UTF16_REPLACEMENT_CHAR, i)
    else DecodeTail(s, i + 1, n, Join(code, s[i]))
  }

  function DecodeOne(s: seq<Byte>): (d: Decoded)
    requires s != []
    ensures 1 <= d.used <= |s|
  {
    if Continues(s[0]) then Decoded(UTF16_REPLACEMENT_CHAR, 1)
    else DecodeTail(s, 1, SeqLength(s[0]), (s[0] as bv32) & LeaderMask(SeqLength(s[0])))
  }

  function Units(code: bv32): (us: seq<Utf16>)
    ensures 1 <= |us| <= 2 && (|us| == 2 <==> 0xffff < code <= UNICODE_UPPER_LIMIT)
  {
    if code <= 0xffff then [code as Utf16]
    else if code <= UNICODE_UPPER_LIMIT then
      [(0xd800 | ((code - 0x10000) >> 10)) as Utf16, (0xdc00 | ((code - 0x10000) & 0x3ff)) as Utf16]
    else [UTF16_REPLACEMENT_CHAR as Utf16]
  }

  function Decode(s: seq<Byte>): seq<Utf16> {
    if s == [] then []
    else
      var d := DecodeOne(s);
      Units(d.code) + Decode(s[d.used..])
  }

  // ----- the length the decoder's buffer is given -----

  /** Counts units; `expected` is how many continuation bytes the last lead byte still announces. */
  function LengthFrom(s: seq<Byte>, expected: int): nat {
    if s == [] then 0
    else if Continues(s[0]) then (if expected - 1 < 0 then 1 else 0) + LengthFrom(s[1..], expected - 1)
    else 1 + (if SeqLength(s[0]) == 4 then 1 else 0) + LengthFrom(s[1..], SeqLength(s[0]) - 1)
  }

  function Length8to16(s: seq<Byte>): nat {
    LengthFrom(s, 0)
  }

  /** How many four-byte leads do not begin a sequence that decodes to a surrogate pair. */
  function Unpaired(s: seq<Byte>): nat {
    if s == [] then 0
    else
      var d := DecodeOne(s);
      (if SeqLength(s[0]) == 4 && !(0xffff < d.code <= UNICODE_UPPER_LIMIT) then 1 else 0) + Unpaired(s[d.used..])
  }

  // ----- round trip -----

  lemma DecodesOneByte(s: seq<Byte>)
    requires s != [] && !Continues(s[0]) && SeqLength(s[0]) == 1
    ensures DecodeOne(s) == Decoded((s[0] as bv32) & 0xff, 1)
  {}

  lemma DecodesTwoBytes(s: seq<Byte>)
    requires |s| >= 2 && !Continues(s[0]) && SeqLength(s[0]) == 2 && Continues(s[1])
    ensures DecodeOne(s) == Decoded(Join((s[0] as bv32) & 0x1f, s[1]), 2)
  {
    var code := (s[0] as bv32) & 0x1f;
    assert DecodeOne(s) == DecodeTail(s, 1, 2, code) == DecodeTail(s, 2, 2, Join(code, s[1]));
  }

  lemma DecodesThreeBytes(s: seq<Byte>)
    requires |s| >= 3 && !Continues(s[0]) && SeqLength(s[0]) == 3 && Continues(s[1]) && Continues(s[2])
    ensures DecodeOne(s) == Decoded(Join(Join((s[0] as bv32) & 0x0f, s[1]), s[2]), 3)
  {
    var code := (s[0] as bv32) & 0x0f;
    assert DecodeOne(s) == DecodeTail(s, 1, 3, code);
    assert DecodeTail(s, 1, 3, code) == DecodeTail(s, 2, 3, Join(code, s[1]));
    assert DecodeTail(s, 2, 3, Join(code, s[1])) == DecodeTail(s, 3, 3, Join(Join(code, s[1]), s[2]));
  }

  lemma OneByte(u: Utf16)
    requires 0 < u <= 0x7f
    ensures var b := EncodeUnit(u);
      |b| == 1 && b[0] != 0 && !Continues(b[0]) && SeqLength(b[0]) == 1 && (b[0] as bv32) & 0xff == u as bv32
  {}

  lemma TwoBytes(u: Utf16)
    requires u <= 0x07ff && (u > 0x7f || u == 0)
    ensures var b := EncodeUnit(u);
      && |b| == 2 && b[0] != 0 && SeqLength(b[0]) == 2 && !Continues(b[0]) && Continues(b[1]) && b[1] != 0
      && Join((b[0] as bv32) & 0x1f, b[1]) == u as bv32
  {}

  lemma ThreeBytes(u: Utf16)
    requires u > 0x07ff
    ensures var b := EncodeUnit(u);
      && |b| == 3 && b[0] != 0 && SeqLength(b[0]) == 3 && !Continues(b[0])
      && Continues(b[1]) && Continues(b[2]) && b[1] != 0 && b[2] != 0
      && Join(Join((b[0] as bv32) & 0x0f, b[1]), b[2]) == u as bv32
  {}

  /** A lead byte that announces exactly the bytes written, and no NUL among them. */
  lemma EncodedUnitShape(u: Utf16)
    ensures SeqLength(EncodeUnit(u)[0]) == |EncodeUnit(u)| <= 3 && 0 !in EncodeUnit(u)
  {
    if u > 0x07ff {
      ThreeBytes(u);
    } else if u > 0x7f || u == 0 {
      TwoBytes(u);
    } else {
      OneByte(u);
    }
  }

  lemma ThreeDecode(u: Utf16, b: seq<Byte>, rest: seq<Byte>)
    requires u > 0x07ff && b == EncodeUnit(u)
    ensures DecodeOne(b + rest) == Decoded(u as bv32, 3)
  {
    ThreeBytes(u);
    var s := b + rest;
    assert s[0] == b[0] && s[1] == b[1] && s[2] == b[2];
    DecodesThreeBytes(s);
  }

  lemma TwoDecode(u: Utf16, b: seq<Byte>, rest: seq<Byte>)
    requires u <= 0x07ff && (u > 0x7f || u == 0) && b == EncodeUnit(u)
    ensures DecodeOne(b + rest) == Decoded(u as bv32, 2)
  {
    TwoBytes(u);
    var s := b + rest;
    assert s[0] == b[0] && s[1] == b[1];
    DecodesTwoBytes(s);
  }

  /** The bytes of one unit decode to its value whatever follows them. */
  lemma EncodedUnitDecodes(u: Utf16, rest: seq<Byte>)
    ensures DecodeOne(EncodeUnit(u) + rest) == Decoded(u as bv32, |EncodeUnit(u)|)
  {
    if u > 0x07ff {
      ThreeDecode(u, EncodeUnit(u), rest);
    } else if u > 0x7f || u == 0 {
      TwoDecode(u, EncodeUnit(u), rest);
    } else {
      OneByte(u);
      DecodesOneByte(EncodeUnit(u) + rest);
    }
  }

  lemma {:induction false} EncodedHasNoNul(us: seq<Utf16>)
    ensures 0 !in Encode(us)
  {
    if us != [] {
      EncodedHasNoNul(us[1..]);
      EncodedUnitShape(us[0]);
      NotInEither(EncodeUnit(us[0]), Encode(us[1..]));
    }
  }

  lemma NotInEither(a: seq<Byte>, b: seq<Byte>)
    requires 0 !in a && 0 !in b
    ensures 0 !in a + b
  {}

  lemma EncodedUnitInFront(u: Utf16, rest: seq<Byte>)
    ensures Decode(EncodeUnit(u) + rest) == [u] + Decode(rest)
    ensures Unpaired(EncodeUnit(u) + rest) == Unpaired(rest)
  {
    EncodedUnitDecodes(u, rest);
    EncodedUnitShape(u);
    UnitOfUnit(u);
    RoundTripStep(u, EncodeUnit(u), rest);
  }

  /**
    * Decoding inverts encoding on every sequence of 16-bit units, zeros and unpaired surrogates included, and the
    * decoder's length function counts the units exactly.
    */
  lemma {:induction false} RoundTrip(us: seq<Utf16>)
    ensures Decode(Encode(us)) == us && Unpaired(Encode(us)) == 0
  {
    if us != [] {
      EncodedUnitInFront(us[0], Encode(us[1..]));
      RoundTrip(us[1..]);
    }
  }

  lemma RoundTripStep(u: Utf16, bytes: seq<Byte>, rest: seq<Byte>)
    requires bytes != [] && DecodeOne(bytes + rest) == Decoded(u as bv32, |bytes|) && SeqLength(bytes[0]) <= 3
    requires Units(u as bv32) == [u]
    ensures Decode(bytes + rest) == [u] + Decode(rest) && Unpaired(bytes + rest) == Unpaired(rest)
  {
    assert (bytes + rest)[|bytes|..] == rest;
  }

  lemma UnitOfUnit(u: Utf16)
    ensures Units(u as bv32) == [u]
  {}

  /** The offset of a code point above 0xffff, from the two halves of its surrogate pair. */
  function PairOffset(high: Utf16, low: Utf16): bv32 {
    (((high as bv32) & 0x3ff) << 10) | ((low as bv32) & 0x3ff)
  }

  /** A surrogate pair stands for the code point it was made from (section 2.1 of RFC 2781). */
  lemma PairIsCodePoint(code: bv32)
    requires 0x10000 <= code <= UNICODE_UPPER_LIMIT
    ensures |Units(code)| == 2 && PairOffset(Units(code)[0], Units(code)[1]) == code - 0x10000
    ensures 0xd800 <= Units(code)[0] <= 0xdbff && 0xdc00 <= Units(code)[1] <= 0xdfff
  {
    OffsetFits(code);
    PairOfOffset(code - 0x10000);
    UnitsOfPair(code);
  }

  lemma UnitsOfPair(code: bv32)
    requires 0x10000 <= code <= UNICODE_UPPER_LIMIT
    ensures var offset := code - 0x10000;
      Units(code) == [(0xd800 | (offset >> 10)) as Utf16, (0xdc00 | (offset & 0x3ff)) as Utf16]
  {}

  lemma OffsetFits(code: bv32)
    requires 0x10000 <= code <= UNICODE_UPPER_LIMIT
    ensures code - 0x10000 <= 0xfffff
  {}

  lemma PairOfOffset(offset: bv32)
    requires offset <= 0xfffff
    ensures var high, low := (0xd800 | (offset >> 10)) as Utf16, (0xdc00 | (offset & 0x3ff)) as Utf16;
      0xd800 <= high <= 0xdbff && 0xdc00 <= low <= 0xdfff && PairOffset(high, low) == offset
  {}

  /** The four-byte form of a code point above 0xffff (modified UTF-8 writes the two units of its pair instead). */
  function EncodeCodePoint(code: bv32): (bytes: seq<Byte>)
    requires 0x10000 <= code <= UNICODE_UPPER_LIMIT
    ensures |bytes| == 4
  {
    [(0xf0 | (code >> 18)) as Byte, (0x80 | ((code >> 12) & 0x3f)) as Byte,
     (0x80 | ((code >> 6) & 0x3f)) as Byte, (0x80 | (code & 0x3f)) as Byte]
  }

  lemma FourBytes(code: bv32)
    requires 0x10000 <= code <= UNICODE_UPPER_LIMIT
    ensures var b := EncodeCodePoint(code);
      && !Continues(b[0]) && SeqLength(b[0]) == 4 && Continues(b[1]) && Continues(b[2]) && Continues(b[3])
      && Join(Join(Join((b[0] as bv32) & 0x07, b[1]), b[2]), b[3]) == code
  {}

  lemma DecodesFourBytes(s: seq<Byte>)
    requires |s| >= 4 && !Continues(s[0]) && SeqLength(s[0]) == 4
    requires Continues(s[1]) && Continues(s[2]) && Continues(s[3])
    ensures DecodeOne(s) == Decoded(Join(Join(Join((s[0] as bv32) & 0x07, s[1]), s[2]), s[3]), 4)
  {
    var code := (s[0] as bv32) & 0x07;
    var two := Join(code, s[1]);
    var three := Join(two, s[2]);
    assert DecodeOne(s) == DecodeTail(s, 1, 4, code);
    assert DecodeTail(s, 1, 4, code) == DecodeTail(s, 2, 4, two);
    assert DecodeTail(s, 2, 4, two) == DecodeTail(s, 3, 4, three);
    assert DecodeTail(s, 3, 4, three) == DecodeTail(s, 4, 4, Join(three, s[3]));
  }

  lemma CodePointDecodes(code: bv32, b: seq<Byte>, rest: seq<Byte>)
    requires 0x10000 <= code <= UNICODE_UPPER_LIMIT && b == EncodeCodePoint(code)
    ensures DecodeOne(b + rest) == Decoded(code, 4)
  {
    FourBytes(code);
    var s := b + rest;
    assert s[0] == b[0] && s[1] == b[1] && s[2] == b[2] && s[3] == b[3];
    DecodesFourBytes(s);
  }

  /** The four bytes of a code point decode to its surrogate pair, whatever follows, and need exactly two units. */
  lemma CodePointIsPair(code: bv32, rest: seq<Byte>)
    requires 0x10000 <= code <= UNICODE_UPPER_LIMIT
    ensures var s := EncodeCodePoint(code) + rest;
      && Decode(s) == Units(code) + Decode(rest) && Unpaired(s) == Unpaired(rest)
      && PairOffset(Units(code)[0], Units(code)[1]) == code - 0x10000
  {
    var b := EncodeCodePoint(code);
    CodePointDecodes(code, b, rest);
    PairIsCodePoint(code);
    assert (b + rest)[4..] == rest;
  }

  // ----- every byte string, in numbers -----

  /** How many bytes a lead byte announces. */
  function Announced(lead: Byte): nat {
    if lead < 0xc0 then 1 else if lead < 0xe0 then 2 else if lead < 0xf0 then 3 else 4
  }

  predicate IsTail(b: Byte) {
    0x80 <= b < 0xc0
  }

  lemma TailsContinue(b: Byte)
    ensures Continues(b) <==> IsTail(b)
  {}

  lemma LeadAnnounces(s: seq<Byte>)
    requires s != [] && !IsTail(s[0])
    ensures var n := Announced(s[0]);
      DecodeOne(s) == DecodeTail(s, 1, n, (s[0] as bv32) & LeaderMask(n))
  {
    TailsContinue(s[0]);
    SeqLengthByLeadingBits(s[0]);
  }

  lemma FirstUnits(s: seq<Byte>, d: Decoded, us: seq<Utf16>)
    requires s != [] && DecodeOne(s) == d && Units(d.code) == us
    ensures Decode(s) == us + Decode(s[d.used..])
  {}

  lemma ReplacementUnit()
    ensures Units(0xfffd) == [0xfffd]
  {}

  lemma {:induction false} TailBreaks(s: seq<Byte>, j: nat, i: nat, n: nat, code: bv32)
    requires j <= i < n && i <= |s| && (forall k :: j <= k < i ==> IsTail(s[k])) && (i == |s| || !IsTail(s[i]))
    ensures DecodeTail(s, j, n, code) == Decoded(0xfffd, i)
    decreases i - j
  {
    if j < i {
      TailsContinue(s[j]);
      TailBreaks(s, j + 1, i, n, Join(code, s[j]));
    } else if i < |s| {
      TailsContinue(s[i]);
    }
  }

  /**
    * A sequence that breaks off at its `i`-th byte, because the string ends or the byte there does not continue it,
    * gives one replacement character for the `i` bytes before, and decoding goes on at the byte where it broke off.
    */
  lemma BrokenSequence(s: seq<Byte>, i: nat)
    requires s != [] && !IsTail(s[0]) && 1 <= i < Announced(s[0]) && i <= |s|
    requires (forall k :: 1 <= k < i ==> IsTail(s[k])) && (i == |s| || !IsTail(s[i]))
    ensures DecodeOne(s) == Decoded(0xfffd, i) && Decode(s) == [0xfffd] + Decode(s[i..])
  {
    LeadAnnounces(s);
    TailBreaks(s, 1, i, Announced(s[0]), (s[0] as bv32) & LeaderMask(Announced(s[0])));
    ReplacementUnit();
    FirstUnits(s, Decoded(0xfffd, i), [0xfffd]);
  }

  /** A continuation byte where none is expected gives one replacement character for itself. */
  lemma StrayByte(s: seq<Byte>)
    requires s != [] && IsTail(s[0])
    ensures DecodeOne(s) == Decoded(0xfffd, 1) && Decode(s) == [0xfffd] + Decode(s[1..])
  {
    TailsContinue(s[0]);
    ReplacementUnit();
    FirstUnits(s, Decoded(0xfffd, 1), [0xfffd]);
  }

  predicate IsComplete(s: seq<Byte>) {
    && s != [] && !IsTail(s[0]) && Announced(s[0]) <= |s|
    && forall k :: 1 <= k < Announced(s[0]) ==> IsTail(s[k])
  }

  /** The low bits of the lead byte and the low six bits of each continuation byte, put together. */
  function CodeOf(s: seq<Byte>): bv32
    requires IsComplete(s)
  {
    var n, a := Announced(s[0]), s[0] as bv32;
    if n == 1 then a
    else if n == 2 then (a % 0x20) * 0x40 + Six(s[1])
    else if n == 3 then (a % 0x10) * 0x1000 + Six(s[1]) * 0x40 + Six(s[2])
    else (a % 0x08) * 0x40000 + Six(s[1]) * 0x1000 + Six(s[2]) * 0x40 + Six(s[3])
  }

  function Six(b: Byte): bv32 {
    (b % 0x40) as bv32
  }

  lemma OneInNumbers(a: Byte)
    ensures (a as bv32) & 0xff == a as bv32
  {}

  lemma TwoInNumbers(a: Byte, b: Byte)
    ensures Join((a as bv32) & 0x1f, b) == (a as bv32) % 0x20 * 0x40 + Six(b)
  {}

  lemma ThreeInNumbers(a: Byte, b: Byte, c: Byte)
    ensures Join(Join((a as bv32) & 0x0f, b), c) == (a as bv32) % 0x10 * 0x1000 + Six(b) * 0x40 + Six(c)
  {}

  lemma FourInNumbers(a: Byte, b: Byte, c: Byte, d: Byte)
    ensures Join(Join(Join((a as bv32) & 0x07, b), c), d)
      == (a as bv32) % 0x08 * 0x40000 + Six(b) * 0x1000 + Six(c) * 0x40 + Six(d)
  {}

  /** The units of a code: itself, its surrogate pair, or the replacement character above the limit. */
  function UnitsInNumbers(code: bv32): seq<Utf16> {
    if code <= 0xffff then [code as Utf16]
    else if code <= 0x10fffd then
      [(0xd800 + (code - 0x10000) / 0x400) as Utf16, (0xdc00 + (code - 0x10000) % 0x400) as Utf16]
    else [0xfffd]
  }

  lemma UnitsAreNumbers(code: bv32)
    ensures Units(code) == UnitsInNumbers(code)
  {}

  /** A complete sequence, overlong or not, gives the code its bits make up, and uses the bytes it announces. */
  lemma CompleteSequence(s: seq<Byte>)
    requires IsComplete(s)
    ensures var n := Announced(s[0]);
      DecodeOne(s) == Decoded(CodeOf(s), n) && Decode(s) == UnitsInNumbers(CodeOf(s)) + Decode(s[n..])
  {
    CompleteCode(s);
    UnitsAreNumbers(CodeOf(s));
    FirstUnits(s, Decoded(CodeOf(s), Announced(s[0])), UnitsInNumbers(CodeOf(s)));
  }

  lemma CompleteLead(s: seq<Byte>)
    requires IsComplete(s)
    ensures !Continues(s[0]) && SeqLength(s[0]) == Announced(s[0])
    ensures forall k :: 1 <= k < Announced(s[0]) ==> Continues(s[k])
  {
    TailsContinue(s[0]);
    SeqLengthByLeadingBits(s[0]);
    forall k | 1 <= k < Announced(s[0]) ensures Continues(s[k]) {
      TailsContinue(s[k]);
    }
  }

  lemma CompleteFour(s: seq<Byte>)
    requires IsComplete(s) && Announced(s[0]) == 4
    ensures DecodeOne(s) == Decoded(CodeOf(s), 4)
  {
    CompleteLead(s);
    DecodesFourBytes(s);
    FourInNumbers(s[0], s[1], s[2], s[3]);
  }

  lemma CompleteThree(s: seq<Byte>)
    requires IsComplete(s) && Announced(s[0]) == 3
    ensures DecodeOne(s) == Decoded(CodeOf(s), 3)
  {
    CompleteLead(s);
    DecodesThreeBytes(s);
    ThreeInNumbers(s[0], s[1], s[2]);
  }

  lemma CompleteTwo(s: seq<Byte>)
    requires IsComplete(s) && Announced(s[0]) == 2
    ensures DecodeOne(s) == Decoded(CodeOf(s), 2)
  {
    CompleteLead(s);
    DecodesTwoBytes(s);
    TwoInNumbers(s[0], s[1]);
  }

  lemma CompleteCode(s: seq<Byte>)
    requires IsComplete(s)
    ensures DecodeOne(s) == Decoded(CodeOf(s), Announced(s[0]))
  {
    if Announced(s[0]) == 1 {
      CompleteLead(s);
      DecodesOneByte(s);
      OneInNumbers(s[0]);
    } else if Announced(s[0]) == 2 {
      CompleteTwo(s);
    } else if Announced(s[0]) == 3 {
      CompleteThree(s);
    } else {
      CompleteFour(s);
    }
  }

  /** Every byte string begins in one of these three ways. */
  lemma BeginsSomehow(s: seq<Byte>) returns (i: nat)
    requires s != []
    ensures IsTail(s[0]) || IsComplete(s)
      || (&& 1 <= i < Announced(s[0]) && i <= |s|
          && (forall k :: 1 <= k < i ==> IsTail(s[k])) && (i == |s| || !IsTail(s[i])))
  {
    i := 1;
    while i < Announced(s[0]) && i < |s| && IsTail(s[i])
      invariant 1 <= i <= Announced(s[0]) && i <= |s| && forall k :: 1 <= k < i ==> IsTail(s[k])
    {
      i := i + 1;
    }
  }

  /** The bytes of a unit in numbers: modified UTF-8 writes zero in two bytes and a surrogate like any other unit. */
  function EncodedInNumbers(u: Utf16): seq<Byte> {
    if 1 <= u < 0x80 then [u as Byte]
    else if u < 0x800 then [0xc0 + (u / 0x40) as Byte, 0x80 + (u % 0x40) as Byte]
    else [0xe0 + (u / 0x1000) as Byte, 0x80 + (u / 0x40 % 0x40) as Byte, 0x80 + (u % 0x40) as Byte]
  }

  lemma EncodingIsModifiedUtf8(u: Utf16)
    ensures EncodeUnit(u) == EncodedInNumbers(u)
  {}

  // ----- the decoder's buffer -----

  /** A fresh start: either no continuation byte comes next or none is expected. */
  predicate AtBoundary(s: seq<Byte>, expected: int) {
    s == [] || !Continues(s[0]) || expected <= 0
  }

  lemma {:induction false} BoundaryForgets(s: seq<Byte>, expected: int)
    requires AtBoundary(s, expected)
    ensures LengthFrom(s, expected) == Length8to16(s)
  {
    if s != [] && Continues(s[0]) {
      BoundaryForgets(s[1..], expected - 1);
      BoundaryForgets(s[1..], -1);
    }
  }

  /** The continuation bytes a sequence takes are not counted, and after them counting starts afresh. */
  lemma {:induction false} TailUncounted(s: seq<Byte>, i: nat, n: nat, code: bv32)
    requires 1 <= i <= n && i <= |s|
    ensures var d := DecodeTail(s, i, n, code);
      LengthFrom(s[i..], n - i) == Length8to16(s[d.used..])
    decreases n - i
  {
    if i == n || i == |s| || !Continues(s[i]) {
      BoundaryForgets(s[i..], n - i);
    } else {
      TailUncounted(s, i + 1, n, Join(code, s[i]));
      assert s[i..][1..] == s[i + 1..];
    }
  }

  lemma LengthOfOne(s: seq<Byte>)
    requires s != []
    ensures Length8to16(s)
      == 1 + (if !Continues(s[0]) && SeqLength(s[0]) == 4 then 1 else 0) + Length8to16(s[DecodeOne(s).used..])
  {
    if Continues(s[0]) {
      BoundaryForgets(s[1..], -1);
    } else {
      TailUncounted(s, 1, SeqLength(s[0]), (s[0] as bv32) & LeaderMask(SeqLength(s[0])));
    }
  }

  /** Only a four-byte sequence is long enough for a code point above 0xffff. */
  lemma ShortSequencesAreUnits(s: seq<Byte>)
    requires s != [] && (Continues(s[0]) || SeqLength(s[0]) < 4)
    ensures DecodeOne(s).code <= 0xffff
  {
    if !Continues(s[0]) {
      var n := SeqLength(s[0]);
      var code := (s[0] as bv32) & LeaderMask(n);
      if n >= 2 && |s| >= 2 && Continues(s[1]) {
        assert DecodeTail(s, 1, n, code) == DecodeTail(s, 2, n, Join(code, s[1]));
        if n == 3 && |s| >= 3 && Continues(s[2]) {
          DecodesThreeBytes(s);
          JoinedThree(s[0], s[1], s[2]);
        } else if n == 2 {
          DecodesTwoBytes(s);
          JoinedTwo(s[0], s[1]);
        }
      }
    }
  }

  lemma JoinedTwo(a: Byte, b: Byte)
    ensures Join((a as bv32) & 0x1f, b) <= 0xffff
  {}

  lemma JoinedThree(a: Byte, b: Byte, c: Byte)
    ensures Join(Join((a as bv32) & 0x0f, b), c) <= 0xffff
  {}

  lemma ContinuationIsNoLead(b: Byte)
    ensures Continues(b) ==> SeqLength(b) == 1
  {}

  /**
    * For every byte string, well formed or not, the buffer length is what the decoder writes plus one unit for each
    * four-byte lead that does not begin a sequence for a surrogate pair: never too small, and exact iff there is none.
    */
  lemma {:induction false} BufferIsLargeEnough(s: seq<Byte>)
    ensures Length8to16(s) == |Decode(s)| + Unpaired(s)
    decreases |s|
  {
    if s != [] {
      var d := DecodeOne(s);
      LengthOfOne(s);
      ContinuationIsNoLead(s[0]);
      if SeqLength(s[0]) < 4 {
        ShortSequencesAreUnits(s);
      }
      BufferIsLargeEnough(s[d.used..]);
    }
  }

  // ----- the encoder's length -----

  function UnitLength(u: Utf16): (n: nat)
    ensures 1 <= n <= 3
  {
    if u > 0x07ff then 3 else if u > 0x7f || u == 0 then 2 else 1
  }

  lemma UnitLengthIsLength(u: Utf16)
    ensures UnitLength(u) == |EncodeUnit(u)|
  {}

  function EncodedLength(us: seq<Utf16>): nat {
    if us == [] then 0 else UnitLength(us[0]) + EncodedLength(us[1..])
  }

  lemma {:induction false} EncodedLengthIsLength(us: seq<Utf16>)
    ensures EncodedLength(us) == |Encode(us)| <= 3 * |us|
  {
    if us != [] {
      UnitLengthIsLength(us[0]);
      EncodedLengthIsLength(us[1..]);
    }
  }
}
