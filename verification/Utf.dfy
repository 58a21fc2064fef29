/**
  * The converters as they run: pointers that advance over the input and write into buffers.  A C string is memory that
  * holds a NUL somewhere; the string is what comes before the first one.
  */
module Utf {
  import opened Wrappers
  import opened UtfSpec

  /** The C string that begins at the start of `mem`. */
  function CString(mem: seq<Byte>): (s: seq<Byte>)
    ensures s <= mem
    ensures 0 in mem ==> |s| < |mem| && mem[|s|] == 0
    ensures 0 !in s
  {
    if mem == [] || mem[0] == 0 then [] else [mem[0]] + CString(mem[1..])
  }

  method Strlen8to16(mem: seq<Byte>) returns (len: nat)
    requires 0 in mem
    ensures len == Length8to16(CString(mem))
  {
    len := 0;
    var expected: int := 0;
    var p := 0;
    while mem[p] != 0
      invariant p < |mem| && 0 in mem[p..]
      invariant len + LengthFrom(CString(mem[p..]), expected) == Length8to16(CString(mem))
      decreases |mem| - p
    {
      var ic := mem[p];
      ghost var s := CString(mem[p..]);
      p := p + 1;
      assert s[0] == ic && s[1..] == CString(mem[p..]) && 0 in mem[p..] by {
        assert mem[p - 1..][1..] == mem[p..];
      }
      if ic & 0xc0 == 0x80 {
        // extension bytes count only if there are more of them than expected
        expected := expected - 1;
        if expected < 0 {
          len := len + 1;
        }
      } else {
        len := len + 1;
        expected := SeqLength(ic) - 1;
        if expected == 3 {
          // this will give a surrogate pair
          len := len + 1;
        }
      }
    }
    assert CString(mem[p..]) == [];
  }

  /** Moving past bytes of the string moves past bytes of its value. */
  lemma {:induction false} CStringFrom(mem: seq<Byte>, n: nat)
    requires n <= |CString(mem)|
    ensures CString(mem[n..]) == CString(mem)[n..]
    ensures 0 in mem ==> 0 in mem[n..]
  {
    if n > 0 {
      CStringFrom(mem[1..], n - 1);
      assert mem[1..][n - 1..] == mem[n..];
      DropFirst(mem[0], CString(mem[1..]), n);
    }
  }

  lemma DropFirst(b: Byte, s: seq<Byte>, n: nat)
    requires 0 < n <= |s| + 1
    ensures ([b] + s)[n..] == s[n - 1..]
  {}

  /** The loop over the continuation bytes; it stops at the first byte that does not continue, NUL included. */
  method ReadTail(mem: seq<Byte>, start: nat, seqLen: nat, code: bv32) returns (ret: bv32, p: nat)
    requires start < |mem| && 0 in mem[start..] && mem[start] != 0 && seqLen >= 1
    ensures start < p <= |mem| && Decoded(ret, p - start) == DecodeTail(CString(mem[start..]), 1, seqLen, code)
  {
    ghost var s := CString(mem[start..]);
    ret := code;
    p := start + 1;
    var i := 1;
    while i < seqLen
      invariant 1 <= i <= seqLen && p == start + i && i <= |s|
      invariant DecodeTail(s, 1, seqLen, code) == DecodeTail(s, i, seqLen, ret)
    {
      SameBytes(mem, start, i);
      if mem[p] == 0 || !Continues(mem[p]) {
        return UTF16_REPLACEMENT_CHAR, p;
      }
      ret := Join(ret, mem[p]);
      i := i + 1;
      p := p + 1;
    }
  }

  /** Reads one code point and returns the position after it; at the end of the string it stays there. */
  method GetUtf32FromUtf8(mem: seq<Byte>, start: nat) returns (ret: bv32, p: nat)
    requires start < |mem| && 0 in mem[start..]
    ensures mem[start] == 0 ==> ret == 0 && p == start
    ensures mem[start] != 0 ==> start < p <= |mem| && Decoded(ret, p - start) == DecodeOne(CString(mem[start..]))
  {
    var lead := mem[start];
    if Continues(lead) {
      StrayDecodes(mem, start);
      return UTF16_REPLACEMENT_CHAR, start + 1;
    }
    var seqLen := SeqLength(lead);
    var code := (lead as bv32) & LeaderMask(seqLen);
    if lead == 0 {
      NulDecodesToZero();
      return code, start;
    }
    LeadDecodes(mem, start);
    ret, p := ReadTail(mem, start, seqLen, code);
  }

  lemma StrayDecodes(mem: seq<Byte>, start: nat)
    requires start < |mem| && Continues(mem[start])
    ensures mem[start] != 0 && DecodeOne(CString(mem[start..])) == Decoded(UTF16_REPLACEMENT_CHAR, 1)
  {
    NulDoesNotContinue();
  }

  lemma NulDoesNotContinue()
    ensures !Continues(0)
  {}

  lemma LeadDecodes(mem: seq<Byte>, start: nat)
    requires start < |mem| && mem[start] != 0 && !Continues(mem[start])
    ensures var s, n := CString(mem[start..]), SeqLength(mem[start]);
      s != [] && DecodeOne(s) == DecodeTail(s, 1, n, (mem[start] as bv32) & LeaderMask(n))
  {}

  lemma NulDecodesToZero()
    ensures (0 as Byte as bv32) & LeaderMask(SeqLength(0)) == 0
  {}

  lemma SameBytes(mem: seq<Byte>, start: nat, i: nat)
    requires start <= |mem| && 0 in mem[start..] && i <= |CString(mem[start..])|
    ensures var s := CString(mem[start..]);
      start + i < |mem| && if i < |s| then s[i] == mem[start + i] && s[i] != 0 else mem[start + i] == 0
  {
    var s := CString(mem[start..]);
    if i < |s| {
      assert s[i] in s;
    }
  }

  /** Writes one code point: a unit, a surrogate pair, or the replacement character. */
  method StoreUnits(dest: array<Utf16>, q: nat, ret: bv32) returns (next: nat)
    requires q + |Units(ret)| <= dest.Length
    modifies dest
    ensures next == q + |Units(ret)| && dest[..next] == old(dest[..q]) + Units(ret)
    ensures dest[next..] == old(dest[next..])
  {
    ghost var us := Units(ret);
    next := q;
    if ret <= 0xffff {
      dest[next] := ret as Utf16;
      next := next + 1;
    } else if ret <= UNICODE_UPPER_LIMIT {
      dest[next] := (0xd800 | ((ret - 0x10000) >> 10)) as Utf16;
      next := next + 1;
      dest[next] := (0xdc00 | ((ret - 0x10000) & 0x3ff)) as Utf16;
      next := next + 1;
    } else {
      dest[next] := UTF16_REPLACEMENT_CHAR as Utf16;
      next := next + 1;
    }
  }

  /** What is left to decode after one code point. */
  lemma DecodeFrom(mem: seq<Byte>, p: nat, next: nat, ret: bv32)
    requires p < next <= |mem| && 0 in mem[p..] && mem[p] != 0
    requires Decoded(ret, next - p) == DecodeOne(CString(mem[p..]))
    ensures Decode(CString(mem[p..])) == Units(ret) + Decode(CString(mem[next..])) && 0 in mem[next..]
  {
    var s := CString(mem[p..]);
    CStringFrom(mem[p..], next - p);
    assert mem[p..][next - p..] == mem[next..];
    DecodeUnfolds(s, Decoded(ret, next - p));
  }

  lemma DecodeUnfolds(s: seq<Byte>, d: Decoded)
    requires s != [] && d == DecodeOne(s)
    ensures Decode(s) == Units(d.code) + Decode(s[d.used..])
  {}

  /** Decodes the code point at `p` and appends its units to what has been written. */
  method CopyOne(dest: array<Utf16>, q: nat, mem: seq<Byte>, p: nat) returns (q': nat, next: nat)
    requires p < |mem| && 0 in mem[p..] && mem[p] != 0
    requires q + |Decode(CString(mem[p..]))| <= dest.Length
    modifies dest
    ensures p < next < |mem| && 0 in mem[next..] && q <= q' <= dest.Length
    ensures dest[..q'] + Decode(CString(mem[next..])) == old(dest[..q]) + Decode(CString(mem[p..]))
    ensures dest[q'..] == old(dest[q'..])
  {
    var ret;
    ret, next := GetUtf32FromUtf8(mem, p);
    DecodeFrom(mem, p, next, ret);
    q' := StoreUnits(dest, q, ret);
    Regroup(old(dest[..q]), Units(ret), Decode(CString(mem[next..])));
  }

  lemma Regroup(a: seq<Utf16>, b: seq<Utf16>, c: seq<Utf16>)
    ensures a + (b + c) == a + b + c
  {}

  /** A buffer of exactly the length the length function gives is never overrun, whatever the bytes are. */
  method Strcpy8to16(dest: array<Utf16>, mem: seq<Byte>) returns (outLen: nat)
    requires 0 in mem && Length8to16(CString(mem)) <= dest.Length
    modifies dest
    ensures outLen <= dest.Length && dest[..outLen] == Decode(CString(mem))
    ensures dest[outLen..] == old(dest[outLen..])
  {
    BufferIsLargeEnough(CString(mem));
    var p := 0;
    outLen := 0;
    assert mem[0..] == mem;
    while mem[p] != 0
      invariant p < |mem| && 0 in mem[p..] && outLen <= dest.Length
      invariant dest[..outLen] + Decode(CString(mem[p..])) == Decode(CString(mem))
      invariant dest[outLen..] == old(dest[outLen..])
      decreases |mem| - p
    {
      assert |dest[..outLen] + Decode(CString(mem[p..]))| <= dest.Length;
      ghost var before := dest[..];
      ghost var q := outLen;
      outLen, p := CopyOne(dest, outLen, mem, p);
      assert before[q..][outLen - q..] == before[outLen..];
    }
    assert CString(mem[p..]) == [];
  }

  /** A new buffer with the decoded string, or NULL if there is no string or its buffer would be too big to ask for. */
  method Strdup8to16(source: Option<seq<Byte>>, sizeMax: nat) returns (ret: array?<Utf16>, outLen: nat)
    requires source != None ==> 0 in source.value
    ensures ret == null <==> source == None || 2 * Length8to16(CString(source.value)) > sizeMax
    ensures ret != null ==> fresh(ret) && ret.Length == Length8to16(CString(source.value)) && outLen <= ret.Length
    ensures ret != null ==> ret[..outLen] == Decode(CString(source.value))
  {
    ret, outLen := null, 0;
    if source == None {
      return;
    }
    var len := Strlen8to16(source.value);
    if len != 0 {
      HalfFits(sizeMax, len);
      if sizeMax / len < 2 {
        return;
      }
    }
    ret := new Utf16[len];
    outLen := Strcpy8to16(ret, source.value);
  }

  lemma HalfFits(sizeMax: nat, len: nat)
    requires len > 0
    ensures sizeMax / len < 2 <==> 2 * len > sizeMax
  {
    var q, r := sizeMax / len, sizeMax % len;
    assert sizeMax == q * len + r;
    if q >= 2 {
      assert q * len >= 2 * len;
    } else {
      assert q * len <= len;
    }
  }

  // ----- the encoder -----

  function Min(a: int, b: int): int {
    if a < b then a else b
  }

  /** The usual case: three bytes a unit cannot overflow. */
  method LengthFast(us: seq<Utf16>) returns (utf8Len: nat)
    ensures utf8Len == EncodedLength(us)
  {
    utf8Len := 0;
    var i := 0;
    while i < |us|
      invariant i <= |us| && utf8Len + EncodedLength(us[i..]) == EncodedLength(us)
    {
      assert us[i..][1..] == us[i + 1..];
      if us[i] > 0x07ff {
        utf8Len := utf8Len + 3;
      } else if us[i] > 0x7f || us[i] == 0 {
        utf8Len := utf8Len + 2;
      } else {
        utf8Len := utf8Len + 1;
      }
      i := i + 1;
    }
  }

  /** Unsigned addition of sizes, whose greatest is `sizeMax`. */
  function WrappingAdd(a: nat, b: nat, sizeMax: nat): nat
    requires a <= sizeMax && b <= sizeMax
  {
    if a + b <= sizeMax then a + b else a + b - (sizeMax + 1)
  }

  /** The same with every addition wrapping at `sizeMax` and checked. */
  method LengthChecked(us: seq<Utf16>, sizeMax: nat) returns (utf8Len: nat)
    requires sizeMax >= 3
    ensures utf8Len == Min(EncodedLength(us), sizeMax - 1)
  {
    utf8Len := 0;
    var i := 0;
    while i < |us|
      invariant i <= |us| && utf8Len + EncodedLength(us[i..]) == EncodedLength(us) && utf8Len <= sizeMax
    {
      assert us[i..][1..] == us[i + 1..];
      var utf8Cur := utf8Len;
      var added := if us[i] > 0x07ff then 3 else if us[i] > 0x7f || us[i] == 0 then 2 else 1;
      utf8Len := WrappingAdd(utf8Len, added, sizeMax);
      if utf8Len < utf8Cur {
        return sizeMax - 1;
      }
      i := i + 1;
    }
    if utf8Len == sizeMax {
      utf8Len := sizeMax - 1;
    }
  }

  /** The exact length, cut off one below the greatest size, on either path. */
  method Strnlen16to8(us: seq<Utf16>, sizeMax: nat) returns (utf8Len: nat)
    requires sizeMax >= 3
    ensures utf8Len == Min(|Encode(us)|, sizeMax - 1)
  {
    EncodedLengthIsLength(us);
    if |us| < (sizeMax - 1) / 3 {
      utf8Len := LengthFast(us);
    } else {
      utf8Len := LengthChecked(us, sizeMax);
    }
  }

  /** Writes the bytes of one unit. */
  method StoreBytes(dest: array<Byte>, cur: nat, u: Utf16) returns (next: nat)
    requires cur + UnitLength(u) <= dest.Length
    modifies dest
    ensures next == cur + UnitLength(u) && dest[..next] == old(dest[..cur]) + EncodeUnit(u)
    ensures dest[next..] == old(dest[next..])
  {
    next := cur;
    if u > 0x07ff {
      dest[next] := ((u >> 12) | 0xe0) as Byte;
      next := next + 1;
      dest[next] := (((u >> 6) & 0x3f) | 0x80) as Byte;
      next := next + 1;
      dest[next] := ((u & 0x3f) | 0x80) as Byte;
      next := next + 1;
    } else if u > 0x7f || u == 0 {
      dest[next] := ((u >> 6) | 0xc0) as Byte;
      next := next + 1;
      dest[next] := ((u & 0x3f) | 0x80) as Byte;
      next := next + 1;
    } else {
      dest[next] := u as Byte;
      next := next + 1;
    }
  }

  method Strncpy16to8(dest: array<Byte>, us: seq<Utf16>)
    requires |Encode(us)| + 1 <= dest.Length
    modifies dest
    ensures var n := |Encode(us)|;
      dest[..n] == Encode(us) && dest[n] == 0 && dest[n + 1..] == old(dest[n + 1..])
  {
    var cur, i := 0, 0;
    assert us[0..] == us;
    while i < |us|
      invariant i <= |us| && cur <= dest.Length
      invariant dest[..cur] + Encode(us[i..]) == Encode(us)
      invariant dest[cur..] == old(dest[cur..])
    {
      EncodeFrom(us, i);
      assert |dest[..cur] + Encode(us[i..])| < dest.Length;
      RegroupBytes(dest[..cur], EncodeUnit(us[i]), Encode(us[i + 1..]));
      ghost var before, old_cur := dest[..], cur;
      cur := StoreBytes(dest, cur, us[i]);
      assert before[old_cur..][cur - old_cur..] == before[cur..];
      i := i + 1;
    }
    assert us[i..] == [] && |dest[..cur]| == |Encode(us)|;
    dest[cur] := 0;
  }

  lemma EncodeFrom(us: seq<Utf16>, i: nat)
    requires i < |us|
    ensures Encode(us[i..]) == EncodeUnit(us[i]) + Encode(us[i + 1..]) && UnitLength(us[i]) == |EncodeUnit(us[i])|
  {
    assert us[i..][1..] == us[i + 1..];
  }

  lemma RegroupBytes(a: seq<Byte>, b: seq<Byte>, c: seq<Byte>)
    ensures a + (b + c) == a + b + c
  {}

  /** A new C string of exactly the needed size, or NULL if there is no input or its length was cut off. */
  method Strndup16to8(source: Option<seq<Utf16>>, sizeMax: nat) returns (ret: array?<Byte>)
    requires sizeMax >= 3
    ensures ret == null <==> source == None || |Encode(source.value)| >= sizeMax - 1
    ensures ret != null ==> fresh(ret) && ret[..] == Encode(source.value) + [0]
  {
    ret := null;
    if source == None {
      return;
    }
    var len := Strnlen16to8(source.value, sizeMax);
    if len >= sizeMax - 1 {
      return;
    }
    ret := new Byte[len + 1];
    Strncpy16to8(ret, source.value);
    assert ret[..] == ret[..len] + [ret[len]];
  }

  // ----- there and back -----

  lemma {:induction false} CStringStopsAtNul(s: seq<Byte>, more: seq<Byte>)
    requires 0 !in s
    ensures CString(s + [0] + more) == s
  {
    if s != [] {
      CStringStopsAtNul(s[1..], more);
      assert (s + [0] + more)[1..] == s[1..] + [0] + more;
    }
  }

  /**
    * What the encoder writes is a C string, whatever lies behind it in memory, which decodes to the units that were
    * encoded into a buffer of exactly their number.
    */
  lemma ThereAndBack(us: seq<Utf16>, more: seq<Byte>)
    ensures var mem := Encode(us) + [0] + more;
      0 in mem && Decode(CString(mem)) == us && Length8to16(CString(mem)) == |us|
  {
    EncodedHasNoNul(us);
    CStringStopsAtNul(Encode(us), more);
    RoundTrip(us);
    BufferIsLargeEnough(Encode(us));
    assert (Encode(us) + [0] + more)[|Encode(us)|] == 0;
  }
}
