/**
 Base64url without padding (RFC 4648, section 5), specified by numbers: a string
 encodes a byte string when, read as a base-64 numeral, it equals the bytes read
 as a base-256 numeral, shifted left by the zero bits that fill the last digit.
 */
module Codec {
  import opened Base

  // ------------------------------------------------------------------ the alphabet

  function Val(c: char): Option<nat> {
    if 'A' <= c <= 'Z' then Some((c - 'A') as nat)
    else if 'a' <= c <= 'z' then Some((c - 'a') as nat + 26)
    else if '0' <= c <= '9' then Some((c - '0') as nat + 52)
    else if c == '-' then Some(62)
    else if c == '_' then Some(63)
    else None
  }

  /** Entry `v` of the encoder's table. */
  function Char(v: nat): char
    requires v < 64
  {
    if v < 26 then 'A' + v as char
    else if v < 52 then 'a' + (v - 26) as char
    else if v < 62 then '0' + (v - 52) as char
    else if v == 62 then '-'
    else '_'
  }

  lemma CharVal(v: nat)
    requires v < 64
    ensures Val(Char(v)) == Some(v)
  {
  }

  /** `n` consecutive characters. */
  function Run(from: char, n: nat): string
    requires from as nat + n < 128
  {
    if n == 0 then "" else Run(from, n - 1) + [from + (n - 1) as char]
  }

  lemma {:induction false} RunAt(from: char, n: nat, v: nat)
    requires from as nat + n < 128 && v < n
    ensures |Run(from, n)| == n && Run(from, n)[v] == from + v as char
  {
    if n == 1 {
    } else if v < n - 1 {
      RunAt(from, n - 1, v);
    } else {
      RunAt(from, n - 1, 0);
    }
  }

  /** Table 2 of RFC 4648. */
  const ALPHABET := Run('A', 26) + Run('a', 26) + Run('0', 10) + "-_"

  lemma AlphabetIs(v: nat)
    requires v < 64
    ensures |ALPHABET| == 64 && ALPHABET[v] == Char(v)
  {
    hide Run;
    var upper, lower, digits := Run('A', 26), Run('a', 26), Run('0', 10);
    RunAt('A', 26, if v < 26 then v else 0);
    RunAt('a', 26, if 26 <= v < 52 then v - 26 else 0);
    RunAt('0', 10, if 52 <= v < 62 then v - 52 else 0);
    if v < 26 {
      assert ALPHABET[v] == upper[v];
    } else if v < 52 {
      assert ALPHABET[v] == lower[v - 26];
    } else if v < 62 {
      assert ALPHABET[v] == digits[v - 52];
    } else {
      assert ALPHABET[v] == "-_"[v - 62];
    }
  }

  lemma ValInjective(a: char, b: char)
    requires Val(a).Some? && Val(a) == Val(b)
    ensures a == b
  {
  }

  /** A character stands for a value exactly when it is that entry of the alphabet. */
  lemma AlphabetIff(c: char, v: nat)
    ensures |ALPHABET| == 64
    ensures Val(c) == Some(v) <==> v < |ALPHABET| && ALPHABET[v] == c
  {
    AlphabetIs(0);
    if v < 64 {
      AlphabetIs(v);
      CharVal(v);
      if Val(c) == Some(v) {
        ValInjective(c, Char(v));
      }
    }
  }

  ghost predicate AllDigits(s: string) {
    forall i | 0 <= i < |s| :: Val(s[i]).Some?
  }

  // ------------------------------------------------------------------- as numerals

  ghost function Digit(c: char): nat {
    if Val(c).Some? then Val(c).value else 0
  }

  ghost function Num64(s: string): nat {
    if s == [] then 0 else 64 * Num64(s[..|s| - 1]) + Digit(s[|s| - 1])
  }

  ghost function Num256(x: Bytes): nat {
    if x == [] then 0 else 256 * Num256(x[..|x| - 1]) + x[|x| - 1] as nat
  }

  lemma Num64Push(s: string, c: char)
    ensures Num64(s + [c]) == 64 * Num64(s) + Digit(c)
  {
    assert (s + [c])[..|s|] == s;
  }

  lemma Num256Push(x: Bytes, b: byte)
    ensures Num256(x + [b]) == 256 * Num256(x) + b as nat
  {
    assert (x + [b])[..|x|] == x;
  }

  lemma {:induction false} Num64Unique(s: string, t: string)
    requires |s| == |t| && AllDigits(s) && AllDigits(t) && Num64(s) == Num64(t)
    ensures s == t
  {
    if s != [] {
      var n := |s| - 1;
      assert Digit(s[n]) < 64 && Digit(t[n]) < 64;
      Num64Unique(s[..n], t[..n]);
      ValInjective(s[n], t[n]);
      assert s == s[..n] + [s[n]] && t == t[..n] + [t[n]];
    }
  }

  lemma {:induction false} Num256Unique(x: Bytes, y: Bytes)
    requires |x| == |y| && Num256(x) == Num256(y)
    ensures x == y
  {
    if x != [] {
      var n := |x| - 1;
      Num256Unique(x[..n], y[..n]);
      assert x == x[..n] + [x[n]] && y == y[..n] + [y[n]];
    }
  }

  // -------------------------------------------------------------- the specification

  /** ceil(4n / 3). */
  function EncodedLen(n: nat): nat {
    (4 * n + 2) / 3
  }

  /** Two to the number of zero bits that fill the last digit. */
  function Padding(n: nat): nat {
    if n % 3 == 0 then 1 else if n % 3 == 1 then 16 else 4
  }

  ghost predicate IsEncoding(x: Bytes, s: string) {
    AllDigits(s) && |s| == EncodedLen(|x|) && Num64(s) == Num256(x) * Padding(|x|)
  }

  lemma EncodingUnique(x: Bytes, s: string, t: string)
    requires IsEncoding(x, s) && IsEncoding(x, t)
    ensures s == t
  {
    Num64Unique(s, t);
  }

  lemma DecodingUnique(x: Bytes, y: Bytes, s: string)
    requires IsEncoding(x, s) && IsEncoding(y, s)
    ensures x == y
  {
    assert |x| == |y|;
    Num256Unique(x, y);
  }

  function TrimEnd(s: string): string {
    if s != [] && s[|s| - 1] == '=' then TrimEnd(s[..|s| - 1]) else s
  }

  /** Trimming removes all '=' from the end and nothing else. */
  lemma {:induction false} TrimEndIs(s: string)
    ensures var t := TrimEnd(s);
            && t <= s && (t != [] ==> t[|t| - 1] != '=')
            && forall i | |t| <= i < |s| :: s[i] == '='
  {
    if s != [] && s[|s| - 1] == '=' {
      TrimEndIs(s[..|s| - 1]);
    }
  }

  lemma Num256Of(a: byte, b: byte, c: byte)
    ensures Num256([a]) == a as nat
    ensures Num256([a, b]) == a as nat * 256 + b as nat
    ensures Num256([a, b, c]) == a as nat * 65536 + b as nat * 256 + c as nat
  {
    Num256Push([], a);
    Num256Push([a], b);
    Num256Push([a, b], c);
    assert Num256([]) == 0;
    hide Num256;
    assert [] + [a] == [a] && [a] + [b] == [a, b] && [a, b] + [c] == [a, b, c];
  }

  lemma Num64Of(a: char, b: char, c: char, d: char)
    ensures Num64([a, b]) == Digit(a) * 64 + Digit(b)
    ensures Num64([a, b, c]) == Digit(a) * 4096 + Digit(b) * 64 + Digit(c)
    ensures Num64([a, b, c, d]) == Digit(a) * 262144 + Digit(b) * 4096 + Digit(c) * 64 + Digit(d)
  {
    Num64Push([], a);
    Num64Push([a], b);
    Num64Push([a, b], c);
    Num64Push([a, b, c], d);
    assert Num64([]) == 0;
    hide Num64, Digit;
    assert [] + [a] == [a] && [a] + [b] == [a, b] && [a, b] + [c] == [a, b, c] && [a, b, c] + [d] == [a, b, c, d];
  }

  /** Three test vectors of section 10 of RFC 4648, without their padding. */
  lemma KnownEncodings()
    ensures IsEncoding([102], "Zg") && IsEncoding([102, 111], "Zm8") && IsEncoding([102, 111, 111], "Zm9v")
  {
    hide Num64, Num256;
    Num256Of(102, 111, 111);
    Num64Of('Z', 'm', '9', 'v');
    Num64Of('Z', 'm', '8', 'v');
    Num64Of('Z', 'g', '8', 'v');
  }

  // ------------------------------------------------------------------------ encoder

  lemma PushDigits(out: string, cs: string)
    requires |cs| <= 4
    ensures Num64(out + cs) == Num64(out) * (if |cs| == 0 then 1 else if |cs| == 1 then 64 else if |cs| == 2 then 4096
                                             else if |cs| == 3 then 262144 else 16777216) + Num64(cs)
  {
    if cs == [] {
      assert out + cs == out;
    } else {
      var n := |cs| - 1;
      assert out + cs == (out + cs[..n]) + [cs[n]];
      Num64Push(out + cs[..n], cs[n]);
      PushDigits(out, cs[..n]);
    }
  }

  lemma PushBytes(x: Bytes, bs: Bytes)
    requires |bs| <= 3
    ensures Num256(x + bs) == Num256(x) * (if |bs| == 0 then 1 else if |bs| == 1 then 256 else if |bs| == 2 then 65536
                                           else 16777216) + Num256(bs)
  {
    if bs == [] {
      assert x + bs == x;
    } else {
      var n := |bs| - 1;
      assert x + bs == (x + bs[..n]) + [bs[n]];
      Num256Push(x + bs[..n], bs[n]);
      PushBytes(x, bs[..n]);
    }
  }

  lemma Sextets(n: nat)
    requires n < 16777216
    ensures n / 262144 % 64 * 64 + n / 4096 % 64 == n / 4096
    ensures n / 4096 * 64 + n / 64 % 64 == n / 64
    ensures n / 64 * 64 + n % 64 == n
  {
  }

  /** Three bytes side by side, absent ones as zero. */
  function Joined(chunk: Bytes): nat
    requires 1 <= |chunk| <= 3
  {
    chunk[0] as nat * 65536
    + (if |chunk| > 1 then chunk[1] as nat else 0) * 256
    + (if |chunk| > 2 then chunk[2] as nat else 0)
  }

  lemma ChunkNumber(chunk: Bytes)
    requires 1 <= |chunk| <= 3
    ensures Num256(chunk) ==
            if |chunk| == 1 then chunk[0] as nat
            else if |chunk| == 2 then chunk[0] as nat * 256 + chunk[1] as nat
            else chunk[0] as nat * 65536 + chunk[1] as nat * 256 + chunk[2] as nat
  {
    Num256Push([], chunk[0]);
    assert [] + [chunk[0]] == chunk[..1];
    if |chunk| > 1 {
      Num256Push(chunk[..1], chunk[1]);
      assert chunk[..1] + [chunk[1]] == chunk[..2];
    }
    if |chunk| > 2 {
      Num256Push(chunk[..2], chunk[2]);
      assert chunk[..2] + [chunk[2]] == chunk[..3];
    }
    assert chunk == chunk[..|chunk|];
  }

  lemma JoinedDigits(chunk: Bytes, cs: string)
    requires 1 <= |chunk| <= 3 && |cs| == |chunk| + 1 && AllDigits(cs)
    requires Num64(cs) == Joined(chunk) / (if |chunk| == 1 then 4096 else if |chunk| == 2 then 64 else 1)
    ensures IsEncoding(chunk, cs)
  {
    hide Num64, Num256, AllDigits;
    ChunkNumber(chunk);
    assert EncodedLen(|chunk|) == |chunk| + 1;
  }

  lemma NoDigits()
    ensures AllDigits([]) && Num64([]) == 0 && IsEncoding([], [])
  {
  }

  method PushSextet(out: string, n: nat) returns (out': string)
    requires AllDigits(out)
    ensures AllDigits(out') && |out'| == |out| + 1
    ensures Num64(out') == 64 * Num64(out) + n % 64
  {
    CharVal(n % 64);
    Num64Push(out, Char(n % 64));
    out' := out + [Char(n % 64)];
  }

  method EncodeChunk(chunk: Bytes) returns (cs: string)
    requires 1 <= |chunk| <= 3
    ensures IsEncoding(chunk, cs)
  {
    hide IsEncoding, AllDigits;
    var n := Joined(chunk);
    Sextets(n);
    assert AllDigits([]) && Num64([]) == 0 by { NoDigits(); }
    cs := PushSextet([], n / 262144);
    cs := PushSextet(cs, n / 4096);
    if |chunk| > 1 {
      cs := PushSextet(cs, n / 64);
    }
    if |chunk| > 2 {
      cs := PushSextet(cs, n);
    }
    JoinedDigits(chunk, cs);
  }

  lemma AppendLen(n: nat, k: nat)
    requires n % 3 == 0 && 1 <= k <= 3
    ensures EncodedLen(n + k) == EncodedLen(n) + EncodedLen(k)
    ensures Padding(n) == 1 && Padding(n + k) == Padding(k)
    ensures EncodedLen(k) == k + 1
  {
    var q := n / 3;
    assert n == 3 * q;
    assert EncodedLen(n) == 4 * q;
    if k == 1 {
      assert (4 * (3 * q + 1) + 2) / 3 == 4 * q + 2;
    } else if k == 2 {
      assert (4 * (3 * q + 2) + 2) / 3 == 4 * q + 3;
    } else {
      assert (4 * (3 * q + 3) + 2) / 3 == 4 * q + 4;
    }
  }

  lemma AppendNumber(m: nat, c: nat, size: nat, pad: nat)
    requires (size == 256 && pad == 16) || (size == 65536 && pad == 4) || (size == 16777216 && pad == 1)
    ensures m * (size * pad) + c * pad == (m * size + c) * pad
  {
  }

  lemma AppendValue(done: Bytes, out: string, chunk: Bytes, cs: string)
    requires 1 <= |chunk| <= 3 && |cs| == |chunk| + 1
    requires Num64(out) == Num256(done) && Num64(cs) == Num256(chunk) * Padding(|chunk|)
    ensures Num64(out + cs) == Num256(done + chunk) * Padding(|chunk|)
  {
    PushDigits(out, cs);
    PushBytes(done, chunk);
    AppendNumber(Num256(done), Num256(chunk),
                 if |chunk| == 1 then 256 else if |chunk| == 2 then 65536 else 16777216, Padding(|chunk|));
    hide Num64, Num256;
  }

  lemma AppendChunk(done: Bytes, out: string, chunk: Bytes, cs: string)
    requires |done| % 3 == 0 && 1 <= |chunk| <= 3
    requires IsEncoding(done, out) && IsEncoding(chunk, cs)
    ensures IsEncoding(done + chunk, out + cs)
  {
    hide Num64, Num256, EncodedLen, Padding;
    AppendLen(|done|, |chunk|);
    AppendValue(done, out, chunk, cs);
  }

  method Encode(bytes: Bytes) returns (out: string)
    ensures IsEncoding(bytes, out)
  {
    hide IsEncoding;
    NoDigits();
    out := [];
    var i := 0;
    while i < |bytes|
      invariant i <= |bytes| && (i % 3 == 0 || i == |bytes|)
      invariant IsEncoding(bytes[..i], out)
    {
      var next := if i + 3 <= |bytes| then i + 3 else |bytes|;
      var chunk := bytes[i..next];
      var cs := EncodeChunk(chunk);
      AppendChunk(bytes[..i], out, chunk, cs);
      assert bytes[..i] + chunk == bytes[..next];
      out := out + cs;
      i := next;
    }
    assert bytes[..i] == bytes;
  }

  // ------------------------------------------------------------------------ decoder

  /** 2^bits for the bit counts the decoder can hold. */
  function Pow(bits: nat): nat
    requires bits in {0, 2, 4, 6}
  {
    if bits == 0 then 1 else if bits == 2 then 4 else if bits == 4 then 16 else 64
  }

  const U32: nat := 0x1_0000_0000

  lemma Mod256(q: nat, x: nat)
    ensures (256 * q + x) % 256 == x % 256
  {
  }

  lemma CarryByte(q: nat, x: nat)
    requires x < 256
    ensures 256 * q + (256 * q + x) % 256 == 256 * q + x
  {
    Mod256(q, x);
  }

  /** Six more bits complete the byte that starts above `n % (4 * unit)`. */
  lemma NextByte(n: nat, v: nat, unit: nat)
    requires unit in {1, 4, 16} && v < 64
    ensures 256 * (n / (4 * unit)) + (64 * n + v) / unit % 256 == (64 * n + v) / unit
  {
    if unit == 1 {
      CarryByte(n / 4, 64 * (n % 4) + v);
    } else if unit == 4 {
      assert 64 * n + v == 4 * (256 * (n / 16)) + (64 * (n % 16) + v);
      assert (64 * n + v) / 4 == 256 * (n / 16) + (64 * (n % 16) + v) / 4;
      CarryByte(n / 16, (64 * (n % 16) + v) / 4);
    } else {
      assert 64 * n + v == 16 * (256 * (n / 64)) + (64 * (n % 64) + v);
      assert (64 * n + v) / 16 == 256 * (n / 64) + (64 * (n % 64) + v) / 16;
      CarryByte(n / 64, (64 * (n % 64) + v) / 16);
    }
  }

  lemma DivMod(m: nat)
    ensures m == U32 * (m / U32) + m % U32 && m % U32 < U32
  {
  }

  /** Bits that have left a `u32` are never part of the byte read from it. */
  lemma HighBitsFall(m: nat, bits: nat)
    requires bits in {0, 2, 4}
    ensures m % U32 / Pow(bits) % 256 == m / Pow(bits) % 256
  {
    var k, a := m / U32, m % U32;
    DivMod(m);
    if bits == 0 {
      Mod256(0x100_0000 * k, a);
    } else if bits == 2 {
      assert m / 4 == 256 * (0x40_0000 * k) + a / 4;
      Mod256(0x40_0000 * k, a / 4);
    } else {
      assert m / 16 == 256 * (0x10_0000 * k) + a / 16;
      Mod256(0x10_0000 * k, a / 16);
    }
  }

  /**
   Taking in one digit. The accumulator is a `u32` whose high bits fall off the top; the
   byte that comes out is the one the whole number would give.
   */
  lemma TakeDigit(n: nat, q: nat, bits: nat, v: nat, acc: nat)
    requires bits in {2, 4, 6} && v < 64 && q == n / Pow(bits)
    requires acc == (64 * n + v) % U32
    ensures 256 * q + acc / Pow(bits - 2) % 256 == (64 * n + v) / Pow(bits - 2)
  {
    HighBitsFall(64 * n + v, bits - 2);
    if bits == 2 {
      NextByte(n, v, 1);
    } else if bits == 4 {
      NextByte(n, v, 4);
    } else {
      NextByte(n, v, 16);
    }
  }

  lemma AddMultiple(a: nat, k: nat)
    ensures (U32 * k + a) % U32 == a % U32
  {
  }

  lemma ShiftIn(n: nat, v: nat)
    ensures (n % U32 * 64 + v) % U32 == (64 * n + v) % U32
  {
    assert 64 * n + v == U32 * (64 * (n / U32)) + (n % U32 * 64 + v);
    AddMultiple(n % U32 * 64 + v, 64 * (n / U32));
  }

  /** What the decoder knows after `i` digits of `t`. */
  ghost predicate Decoding(t: string, i: nat, out: Bytes, acc: nat, bits: nat) {
    && i <= |t| && AllDigits(t[..i])
    && bits in {0, 2, 4, 6} && 6 * i == 8 * |out| + bits
    && acc == Num64(t[..i]) % U32
    && Num256(out) == Num64(t[..i]) / Pow(bits)
  }

  /** The number part of taking in one digit. */
  lemma NumberTaken(n: nat, q: nat, bits: nat, v: nat, acc: nat)
    requires bits in {0, 2, 4, 6} && v < 64 && q == n / Pow(bits) && acc == n % U32
    ensures var acc' := (acc * 64 + v) % U32;
            && acc' == (64 * n + v) % U32
            && (if bits == 0 then q == (64 * n + v) / 64
                else 256 * q + acc' / Pow(bits - 2) % 256 == (64 * n + v) / Pow(bits - 2))
  {
    ShiftIn(n, v);
    if bits != 0 {
      TakeDigit(n, q, bits, v, (acc * 64 + v) % U32);
    }
  }

  lemma DigitTaken(t: string, i: nat, out: Bytes, acc: nat, bits: nat, v: nat)
    requires Decoding(t, i, out, acc, bits) && i < |t| && Val(t[i]) == Some(v)
    ensures var acc' := (acc * 64 + v) % U32;
            if bits == 0 then Decoding(t, i + 1, out, acc', 6)
            else Decoding(t, i + 1, out + [(acc' / Pow(bits - 2) % 256) as byte], acc', bits - 2)
  {
    assert t[..i + 1] == t[..i] + [t[i]];
    Num64Push(t[..i], t[i]);
    NumberTaken(Num64(t[..i]), Num256(out), bits, v, acc);
    if bits != 0 {
      Num256Push(out, ((acc * 64 + v) % U32 / Pow(bits - 2) % 256) as byte);
    }
    hide Num64, Num256;
  }

  /** The bytes that the string, without trailing '=', encodes, if there are any. */
  ghost function Decoded(s: string): Option<Bytes> {
    if exists x :: IsEncoding(x, TrimEnd(s)) then
      var x :| IsEncoding(x, TrimEnd(s));
      Some(x)
    else None
  }

  lemma DecodedIff(s: string, x: Bytes)
    ensures Decoded(s) == Some(x) <==> IsEncoding(x, TrimEnd(s))
  {
    if IsEncoding(x, TrimEnd(s)) {
      DecodingUnique(x, Decoded(s).value, TrimEnd(s));
    }
  }

  lemma AcceptedLength(digits: nat, len: nat, bits: nat)
    requires bits in {0, 2, 4} && 6 * digits == 8 * len + bits
    ensures digits == EncodedLen(len) && Padding(len) == Pow(bits)
  {
  }

  lemma LowBits(n: nat, bits: nat)
    requires bits in {0, 2, 4}
    ensures n % U32 % Pow(bits) == n % Pow(bits)
  {
    assert n == U32 * (n / U32) + n % U32;
  }

  lemma DecodedAll(t: string, out: Bytes, acc: nat, bits: nat)
    requires Decoding(t, |t|, out, acc, bits) && bits != 6 && acc % Pow(bits) == 0
    ensures IsEncoding(out, t)
  {
    assert t[..|t|] == t;
    LowBits(Num64(t), bits);
    AcceptedLength(|t|, |out|, bits);
  }

  /** The number of bytes behind an encoding of this length, and the width of its padding. */
  lemma LengthDecides(n: nat, len: nat, bits: nat, digits: nat)
    requires bits in {0, 2, 4, 6} && 6 * digits == 8 * len + bits && digits == EncodedLen(n)
    ensures bits != 6 && n == len && Padding(n) == Pow(bits)
  {
  }

  lemma ShiftedEnds(m: nat, bits: nat)
    requires bits in {0, 2, 4}
    ensures m * Pow(bits) % Pow(bits) == 0
  {
  }

  lemma EncodingTail(x: Bytes, t: string, len: nat, bits: nat)
    requires IsEncoding(x, t) && bits in {0, 2, 4, 6} && 6 * |t| == 8 * len + bits
    ensures bits != 6 && Num64(t) % Pow(bits) == 0
  {
    LengthDecides(|x|, len, bits, |t|);
    ShiftedEnds(Num256(x), bits);
  }

  lemma RejectedForGood(t: string, out: Bytes, bits: nat, acc: nat)
    requires Decoding(t, |t|, out, acc, bits) && (bits == 6 || acc % Pow(bits) != 0)
    ensures forall x :: !IsEncoding(x, t)
  {
    assert t[..|t|] == t;
    if bits != 6 {
      LowBits(Num64(t), bits);
    }
    forall x | IsEncoding(x, t) ensures false {
      EncodingTail(x, t, |out|, bits);
    }
  }

  method Decode(s: string) returns (r: Option<Bytes>)
    ensures r == Decoded(s)
  {
    var t := TrimEnd(s);
    var out: Bytes := [];
    var acc: nat := 0;
    var bits: nat := 0;
    var i := 0;
    while i < |t|
      invariant bits in {0, 2, 4, 6}
      invariant Decoding(t, i, out, acc, bits)
    {
      var v := Val(t[i]);
      if v.None? {
        return None;
      }
      DigitTaken(t, i, out, acc, bits, v.value);
      hide Decoding;
      acc := (acc * 64 + v.value) % U32;
      bits := bits + 6;
      if bits >= 8 {
        bits := bits - 8;
        out := out + [(acc / Pow(bits) % 256) as byte];
      }
      i := i + 1;
    }
    if bits >= 6 || acc % Pow(bits) != 0 {
      RejectedForGood(t, out, bits, acc);
      return None;
    }
    DecodedAll(t, out, acc, bits);
    DecodedIff(s, out);
    return Some(out);
  }

  // -------------------------------------------------------------------- round trips

  lemma EncodingNotTrimmed(x: Bytes, s: string)
    requires IsEncoding(x, s)
    ensures TrimEnd(s) == s
  {
  }

  /** Decoding an encoding gives the bytes back. */
  method DecodeEncoded(bytes: Bytes) returns (r: Option<Bytes>)
    ensures r == Some(bytes)
  {
    var s := Encode(bytes);
    EncodingNotTrimmed(bytes, s);
    r := Decode(s);
    DecodedIff(s, bytes);
  }

  /** Encoding what was decoded gives the string back, without its trailing '='. */
  method EncodeDecoded(s: string) returns (r: Option<string>)
    ensures r.Some? ==> r.value == TrimEnd(s)
    ensures r.Some? <==> exists x :: IsEncoding(x, TrimEnd(s))
  {
    var d := Decode(s);
    if d.None? {
      return None;
    }
    DecodedIff(s, d.value);
    var t := Encode(d.value);
    EncodingUnique(d.value, t, TrimEnd(s));
    return Some(t);
  }

  // ----------------------------------------------------------------------- body cap

  /** `invite_create_body_cap`. */
  function InviteCreateBodyCap(maxBundleBytes: nat): nat {
    2 * ((4 * maxBundleBytes + 2) / 3) + 4 * 1024
  }

  /** Two blobs within the bundle limit, encoded, and 4096 bytes of frame always fit the cap. */
  lemma LegitimateCreateFits(bundle: Bytes, sig: Bytes, bundle64: string, sig64: string, frame: nat,
                             maxBundleBytes: nat)
    requires IsEncoding(bundle, bundle64) && IsEncoding(sig, sig64)
    requires |bundle| <= maxBundleBytes && |sig| <= maxBundleBytes && frame <= 4096
    ensures |bundle64| + |sig64| + frame <= InviteCreateBodyCap(maxBundleBytes)
    ensures |bundle| == maxBundleBytes && |sig| == maxBundleBytes && frame == 4096 ==>
              |bundle64| + |sig64| + frame == InviteCreateBodyCap(maxBundleBytes)
  {
  }
}
