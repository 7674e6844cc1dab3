/** Base32 without padding (section 6 of RFC 4648), as written with a 32-bit
    accumulator that is shifted and never masked. */
module Base32 {
  import opened Arithmetic
  import opened Int32

  type Byte = b: int | 0 <= b < 256

  const B32 := "ABCDEFGHIJKLMNOPQRSTUVWXYZ234567"

  predicate InAlphabet(c: char) {
    'A' <= c <= 'Z' || '2' <= c <= '7'
  }

  /** `B32.indexOf(c)` for a character of the alphabet. */
  function IndexOf(c: char): (i: int)
    requires InAlphabet(c)
    ensures 0 <= i < 32 && B32[i] == c
  {
    if c <= '7' then 26 + (c as int - '2' as int) else c as int - 'A' as int
  }

  lemma IndexOfLetter(i: int)
    requires 0 <= i < 32
    ensures InAlphabet(B32[i]) && IndexOf(B32[i]) == i
  {
  }

  // ── The definition on unbounded bit strings ───────────────────────────────

  function BytesToBits(bytes: seq<Byte>): Bits {
    if bytes == [] then [] else BitsOf(bytes[0], 8) + BytesToBits(bytes[1..])
  }

  function CharsToBits(chars: string): Bits
    requires forall c :: c in chars ==> InAlphabet(c)
  {
    if chars == [] then [] else BitsOf(IndexOf(chars[0]), 5) + CharsToBits(chars[1..])
  }

  function Zeros(n: nat): Bits { seq(n, i => false) }

  function Letter(group: Bits): (c: char)
    requires |group| == 5
    ensures InAlphabet(c) && BitsOf(IndexOf(c), 5) == group
  {
    ValBound(group);
    assert Pow2(5) == 32;
    BitsOfVal(group);
    IndexOfLetter(Val(group));
    B32[Val(group)]
  }

  /** Groups of five bits, the last one filled with zero bits. */
  function BitsToChars(s: Bits): (chars: string)
    ensures forall c :: c in chars ==> InAlphabet(c)
    decreases |s|
  {
    if s == [] then []
    else if |s| < 5 then [Letter(s + Zeros(5 - |s|))]
    else [Letter(s[..5])] + BitsToChars(s[5..])
  }

  function Octet(group: Bits): (b: Byte)
    requires |group| == 8
    ensures BitsOf(b, 8) == group
  {
    ValBound(group);
    assert Pow2(8) == 256;
    BitsOfVal(group);
    Val(group)
  }

  /** Whole groups of eight bits; what is left over is dropped. */
  function BitsToBytes(s: Bits): seq<Byte>
    decreases |s|
  {
    if |s| < 8 then [] else [Octet(s[..8])] + BitsToBytes(s[8..])
  }

  function Encoded(bytes: seq<Byte>): string { BitsToChars(BytesToBits(bytes)) }

  /** The characters of `c.toUpperCase()` that lie in the alphabet. Besides the ASCII
      letters, these are the only characters whose upper case (UnicodeData and SpecialCasing
      of the Unicode standard) contains any. */
  function Letters(c: char): (t: string)
    ensures forall d :: d in t ==> InAlphabet(d)
    ensures InAlphabet(c) ==> t == [c]
  {
    if InAlphabet(c) then [c]
    else if 'a' <= c <= 'z' then [(c as int - 32) as char]
    else match c as int
      case 0x00DF => "SS"
      case 0x0131 => "I"
      case 0x0149 => "N"
      case 0x017F => "S"
      case 0x01F0 => "J"
      case 0x1E96 => "H"
      case 0x1E97 => "T"
      case 0x1E98 => "W"
      case 0x1E99 => "Y"
      case 0x1E9A => "A"
      case 0xFB00 => "FF"
      case 0xFB01 => "FI"
      case 0xFB02 => "FL"
      case 0xFB03 => "FFI"
      case 0xFB04 => "FFL"
      case 0xFB05 => "ST"
      case 0xFB06 => "ST"
      case _ => ""
  }

  /** `str.toUpperCase().replace(/[^A-Z2-7]/g, "")` */
  function Clean(s: string): (t: string)
    ensures forall c :: c in t ==> InAlphabet(c)
  {
    if s == [] then [] else Letters(s[0]) + Clean(s[1..])
  }

  function Decoded(s: string): seq<Byte> { BitsToBytes(CharsToBits(Clean(s))) }

  // ── The accumulator ───────────────────────────────────────────────────────

  /** The low bits of the accumulator are the pending bits; the rest is stale. */
  predicate Holds(value: int, pending: Bits) {
    ToUint32(value) % Pow2(|pending|) == Val(pending)
  }

  lemma Times(n: int, q: int, r: int, p: int)
    ensures (n * q + r) * p == (n * p) * q + r * p
  {
  }

  lemma Below(r: nat, n: nat, p: nat, v: nat)
    requires r < n && v < p
    ensures r * p + v < n * p
  {
    Grows(p, n - r);
    Times(1, r, n - r, p);
  }

  lemma Divided(u: nat, n: nat)
    requires n > 0
    ensures u == n * (u / n) + u % n && 0 <= u % n < n && 0 <= u / n <= u
  {
    if u / n > 0 { Grows(u / n, n); }
  }

  lemma ModMod(u: nat, m: nat, n: nat)
    requires m > 0 && n > 0 && m * n > 0
    ensures u % (m * n) % n == u % n
  {
    var q, r := u / (m * n), u % (m * n);
    Divided(u, m * n);
    Divided(r, n);
    assert u == n * (m * q + r / n) + r % n by {
      assert (m * n) * q == n * (m * q);
      assert n * (m * q + r / n) == n * (m * q) + n * (r / n);
    }
    ModUnique(u, n, m * q + r / n, r % n);
  }

  /** Writing u in base n and then shifting by p writes it in base n * p. */
  lemma ShiftOne(u: nat, n: nat, p: nat, v: nat)
    requires n > 0 && v < p
    ensures u % n * p + v < n * p
    ensures (u * p + v) % (n * p) == u % n * p + v
  {
    Divided(u, n);
    Below(u % n, n, p, v);
    Times(n, u / n, u % n, p);
    ModUnique(u * p + v, n * p, u / n, u % n * p + v);
  }

  /** `value = (value << k) | v` appends the k bits of v, though the shift overflows. */
  lemma {:induction false} PushBits(value: int, pending: Bits, v: int, k: nat)
    requires |pending| <= 7 && k in {5, 8} && 0 <= v < Pow2(k) && Holds(value, pending)
    ensures Holds(Or(Shl(value, k), v), pending + BitsOf(v, k))
  {
    hide Pow2, OrBits, Val, BitsOf;
    var u, n, p := ToUint32(value), Pow2(|pending|), Pow2(k);
    var m := Pow2(32 - k - |pending|);
    var r := u % (m * n);
    WordSplits(|pending|, k);
    SmallPowers(k);
    assert (u * p) % TWO32 == r * p && r * p + v < TWO32 by {
      ShiftOne(u, m * n, p, 0);
      ShiftOne(u, m * n, p, v);
    }
    Pushed(value, k, v, r);
    assert ToUint32(Or(Shl(value, k), v)) % (n * p) == u % n * p + v by {
      ShiftOne(r, n, p, v);
      ModMod(u, m, n);
    }
    ValOfBits(v, k);
    ValConcat(pending, BitsOf(v, k));
    Pow2Adds(|pending|, k);
  }

  lemma Pushed(value: int, k: nat, v: nat, r: nat)
    requires v < Pow2(k) && v < TWO32
    requires (ToUint32(value) * Pow2(k)) % TWO32 == r * Pow2(k) && r * Pow2(k) + v < TWO32
    ensures ToUint32(Or(Shl(value, k), v)) == r * Pow2(k) + v
  {
    hide Pow2, OrBits, ToInt32;
    var x := ToUint32(value) * Pow2(k);
    Unsigned(x);
    assert ToUint32(v) == v;
    OrAdds(r, v, k);
    assert Or(ToInt32(x), v) == ToInt32(r * Pow2(k) + v);
    Unsigned(r * Pow2(k) + v);
  }

  lemma WordSplits(n: nat, k: nat)
    requires n + k <= 32
    ensures Pow2(32 - k - n) * Pow2(n) > 0
    ensures (Pow2(32 - k - n) * Pow2(n)) * Pow2(k) == TWO32
  {
    hide Pow2;
    Pow2Adds(32 - k - n, n);
    Pow2Adds(32 - k, k);
    Pow2Of32();
  }

  lemma Pow2Of32()
    ensures Pow2(32) == TWO32
  {
    assert Pow2(32) == Pow2(16) * Pow2(16) by { Pow2Adds(16, 16); }
    assert Pow2(16) == Pow2(8) * Pow2(8) by { Pow2Adds(8, 8); }
    assert Pow2(8) == 256;
  }

  lemma SmallPowers(k: nat)
    requires k in {5, 8}
    ensures Pow2(k) == if k == 5 then 32 else 256
  {
  }

  /** Dividing by m cuts off the last digit; what is left ends in a. */
  lemma ShiftOut(u: nat, p: nat, m: nat, q: nat, a: nat, b: nat)
    requires a < p && b < m && u == (p * m) * q + (a * m + b)
    ensures u / m % p == a && u % m == b
  {
    assert u == m * (p * q + a) + b by {
      assert (p * m) * q == m * (p * q);
      assert m * (p * q + a) == m * (p * q) + m * a;
    }
    ModUnique(u, m, p * q + a, b);
    ModUnique(u / m, p, q, a);
  }

  /** `(value >>> (n - k)) & (2^k - 1)` reads the first k pending bits. */
  lemma ReadBits(value: int, pending: Bits, k: nat)
    requires k in {5, 8} && k <= |pending| <= 15 && Holds(value, pending)
    ensures And(Shr(value, |pending| - k), Pow2(k) - 1) == Val(pending[..k])
    ensures Holds(value, pending[k..])
  {
    hide Pow2, And, Val;
    var u, m := ToUint32(value), |pending| - k;
    SplitPending(u, pending, k);
    Divided(u, Pow2(m));
    assert Shr(value, m) == u / Pow2(m) == ToUint32(u / Pow2(m));
    Masked(Shr(value, m), k);
  }

  /** The first k pending bits lie above the others. */
  lemma SplitPending(u: nat, pending: Bits, k: nat)
    requires k <= |pending| && u % Pow2(|pending|) == Val(pending)
    ensures u / Pow2(|pending| - k) % Pow2(k) == Val(pending[..k])
    ensures u % Pow2(|pending| - k) == Val(pending[k..])
  {
    hide Pow2, Val;
    var a, b, n, m := pending[..k], pending[k..], Pow2(|pending|), Pow2(|pending| - k);
    assert pending == a + b;
    ValConcat(a, b);
    ValBound(a);
    ValBound(b);
    Pow2Adds(k, |pending| - k);
    Divided(u, n);
    ShiftOut(u, Pow2(k), m, u / n, Val(a), Val(b));
  }

  lemma Masked(x: int, k: nat)
    requires k in {5, 8}
    ensures And(x, Pow2(k) - 1) == ToUint32(x) % Pow2(k)
  {
    hide Pow2, AndBits;
    SmallPowers(k);
    AndMasks(ToUint32(x), k);
  }

  /** `(value << (5 - n)) & 31` reads n pending bits and fills with zeros. */
  lemma ReadLast(value: int, pending: Bits)
    requires 0 < |pending| < 5 && Holds(value, pending)
    ensures And(Shl(value, 5 - |pending|), 31) == Val(pending + Zeros(5 - |pending|))
  {
    hide Pow2, AndBits, Val;
    var u, n, f := ToUint32(value), |pending|, 5 - |pending|;
    var x := u * Pow2(f);
    Masked(ToInt32(x), 5);
    Unsigned(x);
    SmallPowers(5);
    Pow2Of32();
    Pow2Adds(27, 5);
    ModMod(x, Pow2(27), 32);
    Pow2Adds(n, f);
    ShiftOne(u, Pow2(n), Pow2(f), 0);
    ValConcat(pending, Zeros(f));
    ValZeros(f);
  }

  lemma {:induction false} ValZeros(n: nat)
    ensures Val(Zeros(n)) == 0
  {
    if n > 0 {
      ValZeros(n - 1);
      assert Zeros(n)[..n - 1] == Zeros(n - 1);
    }
  }

  // ── The functions of totp.ts ──────────────────────────────────────────────

  method Base32Encode(buf: seq<Byte>) returns (out: string)
    ensures out == Encoded(buf)
  {
    hide Pow2, Or, And, Shl, Shr, Holds, Val, BitsOf, BitsToChars;
    var bits, value := 0, 0;
    out := "";
    ghost var pending: Bits := [];
    HoldsNothing();
    assert pending + BytesToBits(buf[0..]) == BytesToBits(buf);
    for i := 0 to |buf|
      invariant bits == |pending| < 5 && Holds(value, pending)
      invariant out + BitsToChars(pending + BytesToBits(buf[i..])) == Encoded(buf)
    {
      ghost var rest := BytesToBits(buf[i + 1..]);
      SmallPowers(8);
      PushBits(value, pending, buf[i], 8);
      assert pending + BytesToBits(buf[i..]) == pending + BitsOf(buf[i], 8) + rest by {
        assert buf[i..][1..] == buf[i + 1..];
      }
      value := Or(Shl(value, 8), buf[i]);
      pending := pending + BitsOf(buf[i], 8);
      bits := bits + 8;
      while bits >= 5
        invariant bits == |pending| <= 12 && Holds(value, pending)
        invariant out + BitsToChars(pending + rest) == Encoded(buf)
      {
        ReadBits(value, pending, 5);
        SmallPowers(5);
        FirstChar(pending, rest);
        LetterIs(pending[..5]);
        out := out + [B32[And(Shr(value, bits - 5), 31)]];
        pending := pending[5..];
        bits := bits - 5;
      }
    }
    assert pending + BytesToBits(buf[|buf|..]) == pending;
    LastChar(pending);
    if bits > 0 {
      ReadLast(value, pending);
      LetterIs(pending + Zeros(5 - bits));
      out := out + [B32[And(Shl(value, 5 - bits), 31)]];
    }
  }

  method Base32Decode(str: string) returns (out: seq<Byte>)
    ensures out == Decoded(str)
  {
    hide Pow2, Or, And, Shl, Shr, Holds, Val, BitsOf, BitsToBytes, IndexOf, Clean;
    var clean := Clean(str);
    var bits, value := 0, 0;
    out := [];
    ghost var pending: Bits := [];
    HoldsNothing();
    assert clean[0..] == clean;
    assert pending + CharsToBits(clean[0..]) == CharsToBits(clean);
    for i := 0 to |clean|
      invariant bits == |pending| < 8 && Holds(value, pending)
      invariant out + BitsToBytes(pending + CharsToBits(clean[i..])) == Decoded(str)
    {
      ghost var rest := CharsToBits(clean[i + 1..]);
      var v := IndexOf(clean[i]);
      SmallPowers(5);
      PushBits(value, pending, v, 5);
      assert pending + CharsToBits(clean[i..]) == pending + BitsOf(v, 5) + rest by {
        assert clean[i..][1..] == clean[i + 1..];
      }
      value := Or(Shl(value, 5), v);
      pending := pending + BitsOf(v, 5);
      bits := bits + 5;
      if bits >= 8 {
        ReadBits(value, pending, 8);
        SmallPowers(8);
        FirstByte(pending, rest);
        OctetIs(pending[..8]);
        out := out + [And(Shr(value, bits - 8), 0xff)];
        pending := pending[8..];
        bits := bits - 8;
      }
    }
    assert pending + CharsToBits(clean[|clean|..]) == pending;
    NoByte(pending);
  }

  lemma HoldsNothing()
    ensures Holds(0, [])
  {
  }

  lemma LetterIs(group: Bits)
    requires |group| == 5
    ensures 0 <= Val(group) < 32 && Letter(group) == B32[Val(group)]
  {
    ValBound(group);
    SmallPowers(5);
  }

  lemma OctetIs(group: Bits)
    requires |group| == 8
    ensures Octet(group) == Val(group)
  {
  }

  lemma FirstChar(pending: Bits, rest: Bits)
    requires |pending| >= 5
    ensures BitsToChars(pending + rest) == [Letter(pending[..5])] + BitsToChars(pending[5..] + rest)
  {
    assert (pending + rest)[..5] == pending[..5];
    assert (pending + rest)[5..] == pending[5..] + rest;
  }

  lemma LastChar(pending: Bits)
    requires |pending| < 5
    ensures BitsToChars(pending) == if pending == [] then [] else [Letter(pending + Zeros(5 - |pending|))]
  {
  }

  lemma FirstByte(pending: Bits, rest: Bits)
    requires |pending| >= 8
    ensures BitsToBytes(pending + rest) == [Octet(pending[..8])] + BitsToBytes(pending[8..] + rest)
  {
    assert (pending + rest)[..8] == pending[..8];
    assert (pending + rest)[8..] == pending[8..] + rest;
  }

  lemma NoByte(pending: Bits)
    requires |pending| < 8
    ensures BitsToBytes(pending) == []
  {
  }

  // ── What the definition promises ──────────────────────────────────────────

  /** How many zero bits fill the last group of five. */
  function Pad(n: nat): nat { if n % 5 == 0 then 0 else 5 - n % 5 }

  lemma BitsOfChar(group: Bits, chars: string)
    requires |group| == 5 && forall c :: c in chars ==> InAlphabet(c)
    ensures CharsToBits([Letter(group)] + chars) == group + CharsToBits(chars)
  {
    assert ([Letter(group)] + chars)[1..] == chars;
  }

  lemma {:induction false} BitsThroughChars(s: Bits)
    ensures CharsToBits(BitsToChars(s)) == s + Zeros(Pad(|s|))
    decreases |s|
  {
    hide CharsToBits, BitsToChars, Letter, BitsOf, InAlphabet, Val;
    if |s| < 5 {
      LastChar(s);
      CharsOfNothing();
      if s != [] {
        var full := s + Zeros(5 - |s|);
        BitsOfChar(full, []);
        assert [Letter(full)] + [] == [Letter(full)];
        assert full + [] == full;
      }
    } else {
      BitsThroughChars(s[5..]);
      FirstChar(s[..5], s[5..]);
      assert s[..5] + s[5..] == s && s[..5][..5] == s[..5] && s[..5][5..] + s[5..] == s[5..];
      BitsOfChar(s[..5], BitsToChars(s[5..]));
      assert s[..5] + (s[5..] + Zeros(Pad(|s|))) == s + Zeros(Pad(|s|));
    }
  }

  lemma CharsOfNothing()
    ensures CharsToBits([]) == []
  {
  }

  lemma {:induction false} BytesThroughBits(bytes: seq<Byte>, rest: Bits)
    requires |rest| < 8
    ensures BitsToBytes(BytesToBits(bytes) + rest) == bytes
  {
    if bytes == [] {
      assert BytesToBits(bytes) + rest == rest;
    } else {
      var first, tail := BitsOf(bytes[0], 8), BytesToBits(bytes[1..]);
      BytesThroughBits(bytes[1..], rest);
      assert BytesToBits(bytes) + rest == first + (tail + rest);
      FirstByte(first, tail + rest);
      assert first[..8] == first && first[8..] + (tail + rest) == tail + rest;
      ValOfBits(bytes[0], 8);
    }
  }

  lemma {:induction false} CleanKeeps(s: string)
    requires forall c :: c in s ==> InAlphabet(c)
    ensures Clean(s) == s
  {
    if s != [] {
      CleanKeeps(s[1..]);
      assert s[0] in s && s == [s[0]] + s[1..];
    }
  }

  lemma {:induction false} BytesHaveEightBits(bytes: seq<Byte>)
    ensures |BytesToBits(bytes)| == 8 * |bytes|
  {
    if bytes != [] { BytesHaveEightBits(bytes[1..]); }
  }

  lemma {:induction false} CharsNeeded(s: Bits)
    ensures |BitsToChars(s)| == (|s| + 4) / 5
    decreases |s|
  {
    if |s| >= 5 { CharsNeeded(s[5..]); }
  }

  /** An encoding has no padding: the least number of letters that holds the bits. */
  lemma EncodedLength(bytes: seq<Byte>)
    ensures |Encoded(bytes)| == (8 * |bytes| + 4) / 5
  {
    BytesHaveEightBits(bytes);
    CharsNeeded(BytesToBits(bytes));
  }

  /** Decoding an encoding gives back every byte sequence. */
  lemma {:induction false} RoundTrip(bytes: seq<Byte>)
    ensures Decoded(Encoded(bytes)) == bytes
  {
    var bits := BytesToBits(bytes);
    CleanKeeps(Encoded(bytes));
    BitsThroughChars(bits);
    BytesThroughBits(bytes, Zeros(Pad(|bits|)));
  }

  /** t writes the letters of s in any case, with characters that are no letters or digits
      of the alphabet (spaces, dashes, padding) put in or left out anywhere. */
  predicate Reformats(s: string, t: string)
    decreases |s| + |t|
  {
    || (s == [] && t == [])
    || (s != [] && t != [] && Letters(s[0]) == Letters(t[0]) && Reformats(s[1..], t[1..]))
    || (t != [] && Letters(t[0]) == "" && Reformats(s, t[1..]))
    || (s != [] && Letters(s[0]) == "" && Reformats(s[1..], t))
  }

  lemma {:induction false} ReformattedCleans(s: string, t: string)
    requires Reformats(s, t)
    ensures Clean(s) == Clean(t)
    decreases |s| + |t|
  {
    hide Letters;
    if s == [] && t == [] {
    } else if s != [] && t != [] && Letters(s[0]) == Letters(t[0]) && Reformats(s[1..], t[1..]) {
      ReformattedCleans(s[1..], t[1..]);
    } else if t != [] && Letters(t[0]) == "" && Reformats(s, t[1..]) {
      ReformattedCleans(s, t[1..]);
      assert Clean(t) == "" + Clean(t[1..]);
    } else {
      ReformattedCleans(s[1..], t);
      assert Clean(s) == "" + Clean(s[1..]);
    }
  }

  /** However a person writes an encoded secret down, it decodes to the same bytes. */
  lemma {:induction false} FormattedRoundTrip(bytes: seq<Byte>, t: string)
    requires Reformats(Encoded(bytes), t)
    ensures Decoded(t) == bytes
  {
    ReformattedCleans(Encoded(bytes), t);
    RoundTrip(bytes);
  }
}
