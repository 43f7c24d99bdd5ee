// Bit strings, and reading them with a cursor that is sticky at the end (pkg/bits).
module Bits {
  import opened Bytes
  import opened Seqs

  type bit = b: int | 0 <= b < 2

  function Pow2(n: nat): (p: nat)
    ensures p > 0
  {
    if n == 0 then 1 else 2 * Pow2(n - 1)
  }

  // The n low bits of v, most significant first.
  function ToBits(v: nat, n: nat): (s: seq<bit>)
    ensures |s| == n
    decreases v, n
  {
    if n == 0 then [] else ToBits(v / 2, n - 1) + [v % 2]
  }

  function FromBits(s: seq<bit>): nat {
    if s == [] then 0 else FromBits(s[..|s| - 1]) * 2 + s[|s| - 1]
  }

  lemma ModStep2(v: nat, n: nat)
    ensures v % (2 * Pow2(n)) == (v / 2 % Pow2(n)) * 2 + v % 2
  {
    DropDigit(v, 2, Pow2(n));
  }

  lemma {:induction false} FromToBits(v: nat, n: nat)
    ensures FromBits(ToBits(v, n)) == v % Pow2(n)
  {
    if n > 0 {
      FromToBits(v / 2, n - 1);
      ModStep2(v, n - 1);
      assert ToBits(v, n)[..n - 1] == ToBits(v / 2, n - 1);
    }
  }

  lemma {:induction false} ToFromBits(s: seq<bit>)
    ensures ToBits(FromBits(s), |s|) == s
  {
    if s != [] {
      ToFromBits(s[..|s| - 1]);
      TakeLast(s);
    }
  }

  lemma Shifted(x: nat, p: nat, y: nat, low: nat)
    ensures (x * p + y) * 2 + low == x * (2 * p) + (y * 2 + low)
  {
  }

  lemma {:induction false} FromBitsAppend(a: seq<bit>, b: seq<bit>)
    ensures FromBits(a + b) == FromBits(a) * Pow2(|b|) + FromBits(b)
  {
    if b == [] {
      assert a + b == a;
    } else {
      var n := |b| - 1;
      FromBitsAppend(a, b[..n]);
      assert (a + b)[..|a| + n] == a + b[..n];
      Shifted(FromBits(a), Pow2(n), FromBits(b[..n]), b[n]);
    }
  }

  // ---------- the bits of a byte string ----------

  function BitsOf(b: seq<byte>): (s: seq<bit>)
    ensures |s| == 8 * |b|
  {
    if b == [] then [] else BitsOf(b[..|b| - 1]) + ToBits(b[|b| - 1], 8)
  }

  // Byte i occupies eight bits from 8 * i on.
  lemma {:induction false} ByteSlice(b: seq<byte>, i: nat)
    requires i < |b|
    ensures BitsOf(b)[8 * i..8 * i + 8] == ToBits(b[i], 8)
  {
    var head, last := BitsOf(b[..|b| - 1]), ToBits(b[|b| - 1], 8);
    if i < |b| - 1 {
      ByteSlice(b[..|b| - 1], i);
      assert (head + last)[8 * i..8 * i + 8] == head[8 * i..8 * i + 8];
    } else {
      Halves(head, last);
    }
  }

  lemma BitsOfAt(b: seq<byte>, i: nat, k: nat)
    requires i < |b| && k < 8
    ensures BitsOf(b)[8 * i + k] == ToBits(b[i], 8)[k]
  {
    ByteSlice(b, i);
    SliceAt(BitsOf(b), 8 * i, 8 * i + 8, k);
  }

  // v >> i
  function Shr(v: nat, i: nat): nat
    decreases i
  {
    if i == 0 then v else Shr(v / 2, i - 1)
  }

  lemma {:induction false} ShrSucc(v: nat, i: nat)
    ensures Shr(v, i + 1) == Shr(v, i) / 2
  {
    if i > 0 {
      ShrSucc(v / 2, i - 1);
    }
  }

  lemma {:induction false} ShrMul(m: nat, i: nat)
    ensures Shr(m * Pow2(i), i) == m
  {
    if i > 0 {
      assert m * Pow2(i) == 2 * (m * Pow2(i - 1));
      ShrMul(m, i - 1);
    }
  }

  lemma {:induction false} ShrSmall(v: nat, i: nat, n: nat)
    requires v < Pow2(n) && i <= n
    ensures Shr(v, i) < Pow2(n - i)
  {
    if i > 0 {
      ShrSmall(v / 2, i - 1, n - 1);
    }
  }

  lemma {:induction false} ToBitsAt(v: nat, n: nat, k: nat)
    requires k < n
    ensures ToBits(v, n)[k] == Shr(v, n - 1 - k) % 2
  {
    if k < n - 1 {
      ToBitsAt(v / 2, n - 1, k);
    }
  }

  // Dropping low bits shifts right.
  lemma {:induction false} TopBits(v: nat, n: nat, k: nat)
    requires k <= n
    ensures ToBits(v, n)[..n - k] == ToBits(Shr(v, k), n - k)
  {
    if k > 0 {
      TopBits(v / 2, n - 1, k - 1);
      assert ToBits(v, n)[..n - k] == ToBits(v / 2, n - 1)[..n - k];
    }
  }

  lemma {:induction false} BitsOfAppend(a: seq<byte>, b: seq<byte>)
    ensures BitsOf(a + b) == BitsOf(a) + BitsOf(b)
  {
    if b == [] {
      assert a + b == a;
    } else {
      var n := |b| - 1;
      calc {
        BitsOf(a + b);
        { assert (a + b)[..|a| + n] == a + b[..n]; }
        BitsOf(a + b[..n]) + ToBits(b[n], 8);
        { BitsOfAppend(a, b[..n]); }
        (BitsOf(a) + BitsOf(b[..n])) + ToBits(b[n], 8);
        BitsOf(a) + (BitsOf(b[..n]) + ToBits(b[n], 8));
        BitsOf(a) + BitsOf(b);
      }
    }
  }

  // ---------- reading ----------

  // `at` bits have been read; `eof` is raised by a read past the end, which yields zeros.
  datatype Cursor = Cursor(at: nat, eof: bool)

  function BitAt(s: seq<bit>, c: Cursor): bit {
    if c.at < |s| then s[c.at] else 0
  }

  // Reading goes forward, stays inside the string, and never takes eof back.
  predicate Moves(s: seq<bit>, c: Cursor, c': Cursor) {
    c.at <= c'.at && (c.eof ==> c'.eof) && (c.at <= |s| ==> c'.at <= |s|)
  }

  function Next(s: seq<bit>, c: Cursor): (c': Cursor)
    ensures Moves(s, c, c')
  {
    if c.at < |s| then Cursor(c.at + 1, c.eof) else Cursor(c.at, true)
  }

  function OneBit(s: seq<bit>, c: Cursor): (r: (bit, Cursor))
    ensures Moves(s, c, r.1)
  {
    (BitAt(s, c), Next(s, c))
  }

  // n bits as a number, most significant first.
  function Value(s: seq<bit>, c: Cursor, n: nat): nat
    decreases |s|, n
  {
    if n == 0 then 0 else BitAt(s, c) * Pow2(n - 1) + Value(s, Next(s, c), n - 1)
  }

  function Skip(s: seq<bit>, c: Cursor, n: nat): (c': Cursor)
    ensures Moves(s, c, c')
    decreases |s|, n
  {
    if n == 0 then c else Skip(s, Next(s, c), n - 1)
  }

  function Take(s: seq<bit>, c: Cursor, n: nat): (r: (nat, Cursor))
    ensures Moves(s, c, r.1)
  {
    (Value(s, c, n), Skip(s, c, n))
  }

  lemma {:induction false} TakeWithin(s: seq<bit>, c: Cursor, n: nat)
    requires c.at + n <= |s|
    ensures Value(s, c, n) == FromBits(s[c.at..c.at + n]) && Skip(s, c, n) == Cursor(c.at + n, c.eof)
    decreases n
  {
    if n > 0 {
      TakeWithin(s, Next(s, c), n - 1);
      assert s[c.at..c.at + n] == [s[c.at]] + s[c.at + 1..c.at + n];
      FromBitsAppend([s[c.at]], s[c.at + 1..c.at + n]);
    }
  }

  lemma {:induction false} TakeBits(s: seq<bit>, c: Cursor, n: nat, bits: seq<bit>)
    requires c.at + n <= |s| && s[c.at..c.at + n] == bits
    ensures Take(s, c, n) == (FromBits(bits), Cursor(c.at + n, c.eof))
  {
    TakeWithin(s, c, n);
  }

  lemma {:induction false} ValueBound(s: seq<bit>, c: Cursor, n: nat)
    ensures Value(s, c, n) < Pow2(n)
    decreases n
  {
    if n > 0 {
      ValueBound(s, Next(s, c), n - 1);
    }
  }

  // Past the end everything reads as zero.
  lemma {:induction false} TakePastEnd(s: seq<bit>, c: Cursor, n: nat)
    requires c.at >= |s|
    ensures Value(s, c, n) == 0 && Skip(s, c, n) == Cursor(c.at, c.eof || n > 0)
    decreases n
  {
    if n > 0 {
      TakePastEnd(s, Next(s, c), n - 1);
    }
  }

  lemma {:induction false} SkipSkip(s: seq<bit>, c: Cursor, m: nat, n: nat)
    ensures Skip(s, Skip(s, c, m), n) == Skip(s, c, m + n)
    ensures Value(s, c, m + n) == Value(s, c, m) * Pow2(n) + Value(s, Skip(s, c, m), n)
    decreases m
  {
    if m > 0 {
      SkipSkip(s, Next(s, c), m - 1, n);
      PowAdd(m - 1, n);
      Distribute(BitAt(s, c), Pow2(m - 1), Value(s, Next(s, c), m - 1), Pow2(n));
    }
  }

  lemma Distribute(b: int, p: int, v: int, q: int)
    ensures (b * p + v) * q == b * (p * q) + v * q
  {
  }

  lemma {:induction false} PowAdd(m: nat, n: nat)
    ensures Pow2(m + n) == Pow2(m) * Pow2(n)
  {
    if m > 0 {
      PowAdd(m - 1, n);
    }
  }

  // ---------- Exp-Golomb codes (sections 9.1 and 9.1.1 of ITU-T H.264) ----------

  // The zeros before the first one bit, at most 32, and the cursor behind the bit that ended them.
  function Prefix(s: seq<bit>, c: Cursor, size: nat): (r: (nat, Cursor))
    requires size <= 32
    ensures Moves(s, c, r.1)
    decreases |s|, 32 - size
  {
    if size == 32 then (size, c)
    else
      var c' := Next(s, c);
      if BitAt(s, c) != 0 || c'.eof then (size, c') else Prefix(s, c', size + 1)
  }

  // uint32 arithmetic: 1 << 32 is 0
  function UE(s: seq<bit>, c: Cursor): (r: (nat, Cursor))
    ensures Moves(s, c, r.1)
  {
    var (size, c') := Prefix(s, c, 0);
    ((Value(s, c', size) + Pow2(size) % TWO32 + TWO32 - 1) % TWO32, Skip(s, c', size))
  }

  function SE(s: seq<bit>, c: Cursor): (r: (int, Cursor))
    ensures Moves(s, c, r.1)
  {
    var (b, c') := UE(s, c);
    (if b % 2 == 0 then -(b / 2) else ((b + 1) % TWO32) / 2, c')
  }

  // ---------- what a read depends on ----------

  // Bit i is the same, or missing in both.
  predicate SameAt(s: seq<bit>, s': seq<bit>, i: nat) {
    (i < |s| <==> i < |s'|) && (i < |s| ==> s[i] == s'[i])
  }

  // The bits between two cursors are the same, and so is the end if it was reached.
  ghost predicate Alike(s: seq<bit>, s': seq<bit>, c: Cursor, c': Cursor) {
    && (|s| == |s'| || !c'.eof)
    && forall i: nat :: c.at <= i < c'.at ==> SameAt(s, s', i)
  }

  lemma SameBit(s: seq<bit>, s': seq<bit>, c: Cursor)
    requires Alike(s, s', c, Next(s, c))
    ensures OneBit(s', c) == OneBit(s, c)
  {
    assert c.at < |s| ==> SameAt(s, s', c.at);
  }

  lemma {:induction false} SameTake(s: seq<bit>, s': seq<bit>, c: Cursor, n: nat)
    requires Alike(s, s', c, Skip(s, c, n))
    ensures Take(s', c, n) == Take(s, c, n)
    decreases n
  {
    if n > 0 {
      SameBit(s, s', c);
      SameTake(s, s', Next(s, c), n - 1);
    }
  }

  lemma {:induction false} SamePrefix(s: seq<bit>, s': seq<bit>, c: Cursor, size: nat)
    requires size <= 32 && Alike(s, s', c, Prefix(s, c, size).1)
    ensures Prefix(s', c, size) == Prefix(s, c, size)
    decreases 32 - size
  {
    if size < 32 {
      var stop := BitAt(s, c) != 0 || Next(s, c).eof;
      if !stop {
        assert Moves(s, Next(s, c), Prefix(s, Next(s, c), size + 1).1);
      }
      SameBit(s, s', c);
      if !stop {
        SamePrefix(s, s', Next(s, c), size + 1);
      }
    }
  }

  lemma SameUE(s: seq<bit>, s': seq<bit>, c: Cursor)
    requires Alike(s, s', c, UE(s, c).1)
    ensures UE(s', c) == UE(s, c)
  {
    var (size, c') := Prefix(s, c, 0);
    SamePrefix(s, s', c, 0);
    SameTake(s, s', c', size);
  }

  lemma SameSE(s: seq<bit>, s': seq<bit>, c: Cursor)
    requires Alike(s, s', c, SE(s, c).1)
    ensures SE(s', c) == SE(s, c)
  {
    SameUE(s, s', c);
  }

  // The code of v: as many zeros as v + 1 has bits after its first, then v + 1.
  function Log2(v: nat): nat
    requires v > 0
  {
    if v == 1 then 0 else 1 + Log2(v / 2)
  }

  function Code(v: nat): seq<bit> {
    var size := Log2(v + 1);
    ToBits(0, size) + ToBits(v + 1, size + 1)
  }

  lemma {:induction false} LogBounds(v: nat)
    requires v > 0
    ensures Pow2(Log2(v)) <= v < 2 * Pow2(Log2(v))
  {
    if v > 1 {
      LogBounds(v / 2);
    }
  }

  lemma {:induction false} LogSmall(v: nat, n: nat)
    requires 0 < v < Pow2(n)
    ensures Log2(v) < n
  {
    if v > 1 {
      LogSmall(v / 2, n - 1);
    }
  }

  lemma {:induction false} ZeroBits(n: nat, k: nat)
    requires k < n
    ensures ToBits(0, n)[k] == 0
  {
    if k < n - 1 {
      ZeroBits(n - 1, k);
    }
  }

  lemma {:induction false} PrefixOfZeros(s: seq<bit>, c: Cursor, size: nat, zeros: nat)
    requires size + zeros < 32 && !c.eof && c.at + zeros < |s|
    requires forall k :: c.at <= k < c.at + zeros ==> s[k] == 0
    requires s[c.at + zeros] == 1
    ensures Prefix(s, c, size) == (size + zeros, Cursor(c.at + zeros + 1, false))
    decreases zeros
  {
    if zeros > 0 {
      PrefixOfZeros(s, Next(s, c), size + 1, zeros - 1);
    }
  }

  lemma {:induction false} ShrLog(v: nat)
    requires v > 0
    ensures Shr(v, Log2(v)) == 1
  {
    if v > 1 {
      ShrLog(v / 2);
    }
  }

  lemma TopBit(v: nat)
    requires v > 0
    ensures ToBits(v, Log2(v) + 1)[0] == 1
    ensures FromBits(ToBits(v, Log2(v) + 1)[1..]) == v - Pow2(Log2(v))
  {
    var n := Log2(v) + 1;
    var s := ToBits(v, n);
    LogBounds(v);
    ToBitsAt(v, n, 0);
    ShrLog(v);
    FromToBits(v, n);
    Euclid(v, Pow2(n), 0, v);
    assert s == [s[0]] + s[1..];
    FromBitsAppend([s[0]], s[1..]);
    assert FromBits([s[0]]) == FromBits([]) * 2 + s[0];
  }

  lemma Pow32()
    ensures Pow2(32) == TWO32 && Pow2(8) == 256 && Pow2(16) == TWO16
  {
    PowAdd(16, 16);
    PowAdd(8, 8);
  }

  lemma CodeShape(v: nat)
    requires v <= TWO32 - 2
    ensures Log2(v + 1) < 32 && |Code(v)| == 2 * Log2(v + 1) + 1
    ensures forall k :: 0 <= k < Log2(v + 1) ==> Code(v)[k] == 0
    ensures Code(v)[Log2(v + 1)] == 1
  {
    Pow32();
    LogSmall(v + 1, 32);
    var size := Log2(v + 1);
    forall k | 0 <= k < size
      ensures Code(v)[k] == 0
    {
      ZeroBits(size, k);
    }
    TopBit(v + 1);
  }

  lemma {:induction false} CodeBits(s: seq<bit>, at: nat, v: nat)
    requires v <= TWO32 - 2 && at + |Code(v)| <= |s| && s[at..at + |Code(v)|] == Code(v)
    ensures Log2(v + 1) < 32 && |Code(v)| == 2 * Log2(v + 1) + 1
    ensures forall k :: at <= k < at + Log2(v + 1) ==> s[k] == 0
    ensures s[at + Log2(v + 1)] == 1
  {
    CodeShape(v);
    var size := Log2(v + 1);
    forall k | at <= k <= at + size
      ensures s[k] == Code(v)[k - at]
    {
      SliceAt(s, at, at + |Code(v)|, k - at);
    }
  }

  // The zeros of a code and the one bit that ends them.
  lemma {:induction false} CodeZeros(s: seq<bit>, c: Cursor, v: nat)
    requires v <= TWO32 - 2 && !c.eof
    requires c.at + |Code(v)| <= |s| && s[c.at..c.at + |Code(v)|] == Code(v)
    ensures Log2(v + 1) < 32 && |Code(v)| == 2 * Log2(v + 1) + 1
    ensures Prefix(s, c, 0) == (Log2(v + 1), Cursor(c.at + Log2(v + 1) + 1, false))
  {
    CodeBits(s, c.at, v);
    PrefixOfZeros(s, c, 0, Log2(v + 1));
  }

  lemma CodeTail(s: seq<bit>, at: nat, v: nat)
    requires at + |Code(v)| <= |s| && s[at..at + |Code(v)|] == Code(v)
    ensures FromBits(s[at + Log2(v + 1) + 1..at + |Code(v)|]) == v + 1 - Pow2(Log2(v + 1))
  {
    var size := Log2(v + 1);
    var tail := ToBits(v + 1, size + 1);
    assert s[at + size + 1..at + |Code(v)|] == tail[1..] by {
      assert Code(v)[size + 1..] == tail[1..];
      assert s[at..at + |Code(v)|][size + 1..] == s[at + size + 1..at + |Code(v)|];
    }
    TopBit(v + 1);
  }

  // What follows the one bit.
  lemma {:induction false} CodeRest(s: seq<bit>, at: nat, v: nat, size: nat)
    requires size == Log2(v + 1) && |Code(v)| == 2 * size + 1
    requires at + |Code(v)| <= |s| && s[at..at + |Code(v)|] == Code(v)
    ensures Take(s, Cursor(at + size + 1, false), size)
         == (v + 1 - Pow2(size), Cursor(at + 2 * size + 1, false)) && Pow2(size) <= v + 1
  {
    LogBounds(v + 1);
    CodeTail(s, at, v);
    TakeWithin(s, Cursor(at + size + 1, false), size);
  }

  // ReadUEGolomb inverts the code of every value up to 2^32-2, from any bit position, and
  // consumes exactly the bits of the code.
  lemma UEInverts(s: seq<bit>, c: Cursor, v: nat)
    requires v <= TWO32 - 2 && !c.eof
    requires c.at + |Code(v)| <= |s| && s[c.at..c.at + |Code(v)|] == Code(v)
    ensures UE(s, c) == (v, Cursor(c.at + |Code(v)|, false))
  {
    CodeZeros(s, c, v);
    CodeRest(s, c.at, v, Log2(v + 1));
    UEFrom(s, c, v, Log2(v + 1), Cursor(c.at + Log2(v + 1) + 1, false), Cursor(c.at + |Code(v)|, false));
  }

  lemma UEFrom(s: seq<bit>, c: Cursor, v: nat, size: nat, c': Cursor, end: Cursor)
    requires v <= TWO32 - 2 && size < 32 && Pow2(size) <= v + 1
    requires Prefix(s, c, 0) == (size, c') && Take(s, c', size) == (v + 1 - Pow2(size), end)
    ensures UE(s, c) == (v, end)
  {
    Wrap32(v, size);
  }

  lemma Wrap32(v: nat, size: nat)
    requires v <= TWO32 - 2 && size < 32 && Pow2(size) <= v + 1
    ensures (v + 1 - Pow2(size) + Pow2(size) % TWO32 + TWO32 - 1) % TWO32 == v
  {
  }

  lemma {:induction false} PowMono(m: nat, n: nat)
    requires m <= n
    ensures Pow2(m) <= Pow2(n)
  {
    if m < n {
      PowMono(m, n - 1);
    }
  }

  // The signed mapping of section 9.1.1: 0, 1, -1, 2, -2, ...
  function SignedCode(k: int): (v: nat) {
    if k > 0 then 2 * k - 1 else -2 * k
  }

  lemma SignedValue(k: int)
    requires -0x8000_0000 < k < 0x8000_0000
    ensures SignedCode(k) <= TWO32 - 2
    ensures var b := SignedCode(k); k == if b % 2 == 0 then -(b / 2) else ((b + 1) % TWO32) / 2
  {
  }

  // ReadSEGolomb inverts it for every int32 but the least one.
  lemma SEInverts(s: seq<bit>, c: Cursor, k: int)
    requires -0x8000_0000 < k < 0x8000_0000 && !c.eof
    requires var code := Code(SignedCode(k)); c.at + |code| <= |s| && s[c.at..c.at + |code|] == code
    ensures SE(s, c) == (k, Cursor(c.at + |Code(SignedCode(k))|, false))
  {
    UEInverts(s, c, SignedCode(k));
    SignedValue(k);
  }

  // A 32-zero prefix is cut short: 2^32-1, whose code has 32 zeros, never survives, and the
  // last bit of its code is left unread.
  lemma UELimit(s: seq<bit>, c: Cursor)
    requires var code := Code(TWO32 - 1);
             !c.eof && c.at + |code| <= |s| && s[c.at..c.at + |code|] == code
    ensures |Code(TWO32 - 1)| == 65
    ensures UE(s, c) == (0x7FFF_FFFF, Cursor(c.at + 64, false))
  {
    LongCode();
    ReadLong(s, c, Code(TWO32 - 1));
  }

  lemma ReadLong(s: seq<bit>, c: Cursor, code: seq<bit>)
    requires |code| == 65 && code[..32] == ToBits(0, 32) && FromBits(code[32..64]) == 0x8000_0000
    requires !c.eof && c.at + 65 <= |s| && s[c.at..c.at + 65] == code
    ensures UE(s, c) == (0x7FFF_FFFF, Cursor(c.at + 64, false))
  {
    forall k | c.at <= k < c.at + 32
      ensures s[k] == 0
    {
      SliceAt(s, c.at, c.at + 65, k - c.at);
      ZeroBits(32, k - c.at);
      assert code[..32][k - c.at] == code[k - c.at];
    }
    PrefixFull(s, c, 0);
    SliceSlice(s, c.at, c.at + 65, 32, 64);
    TakeBits(s, Cursor(c.at + 32, false), 32, code[32..64]);
    Pow32();
  }

  lemma LongCode()
    ensures |Code(TWO32 - 1)| == 65 && Code(TWO32 - 1)[..32] == ToBits(0, 32)
    ensures FromBits(Code(TWO32 - 1)[32..64]) == 0x8000_0000
  {
    var v, n, k := TWO32, 33, 32;
    Pow32();
    LogPow(k);
    var tail := ToBits(v, n);
    assert Code(TWO32 - 1) == ToBits(0, k) + tail;
    assert (ToBits(0, k) + tail)[k..2 * k] == tail[..k];
    assert tail[..k] == ToBits(v / 2, k);
    FromToBits(v / 2, k);
  }

  lemma {:induction false} LogPow(n: nat)
    ensures Log2(Pow2(n)) == n
  {
    if n > 0 {
      LogPow(n - 1);
    }
  }

  lemma {:induction false} PrefixFull(s: seq<bit>, c: Cursor, size: nat)
    requires size <= 32 && !c.eof && c.at + 32 - size <= |s|
    requires forall k :: c.at <= k < c.at + 32 - size ==> s[k] == 0
    ensures Prefix(s, c, size) == (32, Cursor(c.at + 32 - size, false))
    decreases 32 - size
  {
    if size < 32 {
      PrefixFull(s, Next(s, c), size + 1);
    }
  }
}
