// ADTS frames and the RTP payload of section 3.3.6 of RFC 3640: pkg/aac/adts.go and
// pkg/aac/rtp.go.
module Adts {
  import opened Wrappers
  import opened Bytes
  import opened Seqs
  import opened Bits

  const HEADER_SIZE: nat := 7
  const MAX_SIZE: nat := 0x2000  // 13 bits

  // a | b
  function Or(a: nat, b: nat): nat
    decreases a
  {
    if a == 0 then b else 2 * Or(a / 2, b / 2) + (if a % 2 == 1 || b % 2 == 1 then 1 else 0)
  }

  lemma {:induction false} OrBound(a: nat, b: nat, limit: nat)
    requires a < limit && b < limit && (limit == 1 || limit % 2 == 0)
    requires limit in {1, 2, 4, 8, 16, 32, 64, 128, 256}
    ensures Or(a, b) < limit
    decreases a
  {
    if a > 0 {
      OrBound(a / 2, b / 2, limit / 2);
    }
  }

  function OrByte(a: byte, b: byte): byte {
    OrBound(a, b, 256);
    Or(a, b)
  }

  lemma {:induction false} OrSwaps(a: nat, b: nat)
    ensures Or(a, b) == Or(b, a)
    decreases a
  {
    if a == 0 {
      OrZero(b);
    } else if b == 0 {
      OrZero(a);
    } else {
      OrSwaps(a / 2, b / 2);
    }
  }

  lemma {:induction false} OrStep(a: nat, b: nat)
    ensures Or(2 * a, b) == 2 * Or(a, b / 2) + b % 2
  {
  }

  // The low n bits of a are zero.
  predicate LowZero(a: nat, n: nat)
    decreases n
  {
    n == 0 || (a % 2 == 0 && LowZero(a / 2, n - 1))
  }

  // Bits that do not meet add up.
  lemma {:induction false} OrAdds(a: nat, b: nat, n: nat)
    requires LowZero(a, n) && b < Pow2(n)
    ensures Or(a, b) == a + b
    decreases n
  {
    if n == 0 {
      OrZero(a);
    } else {
      OrAdds(a / 2, b / 2, n - 1);
      OrStep(a / 2, b);
    }
  }

  lemma {:induction false} OrZero(a: nat)
    ensures Or(a, 0) == a && Or(0, a) == a
    decreases a
  {
    if a > 0 {
      OrZero(a / 2);
    }
  }

  // ---------- the header ----------

  // Sync word all ones, layer zero: b[1] & 0b1111_0110 == 0xF0
  predicate IsADTS(b: seq<byte>) {
    |b| >= HEADER_SIZE && b[0] == 0xFF && b[1] / 16 == 15 && b[1] / 2 % 4 == 0
  }

  // MPEG-4 or MPEG-2, with a checksum or without.
  lemma SyncExactly(b: seq<byte>)
    ensures IsADTS(b) <==> |b| >= 7 && b[0] == 0xFF && (b[1] == 0xF0 || b[1] == 0xF1 || b[1] == 0xF8 || b[1] == 0xF9)
  {
  }

  function ReadADTSSize(b: seq<byte>): (size: nat)
    requires |b| >= 6
    ensures size < MAX_SIZE
  {
    (b[3] as nat % 4) * 2048 + b[4] as nat * 8 + b[5] as nat / 32
  }

  // A header without a length.
  predicate Sizeless(b: seq<byte>) {
    |b| >= 6 && b[3] % 4 == 0 && b[5] < 32
  }

  function WithSize(b: seq<byte>, size: nat): (r: seq<byte>)
    requires |b| >= 6 && size < TWO16
    ensures |r| == |b|
  {
    b[3 := OrByte(b[3], size / 2048)][4 := size / 8 % 256][5 := OrByte(b[5], size * 32 % 256)]
  }

  lemma {:induction false} SizeParts(size: nat)
    requires size < TWO16
    ensures (size / 2048 % 4) * 2048 + (size / 8 % 256) * 8 + size % 8 == size % MAX_SIZE
    ensures size * 32 % 256 == size % 8 * 32
  {
    assert size / 8 / 256 == size / 2048;
  }

  // The low two bits of an or, when one side has none.
  lemma {:induction false} OrLow(a: nat, b: nat)
    requires a % 4 == 0
    ensures Or(a, b) % 4 == b % 4
  {
    var q := a / 4;
    OrStep(2 * q, b);
    OrStep(q, b / 2);
    LowTwo(Or(q, b / 2 / 2), b);
  }

  lemma {:induction false} LowTwo(x: nat, b: nat)
    ensures (2 * (2 * x + b / 2 % 2) + b % 2) % 4 == b % 4
  {
    var low := 2 * (b / 2 % 2) + b % 2;
    Euclid(4 * x + low, 4, x, low);
    Euclid(b, 4, b / 2 / 2, low);
  }

  lemma {:induction false} HighThree(x: nat, b: nat)
    requires x < 8 && b < 32
    ensures Or(b, 32 * x) == 32 * x + b
  {
    assert LowZero(32 * x, 5) && Pow2(5) == 32;
    OrAdds(32 * x, b, 5);
    OrSwaps(32 * x, b);
  }

  // Reading back a written size gives it modulo 2^13: itself exactly when it has 13 bits.
  lemma {:induction false} SizeRoundTrip(b: seq<byte>, size: nat)
    requires Sizeless(b) && size < TWO16
    ensures ReadADTSSize(WithSize(b, size)) == size % MAX_SIZE
    ensures ReadADTSSize(WithSize(b, size)) == size <==> size < MAX_SIZE
  {
    OrLow(b[3], size / 2048);
    HighThree(size % 8, b[5]);
    SizeParts(size);
    SizeRead(b, WithSize(b, size), size);
  }

  lemma {:induction false} SizeRead(b: seq<byte>, r: seq<byte>, size: nat)
    requires Sizeless(b) && size < TWO16 && |r| >= 6
    requires r[3] as nat % 4 == size / 2048 % 4 && r[4] == size / 8 % 256 && r[5] as nat == size % 8 * 32 + b[5]
    ensures ReadADTSSize(r) == size % MAX_SIZE && (ReadADTSSize(r) == size <==> size < MAX_SIZE)
  {
    SizeParts(size);
  }

  method WriteADTSSize(b: array<byte>, size: nat)
    requires b.Length >= 6 && size < TWO16
    modifies b
    ensures b[..] == WithSize(old(b[..]), size)
  {
    b[3] := OrByte(b[3], size / 2048);
    b[4] := size / 8 % 256;
    b[5] := OrByte(b[5], size * 32 % 256);
  }

  // ---------- payloads ----------

  // AU headers: the size in bits above three index bits, 16 bits in all
  function AuHeader(size: nat): seq<byte> {
    Be(size * 8, 2)
  }

  function AuHeaders(sizes: seq<nat>): (b: seq<byte>)
    ensures |b| == 2 * |sizes|
  {
    if sizes == [] then [] else AuHeaders(sizes[..|sizes| - 1]) + AuHeader(sizes[|sizes| - 1])
  }

  // The sizes the frames in src claim, from index i on; None if one claims to be empty.
  function Sizes(src: seq<byte>, i: nat): Option<seq<nat>>
    decreases |src| - i
  {
    if i + HEADER_SIZE >= |src| then Some([])
    else
      var size := ReadADTSSize(src[i..]);
      if size == 0 then None
      else
        var more := Sizes(src, i + size);
        if more.None? then None else Some([size] + more.value)
  }

  // None: ADTStoRTP never returns.
  function AdtsToRtp(src: seq<byte>): Option<seq<byte>> {
    var sizes := Sizes(src, 0);
    if sizes.None? then None
    else Some(Be(16 * |sizes.value|, 2) + AuHeaders(sizes.value) + src)
  }

  // The source loops for ever on a frame of length zero; here that is the result None.
  method ADTStoRTP(src: seq<byte>) returns (r: Option<seq<byte>>)
    ensures r == AdtsToRtp(src)
  {
    var dst: seq<byte> := [0, 0];
    ghost var sizes: seq<nat> := [];
    var i := 0;
    assert dst == [0, 0] + AuHeaders(sizes);
    if Sizes(src, 0).Some? {
      assert sizes + Sizes(src, 0).value == Sizes(src, 0).value;
    }
    while i + HEADER_SIZE < |src|
      invariant i >= 0 && dst == [0, 0] + AuHeaders(sizes)
      invariant Sizes(src, 0) == if Sizes(src, i).None? then None else Some(sizes + Sizes(src, i).value)
      decreases |src| - i
    {
      var size := ReadADTSSize(src[i..]);
      if size == 0 {
        return None;
      }
      SnocTake(sizes, size);
      Assoc([0, 0], AuHeaders(sizes), AuHeader(size));
      if Sizes(src, i + size).Some? {
        Assoc(sizes, [size], Sizes(src, i + size).value);
      }
      dst := dst + AuHeader(size);
      sizes := sizes + [size];
      i := i + size;
    }
    assert sizes + [] == sizes;
    dst := Be((|dst| - 2) * 8, 2) + dst[2..];
    r := Some(dst + src);
  }

  // One unit of the output: a frame as it is, anything else behind a header with its size.
  function Framed(adts: seq<byte>, unit: seq<byte>): seq<byte>
    requires |adts| == HEADER_SIZE
  {
    if IsADTS(unit) then unit else WithSize(adts, (HEADER_SIZE + |unit|) % TWO16) + unit
  }

  // The units behind their headers; None is a slice out of range.
  function Frames(adts: seq<byte>, headers: seq<byte>, units: seq<byte>): Option<seq<byte>>
    requires |adts| == HEADER_SIZE
    decreases |headers|
  {
    if headers == [] then Some([])
    else if |headers| == 1 then None
    else
      var size := U(headers[..2]) / 8;
      if size > |units| then None
      else
        var more := Frames(adts, headers[2..], units[size..]);
        if more.None? then None else Some(Framed(adts, units[..size]) + more.value)
  }

  function RtpToAdts(adts: seq<byte>, src: seq<byte>): Option<seq<byte>>
    requires |adts| == HEADER_SIZE
  {
    if |src| < 2 then None
    else
      var size := U(src[..2]) / 8;
      if 2 + size > |src| then None else Frames(adts, src[2..2 + size], src[2 + size..])
  }

  // adts is the header CodecToADTS makes from the codec.
  method RTPToADTS(adts: seq<byte>, src: seq<byte>) returns (r: Option<seq<byte>>)
    requires |adts| == HEADER_SIZE
    ensures r == RtpToAdts(adts, src)
  {
    if |src| < 2 {
      return None;
    }
    var size := U(src[..2]) / 8;
    if 2 + size > |src| {
      return None;
    }
    var headers, units, dst: seq<byte> := src[2..2 + size], src[2 + size..], [];
    ghost var all := Frames(adts, headers, units);
    if all.Some? {
      assert dst + all.value == all.value;
    }
    while |headers| > 0
      invariant all == var more := Frames(adts, headers, units);
                       if more.None? then None else Some(dst + more.value)
      decreases |headers|
    {
      if |headers| == 1 {
        return None;
      }
      var unitSize := U(headers[..2]) / 8;
      if unitSize > |units| {
        return None;
      }
      var unit := units[..unitSize];
      var frame := unit;
      if !IsADTS(unit) {
        var header := new byte[HEADER_SIZE](i requires 0 <= i < HEADER_SIZE => adts[i]);
        assert header[..] == adts;
        WriteADTSSize(header, (HEADER_SIZE + |unit|) % TWO16);
        frame := header[..] + unit;
      }
      ghost var more := Frames(adts, headers[2..], units[unitSize..]);
      if more.Some? {
        Assoc(dst, frame, more.value);
      }
      dst := dst + frame;
      headers := headers[2..];
      units := units[unitSize..];
    }
    assert dst + [] == dst;
    r := Some(dst);
  }
}
