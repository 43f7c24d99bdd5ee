// From ADTS to an RTP payload and back.
module AdtsRoundTrip {
  import opened Wrappers
  import opened Bytes
  import opened Seqs
  import opened Adts

  // A frame with a body and the length it claims.
  predicate IsFrame(f: seq<byte>) {
    |f| > HEADER_SIZE && IsADTS(f) && ReadADTSSize(f) == |f|
  }

  function SizesOf(units: seq<seq<byte>>): (r: seq<nat>)
    ensures |r| == |units|
  {
    if units == [] then [] else SizesOf(units[..|units| - 1]) + [|units[|units| - 1]|]
  }

  lemma {:induction false} SizesFront(unit: seq<byte>, units: seq<seq<byte>>)
    ensures SizesOf([unit] + units) == [|unit|] + SizesOf(units)
    decreases |units|
  {
    var all := [unit] + units;
    if units == [] {
      var none: seq<seq<byte>> := [];
      assert all == [unit] && all[..0] == none;
    } else {
      var n := |units| - 1;
      assert all[..n + 1] == [unit] + units[..n] && all[n + 1] == units[n];
      SizesFront(unit, units[..n]);
    }
  }

  lemma {:induction false} HeadersFront(size: nat, sizes: seq<nat>)
    ensures AuHeaders([size] + sizes) == AuHeader(size) + AuHeaders(sizes)
    decreases |sizes|
  {
    var all := [size] + sizes;
    if sizes == [] {
      var none: seq<nat> := [];
      assert all == [size] && all[..0] == none && AuHeaders(none) == [];
    } else {
      var n := |sizes| - 1;
      assert all[..n + 1] == [size] + sizes[..n] && all[n + 1] == sizes[n];
      HeadersFront(size, sizes[..n]);
      Assoc(AuHeader(size), AuHeaders(sizes[..n]), AuHeader(sizes[n]));
    }
  }

  // ---------- frames in a row ----------

  lemma {:induction false} SizePrefix(f: seq<byte>, rest: seq<byte>)
    requires |f| >= 6
    ensures ReadADTSSize(f + rest) == ReadADTSSize(f)
  {
  }

  // One turn of the loop over src, at a frame.
  lemma {:induction false} SizesStep(src: seq<byte>, i: nat, f: seq<byte>, rest: seq<byte>)
    requires i <= |src| && src[i..] == f + rest && |f| > HEADER_SIZE
    ensures var size := ReadADTSSize(f);
            Sizes(src, i) == if size == 0 then None
                             else if Sizes(src, i + size).None? then None
                             else Some([size] + Sizes(src, i + size).value)
  {
    SizePrefix(f, rest);
  }

  lemma {:induction false} Behind(src: seq<byte>, i: nat, f: seq<byte>, rest: seq<byte>)
    requires i <= |src| && src[i..] == f + rest
    ensures i + |f| <= |src| && src[i + |f|..] == rest
  {
    DropDrop(src, i, |f|);
    Halves(f, rest);
  }

  // Any concatenation of frames is cut at the frames: ADTStoRTP returns.
  lemma {:induction false} SizesOfFrames(src: seq<byte>, i: nat, frames: seq<seq<byte>>)
    requires i <= |src| && src[i..] == Flat(frames)
    requires forall k :: 0 <= k < |frames| ==> IsFrame(frames[k])
    ensures Sizes(src, i) == Some(SizesOf(frames))
    decreases |frames|
  {
    if frames != [] {
      var f, rest := frames[0], frames[1..];
      assert frames == [f] + rest;
      FlatFront(f, rest);
      SizesFront(f, rest);
      SizesStep(src, i, f, Flat(rest));
      Behind(src, i, f, Flat(rest));
      SizesOfFrames(src, i + |f|, rest);
    }
  }

  // The RTP payload of a list of units.
  function Packet(units: seq<seq<byte>>): seq<byte> {
    Be(16 * |units|, 2) + AuHeaders(SizesOf(units)) + Flat(units)
  }

  lemma {:induction false} FramesToRtp(frames: seq<seq<byte>>)
    requires forall k :: 0 <= k < |frames| ==> IsFrame(frames[k])
    ensures AdtsToRtp(Flat(frames)) == Some(Packet(frames))
  {
    SizesOfFrames(Flat(frames), 0, frames);
  }

  // ---------- units behind their headers ----------

  function FramedAll(adts: seq<byte>, units: seq<seq<byte>>): seq<byte>
    requires |adts| == HEADER_SIZE
  {
    if units == [] then [] else Framed(adts, units[0]) + FramedAll(adts, units[1..])
  }

  lemma {:induction false} HeaderRead(size: nat)
    requires size < MAX_SIZE
    ensures U(AuHeader(size)) / 8 == size
  {
    UBe(size * 8, 2);
    Powers();
  }

  lemma {:induction false} OneUnit(adts: seq<byte>, unit: seq<byte>, headers: seq<byte>, units: seq<byte>)
    requires |adts| == HEADER_SIZE && |unit| < MAX_SIZE
    ensures Frames(adts, AuHeader(|unit|) + headers, unit + units)
         == var more := Frames(adts, headers, units);
            if more.None? then None else Some(Framed(adts, unit) + more.value)
  {
    Halves(AuHeader(|unit|), headers);
    Halves(unit, units);
    HeaderRead(|unit|);
  }

  lemma {:induction false} UnitsFramed(adts: seq<byte>, units: seq<seq<byte>>)
    requires |adts| == HEADER_SIZE && forall k :: 0 <= k < |units| ==> |units[k]| < MAX_SIZE
    ensures Frames(adts, AuHeaders(SizesOf(units)), Flat(units)) == Some(FramedAll(adts, units))
    decreases |units|
  {
    if units != [] {
      var unit, rest := units[0], units[1..];
      assert units == [unit] + rest;
      FlatFront(unit, rest);
      SizesFront(unit, rest);
      HeadersFront(|unit|, SizesOf(rest));
      UnitsFramed(adts, rest);
      OneUnit(adts, unit, AuHeaders(SizesOf(rest)), Flat(rest));
    }
  }

  lemma {:induction false} RtpSplit(adts: seq<byte>, size: seq<byte>, headers: seq<byte>, units: seq<byte>)
    requires |adts| == HEADER_SIZE && |size| == 2 && U(size) / 8 == |headers|
    ensures RtpToAdts(adts, size + headers + units) == Frames(adts, headers, units)
  {
    Thirds(size, headers, units);
    assert (size + headers + units)[..2] == size;
  }

  lemma {:induction false} CountWraps(n: nat)
    ensures U(Be(16 * n, 2)) / 8 == 2 * (n % 4096)
  {
    UBe(16 * n, 2);
    Powers();
    Sixteenths(n);
  }

  lemma {:induction false} CountRead(n: nat)
    requires n <= 4095
    ensures U(Be(16 * n, 2)) / 8 == 2 * n
  {
    CountWraps(n);
  }

  lemma {:induction false} Sixteenths(n: nat)
    ensures 16 * n % TWO16 == 16 * (n % 4096)
  {
    var q, r := n / 4096, n % 4096;
    assert 16 * n == TWO16 * q + 16 * r;
  }

  // RTPToADTS frames every unit of a packet, for as many units as the header size has bits for.
  lemma {:induction false} PacketFramed(adts: seq<byte>, units: seq<seq<byte>>)
    requires |adts| == HEADER_SIZE && |units| <= 4095
    requires forall k :: 0 <= k < |units| ==> |units[k]| < MAX_SIZE
    ensures RtpToAdts(adts, Packet(units)) == Some(FramedAll(adts, units))
  {
    CountRead(|units|);
    UnitsFramed(adts, units);
    PacketParts(adts, Be(16 * |units|, 2), AuHeaders(SizesOf(units)), Flat(units), FramedAll(adts, units));
  }

  lemma {:induction false} PacketParts(adts: seq<byte>, size: seq<byte>, headers: seq<byte>, units: seq<byte>, framed: seq<byte>)
    requires |adts| == HEADER_SIZE && |size| == 2 && U(size) / 8 == |headers|
    requires Frames(adts, headers, units) == Some(framed)
    ensures RtpToAdts(adts, size + headers + units) == Some(framed)
  {
    RtpSplit(adts, size, headers, units);
  }

  lemma {:induction false} FramesStay(adts: seq<byte>, frames: seq<seq<byte>>)
    requires |adts| == HEADER_SIZE && forall k :: 0 <= k < |frames| ==> IsADTS(frames[k])
    ensures FramedAll(adts, frames) == Flat(frames)
    decreases |frames|
  {
    if frames != [] {
      assert frames == [frames[0]] + frames[1..];
      FlatFront(frames[0], frames[1..]);
      FramesStay(adts, frames[1..]);
    }
  }

  // ADTS frames survive the way to RTP and back, whatever the codec's own header is.
  lemma {:induction false} RoundTrip(adts: seq<byte>, frames: seq<seq<byte>>)
    requires |adts| == HEADER_SIZE && |frames| <= 4095
    requires forall k :: 0 <= k < |frames| ==> IsFrame(frames[k])
    ensures AdtsToRtp(Flat(frames)).Some?
    ensures RtpToAdts(adts, AdtsToRtp(Flat(frames)).value) == Some(Flat(frames))
  {
    FramesToRtp(frames);
    PacketFramed(adts, frames);
    FramesStay(adts, frames);
  }

  lemma {:induction false} HeadKept(head: seq<byte>, unit: seq<byte>)
    requires |head| == HEADER_SIZE
    ensures IsADTS(head + unit) == IsADTS(head) && ReadADTSSize(head + unit) == ReadADTSSize(head)
  {
  }

  // Raw units come out as frames with the right length, as long as it has 13 bits.
  lemma {:induction false} RawUnitFramed(adts: seq<byte>, unit: seq<byte>)
    requires |adts| == HEADER_SIZE && IsADTS(adts) && Sizeless(adts)
    requires !IsADTS(unit) && 0 < |unit| && HEADER_SIZE + |unit| < MAX_SIZE
    ensures IsFrame(Framed(adts, unit)) && Framed(adts, unit)[HEADER_SIZE..] == unit
  {
    var size := HEADER_SIZE + |unit|;
    var head := WithSize(adts, size);
    SizeRoundTrip(adts, size);
    Small(size, TWO16);
    assert head[0] == adts[0] && head[1] == adts[1];
    HeadKept(head, unit);
    Halves(head, unit);
  }

  // ---------- where it ends ----------

  lemma {:induction false} HeadersPrefix(units: seq<seq<byte>>, k: nat)
    requires k <= |units|
    ensures 2 * k <= |AuHeaders(SizesOf(units))|
    ensures AuHeaders(SizesOf(units))[..2 * k] == AuHeaders(SizesOf(units[..k]))
  {
    if k < |units| {
      var n := |units| - 1;
      HeadersPrefix(units[..n], k);
      assert units[..n][..k] == units[..k];
      SnocTake(SizesOf(units[..n]), |units[n]|);
      TakeFirst(AuHeaders(SizesOf(units[..n])), AuHeader(|units[n]|), 2 * k);
    } else {
      assert units[..k] == units;
    }
  }

  lemma {:induction false} TakeFirst(a: seq<byte>, b: seq<byte>, i: nat)
    requires i <= |a|
    ensures (a + b)[..i] == a[..i]
  {
  }

  // Every unit adds at most a header, whatever bytes stand behind the headers.
  lemma {:induction false} FramesBound(adts: seq<byte>, units: seq<seq<byte>>, bytes: seq<byte>)
    requires |adts| == HEADER_SIZE && forall k :: 0 <= k < |units| ==> |units[k]| < MAX_SIZE
    ensures var r := Frames(adts, AuHeaders(SizesOf(units)), bytes);
            r.Some? ==> |r.value| <= |Flat(units)| + HEADER_SIZE * |units|
    decreases |units|
  {
    if units != [] {
      var unit, rest := units[0], units[1..];
      assert units == [unit] + rest;
      FlatFront(unit, rest);
      SizesFront(unit, rest);
      HeadersFront(|unit|, SizesOf(rest));
      Halves(AuHeader(|unit|), AuHeaders(SizesOf(rest)));
      HeaderRead(|unit|);
      if |unit| <= |bytes| {
        FramesBound(adts, rest, bytes[|unit|..]);
      }
    }
  }

  lemma {:induction false} FramesWeigh(frames: seq<seq<byte>>, k: nat)
    requires k <= |frames| && forall i :: 0 <= i < |frames| ==> IsFrame(frames[i])
    ensures |Flat(frames)| >= |Flat(frames[..k])| + 8 * (|frames| - k)
    decreases |frames|
  {
    if k < |frames| {
      var n := |frames| - 1;
      FramesWeigh(frames[..n], k);
      assert frames[..n][..k] == frames[..k];
    } else {
      assert frames[..k] == frames;
    }
  }

  lemma {:induction false} PartRead(adts: seq<byte>, size: seq<byte>, headers: seq<byte>, i: nat, units: seq<byte>)
    requires |adts| == HEADER_SIZE && |size| == 2 && U(size) / 8 == i <= |headers|
    ensures RtpToAdts(adts, size + headers + units) == Frames(adts, headers[..i], headers[i..] + units)
  {
    Split(headers, i);
    Assoc(size, headers[..i], headers[i..]);
    Assoc(size + headers[..i], headers[i..], units);
    RtpSplit(adts, size, headers[..i], headers[i..] + units);
  }

  lemma {:induction false} BoundedPart(adts: seq<byte>, part: seq<seq<byte>>, front: seq<byte>, bytes: seq<byte>, r: Option<seq<byte>>)
    requires |adts| == HEADER_SIZE && forall k :: 0 <= k < |part| ==> |part[k]| < MAX_SIZE
    requires front == AuHeaders(SizesOf(part)) && r == Frames(adts, front, bytes)
    ensures r.Some? ==> |r.value| <= |Flat(part)| + HEADER_SIZE * |part|
  {
    FramesBound(adts, part, bytes);
  }

  // The header size wraps: only the units of the first n % 4096 headers come back.
  lemma {:induction false} FirstUnits(adts: seq<byte>, frames: seq<seq<byte>>, k: nat)
    requires |adts| == HEADER_SIZE && k == |frames| % 4096
    requires forall i :: 0 <= i < |frames| ==> |frames[i]| < MAX_SIZE
    ensures var r := RtpToAdts(adts, Packet(frames));
            r.Some? ==> |r.value| <= |Flat(frames[..k])| + HEADER_SIZE * k
  {
    var size, headers, flat := Be(16 * |frames|, 2), AuHeaders(SizesOf(frames)), Flat(frames);
    CountWraps(|frames|);
    HeadersPrefix(frames, k);
    PartRead(adts, size, headers, 2 * k, flat);
    BoundedPart(adts, frames[..k], headers[..2 * k], headers[2 * k..] + flat, RtpToAdts(adts, Packet(frames)));
  }

  lemma {:induction false} Lighter(frames: seq<seq<byte>>, k: nat, r: Option<seq<byte>>)
    requires |frames| > 4095 && k == |frames| % 4096 && forall i :: 0 <= i < |frames| ==> IsFrame(frames[i])
    requires r.Some? ==> |r.value| <= |Flat(frames[..k])| + HEADER_SIZE * k
    ensures r.Some? ==> |r.value| < |Flat(frames)|
  {
    FramesWeigh(frames, k);
  }

  // One frame more than fits, and too little comes back.
  lemma {:induction false} TooManyFrames(adts: seq<byte>, frames: seq<seq<byte>>)
    requires |adts| == HEADER_SIZE && |frames| > 4095
    requires forall k :: 0 <= k < |frames| ==> IsFrame(frames[k])
    ensures var r := RtpToAdts(adts, Packet(frames)); r.Some? ==> |r.value| < |Flat(frames)|
  {
    FirstUnits(adts, frames, |frames| % 4096);
    Lighter(frames, |frames| % 4096, RtpToAdts(adts, Packet(frames)));
  }

  // The exact limit of the round trip.
  lemma {:induction false} RoundTripLimit(adts: seq<byte>, frames: seq<seq<byte>>)
    requires |adts| == HEADER_SIZE && forall k :: 0 <= k < |frames| ==> IsFrame(frames[k])
    ensures AdtsToRtp(Flat(frames)).Some?
    ensures RtpToAdts(adts, AdtsToRtp(Flat(frames)).value) == Some(Flat(frames)) <==> |frames| <= 4095
  {
    FramesToRtp(frames);
    if |frames| <= 4095 {
      RoundTrip(adts, frames);
    } else {
      TooManyFrames(adts, frames);
    }
  }

  // From index i on the frames claim the sizes `cuts`, all of them positive, and then one with
  // more than a header left claims no length.
  predicate Walk(src: seq<byte>, i: nat, cuts: seq<nat>)
    decreases |cuts|
  {
    && i + HEADER_SIZE < |src|
    && var size := ReadADTSSize(src[i..]);
       if cuts == [] then size == 0 else size > 0 && cuts[0] == size && Walk(src, i + size, cuts[1..])
  }

  // The sizes on the way to a frame without a length.
  predicate Hangs(src: seq<byte>, cuts: seq<nat>) {
    Walk(src, 0, cuts)
  }

  lemma {:induction false} WalkStops(src: seq<byte>, i: nat, cuts: seq<nat>)
    requires Walk(src, i, cuts)
    ensures Sizes(src, i).None?
    decreases |cuts|
  {
    if cuts != [] {
      WalkStops(src, i + cuts[0], cuts[1..]);
    }
  }

  lemma {:induction false} StopsWalk(src: seq<byte>, i: nat) returns (cuts: seq<nat>)
    requires Sizes(src, i).None?
    ensures Walk(src, i, cuts)
    decreases |src| - i
  {
    var size := ReadADTSSize(src[i..]);
    if size == 0 {
      cuts := [];
    } else {
      var more := StopsWalk(src, i + size);
      cuts := [size] + more;
      assert cuts[1..] == more;
    }
  }

  // ADTStoRTP never returns exactly if the claimed sizes lead it to a frame that claims none.
  lemma {:induction false} HangsExactly(src: seq<byte>)
    ensures AdtsToRtp(src).None? <==> exists cuts :: Hangs(src, cuts)
  {
    if Sizes(src, 0).None? {
      var cuts := StopsWalk(src, 0);
      assert Hangs(src, cuts);
    } else if cuts :| Hangs(src, cuts) {
      WalkStops(src, 0, cuts);
      assert false;
    }
  }

  // For instance, a frame that claims no length behind whole frames.
  lemma {:induction false} EmptyFrameHangs(frames: seq<seq<byte>>, empty: seq<byte>, rest: seq<byte>)
    requires forall k :: 0 <= k < |frames| ==> IsFrame(frames[k])
    requires |empty| > HEADER_SIZE && ReadADTSSize(empty) == 0
    ensures AdtsToRtp(Flat(frames) + (empty + rest)) == None
  {
    HangsBehind(Flat(frames) + (empty + rest), 0, frames, empty, rest);
  }

  lemma {:induction false} HangsBehind(
      src: seq<byte>, i: nat, frames: seq<seq<byte>>, empty: seq<byte>, rest: seq<byte>)
    requires i <= |src| && src[i..] == Flat(frames) + (empty + rest)
    requires forall k :: 0 <= k < |frames| ==> IsFrame(frames[k])
    requires |empty| > HEADER_SIZE && ReadADTSSize(empty) == 0
    ensures Sizes(src, i) == None
    decreases |frames|
  {
    var tail := empty + rest;
    if frames == [] {
      assert Flat(frames) + tail == tail;
      SizesStep(src, i, empty, rest);
    } else {
      var f, more := frames[0], frames[1..];
      assert frames == [f] + more;
      FlatFront(f, more);
      Assoc(f, Flat(more), tail);
      SizesStep(src, i, f, Flat(more) + tail);
      Behind(src, i, f, Flat(more) + tail);
      HangsBehind(src, i + |f|, more, empty, rest);
    }
  }

  // ---------- the bits on the wire ----------

  // A header with the sync word, layer 0 and this frame length; everything else may be anything.
  lemma {:induction false} HeaderReads(b: seq<byte>, size: nat, version: nat, high: nat, low: nat)
    requires |b| >= 7 && size < 0x2000 && version < 16 && version / 2 % 4 == 0 && high < 64 && low < 32
    requires b[0] == 0xFF && b[1] == 0xF0 + version
    requires b[3] == 4 * high + size / 2048 && b[4] == size / 8 % 256 && b[5] == 32 * (size % 8) + low
    ensures IsADTS(b) && ReadADTSSize(b) == size
  {
    assert b[3] as nat % 4 == size / 2048;
    assert b[5] as nat / 32 == size % 8;
  }

  // An RTP packet: the size of the headers in bits, a header of two bytes for each unit, its size
  // in the upper 13 bits, and then the units (section 3.3.6 of RFC 3640).
  lemma {:induction false} PacketLayout(units: seq<seq<byte>>, k: nat)
    requires k < |units| <= 4095 && forall j :: 0 <= j < |units| ==> |units[j]| < 0x2000
    ensures Packet(units)[..2] == [|units| / 16, |units| % 16 * 16]
    ensures Packet(units)[2 + 2 * k..4 + 2 * k] == [|units[k]| / 32, |units[k]| % 32 * 8]
    ensures Packet(units)[2 + 2 * |units|..] == Flat(units)
  {
    CountBytes(|units|);
    HeaderAt(units, k);
    PacketAt(Packet(units), Be(16 * |units|, 2), AuHeaders(SizesOf(units)), Flat(units), 2 * k);
  }

  lemma {:induction false} PacketAt(p: seq<byte>, count: seq<byte>, headers: seq<byte>, rest: seq<byte>, i: nat)
    requires p == count + headers + rest && |count| == 2 && i + 2 <= |headers|
    ensures p[..2] == count && p[2 + i..4 + i] == headers[i..i + 2] && p[2 + |headers|..] == rest
  {
    Thirds(count, headers, rest);
    SliceSlice(p, 2, 2 + |headers|, i, i + 2);
  }

  lemma CountBytes(n: nat)
    requires n <= 4095
    ensures Be(16 * n, 2) == [n / 16, n % 16 * 16]
  {
    TwoBytes(16 * n);
  }

  lemma SizeBytes(size: nat)
    requires size < 0x2000
    ensures AuHeader(size) == [size / 32, size % 32 * 8]
  {
    TwoBytes(size * 8);
  }

  lemma TwoBytes(v: nat)
    requires v < TWO16
    ensures Be(v, 2) == [v / 256, v % 256]
  {
    assert Be(v, 2) == Be(v / 256, 1) + [v % 256];
  }

  lemma {:induction false} HeaderAt(units: seq<seq<byte>>, k: nat)
    requires k < |units| && |units[k]| < 0x2000
    ensures AuHeaders(SizesOf(units))[2 * k..2 * k + 2] == [|units[k]| / 32, |units[k]| % 32 * 8]
    decreases |units|
  {
    var n := |units| - 1;
    var front, last := AuHeaders(SizesOf(units[..n])), AuHeader(|units[n]|);
    assert SizesOf(units)[..n] == SizesOf(units[..n]);
    assert AuHeaders(SizesOf(units)) == front + last;
    if k < n {
      HeaderAt(units[..n], k);
      assert (front + last)[2 * k..2 * k + 2] == front[2 * k..2 * k + 2];
    } else {
      SizeBytes(|units[k]|);
      Halves(front, last);
    }
  }
}
