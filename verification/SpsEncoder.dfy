// Writing a parameter set (sections 7.3.2.1.1 and E.1.1 of ITU-T H.264), which DecodeSPS
// reads back. Every part is written in front of the bits that follow it.
module SpsEncoder {
  import opened Wrappers
  import opened Bytes
  import opened Seqs
  import opened Bits
  import opened SpsSyntax
  import opened SpsLockstep

  // ---------- fields ----------

  function PutU(v: nat, n: nat, rest: seq<bit>): seq<bit> {
    ToBits(v, n) + rest
  }

  function PutBit(b: bit, rest: seq<bit>): seq<bit> {
    [b] + rest
  }

  function PutUe(v: nat, rest: seq<bit>): seq<bit> {
    Code(v) + rest
  }

  function PutSe(k: int, rest: seq<bit>): seq<bit> {
    Code(SignedCode(k)) + rest
  }

  // The reader stands in front of these bits, up to the end of the string.
  predicate Left(s: seq<bit>, c: Cursor, bits: seq<bit>) {
    !c.eof && c.at <= |s| && s[c.at..] == bits
  }

  lemma {:induction false} Pass(s: seq<bit>, c: Cursor, a: seq<bit>, rest: seq<bit>)
    requires Left(s, c, a + rest)
    ensures c.at + |a| <= |s| && s[c.at..c.at + |a|] == a
    ensures Left(s, Cursor(c.at + |a|, false), rest)
  {
    Halves(a, rest);
    DropDrop(s, c.at, |a|);
    assert s[c.at..][..|a|] == s[c.at..c.at + |a|];
  }

  // A field is read, and what follows it is left.
  ghost predicate Reads<T>(s: seq<bit>, r: (T, Cursor), v: T, rest: seq<bit>) {
    r.0 == v && Left(s, r.1, rest)
  }

  lemma {:induction false} ReadU(s: seq<bit>, c: Cursor, v: nat, n: nat, p: nat, rest: seq<bit>)
    requires Left(s, c, PutU(v, n, rest)) && p == Pow2(n) && v < p
    ensures Reads(s, Take(s, c, n), v, rest)
  {
    Pass(s, c, ToBits(v, n), rest);
    TakeBits(s, c, n, ToBits(v, n));
    FromToBits(v, n);
    Small(v, p);
  }

  lemma {:induction false} ReadByte(s: seq<bit>, c: Cursor, v: nat, rest: seq<bit>)
    requires Left(s, c, PutU(v, 8, rest)) && v < 256
    ensures Reads(s, Take(s, c, 8), v, rest)
  {
    Pow32();
    ReadU(s, c, v, 8, 256, rest);
  }

  lemma {:induction false} ReadBit(s: seq<bit>, c: Cursor, b: bit, rest: seq<bit>)
    requires Left(s, c, PutBit(b, rest))
    ensures Reads(s, OneBit(s, c), b, rest)
  {
    Pass(s, c, [b], rest);
    assert s[c.at..c.at + 1][0] == s[c.at];
  }

  predicate UeOk(v: nat) {
    v <= TWO32 - 2
  }

  predicate SeOk(k: int) {
    -0x8000_0000 < k < 0x8000_0000
  }

  lemma {:induction false} ReadUe(s: seq<bit>, c: Cursor, v: nat, rest: seq<bit>)
    requires Left(s, c, PutUe(v, rest)) && UeOk(v)
    ensures Reads(s, UE(s, c), v, rest)
  {
    Pass(s, c, Code(v), rest);
    UEInverts(s, c, v);
  }

  lemma {:induction false} ReadSe(s: seq<bit>, c: Cursor, k: int, rest: seq<bit>)
    requires Left(s, c, PutSe(k, rest)) && SeOk(k)
    ensures Reads(s, SE(s, c), k, rest)
  {
    Pass(s, c, Code(SignedCode(k)), rest);
    SEInverts(s, c, k);
  }

  // Fields that may be absent are then zero.
  function PutBitIf(b: bit, present: bool, rest: seq<bit>): seq<bit> {
    if present then PutBit(b, rest) else rest
  }

  function PutUeIf(v: nat, present: bool, rest: seq<bit>): seq<bit> {
    if present then PutUe(v, rest) else rest
  }

  function PutUIf(v: nat, n: nat, present: bool, rest: seq<bit>): seq<bit> {
    if present then PutU(v, n, rest) else rest
  }

  lemma ReadBitIf(s: seq<bit>, c: Cursor, b: bit, present: bool, rest: seq<bit>)
    requires Left(s, c, PutBitIf(b, present, rest)) && (!present ==> b == 0)
    ensures Reads(s, Flag(s, c, present), b, rest)
  {
    if present {
      ReadBit(s, c, b, rest);
    }
  }

  lemma ReadUeIf(s: seq<bit>, c: Cursor, v: nat, present: bool, rest: seq<bit>)
    requires Left(s, c, PutUeIf(v, present, rest)) && UeOk(v) && (!present ==> v == 0)
    ensures Reads(s, UEIf(s, c, present), v, rest)
  {
    if present {
      ReadUe(s, c, v, rest);
    }
  }

  lemma ReadUIf(s: seq<bit>, c: Cursor, v: nat, n: nat, p: nat, present: bool, rest: seq<bit>)
    requires Left(s, c, PutUIf(v, n, present, rest)) && p == Pow2(n) && v < p && (!present ==> v == 0)
    ensures Reads(s, TakeIf(s, c, n, present), v, rest)
  {
    if present {
      ReadU(s, c, v, n, p, rest);
    }
  }

  // ---------- header ----------

  function PutHeader(h: Header, rest: seq<bit>): seq<bit> {
    PutU(h.nalu, 8, PutU(h.profile, 8, PutU(h.constraints, 8, PutU(h.level, 8, PutUe(h.id, rest)))))
  }

  predicate HeaderOk(h: Header) {
    h.nalu < 256 && h.nalu % 32 == 7 && h.profile < 256 && h.constraints < 256 && h.level < 256 && UeOk(h.id)
  }

  lemma {:induction false} HeaderReads(s: seq<bit>, h: Header, rest: seq<bit>)
    requires Left(s, Cursor(0, false), PutHeader(h, rest)) && HeaderOk(h)
    ensures Reads(s, ReadHeader(s), h, rest)
  {
    var r0 := PutUe(h.id, rest);
    var r1 := PutU(h.level, 8, r0);
    var r2 := PutU(h.constraints, 8, r1);
    var c := Cursor(0, false);
    ReadByte(s, c, h.nalu, PutU(h.profile, 8, r2));
    var c0 := Take(s, c, 8).1;
    ReadByte(s, c0, h.profile, r2);
    var c1 := Take(s, c0, 8).1;
    ReadByte(s, c1, h.constraints, r1);
    var c2 := Take(s, c1, 8).1;
    ReadByte(s, c2, h.level, r0);
    ReadUe(s, Take(s, c2, 8).1, h.id, rest);
  }

  // ---------- scaling lists ----------

  function PutList(deltas: seq<int>, rest: seq<bit>): seq<bit> {
    if deltas == [] then rest else PutSe(deltas[0], PutList(deltas[1..], rest))
  }

  // The next scale, in the arithmetic of int32 and with a remainder that has the sign of x.
  function Step(last: int, delta: int): int {
    var x := (last + delta + 256 + 0x8000_0000) % 0x1_0000_0000 - 0x8000_0000;
    if x >= 0 then x % 256 else -((-x) % 256)
  }

  // For the differences that section 7.4.2.1.1.1 allows it is the formula there.
  lemma StandardStep(last: int, delta: int)
    requires 0 <= last < 256 && -128 <= delta <= 127
    ensures Step(last, delta) == (last + delta + 256) % 256
  {
    var x := last + delta + 256 + 0x8000_0000;
    Small(x, 0x1_0000_0000);
  }

  lemma StepIsRead(last: int, delta: int)
    ensures Step(last, delta) == Rem256(Int32(Int32(last + delta) + 256))
  {
    ModSub(last + delta + 0x8000_0000, -256, TWO32);
  }

  // The differences of a list with `left` entries to go; a scale of zero ends it.
  predicate ListOk(deltas: seq<int>, left: nat, last: int, next: int)
    decreases left
  {
    if left == 0 || next == 0 then deltas == []
    else
      && deltas != [] && SeOk(deltas[0])
      && var next' := Step(last, deltas[0]);
         ListOk(deltas[1..], left - 1, if next' != 0 then next' else last, next')
  }

  lemma {:induction false} StoppedList(s: seq<bit>, c: Cursor, left: nat, last: int)
    ensures ScalingList(s, c, left, last, 0) == c
    decreases left
  {
    if left > 0 {
      StoppedList(s, c, left - 1, last);
    }
  }

  lemma {:induction false} OneScale(s: seq<bit>, c: Cursor, left: nat, last: int, next: int, next': int)
    requires left > 0 && next != 0 && next' == Step(last, SE(s, c).0)
    ensures ScalingList(s, c, left, last, next)
         == ScalingList(s, SE(s, c).1, left - 1, if next' != 0 then next' else last, next')
  {
    StepIsRead(last, SE(s, c).0);
  }

  lemma {:induction false} ListReads(s: seq<bit>, c: Cursor, deltas: seq<int>, left: nat, last: int, next: int, rest: seq<bit>)
    requires Left(s, c, PutList(deltas, rest)) && ListOk(deltas, left, last, next)
    ensures Left(s, ScalingList(s, c, left, last, next), rest)
    decreases left
  {
    if next == 0 {
      StoppedList(s, c, left, last);
    } else if left > 0 {
      ReadSe(s, c, deltas[0], PutList(deltas[1..], rest));
      var next' := Step(last, deltas[0]);
      OneScale(s, c, left, last, next, next');
      ListReads(s, SE(s, c).1, deltas[1..], left - 1, if next' != 0 then next' else last, next', rest);
    }
  }

  function PutLists(lists: seq<Option<seq<int>>>, rest: seq<bit>): seq<bit> {
    if lists == [] then rest
    else if lists[0].None? then PutBit(0, PutLists(lists[1..], rest))
    else PutBit(1, PutList(lists[0].value, PutLists(lists[1..], rest)))
  }

  predicate ListsOk(lists: seq<Option<seq<int>>>, i: nat) {
    forall k :: 0 <= k < |lists| && lists[k].Some? ==> ListOk(lists[k].value, if i + k < 6 then 16 else 64, 8, 8)
  }

  function Present(lists: seq<Option<seq<int>>>): seq<bit> {
    if lists == [] then [] else [if lists[0].Some? then 1 else 0] + Present(lists[1..])
  }

  lemma {:induction false} ListsRead(s: seq<bit>, c: Cursor, lists: seq<Option<seq<int>>>, i: nat, n: nat, rest: seq<bit>)
    requires Left(s, c, PutLists(lists, rest)) && ListsOk(lists, i) && i + |lists| == n
    ensures Left(s, ScalingLists(s, c, i, n), rest) && Presents(s, c, i, n) == Present(lists)
    decreases |lists|
  {
    if lists != [] {
      var more := PutLists(lists[1..], rest);
      var b: bit := if lists[0].Some? then 1 else 0;
      var size := if i < 6 then 16 else 64;
      ReadBit(s, c, b, if lists[0].Some? then PutList(lists[0].value, more) else more);
      var c1 := OneBit(s, c).1;
      if lists[0].Some? {
        ListReads(s, c1, lists[0].value, size, 8, 8, more);
      }
      ListsRead(s, if b != 0 then ScalingList(s, c1, size, 8, 8) else c1, lists[1..], i + 1, n, rest);
    }
  }

  // ---------- chroma ----------

  function PutDepths(v: Chroma, rest: seq<bit>): seq<bit> {
    PutUe(v.format, PutBitIf(v.separatePlanes, v.format == 3,
      PutUe(v.bitDepthLuma, PutUe(v.bitDepthChroma, PutBit(v.bypass, PutBit(v.scalingMatrix, rest))))))
  }

  function PutChroma(v: Chroma, lists: seq<Option<seq<int>>>, rest: seq<bit>): seq<bit> {
    PutDepths(v, if v.scalingMatrix != 0 then PutLists(lists, rest) else rest)
  }

  predicate ChromaOk(v: Chroma, lists: seq<Option<seq<int>>>) {
    && UeOk(v.format) && UeOk(v.bitDepthLuma) && UeOk(v.bitDepthChroma)
    && (v.format != 3 ==> v.separatePlanes == 0)
    && |lists| == (if v.scalingMatrix == 0 then 0 else if v.format == 3 then 12 else 8) && ListsOk(lists, 0)
  }

  lemma {:induction false} DepthsRead(s: seq<bit>, c: Cursor, v: Chroma, rest: seq<bit>)
    requires Left(s, c, PutDepths(v, rest)) && UeOk(v.format) && UeOk(v.bitDepthLuma) && UeOk(v.bitDepthChroma)
    requires v.format != 3 ==> v.separatePlanes == 0
    ensures Reads(s, ReadDepths(s, c), v, rest)
  {
    var r0 := PutBit(v.scalingMatrix, rest);
    var r1 := PutBit(v.bypass, r0);
    var r2 := PutUe(v.bitDepthChroma, r1);
    var r3 := PutUe(v.bitDepthLuma, r2);
    ReadUe(s, c, v.format, PutBitIf(v.separatePlanes, v.format == 3, r3));
    var c1 := UE(s, c).1;
    ReadBitIf(s, c1, v.separatePlanes, v.format == 3, r3);
    var c2 := Flag(s, c1, v.format == 3).1;
    ReadUe(s, c2, v.bitDepthLuma, r2);
    var c3 := UE(s, c2).1;
    ReadUe(s, c3, v.bitDepthChroma, r1);
    var c4 := UE(s, c3).1;
    ReadBit(s, c4, v.bypass, r0);
    ReadBit(s, OneBit(s, c4).1, v.scalingMatrix, rest);
  }

  lemma {:induction false} ChromaReads(s: seq<bit>, c: Cursor, v: Chroma, lists: seq<Option<seq<int>>>, rest: seq<bit>)
    requires Left(s, c, PutChroma(v, lists, rest)) && ChromaOk(v, lists)
    ensures Reads(s, ReadChroma(s, c), v, rest)
    ensures v.scalingMatrix != 0 ==> Presents(s, ReadDepths(s, c).1, 0, ListCount(v.format)) == Present(lists)
  {
    DepthsRead(s, c, v, if v.scalingMatrix != 0 then PutLists(lists, rest) else rest);
    if v.scalingMatrix != 0 {
      ListsRead(s, ReadDepths(s, c).1, lists, 0, ListCount(v.format), rest);
    }
  }

  // ---------- picture order ----------

  function PutOffsets(offsets: seq<int>, rest: seq<bit>): seq<bit> {
    if offsets == [] then rest else PutSe(offsets[0], PutOffsets(offsets[1..], rest))
  }

  predicate OffsetsOk(offsets: seq<int>) {
    forall k :: 0 <= k < |offsets| ==> SeOk(offsets[k])
  }

  lemma {:induction false} OffsetsRead(s: seq<bit>, c: Cursor, offsets: seq<int>, rest: seq<bit>)
    requires Left(s, c, PutOffsets(offsets, rest)) && OffsetsOk(offsets)
    ensures Left(s, Offsets(s, c, |offsets|), rest)
    decreases |offsets|
  {
    if offsets != [] {
      ReadSe(s, c, offsets[0], PutOffsets(offsets[1..], rest));
      OffsetsRead(s, SE(s, c).1, offsets[1..], rest);
    }
  }

  function PutCycle(v: Order, offsets: seq<int>, rest: seq<bit>): seq<bit> {
    PutBit(v.deltaAlwaysZero, PutSe(v.nonRef, PutSe(v.topToBottom, PutUe(v.cycle, PutOffsets(offsets, rest)))))
  }

  function PutOrder(v: Order, offsets: seq<int>, rest: seq<bit>): seq<bit> {
    PutUe(v.frameNum, PutUe(v.orderType,
      if v.orderType == 0 then PutUe(v.orderLsb, rest)
      else if v.orderType == 1 then PutCycle(v, offsets, rest)
      else rest))
  }

  predicate OrderOk(v: Order, offsets: seq<int>) {
    && UeOk(v.frameNum) && UeOk(v.orderType) && UeOk(v.orderLsb) && UeOk(v.cycle) && SeOk(v.nonRef) && SeOk(v.topToBottom)
    && (v.orderType != 0 ==> v.orderLsb == 0)
    && (v.orderType != 1 ==> v.deltaAlwaysZero == 0 && v.nonRef == 0 && v.topToBottom == 0 && v.cycle == 0)
    && |offsets| == v.cycle && OffsetsOk(offsets)
  }

  lemma {:induction false} CycleReads(s: seq<bit>, c: Cursor, v: Order, offsets: seq<int>, rest: seq<bit>)
    requires Left(s, c, PutCycle(v, offsets, rest)) && OrderOk(v, offsets)
    ensures var (zero, c1) := OneBit(s, c);
            var (nonRef, c2) := SE(s, c1);
            var (topToBottom, c3) := SE(s, c2);
            var (cycle, c4) := UE(s, c3);
            zero == v.deltaAlwaysZero && nonRef == v.nonRef && topToBottom == v.topToBottom && cycle == v.cycle
            && Left(s, Offsets(s, c4, cycle), rest)
  {
    var r0 := PutOffsets(offsets, rest);
    var r1 := PutUe(v.cycle, r0);
    var r2 := PutSe(v.topToBottom, r1);
    ReadBit(s, c, v.deltaAlwaysZero, PutSe(v.nonRef, r2));
    var c1 := OneBit(s, c).1;
    ReadSe(s, c1, v.nonRef, r2);
    var c2 := SE(s, c1).1;
    ReadSe(s, c2, v.topToBottom, r1);
    var c3 := SE(s, c2).1;
    ReadUe(s, c3, v.cycle, r0);
    OffsetsRead(s, UE(s, c3).1, offsets, rest);
  }

  lemma {:induction false} OrderReads(s: seq<bit>, c: Cursor, v: Order, offsets: seq<int>, rest: seq<bit>)
    requires Left(s, c, PutOrder(v, offsets, rest)) && OrderOk(v, offsets)
    ensures Reads(s, ReadOrder(s, c), v, rest)
  {
    var r := if v.orderType == 0 then PutUe(v.orderLsb, rest)
             else if v.orderType == 1 then PutCycle(v, offsets, rest) else rest;
    ReadUe(s, c, v.frameNum, PutUe(v.orderType, r));
    var c1 := UE(s, c).1;
    ReadUe(s, c1, v.orderType, r);
    var c2 := UE(s, c1).1;
    if v.orderType == 0 {
      ReadUe(s, c2, v.orderLsb, rest);
    } else if v.orderType == 1 {
      CycleReads(s, c2, v, offsets, rest);
    }
  }

  // ---------- frame ----------

  function PutCrop(v: Frame, rest: seq<bit>): seq<bit> {
    PutUe(v.left, PutUe(v.right, PutUe(v.top, PutUe(v.bottom, rest))))
  }

  function PutFrame(v: Frame, rest: seq<bit>): seq<bit> {
    PutUe(v.refFrames, PutBit(v.gaps, PutUe(v.width, PutUe(v.height, PutBit(v.mbsOnly,
      PutBitIf(v.adaptive, v.mbsOnly == 0, PutBit(v.direct8x8, PutBit(v.cropping,
        if v.cropping != 0 then PutCrop(v, rest) else rest))))))))
  }

  predicate FrameOk(v: Frame) {
    && UeOk(v.refFrames) && UeOk(v.width) && UeOk(v.height)
    && UeOk(v.left) && UeOk(v.right) && UeOk(v.top) && UeOk(v.bottom)
    && (v.mbsOnly != 0 ==> v.adaptive == 0)
    && (v.cropping == 0 ==> v.left == 0 && v.right == 0 && v.top == 0 && v.bottom == 0)
  }

  lemma {:induction false} CropReads(s: seq<bit>, c: Cursor, v: Frame, rest: seq<bit>)
    requires Left(s, c, PutCrop(v, rest)) && UeOk(v.left) && UeOk(v.right) && UeOk(v.top) && UeOk(v.bottom)
    ensures var r := ReadCrop(s, c);
            r.0 == v.left && r.1 == v.right && r.2 == v.top && r.3 == v.bottom && Left(s, r.4, rest)
  {
    var r0 := PutUe(v.bottom, rest);
    var r1 := PutUe(v.top, r0);
    ReadUe(s, c, v.left, PutUe(v.right, r1));
    var c1 := UE(s, c).1;
    ReadUe(s, c1, v.right, r1);
    var c2 := UE(s, c1).1;
    ReadUe(s, c2, v.top, r0);
    ReadUe(s, UE(s, c2).1, v.bottom, rest);
  }

  lemma {:induction false} FrameReads(s: seq<bit>, c: Cursor, v: Frame, rest: seq<bit>)
    requires Left(s, c, PutFrame(v, rest)) && FrameOk(v)
    ensures Reads(s, ReadFrame(s, c), v, rest)
  {
    var r0 := if v.cropping != 0 then PutCrop(v, rest) else rest;
    var r1 := PutBit(v.cropping, r0);
    var r2 := PutBit(v.direct8x8, r1);
    var r3 := PutBitIf(v.adaptive, v.mbsOnly == 0, r2);
    var r4 := PutBit(v.mbsOnly, r3);
    var r5 := PutUe(v.height, r4);
    var r6 := PutUe(v.width, r5);
    ReadUe(s, c, v.refFrames, PutBit(v.gaps, r6));
    var c1 := UE(s, c).1;
    ReadBit(s, c1, v.gaps, r6);
    var c2 := OneBit(s, c1).1;
    ReadUe(s, c2, v.width, r5);
    var c3 := UE(s, c2).1;
    ReadUe(s, c3, v.height, r4);
    var c4 := UE(s, c3).1;
    ReadBit(s, c4, v.mbsOnly, r3);
    var c5 := OneBit(s, c4).1;
    ReadBitIf(s, c5, v.adaptive, v.mbsOnly == 0, r2);
    var c6 := Flag(s, c5, v.mbsOnly == 0).1;
    ReadBit(s, c6, v.direct8x8, r1);
    var c7 := OneBit(s, c6).1;
    ReadBit(s, c7, v.cropping, r0);
    if v.cropping != 0 {
      CropReads(s, OneBit(s, c7).1, v, rest);
    }
  }

  // ---------- video usability ----------

  function PutAspect(v: Lead, rest: seq<bit>): seq<bit> {
    PutU(v.aspectIdc, 8, PutUIf(v.sarWidth, 16, v.aspectIdc == 255, PutUIf(v.sarHeight, 16, v.aspectIdc == 255, rest)))
  }

  function PutLead(v: Lead, rest: seq<bit>): seq<bit> {
    PutBit(v.present,
      if v.present == 0 then rest
      else
        PutBit(v.aspect, PutAspectIf(v, PutBit(v.overscan, PutBitIf(v.overscanOk, v.overscan != 0,
          PutBit(v.signal, PutUIf(v.format, 3, v.signal != 0, rest)))))))
  }

  function PutAspectIf(v: Lead, rest: seq<bit>): seq<bit> {
    if v.aspect != 0 then PutAspect(v, rest) else rest
  }

  predicate LeadOk(v: Lead) {
    && v.aspectIdc < 256 && v.sarWidth < TWO16 && v.sarHeight < TWO16 && v.format < 8
    && (v.present == 0 ==> v == Lead(0, 0, 0, 0, 0, 0, 0, 0, 0))
    && (v.aspect == 0 ==> v.aspectIdc == 0) && (v.aspectIdc != 255 ==> v.sarWidth == 0 && v.sarHeight == 0)
    && (v.overscan == 0 ==> v.overscanOk == 0) && (v.signal == 0 ==> v.format == 0)
  }

  lemma {:induction false} AspectReads(s: seq<bit>, c: Cursor, v: Lead, rest: seq<bit>)
    requires Left(s, c, PutAspect(v, rest)) && LeadOk(v)
    ensures var r := ReadAspect(s, c);
            r.0 == v.aspectIdc && r.1 == v.sarWidth && r.2 == v.sarHeight && Left(s, r.3, rest)
  {
    var r0 := PutUIf(v.sarHeight, 16, v.aspectIdc == 255, rest);
    Pow32();
    ReadByte(s, c, v.aspectIdc, PutUIf(v.sarWidth, 16, v.aspectIdc == 255, r0));
    var c1 := Take(s, c, 8).1;
    ReadUIf(s, c1, v.sarWidth, 16, TWO16, v.aspectIdc == 255, r0);
    ReadUIf(s, TakeIf(s, c1, 16, v.aspectIdc == 255).1, v.sarHeight, 16, TWO16, v.aspectIdc == 255, rest);
  }

  lemma {:induction false} LeadReads(s: seq<bit>, c: Cursor, v: Lead, rest: seq<bit>)
    requires Left(s, c, PutLead(v, rest)) && LeadOk(v)
    ensures Reads(s, ReadLead(s, c), v, rest)
  {
    var r0 := PutUIf(v.format, 3, v.signal != 0, rest);
    var r1 := PutBit(v.signal, r0);
    var r2 := PutBitIf(v.overscanOk, v.overscan != 0, r1);
    var r3 := PutBit(v.overscan, r2);
    var r4 := PutAspectIf(v, r3);
    ReadBit(s, c, v.present, if v.present == 0 then rest else PutBit(v.aspect, r4));
    if v.present != 0 {
      var c1 := OneBit(s, c).1;
      ReadBit(s, c1, v.aspect, r4);
      var c2 := OneBit(s, c1).1;
      if v.aspect != 0 {
        AspectReads(s, c2, v, r3);
      }
      var c3 := if v.aspect != 0 then ReadAspect(s, c2).3 else c2;
      ReadBit(s, c3, v.overscan, r2);
      var c4 := OneBit(s, c3).1;
      ReadBitIf(s, c4, v.overscanOk, v.overscan != 0, r1);
      var c5 := Flag(s, c4, v.overscan != 0).1;
      ReadBit(s, c5, v.signal, r0);
      ReadUIf(s, OneBit(s, c5).1, v.format, 3, 8, v.signal != 0, rest);
    }
  }

  function PutTiming(v: Tail, rest: seq<bit>): seq<bit> {
    PutBit(v.timing, PutUIf(v.tick, 32, v.timing != 0, PutUIf(v.timeScale, 32, v.timing != 0,
      PutBitIf(v.fixedRate, v.timing != 0, rest))))
  }

  function PutTail(v: Tail, signal: bool, rest: seq<bit>): seq<bit> {
    PutBitIf(v.colour, signal, PutUIf(v.colourDescription, 24, v.colour != 0, PutBit(v.loc,
      PutUeIf(v.locTop, v.loc != 0, PutUeIf(v.locBottom, v.loc != 0, PutTiming(v, rest))))))
  }

  predicate TailOk(v: Tail, signal: bool) {
    && v.colourDescription < TWO24 && UeOk(v.locTop) && UeOk(v.locBottom) && v.tick < TWO32 && v.timeScale < TWO32
    && (!signal ==> v.colour == 0) && (v.colour == 0 ==> v.colourDescription == 0)
    && (v.loc == 0 ==> v.locTop == 0 && v.locBottom == 0)
    && (v.timing == 0 ==> v.tick == 0 && v.timeScale == 0 && v.fixedRate == 0)
  }

  lemma {:induction false} TimingReads(s: seq<bit>, c: Cursor, v: Tail, signal: bool, rest: seq<bit>)
    requires Left(s, c, PutTiming(v, rest)) && TailOk(v, signal)
    ensures var r := ReadTiming(s, c);
            r.0 == v.timing && r.1 == v.tick && r.2 == v.timeScale && r.3 == v.fixedRate && Left(s, r.4, rest)
  {
    var on := v.timing != 0;
    var r0 := PutBitIf(v.fixedRate, on, rest);
    var r1 := PutUIf(v.timeScale, 32, on, r0);
    Pow32();
    ReadBit(s, c, v.timing, PutUIf(v.tick, 32, on, r1));
    var c1 := OneBit(s, c).1;
    ReadUIf(s, c1, v.tick, 32, TWO32, on, r1);
    var c2 := TakeIf(s, c1, 32, on).1;
    ReadUIf(s, c2, v.timeScale, 32, TWO32, on, r0);
    ReadBitIf(s, TakeIf(s, c2, 32, on).1, v.fixedRate, on, rest);
  }

  lemma Pow24()
    ensures Pow2(24) == TWO24
  {
    Pow32();
    PowAdd(16, 8);
  }

  lemma {:induction false} TailReads(s: seq<bit>, c: Cursor, v: Tail, signal: bool, rest: seq<bit>)
    requires Left(s, c, PutTail(v, signal, rest)) && TailOk(v, signal)
    ensures Reads(s, ReadTail(s, c, signal), v, rest)
  {
    var r0 := PutTiming(v, rest);
    var r1 := PutUeIf(v.locBottom, v.loc != 0, r0);
    var r2 := PutUeIf(v.locTop, v.loc != 0, r1);
    var r3 := PutBit(v.loc, r2);
    ReadBitIf(s, c, v.colour, signal, PutUIf(v.colourDescription, 24, v.colour != 0, r3));
    var c1 := Flag(s, c, signal).1;
    Pow24();
    ReadUIf(s, c1, v.colourDescription, 24, TWO24, v.colour != 0, r3);
    var c2 := TakeIf(s, c1, 24, v.colour != 0).1;
    ReadBit(s, c2, v.loc, r2);
    var c3 := OneBit(s, c2).1;
    ReadUeIf(s, c3, v.locTop, v.loc != 0, r1);
    var c4 := UEIf(s, c3, v.loc != 0).1;
    ReadUeIf(s, c4, v.locBottom, v.loc != 0, r0);
    TimingReads(s, UEIf(s, c4, v.loc != 0).1, v, signal, rest);
  }

  // ---------- the whole parameter set ----------

  // What the parser skips, scaling lists and frame offsets, comes beside the parameter set.
  datatype Skipped = Skipped(lists: seq<Option<seq<int>>>, offsets: seq<int>)

  function PutBack(v: Sps, rest: seq<bit>): seq<bit> {
    var signal := v.lead.signal != 0;
    if v.lead.present == 0 then rest else PutBitIf(v.fullRange, signal, PutTail(v.tail, signal, rest))
  }

  function PutFront(v: Sps, k: Skipped, rest: seq<bit>): seq<bit> {
    PutHeader(v.header, PutChromaIf(v, k, PutOrder(v.order, k.offsets, PutFrame(v.frame, PutLead(v.lead, rest)))))
  }

  // The profiles with chroma fields, as section 7.3.2.1.1 lists them.
  predicate Chromatic(profile: nat) {
    || profile == 100 || profile == 110 || profile == 122 || profile == 244 || profile == 44 || profile == 83
    || profile == 86 || profile == 118 || profile == 128 || profile == 138 || profile == 139 || profile == 134
    || profile == 135
  }

  lemma ProfilesAgree(profile: nat)
    ensures IsHigh(profile) <==> Chromatic(profile)
  {
  }

  function PutChromaIf(v: Sps, k: Skipped, rest: seq<bit>): seq<bit> {
    if Chromatic(v.header.profile) then PutChroma(v.chroma, k.lists, rest) else rest
  }

  // The parameter set in front of other bits.
  function Encode(v: Sps, k: Skipped, rest: seq<bit>): seq<bit> {
    PutFront(v, k, PutBack(v, rest))
  }

  // Every field is in its range, and zero where the syntax leaves it out.
  predicate SpsOk(v: Sps, k: Skipped) {
    && HeaderOk(v.header) && OrderOk(v.order, k.offsets) && FrameOk(v.frame) && LeadOk(v.lead)
    && (if Chromatic(v.header.profile) then ChromaOk(v.chroma, k.lists) else v.chroma == Chroma(0, 0, 0, 0, 0, 0) && k.lists == [])
    && (v.lead.signal == 0 ==> v.fullRange == 0)
    && (if v.lead.present == 0 then v.tail == Tail(0, 0, 0, 0, 0, 0, 0, 0, 0) else TailOk(v.tail, v.lead.signal != 0))
  }

  lemma {:induction false} ChromaIfReads(s: seq<bit>, c: Cursor, v: Sps, k: Skipped, rest: seq<bit>)
    requires Left(s, c, PutChromaIf(v, k, rest)) && SpsOk(v, k)
    ensures Reads(s, if IsHigh(v.header.profile) then ReadChroma(s, c) else (NO_CHROMA, c), v.chroma, rest)
    ensures IsHigh(v.header.profile) ==> ReadDepths(s, c).0 == v.chroma
    ensures IsHigh(v.header.profile) && v.chroma.scalingMatrix != 0 ==>
              Presents(s, ReadDepths(s, c).1, 0, ListCount(v.chroma.format)) == Present(k.lists)
  {
    ProfilesAgree(v.header.profile);
    if IsHigh(v.header.profile) {
      ChromaReads(s, c, v.chroma, k.lists, rest);
    }
  }

  lemma {:induction false} StartReads(s: seq<bit>, v: Sps, k: Skipped, rest: seq<bit>)
    requires s == PutHeader(v.header, PutChromaIf(v, k, rest)) && SpsOk(v, k)
    ensures var (header, c) := ReadHeader(s);
            header == v.header
            && Reads(s, if IsHigh(header.profile) then ReadChroma(s, c) else (NO_CHROMA, c), v.chroma, rest)
    ensures ListFlags(s) == Present(k.lists)
  {
    assert s[0..] == s;
    HeaderReads(s, v.header, PutChromaIf(v, k, rest));
    ChromaIfReads(s, ReadHeader(s).1, v, k, rest);
  }

  lemma {:induction false} MiddleReads(s: seq<bit>, c: Cursor, v: Sps, k: Skipped, rest: seq<bit>)
    requires Left(s, c, PutOrder(v.order, k.offsets, PutFrame(v.frame, PutLead(v.lead, rest)))) && SpsOk(v, k)
    ensures var (order, c1) := ReadOrder(s, c);
            var (frame, c2) := ReadFrame(s, c1);
            order == v.order && frame == v.frame && Reads(s, ReadLead(s, c2), v.lead, rest)
  {
    var r0 := PutLead(v.lead, rest);
    OrderReads(s, c, v.order, k.offsets, PutFrame(v.frame, r0));
    var c1 := ReadOrder(s, c).1;
    FrameReads(s, c1, v.frame, r0);
    LeadReads(s, ReadFrame(s, c1).1, v.lead, rest);
  }

  lemma {:induction false} FrontReads(s: seq<bit>, v: Sps, k: Skipped, rest: seq<bit>)
    requires s == PutFront(v, k, rest) && SpsOk(v, k)
    ensures Reads(s, ReadFront(s), Front(v.header, v.chroma, v.order, v.frame, v.lead), rest)
    ensures ListFlags(s) == Present(k.lists)
  {
    var (header, c1) := ReadHeader(s);
    StartReads(s, v, k, PutOrder(v.order, k.offsets, PutFrame(v.frame, PutLead(v.lead, rest))));
    var (chroma, c2) := if IsHigh(header.profile) then ReadChroma(s, c1) else (NO_CHROMA, c1);
    MiddleReads(s, c2, v, k, rest);
  }

  lemma {:induction false} BackReads(s: seq<bit>, c: Cursor, v: Sps, k: Skipped, front: Front, rest: seq<bit>)
    requires Left(s, c, PutBack(v, rest)) && SpsOk(v, k) && front.lead == v.lead
    ensures var r := ReadBack(s, c, front); r.0 == v.fullRange && r.1 == v.tail && Left(s, r.2, rest)
  {
    if v.lead.present != 0 {
      var signal := v.lead.signal != 0;
      ReadBitIf(s, c, v.fullRange, signal, PutTail(v.tail, signal, rest));
      TailReads(s, Flag(s, c, signal).1, v.tail, signal, rest);
    }
  }

  // DecodeSPS inverts the syntax: it returns every field as it was written, whatever the
  // parameter set carries besides and whatever follows it, and stops exactly behind it.
  lemma {:induction false} DecodeInverts(v: Sps, k: Skipped, rest: seq<bit>)
    requires SpsOk(v, k)
    ensures var s := Encode(v, k, rest);
            DecodeSPS(s) == Some(v) && Left(s, End(s), rest) && (HasScalingList(s) <==> 1 in Present(k.lists))
  {
    Assemble(Encode(v, k, rest), v, k, rest);
  }

  lemma {:induction false} Assemble(s: seq<bit>, v: Sps, k: Skipped, rest: seq<bit>)
    requires s == PutFront(v, k, PutBack(v, rest)) && SpsOk(v, k)
    ensures DecodeSPS(s) == Some(v) && Left(s, End(s), rest) && ListFlags(s) == Present(k.lists)
  {
    var (front, c) := ReadFront(s);
    FrontReads(s, v, k, PutBack(v, rest));
    BackReads(s, c, v, k, front, rest);
    Verdicts(front, ReadBack(s, c, front), v);
  }

  lemma Verdicts(front: Front, back: (bit, Tail, Cursor), v: Sps)
    requires front == Front(v.header, v.chroma, v.order, v.frame, v.lead) && HeaderOk(v.header)
    requires back.0 == v.fullRange && back.1 == v.tail && !back.2.eof
    ensures Verdict(front, back) == Some(v)
  {
  }

  // ---------- any input ----------

  // The result is nil exactly for another NAL unit type, or if the parse ran out of bits.
  lemma NilExactly(s: seq<bit>)
    ensures DecodeSPS(s).None? <==> Take(s, Cursor(0, false), 8).0 % 32 != 7 || End(s).eof
  {
  }

  // Right behind the id stand the chroma fields, for exactly these profiles, or else frame_num.
  lemma ChromaExactly(s: seq<bit>)
    requires DecodeSPS(s).Some?
    ensures var v := DecodeSPS(s).value;
            var (profile, c) := (v.header.profile, ReadHeader(s).1);
            if profile == 100 || profile == 110 || profile == 122 || profile == 244 || profile == 44 || profile == 83
               || profile == 86 || profile == 118 || profile == 128 || profile == 138 || profile == 139 || profile == 134
               || profile == 135
            then v.chroma.format == UE(s, c).0
                 && (v.chroma.format != 3 ==> v.chroma.separatePlanes == 0 && v.chroma.bitDepthLuma == UE(s, UE(s, c).1).0)
                 && (v.chroma.format == 3 ==> v.chroma.separatePlanes == BitAt(s, UE(s, c).1)
                                              && v.chroma.bitDepthLuma == UE(s, Next(s, UE(s, c).1)).0)
            else v.chroma == Chroma(0, 0, 0, 0, 0, 0) && v.order.frameNum == UE(s, c).0
  {
    ProfilesAgree(DecodeSPS(s).value.header.profile);
  }

  // ---------- the patcher on written parameter sets ----------

  // It clears the flag of every parameter set without a scaling list, and of no other.
  lemma {:induction false} FixOfEncoded(v: Sps, k: Skipped, rest: seq<bit>)
    requires SpsOk(v, k)
    ensures var s := Encode(v, k, rest);
            DecodeSPS(FixPixFmt(s)) == if 1 in Present(k.lists) then Some(v) else Some(v.(fullRange := 0))
  {
    DecodeInverts(v, k, rest);
    FixKeepsTheRest(Encode(v, k, rest));
  }

  // A parameter set of profile 100 with one scaling list, which ends at once, and a set flag.
  const LISTED := Sps(
    Header(0x67, 100, 0, 31, 0), Chroma(1, 0, 0, 0, 0, 1), Order(0, 2, 0, 0, 0, 0, 0),
    Frame(1, 0, 79, 44, 1, 0, 1, 0, 0, 0, 0, 0), Lead(1, 0, 0, 0, 0, 0, 0, 1, 5), 1, NO_TAIL)

  const ONE_LIST := Skipped([Some([-8]), None, None, None, None, None, None, None], [])

  // So there are parameter sets whose flag the fix does not reach.
  lemma {:induction false} ListHidesTheFlag(rest: seq<bit>)
    ensures var s := Encode(LISTED, ONE_LIST, rest);
            && HasScalingList(s) && DecodeSPS(s) == Some(LISTED) && LISTED.fullRange == 1
            && FixPixFmt(s) == s && DecodeSPS(FixPixFmt(s)) != WithoutFullRange(DecodeSPS(s))
  {
    assert ListOk([-8], 16, 8, 8);
    assert SpsOk(LISTED, ONE_LIST);
    assert Present(ONE_LIST.lists)[0] == 1;
    DecodeInverts(LISTED, ONE_LIST, rest);
    FixKeepsTheRest(Encode(LISTED, ONE_LIST, rest));
  }
}
