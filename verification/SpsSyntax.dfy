// The two H.264 SPS parsers of pkg/h264/sps.go as functions over a bit string: DecodeSPS,
// which returns every field, and the skipping parser inside FixPixFmt.
module SpsSyntax {
  import opened Wrappers
  import opened Bytes
  import opened Bits

  const NALU_TYPE_SPS: nat := 7

  // The profiles that carry chroma and bit depth fields.
  predicate IsHigh(profile: nat) {
    profile in {100, 110, 122, 244, 44, 83, 86, 118, 128, 138, 139, 134, 135}
  }

  // ---------- DecodeSPS ----------

  datatype Header = Header(nalu: nat, profile: nat, constraints: nat, level: nat, id: nat)

  datatype Chroma = Chroma(
    format: nat, separatePlanes: bit, bitDepthLuma: nat, bitDepthChroma: nat, bypass: bit, scalingMatrix: bit)

  datatype Order = Order(
    frameNum: nat, orderType: nat, orderLsb: nat, deltaAlwaysZero: bit, nonRef: int, topToBottom: int, cycle: nat)

  datatype Frame = Frame(
    refFrames: nat, gaps: bit, width: nat, height: nat, mbsOnly: bit, adaptive: bit, direct8x8: bit,
    cropping: bit, left: nat, right: nat, top: nat, bottom: nat)

  // The video usability fields up to the video signal type.
  datatype Lead = Lead(
    present: bit, aspect: bit, aspectIdc: nat, sarWidth: nat, sarHeight: nat, overscan: bit, overscanOk: bit,
    signal: bit, format: nat)

  // ... and the ones behind video_full_range_flag.
  datatype Tail = Tail(
    colour: bit, colourDescription: nat, loc: bit, locTop: nat, locBottom: nat,
    timing: bit, tick: nat, timeScale: nat, fixedRate: bit)

  datatype Sps = Sps(
    header: Header, chroma: Chroma, order: Order, frame: Frame, lead: Lead, fullRange: bit, tail: Tail)

  const NO_CHROMA := Chroma(0, 0, 0, 0, 0, 0)
  const NO_LEAD := Lead(0, 0, 0, 0, 0, 0, 0, 0, 0)
  const NO_TAIL := Tail(0, 0, 0, 0, 0, 0, 0, 0, 0)

  function Flag(s: seq<bit>, c: Cursor, present: bool): (r: (bit, Cursor))
    ensures Moves(s, c, r.1)
  {
    if present then OneBit(s, c) else (0, c)
  }

  function UEIf(s: seq<bit>, c: Cursor, present: bool): (r: (nat, Cursor))
    ensures Moves(s, c, r.1)
  {
    if present then UE(s, c) else (0, c)
  }

  function TakeIf(s: seq<bit>, c: Cursor, n: nat, present: bool): (r: (nat, Cursor))
    ensures Moves(s, c, r.1)
  {
    if present then Take(s, c, n) else (0, c)
  }

  function ReadHeader(s: seq<bit>): (r: (Header, Cursor))
    ensures Moves(s, Cursor(0, false), r.1)
  {
    var (nalu, c0) := Take(s, Cursor(0, false), 8);
    var (profile, c1) := Take(s, c0, 8);
    var (constraints, c2) := Take(s, c1, 8);
    var (level, c3) := Take(s, c2, 8);
    var (id, c4) := UE(s, c3);
    (Header(nalu, profile, constraints, level, id), c4)
  }

  // int32 overflow and the truncated remainder of Go
  function Int32(x: int): int {
    (x + 0x8000_0000) % TWO32 - 0x8000_0000
  }

  function Rem256(x: int): int {
    if x >= 0 then x % 256 else -((-x) % 256)
  }

  // scaling_list: `left` entries to go.
  function ScalingList(s: seq<bit>, c: Cursor, left: nat, lastScale: int, nextScale: int): (r: Cursor)
    ensures Moves(s, c, r)
    decreases |s|, left
  {
    if left == 0 then c
    else
      var (delta, c') := if nextScale != 0 then SE(s, c) else (0, c);
      var next := if nextScale != 0 then Rem256(Int32(Int32(lastScale + delta) + 256)) else nextScale;
      ScalingList(s, c', left - 1, if next != 0 then next else lastScale, next)
  }

  function ScalingLists(s: seq<bit>, c: Cursor, i: nat, n: nat): (r: Cursor)
    requires i <= n
    ensures Moves(s, c, r)
    decreases |s|, n - i
  {
    if i == n then c
    else
      var (present, c1) := OneBit(s, c);
      var c2 := if present != 0 then ScalingList(s, c1, if i < 6 then 16 else 64, 8, 8) else c1;
      ScalingLists(s, c2, i + 1, n)
  }

  function ListCount(format: nat): nat {
    if format == 3 then 12 else 8
  }

  // Everything in front of the scaling lists.
  function ReadDepths(s: seq<bit>, c: Cursor): (r: (Chroma, Cursor))
    ensures Moves(s, c, r.1)
  {
    var (format, c1) := UE(s, c);
    var (separate, c2) := Flag(s, c1, format == 3);
    var (luma, c3) := UE(s, c2);
    var (chroma, c4) := UE(s, c3);
    var (bypass, c5) := OneBit(s, c4);
    var (scaling, c6) := OneBit(s, c5);
    (Chroma(format, separate, luma, chroma, bypass, scaling), c6)
  }

  function ReadChroma(s: seq<bit>, c: Cursor): (r: (Chroma, Cursor))
    ensures Moves(s, c, r.1)
  {
    var (chroma, c') := ReadDepths(s, c);
    (chroma, if chroma.scalingMatrix != 0 then ScalingLists(s, c', 0, ListCount(chroma.format)) else c')
  }

  function Offsets(s: seq<bit>, c: Cursor, n: nat): (r: Cursor)
    ensures Moves(s, c, r)
    decreases |s|, n
  {
    if n == 0 then c else Offsets(s, SE(s, c).1, n - 1)
  }

  function ReadOrder(s: seq<bit>, c: Cursor): (r: (Order, Cursor))
    ensures Moves(s, c, r.1)
  {
    var (frameNum, c1) := UE(s, c);
    var (orderType, c2) := UE(s, c1);
    if orderType == 0 then
      var (lsb, c3) := UE(s, c2);
      (Order(frameNum, orderType, lsb, 0, 0, 0, 0), c3)
    else if orderType == 1 then
      var (zero, c3) := OneBit(s, c2);
      var (nonRef, c4) := SE(s, c3);
      var (topToBottom, c5) := SE(s, c4);
      var (cycle, c6) := UE(s, c5);
      (Order(frameNum, orderType, 0, zero, nonRef, topToBottom, cycle), Offsets(s, c6, cycle))
    else (Order(frameNum, orderType, 0, 0, 0, 0, 0), c2)
  }

  function ReadCrop(s: seq<bit>, c: Cursor): (r: (nat, nat, nat, nat, Cursor))
    ensures Moves(s, c, r.4)
  {
    var (left, c1) := UE(s, c);
    var (right, c2) := UE(s, c1);
    var (top, c3) := UE(s, c2);
    var (bottom, c4) := UE(s, c3);
    (left, right, top, bottom, c4)
  }

  function ReadFrame(s: seq<bit>, c: Cursor): (r: (Frame, Cursor))
    ensures Moves(s, c, r.1)
  {
    var (refs, c1) := UE(s, c);
    var (gaps, c2) := OneBit(s, c1);
    var (width, c3) := UE(s, c2);
    var (height, c4) := UE(s, c3);
    var (mbsOnly, c5) := OneBit(s, c4);
    var (adaptive, c6) := Flag(s, c5, mbsOnly == 0);
    var (direct, c7) := OneBit(s, c6);
    var (cropping, c8) := OneBit(s, c7);
    var (left, right, top, bottom, c9) := if cropping != 0 then ReadCrop(s, c8) else (0, 0, 0, 0, c8);
    (Frame(refs, gaps, width, height, mbsOnly, adaptive, direct, cropping, left, right, top, bottom), c9)
  }

  function ReadAspect(s: seq<bit>, c: Cursor): (r: (nat, nat, nat, Cursor))
    ensures Moves(s, c, r.3)
  {
    var (idc, c1) := Take(s, c, 8);
    var (width, c2) := TakeIf(s, c1, 16, idc == 255);
    var (height, c3) := TakeIf(s, c2, 16, idc == 255);
    (idc, width, height, c3)
  }

  // Up to video_full_range_flag; the flag follows when both `present` and `signal` are set.
  function ReadLead(s: seq<bit>, c: Cursor): (r: (Lead, Cursor))
    ensures Moves(s, c, r.1)
  {
    var (present, c1) := OneBit(s, c);
    if present == 0 then (NO_LEAD, c1)
    else
      var (aspect, c2) := OneBit(s, c1);
      var (idc, width, height, c3) := if aspect != 0 then ReadAspect(s, c2) else (0, 0, 0, c2);
      var (overscan, c4) := OneBit(s, c3);
      var (overscanOk, c5) := Flag(s, c4, overscan != 0);
      var (signal, c6) := OneBit(s, c5);
      var (format, c7) := TakeIf(s, c6, 3, signal != 0);
      (Lead(present, aspect, idc, width, height, overscan, overscanOk, signal, format), c7)
  }

  function ReadTiming(s: seq<bit>, c: Cursor): (r: (bit, nat, nat, bit, Cursor))
    ensures Moves(s, c, r.4)
  {
    var (timing, c1) := OneBit(s, c);
    var (tick, c2) := TakeIf(s, c1, 32, timing != 0);
    var (scale, c3) := TakeIf(s, c2, 32, timing != 0);
    var (fixedRate, c4) := Flag(s, c3, timing != 0);
    (timing, tick, scale, fixedRate, c4)
  }

  function ReadTail(s: seq<bit>, c: Cursor, signal: bool): (r: (Tail, Cursor))
    ensures Moves(s, c, r.1)
  {
    var (colour, c1) := Flag(s, c, signal);
    var (description, c2) := TakeIf(s, c1, 24, colour != 0);
    var (loc, c3) := OneBit(s, c2);
    var (top, c4) := UEIf(s, c3, loc != 0);
    var (bottom, c5) := UEIf(s, c4, loc != 0);
    var (timing, tick, scale, fixedRate, c6) := ReadTiming(s, c5);
    (Tail(colour, description, loc, top, bottom, timing, tick, scale, fixedRate), c6)
  }

  // Everything before video_full_range_flag.
  datatype Front = Front(header: Header, chroma: Chroma, order: Order, frame: Frame, lead: Lead)

  function ReadFront(s: seq<bit>): (r: (Front, Cursor))
    ensures Moves(s, Cursor(0, false), r.1)
  {
    var (header, c1) := ReadHeader(s);
    var (chroma, c2) := if IsHigh(header.profile) then ReadChroma(s, c1) else (NO_CHROMA, c1);
    var (order, c3) := ReadOrder(s, c2);
    var (frame, c4) := ReadFrame(s, c3);
    var (lead, c5) := ReadLead(s, c4);
    (Front(header, chroma, order, frame, lead), c5)
  }

  predicate HasRange(front: Front) {
    front.lead.present != 0 && front.lead.signal != 0
  }

  // Everything from video_full_range_flag on.
  function ReadBack(s: seq<bit>, c: Cursor, front: Front): (r: (bit, Tail, Cursor))
    ensures Moves(s, c, r.2)
  {
    if front.lead.present == 0 then (0, NO_TAIL, c)
    else
      var (range, c1) := Flag(s, c, HasRange(front));
      var (tail, c2) := ReadTail(s, c1, HasRange(front));
      (range, tail, c2)
  }

  // Where the parse ends.
  function End(s: seq<bit>): (end: Cursor)
    ensures Moves(s, Cursor(0, false), end)
  {
    var (front, c) := ReadFront(s);
    ReadBack(s, c, front).2
  }

  function Verdict(front: Front, back: (bit, Tail, Cursor)): Option<Sps> {
    var (range, tail, end) := back;
    if front.header.nalu % 32 != NALU_TYPE_SPS || end.eof then None
    else Some(Sps(front.header, front.chroma, front.order, front.frame, front.lead, range, tail))
  }

  function DecodeSPS(s: seq<bit>): Option<Sps> {
    var (front, c) := ReadFront(s);
    Verdict(front, ReadBack(s, c, front))
  }

  // ---------- FixPixFmt ----------

  // The loop over seq_scaling_list_present_flag; None is the early return.
  function FixLists(s: seq<bit>, c: Cursor, i: nat, n: nat): (r: Option<Cursor>)
    requires i <= n
    decreases |s|, n - i
  {
    if i == n then Some(c)
    else if BitAt(s, c) != 0 then None
    else FixLists(s, Next(s, c), i + 1, n)
  }

  function FixChroma(s: seq<bit>, c: Cursor): Option<Cursor> {
    var (format, c1) := UE(s, c);
    var c2 := if format == 3 then Next(s, c1) else c1;
    var c3 := UE(s, c2).1;
    var c4 := UE(s, c3).1;
    var c5 := Next(s, c4);
    var (scaling, c6) := OneBit(s, c5);
    if scaling != 0 then FixLists(s, c6, 0, ListCount(format)) else Some(c6)
  }

  function FixOrder(s: seq<bit>, c: Cursor): Cursor {
    var c1 := UE(s, c).1;
    var (orderType, c2) := UE(s, c1);
    if orderType == 0 then UE(s, c2).1
    else if orderType == 1 then
      var c3 := Next(s, c2);
      var c4 := SE(s, c3).1;
      var c5 := SE(s, c4).1;
      var (n, c6) := UE(s, c5);
      Offsets(s, c6, n)
    else c2
  }

  function FixFrame(s: seq<bit>, c: Cursor): Cursor {
    var c1 := UE(s, c).1;
    var c2 := Next(s, c1);
    var c3 := UE(s, c2).1;
    var c4 := UE(s, c3).1;
    var (mbsOnly, c5) := OneBit(s, c4);
    var c6 := if mbsOnly == 0 then Next(s, c5) else c5;
    var c7 := Next(s, c6);
    var (cropping, c8) := OneBit(s, c7);
    if cropping != 0 then UE(s, UE(s, UE(s, UE(s, c8).1).1).1).1 else c8
  }

  function FixAspect(s: seq<bit>, c: Cursor): Cursor {
    var (idc, c1) := Take(s, c, 8);
    if idc == 255 then Skip(s, Skip(s, c1, 16), 16) else c1
  }

  // None: video_full_range_flag is not there.
  function FixLead(s: seq<bit>, c: Cursor): Option<Cursor> {
    var (present, c1) := OneBit(s, c);
    if present == 0 then None
    else
      var (aspect, c2) := OneBit(s, c1);
      var c3 := if aspect != 0 then FixAspect(s, c2) else c2;
      var (overscan, c4) := OneBit(s, c3);
      var c5 := if overscan != 0 then Next(s, c4) else c4;
      var (signal, c6) := OneBit(s, c5);
      if signal != 0 then Some(Skip(s, c6, 3)) else None
  }

  // Where FixPixFmt reads video_full_range_flag; None when it gives up before.
  function RangeAt(s: seq<bit>): Option<Cursor> {
    var c0 := Skip(s, Cursor(0, false), 8);
    var (profile, c1) := Take(s, c0, 8);
    var c2 := UE(s, Skip(s, Skip(s, c1, 8), 8)).1;
    var chroma := if IsHigh(profile) then FixChroma(s, c2) else Some(c2);
    if chroma.None? then None else FixLead(s, FixFrame(s, FixOrder(s, chroma.value)))
  }

  // The bit string after FixPixFmt.
  function FixPixFmt(s: seq<bit>): (r: seq<bit>)
    ensures |r| == |s|
  {
    var c := RangeAt(s);
    if c.Some? && c.value.at < |s| && s[c.value.at] == 1 then s[c.value.at := 0] else s
  }
}
