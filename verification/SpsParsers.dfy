// DecodeSPS and FixPixFmt of pkg/h264/sps.go over the bit reader, proved against the
// functions of SpsSyntax. The source's one long body is cut at the same places as those.
module SpsParsers {
  import opened Wrappers
  import opened Bytes
  import opened Bits
  import opened BitIO
  import opened SpsSyntax
  import opened SpsLockstep

  // ---------- DecodeSPS ----------

  method ParseScalingList(r: Reader, size: nat)
    requires r.Valid()
    modifies r
    ensures r.Valid() && r.View() == ScalingList(BitsOf(r.buf), old(r.View()), size, 8, 8)
  {
    var lastScale, nextScale := 8, 8;
    ghost var s := BitsOf(r.buf);
    for j := 0 to size
      invariant r.Valid()
      invariant ScalingList(s, r.View(), size - j, lastScale, nextScale)
             == ScalingList(s, old(r.View()), size, 8, 8)
    {
      if nextScale != 0 {
        var delta := r.ReadSEGolomb();
        nextScale := Rem256(Int32(Int32(lastScale + delta) + 256));
      }
      if nextScale != 0 {
        lastScale := nextScale;
      }
    }
  }

  method ParseScalingLists(r: Reader, n: nat)
    requires r.Valid()
    modifies r
    ensures r.Valid() && r.View() == ScalingLists(BitsOf(r.buf), old(r.View()), 0, n)
  {
    ghost var s := BitsOf(r.buf);
    for i := 0 to n
      invariant r.Valid()
      invariant ScalingLists(s, r.View(), i, n) == ScalingLists(s, old(r.View()), 0, n)
    {
      var present := r.ReadBit();
      if present != 0 {
        if i < 6 {
          ParseScalingList(r, 16);
        } else {
          ParseScalingList(r, 64);
        }
      }
    }
  }

  method ParseHeader(r: Reader) returns (header: Header)
    requires r.Valid() && r.View() == Cursor(0, false)
    modifies r
    ensures r.Valid() && (header, r.View()) == ReadHeader(BitsOf(r.buf))
  {
    var nalu := r.ReadByte();
    var profile := r.ReadByte();
    var constraints := r.ReadByte();
    var level := r.ReadByte();
    var id := r.ReadUEGolomb();
    header := Header(nalu, profile, constraints, level, id);
  }

  method ParseChroma(r: Reader) returns (chroma: Chroma)
    requires r.Valid()
    modifies r
    ensures r.Valid() && (chroma, r.View()) == ReadChroma(BitsOf(r.buf), old(r.View()))
  {
    var n, separate := 8, 0;
    var format := r.ReadUEGolomb();
    if format == 3 {
      separate := r.ReadBit();
      n := 12;
    }
    var luma := r.ReadUEGolomb();
    var chromaDepth := r.ReadUEGolomb();
    var bypass := r.ReadBit();
    var scaling := r.ReadBit();
    if scaling != 0 {
      ParseScalingLists(r, n);
    }
    chroma := Chroma(format, separate, luma, chromaDepth, bypass, scaling);
  }

  method ParseOffsets(r: Reader, n: nat)
    requires r.Valid()
    modifies r
    ensures r.Valid() && r.View() == Offsets(BitsOf(r.buf), old(r.View()), n)
  {
    for i := 0 to n
      invariant r.Valid()
      invariant Offsets(BitsOf(r.buf), r.View(), n - i) == Offsets(BitsOf(r.buf), old(r.View()), n)
    {
      var _ := r.ReadSEGolomb();
    }
  }

  method ParseOrder(r: Reader) returns (order: Order)
    requires r.Valid()
    modifies r
    ensures r.Valid() && (order, r.View()) == ReadOrder(BitsOf(r.buf), old(r.View()))
  {
    var frameNum := r.ReadUEGolomb();
    var orderType := r.ReadUEGolomb();
    order := Order(frameNum, orderType, 0, 0, 0, 0, 0);
    if orderType == 0 {
      var lsb := r.ReadUEGolomb();
      order := order.(orderLsb := lsb);
    } else if orderType == 1 {
      var zero := r.ReadBit();
      var nonRef := r.ReadSEGolomb();
      var topToBottom := r.ReadSEGolomb();
      var cycle := r.ReadUEGolomb();
      ParseOffsets(r, cycle);
      order := Order(frameNum, orderType, 0, zero, nonRef, topToBottom, cycle);
    }
  }

  method ParseFrame(r: Reader) returns (frame: Frame)
    requires r.Valid()
    modifies r
    ensures r.Valid() && (frame, r.View()) == ReadFrame(BitsOf(r.buf), old(r.View()))
  {
    var refs := r.ReadUEGolomb();
    var gaps := r.ReadBit();
    var width := r.ReadUEGolomb();
    var height := r.ReadUEGolomb();
    var mbsOnly := r.ReadBit();
    var adaptive := 0;
    if mbsOnly == 0 {
      adaptive := r.ReadBit();
    }
    var direct := r.ReadBit();
    var cropping := r.ReadBit();
    var left, right, top, bottom := 0, 0, 0, 0;
    if cropping != 0 {
      left, right, top, bottom := ParseCrop(r);
    }
    frame := Frame(refs, gaps, width, height, mbsOnly, adaptive, direct, cropping, left, right, top, bottom);
  }

  method ParseCrop(r: Reader) returns (left: nat, right: nat, top: nat, bottom: nat)
    requires r.Valid()
    modifies r
    ensures r.Valid() && (left, right, top, bottom, r.View()) == ReadCrop(BitsOf(r.buf), old(r.View()))
  {
    left := r.ReadUEGolomb();
    right := r.ReadUEGolomb();
    top := r.ReadUEGolomb();
    bottom := r.ReadUEGolomb();
  }

  method ParseLead(r: Reader) returns (lead: Lead)
    requires r.Valid()
    modifies r
    ensures r.Valid() && (lead, r.View()) == ReadLead(BitsOf(r.buf), old(r.View()))
  {
    var present := r.ReadBit();
    lead := NO_LEAD;
    if present != 0 {
      var idc, sarWidth, sarHeight, overscanOk, format := 0, 0, 0, 0, 0;
      var aspect := r.ReadBit();
      if aspect != 0 {
        idc, sarWidth, sarHeight := ParseAspect(r);
      }
      var overscan := r.ReadBit();
      if overscan != 0 {
        overscanOk := r.ReadBit();
      }
      var signal := r.ReadBit();
      if signal != 0 {
        format := r.ReadBits(3, 8);
      }
      lead := Lead(present, aspect, idc, sarWidth, sarHeight, overscan, overscanOk, signal, format);
    }
  }

  method ParseAspect(r: Reader) returns (idc: nat, width: nat, height: nat)
    requires r.Valid()
    modifies r
    ensures r.Valid() && (idc, width, height, r.View()) == ReadAspect(BitsOf(r.buf), old(r.View()))
  {
    width, height := 0, 0;
    idc := r.ReadByte();
    if idc == 255 {
      width := r.ReadUint16();
      height := r.ReadUint16();
    }
  }

  method ParseTail(r: Reader, signal: bool) returns (tail: Tail)
    requires r.Valid()
    modifies r
    ensures r.Valid() && (tail, r.View()) == ReadTail(BitsOf(r.buf), old(r.View()), signal)
  {
    var colour, description, top, bottom, tick, scale, fixedRate := 0, 0, 0, 0, 0, 0, 0;
    if signal {
      colour := r.ReadBit();
      if colour != 0 {
        description := r.ReadUint24();
      }
    }
    var loc := r.ReadBit();
    if loc != 0 {
      top := r.ReadUEGolomb();
      bottom := r.ReadUEGolomb();
    }
    var timing := r.ReadBit();
    if timing != 0 {
      tick := r.ReadUint32();
      scale := r.ReadUint32();
      fixedRate := r.ReadBit();
    }
    tail := Tail(colour, description, loc, top, bottom, timing, tick, scale, fixedRate);
  }

  method ParseFront(r: Reader) returns (front: Front)
    requires r.Valid() && r.View() == Cursor(0, false)
    modifies r
    ensures r.Valid() && (front, r.View()) == ReadFront(BitsOf(r.buf))
  {
    var header := ParseHeader(r);
    var chroma := NO_CHROMA;
    if IsHigh(header.profile) {
      chroma := ParseChroma(r);
    }
    var order := ParseOrder(r);
    var frame := ParseFrame(r);
    var lead := ParseLead(r);
    front := Front(header, chroma, order, frame, lead);
  }

  method ParseSPS(sps: seq<byte>) returns (s: Option<Sps>)
    ensures s == DecodeSPS(BitsOf(sps))
  {
    var r := new Reader(sps);
    var front := ParseFront(r);
    if front.header.nalu % 32 != NALU_TYPE_SPS {
      return None;
    }
    var range, tail := 0, NO_TAIL;
    if front.lead.present != 0 {
      if front.lead.signal != 0 {
        range := r.ReadBit();
      }
      tail := ParseTail(r, front.lead.signal != 0);
    }
    if r.EOF {
      return None;
    }
    s := Some(Sps(front.header, front.chroma, front.order, front.frame, front.lead, range, tail));
  }

  // ---------- FixPixFmt ----------

  method SkipChroma(r: Reader) returns (goOn: bool)
    requires r.Valid()
    modifies r
    ensures r.Valid() && FixChroma(BitsOf(r.buf), old(r.View())) == if goOn then Some(r.View()) else None
  {
    var n := 8;
    var format := r.ReadUEGolomb();
    if format == 3 {
      var _ := r.ReadBit();
      n := 12;
    }
    var _ := r.ReadUEGolomb();
    var _ := r.ReadUEGolomb();
    var _ := r.ReadBit();
    var scaling := r.ReadBit();
    if scaling != 0 {
      goOn := SkipLists(r, n);
    } else {
      goOn := true;
    }
  }

  method SkipLists(r: Reader, n: nat) returns (goOn: bool)
    requires r.Valid()
    modifies r
    ensures r.Valid() && FixLists(BitsOf(r.buf), old(r.View()), 0, n) == if goOn then Some(r.View()) else None
  {
    for i := 0 to n
      invariant r.Valid()
      invariant FixLists(BitsOf(r.buf), r.View(), i, n) == FixLists(BitsOf(r.buf), old(r.View()), 0, n)
    {
      var present := r.ReadBit();
      if present != 0 {
        return false;
      }
    }
    goOn := true;
  }

  method SkipOrder(r: Reader)
    requires r.Valid()
    modifies r
    ensures r.Valid() && r.View() == FixOrder(BitsOf(r.buf), old(r.View()))
  {
    var _ := r.ReadUEGolomb();
    var orderType := r.ReadUEGolomb();
    if orderType == 0 {
      var _ := r.ReadUEGolomb();
    } else if orderType == 1 {
      var _ := r.ReadBit();
      var _ := r.ReadSEGolomb();
      var _ := r.ReadSEGolomb();
      var n := r.ReadUEGolomb();
      ParseOffsets(r, n);
    }
  }

  method SkipFrame(r: Reader)
    requires r.Valid()
    modifies r
    ensures r.Valid() && r.View() == FixFrame(BitsOf(r.buf), old(r.View()))
  {
    var _ := r.ReadUEGolomb();
    var _ := r.ReadBit();
    var _ := r.ReadUEGolomb();
    var _ := r.ReadUEGolomb();
    var mbsOnly := r.ReadBit();
    if mbsOnly == 0 {
      var _ := r.ReadBit();
    }
    var _ := r.ReadBit();
    var cropping := r.ReadBit();
    if cropping != 0 {
      var _ := r.ReadUEGolomb();
      var _ := r.ReadUEGolomb();
      var _ := r.ReadUEGolomb();
      var _ := r.ReadUEGolomb();
    }
  }

  method SkipAspect(r: Reader)
    requires r.Valid()
    modifies r
    ensures r.Valid() && r.View() == FixAspect(BitsOf(r.buf), old(r.View()))
  {
    var idc := r.ReadByte();
    if idc == 255 {
      var _ := r.ReadUint16();
      var _ := r.ReadUint16();
    }
  }

  method SkipOverscan(r: Reader)
    requires r.Valid()
    modifies r
    ensures r.Valid()
    ensures var s, c := BitsOf(r.buf), old(r.View());
            r.View() == if BitAt(s, c) != 0 then Next(s, Next(s, c)) else Next(s, c)
  {
    var overscan := r.ReadBit();
    if overscan != 0 {
      var _ := r.ReadBit();
    }
  }

  method SkipLead(r: Reader) returns (found: bool)
    requires r.Valid()
    modifies r
    ensures r.Valid() && FixLead(BitsOf(r.buf), old(r.View())) == if found then Some(r.View()) else None
  {
    found := false;
    var present := r.ReadBit();
    if present != 0 {
      var aspect := r.ReadBit();
      if aspect != 0 {
        SkipAspect(r);
      }
      SkipOverscan(r);
      var signal := r.ReadBit();
      if signal != 0 {
        var _ := r.ReadBits(3, 8);
        found := true;
      }
    }
  }

  method FindRange(r: Reader) returns (found: bool)
    requires r.Valid() && r.View() == Cursor(0, false)
    modifies r
    ensures r.Valid() && RangeAt(BitsOf(r.buf)) == if found then Some(r.View()) else None
  {
    var _ := r.ReadByte();
    var profile := r.ReadByte();
    var _ := r.ReadByte();
    var _ := r.ReadByte();
    var _ := r.ReadUEGolomb();
    if IsHigh(profile) {
      var goOn := SkipChroma(r);
      if !goOn {
        return false;
      }
    }
    SkipOrder(r);
    SkipFrame(r);
    found := SkipLead(r);
  }

  // x &= ^(1 << k) for a bit that is set
  lemma {:induction false} ClearLow(x: nat, n: nat, k: nat)
    requires k < n && Shr(x, k) % 2 == 1
    ensures x >= Pow2(k)
    ensures ToBits(x - Pow2(k), n) == ToBits(x, n)[n - 1 - k := 0]
    decreases n
  {
    if k == 0 {
      assert (x - 1) / 2 == x / 2;
    } else {
      ClearLow(x / 2, n - 1, k - 1);
      assert (x - Pow2(k)) / 2 == x / 2 - Pow2(k - 1);
      assert ToBits(x, n)[..n - 1] == ToBits(x / 2, n - 1);
    }
  }

  lemma {:induction false} UpdateSides(a: seq<bit>, b: seq<bit>, k: nat)
    ensures k < |b| ==> a + b[k := 0] == (a + b)[|a| + k := 0]
    ensures k < |a| ==> a[k := 0] + b == (a + b)[k := 0]
  {
  }

  // Rewriting byte i rewrites its eight bits.
  lemma {:induction false} BitsOfUpdate(b: seq<byte>, i: nat, y: byte, k: nat)
    requires i < |b| && k < 8 && ToBits(y, 8) == ToBits(b[i], 8)[k := 0]
    ensures BitsOf(b[i := y]) == BitsOf(b)[8 * i + k := 0]
  {
    var n := |b| - 1;
    if i == n {
      assert b[i := y][..n] == b[..n];
      UpdateSides(BitsOf(b[..n]), ToBits(b[n], 8), k);
    } else {
      BitsOfUpdate(b[..n], i, y, k);
      UpdateSides(BitsOf(b[..n]), ToBits(b[n], 8), 8 * i + k);
      assert b[i := y][..n] == b[..n][i := y];
    }
  }

  // Clearing bit k of byte i, which is set.
  lemma ClearBit(b: seq<byte>, i: nat, k: nat)
    requires i < |b| && k < 8 && BitsOf(b)[8 * i + 7 - k] == 1
    ensures b[i] >= Pow2(k) && BitsOf(b[i := b[i] - Pow2(k)]) == BitsOf(b)[8 * i + 7 - k := 0]
  {
    ShiftedBit(b, i, k);
    ClearLow(b[i], 8, k);
    BitsOfUpdate(b, i, b[i] - Pow2(k), 7 - k);
  }

  // Where the reader stands right after a bit that was there.
  lemma JustRead(r: Reader, c: Cursor)
    requires r.Valid() && !r.past && c.at < 8 * |r.buf| && r.View().at == c.at + 1
    ensures r.pos > 0 && c.at == 8 * (r.pos - 1) + 7 - r.bits
  {
  }

  lemma FixAt(s: seq<bit>, c: Option<Cursor>)
    requires RangeAt(s) == c
    ensures FixPixFmt(s) == if c.Some? && BitAt(s, c.value) == 1 then s[c.value.at := 0] else s
  {
  }

  method ClearFullRange(sps: array<byte>)
    modifies sps
    ensures BitsOf(sps[..]) == FixPixFmt(BitsOf(old(sps[..])))
  {
    var r := new Reader(sps[..]);
    var found := FindRange(r);
    ghost var s, c := BitsOf(r.buf), r.View();
    FixAt(s, if found then Some(c) else None);
    if found {
      ClearFlag(sps, r, c);
    }
  }

  // The last step: read the flag and clear it if it is set.
  method ClearFlag(sps: array<byte>, r: Reader, ghost c: Cursor)
    requires r.Valid() && r.buf == sps[..] && r.View() == c
    modifies r, sps
    ensures var s := BitsOf(old(sps[..])); BitsOf(sps[..]) == if BitAt(s, c) == 1 then s[c.at := 0] else s
  {
    var flag := r.ReadBit();
    if flag == 1 {
      JustRead(r, c);
      var i, k := r.Pos();
      ClearBit(r.buf, i, k);
      sps[i] := sps[i] - Pow2(k);
      assert sps[..] == r.buf[i := r.buf[i] - Pow2(k)];
    }
  }

  // The patcher between two runs of the parser over the same slice.
  method ParseFixParse(sps: array<byte>) returns (before: Option<Sps>, after: Option<Sps>)
    modifies sps
    ensures var s := BitsOf(old(sps[..]));
            before == DecodeSPS(s) && after == if HasScalingList(s) then before else WithoutFullRange(before)
  {
    ghost var s := BitsOf(sps[..]);
    before := ParseSPS(sps[..]);
    ClearFullRange(sps);
    FixKeepsTheRest(s);
    after := ParseSPS(sps[..]);
  }
}
