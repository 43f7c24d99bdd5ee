// A parse of a parameter set depends on the bits it reads, and on nothing else.
module SpsLocality {
  import opened Bits
  import opened SpsSyntax

  lemma SameFlag(s: seq<bit>, s': seq<bit>, c: Cursor, present: bool)
    requires Alike(s, s', c, Flag(s, c, present).1)
    ensures Flag(s', c, present) == Flag(s, c, present)
  {
    if present {
      SameBit(s, s', c);
    }
  }

  lemma SameUEIf(s: seq<bit>, s': seq<bit>, c: Cursor, present: bool)
    requires Alike(s, s', c, UEIf(s, c, present).1)
    ensures UEIf(s', c, present) == UEIf(s, c, present)
  {
    if present {
      SameUE(s, s', c);
    }
  }

  lemma SameTakeIf(s: seq<bit>, s': seq<bit>, c: Cursor, n: nat, present: bool)
    requires Alike(s, s', c, TakeIf(s, c, n, present).1)
    ensures TakeIf(s', c, n, present) == TakeIf(s, c, n, present)
  {
    if present {
      SameTake(s, s', c, n);
    }
  }

  lemma SameHeader(s: seq<bit>, s': seq<bit>)
    requires Alike(s, s', Cursor(0, false), ReadHeader(s).1)
    ensures ReadHeader(s') == ReadHeader(s)
  {
    var c := Cursor(0, false);
    var c0 := Skip(s, c, 8);
    var c1 := Skip(s, c0, 8);
    var c2 := Skip(s, c1, 8);
    var c3 := Skip(s, c2, 8);
    SameTake(s, s', c, 8);
    SameTake(s, s', c0, 8);
    SameTake(s, s', c1, 8);
    SameTake(s, s', c2, 8);
    SameUE(s, s', c3);
  }

  lemma {:induction false} SameScalingList(s: seq<bit>, s': seq<bit>, c: Cursor, left: nat, last: int, next: int)
    requires Alike(s, s', c, ScalingList(s, c, left, last, next))
    ensures ScalingList(s', c, left, last, next) == ScalingList(s, c, left, last, next)
    decreases left
  {
    if left > 0 {
      var (delta, c') := if next != 0 then SE(s, c) else (0, c);
      var next' := if next != 0 then Rem256(Int32(Int32(last + delta) + 256)) else next;
      if next != 0 {
        SameSE(s, s', c);
      }
      SameScalingList(s, s', c', left - 1, if next' != 0 then next' else last, next');
    }
  }

  lemma {:induction false} SameScalingLists(s: seq<bit>, s': seq<bit>, c: Cursor, i: nat, n: nat)
    requires i <= n && Alike(s, s', c, ScalingLists(s, c, i, n))
    ensures ScalingLists(s', c, i, n) == ScalingLists(s, c, i, n)
    decreases n - i
  {
    if i < n {
      var (present, c1) := OneBit(s, c);
      var c2 := if present != 0 then ScalingList(s, c1, if i < 6 then 16 else 64, 8, 8) else c1;
      assert Moves(s, c2, ScalingLists(s, c2, i + 1, n));
      SameBit(s, s', c);
      if present != 0 {
        SameScalingList(s, s', c1, if i < 6 then 16 else 64, 8, 8);
      }
      SameScalingLists(s, s', c2, i + 1, n);
    }
  }

  lemma SameDepths(s: seq<bit>, s': seq<bit>, c: Cursor)
    requires Alike(s, s', c, ReadDepths(s, c).1)
    ensures ReadDepths(s', c) == ReadDepths(s, c)
  {
    var (format, c1) := UE(s, c);
    var c2 := Flag(s, c1, format == 3).1;
    var c3 := UE(s, c2).1;
    var c4 := UE(s, c3).1;
    var c5 := Next(s, c4);
    SameUE(s, s', c);
    SameFlag(s, s', c1, format == 3);
    SameUE(s, s', c2);
    SameUE(s, s', c3);
    SameBit(s, s', c4);
    SameBit(s, s', c5);
  }

  lemma SameChroma(s: seq<bit>, s': seq<bit>, c: Cursor)
    requires Alike(s, s', c, ReadChroma(s, c).1)
    ensures ReadChroma(s', c) == ReadChroma(s, c)
  {
    var (chroma, c') := ReadDepths(s, c);
    SameDepths(s, s', c);
    if chroma.scalingMatrix != 0 {
      SameScalingLists(s, s', c', 0, ListCount(chroma.format));
    }
  }

  lemma {:induction false} SameOffsets(s: seq<bit>, s': seq<bit>, c: Cursor, n: nat)
    requires Alike(s, s', c, Offsets(s, c, n))
    ensures Offsets(s', c, n) == Offsets(s, c, n)
    decreases n
  {
    if n > 0 {
      SameSE(s, s', c);
      SameOffsets(s, s', SE(s, c).1, n - 1);
    }
  }

  lemma SameOrder(s: seq<bit>, s': seq<bit>, c: Cursor)
    requires Alike(s, s', c, ReadOrder(s, c).1)
    ensures ReadOrder(s', c) == ReadOrder(s, c)
  {
    var (frameNum, c1) := UE(s, c);
    var (orderType, c2) := UE(s, c1);
    SameUE(s, s', c);
    SameUE(s, s', c1);
    if orderType == 0 {
      SameUE(s, s', c2);
    } else if orderType == 1 {
      var c3 := Next(s, c2);
      var c4 := SE(s, c3).1;
      var c5 := SE(s, c4).1;
      var (cycle, c6) := UE(s, c5);
      SameBit(s, s', c2);
      SameSE(s, s', c3);
      SameSE(s, s', c4);
      SameUE(s, s', c5);
      SameOffsets(s, s', c6, cycle);
    }
  }

  lemma SameCrop(s: seq<bit>, s': seq<bit>, c: Cursor)
    requires Alike(s, s', c, ReadCrop(s, c).4)
    ensures ReadCrop(s', c) == ReadCrop(s, c)
  {
    var c1 := UE(s, c).1;
    var c2 := UE(s, c1).1;
    var c3 := UE(s, c2).1;
    SameUE(s, s', c);
    SameUE(s, s', c1);
    SameUE(s, s', c2);
    SameUE(s, s', c3);
  }

  lemma SameFrame(s: seq<bit>, s': seq<bit>, c: Cursor)
    requires Alike(s, s', c, ReadFrame(s, c).1)
    ensures ReadFrame(s', c) == ReadFrame(s, c)
  {
    var c1 := UE(s, c).1;
    var c2 := Next(s, c1);
    var c3 := UE(s, c2).1;
    var c4 := UE(s, c3).1;
    var (mbsOnly, c5) := OneBit(s, c4);
    var c6 := Flag(s, c5, mbsOnly == 0).1;
    var c7 := Next(s, c6);
    var (cropping, c8) := OneBit(s, c7);
    SameUE(s, s', c);
    SameBit(s, s', c1);
    SameUE(s, s', c2);
    SameUE(s, s', c3);
    SameBit(s, s', c4);
    SameFlag(s, s', c5, mbsOnly == 0);
    SameBit(s, s', c6);
    SameBit(s, s', c7);
    if cropping != 0 {
      SameCrop(s, s', c8);
    }
  }

  lemma SameAspect(s: seq<bit>, s': seq<bit>, c: Cursor)
    requires Alike(s, s', c, ReadAspect(s, c).3)
    ensures ReadAspect(s', c) == ReadAspect(s, c)
  {
    var (idc, c1) := Take(s, c, 8);
    var (width, c2) := TakeIf(s, c1, 16, idc == 255);
    SameTake(s, s', c, 8);
    SameTakeIf(s, s', c1, 16, idc == 255);
    SameTakeIf(s, s', c2, 16, idc == 255);
  }

  lemma SameLead(s: seq<bit>, s': seq<bit>, c: Cursor)
    requires Alike(s, s', c, ReadLead(s, c).1)
    ensures ReadLead(s', c) == ReadLead(s, c)
  {
    var (present, c1) := OneBit(s, c);
    SameBit(s, s', c);
    if present != 0 {
      var (aspect, c2) := OneBit(s, c1);
      var c3 := if aspect != 0 then ReadAspect(s, c2).3 else c2;
      var (overscan, c4) := OneBit(s, c3);
      var c5 := Flag(s, c4, overscan != 0).1;
      var (signal, c6) := OneBit(s, c5);
      SameBit(s, s', c1);
      if aspect != 0 {
        SameAspect(s, s', c2);
      }
      SameBit(s, s', c3);
      SameFlag(s, s', c4, overscan != 0);
      SameBit(s, s', c5);
      SameTakeIf(s, s', c6, 3, signal != 0);
    }
  }

  lemma SameTiming(s: seq<bit>, s': seq<bit>, c: Cursor)
    requires Alike(s, s', c, ReadTiming(s, c).4)
    ensures ReadTiming(s', c) == ReadTiming(s, c)
  {
    var (timing, c1) := OneBit(s, c);
    var c2 := TakeIf(s, c1, 32, timing != 0).1;
    var c3 := TakeIf(s, c2, 32, timing != 0).1;
    SameBit(s, s', c);
    SameTakeIf(s, s', c1, 32, timing != 0);
    SameTakeIf(s, s', c2, 32, timing != 0);
    SameFlag(s, s', c3, timing != 0);
  }

  lemma SameTail(s: seq<bit>, s': seq<bit>, c: Cursor, signal: bool)
    requires Alike(s, s', c, ReadTail(s, c, signal).1)
    ensures ReadTail(s', c, signal) == ReadTail(s, c, signal)
  {
    var (colour, c1) := Flag(s, c, signal);
    var c2 := TakeIf(s, c1, 24, colour != 0).1;
    var (loc, c3) := OneBit(s, c2);
    var c4 := UEIf(s, c3, loc != 0).1;
    var c5 := UEIf(s, c4, loc != 0).1;
    SameFlag(s, s', c, signal);
    SameTakeIf(s, s', c1, 24, colour != 0);
    SameBit(s, s', c2);
    SameUEIf(s, s', c3, loc != 0);
    SameUEIf(s, s', c4, loc != 0);
    SameTiming(s, s', c5);
  }

  lemma SameFront(s: seq<bit>, s': seq<bit>)
    requires Alike(s, s', Cursor(0, false), ReadFront(s).1)
    ensures ReadFront(s') == ReadFront(s)
  {
    var (header, c1) := ReadHeader(s);
    var (chroma, c2) := if IsHigh(header.profile) then ReadChroma(s, c1) else (NO_CHROMA, c1);
    var c3 := ReadOrder(s, c2).1;
    var c4 := ReadFrame(s, c3).1;
    SameHeader(s, s');
    if IsHigh(header.profile) {
      SameChroma(s, s', c1);
    }
    SameOrder(s, s', c2);
    SameFrame(s, s', c3);
    SameLead(s, s', c4);
  }

  lemma SameBack(s: seq<bit>, s': seq<bit>, c: Cursor, front: Front)
    requires Alike(s, s', c, ReadBack(s, c, front).2)
    ensures ReadBack(s', c, front) == ReadBack(s, c, front)
  {
    if front.lead.present != 0 {
      var c1 := Flag(s, c, HasRange(front)).1;
      SameFlag(s, s', c, HasRange(front));
      SameTail(s, s', c1, HasRange(front));
    }
  }

  // The whole parse.
  lemma SameParse(s: seq<bit>, s': seq<bit>)
    requires Alike(s, s', Cursor(0, false), End(s))
    ensures DecodeSPS(s') == DecodeSPS(s) && End(s') == End(s)
  {
    var (front, c) := ReadFront(s);
    SameFront(s, s');
    SameBack(s, s', c, front);
  }
}
