// FixPixFmt and DecodeSPS stay in lockstep (sections 7.3.2.1.1 and E.1.1 of ITU-T H.264).
module SpsLockstep {
  import opened Wrappers
  import opened Bits
  import opened SpsSyntax
  import opened SpsLocality

  // The values of seq_scaling_list_present_flag that DecodeSPS reads from list i on.
  function Presents(s: seq<bit>, c: Cursor, i: nat, n: nat): seq<bit>
    requires i <= n
    decreases |s|, n - i
  {
    if i == n then []
    else
      var (present, c1) := OneBit(s, c);
      var c2 := if present != 0 then ScalingList(s, c1, if i < 6 then 16 else 64, 8, 8) else c1;
      [present] + Presents(s, c2, i + 1, n)
  }

  // All of them; none without a scaling matrix.
  function ListFlags(s: seq<bit>): seq<bit> {
    var (header, c) := ReadHeader(s);
    if !IsHigh(header.profile) then []
    else
      var (chroma, c') := ReadDepths(s, c);
      if chroma.scalingMatrix == 0 then [] else Presents(s, c', 0, ListCount(chroma.format))
  }

  predicate HasScalingList(s: seq<bit>) {
    1 in ListFlags(s)
  }

  lemma {:induction false} ListStops(s: seq<bit>, c: Cursor, i: nat, n: nat)
    requires i <= n
    ensures FixLists(s, c, i, n).None? <==> 1 in Presents(s, c, i, n)
    decreases n - i
  {
    if i < n && BitAt(s, c) == 0 {
      ListStops(s, Next(s, c), i + 1, n);
      assert Presents(s, c, i, n) == [0] + Presents(s, Next(s, c), i + 1, n);
    }
  }

  // FixPixFmt gives up in front of the first list that is present, and only there.
  lemma GivesUpExactly(s: seq<bit>)
    ensures HasScalingList(s) <==> IsHigh(ReadHeader(s).0.profile) && FixChroma(s, ReadHeader(s).1).None?
  {
    var (header, c) := ReadHeader(s);
    var (chroma, c') := ReadDepths(s, c);
    ListStops(s, c', 0, ListCount(chroma.format));
  }

  // ---------- both parsers reach the flag at the same bit ----------

  lemma {:induction false} ListsAgree(s: seq<bit>, c: Cursor, i: nat, n: nat)
    requires i <= n && FixLists(s, c, i, n).Some?
    ensures ScalingLists(s, c, i, n) == FixLists(s, c, i, n).value
    decreases n - i
  {
    if i < n {
      ListsAgree(s, Next(s, c), i + 1, n);
    }
  }

  lemma ChromaAgrees(s: seq<bit>, c: Cursor)
    requires FixChroma(s, c).Some?
    ensures ReadChroma(s, c).1 == FixChroma(s, c).value
  {
    var (chroma, c') := ReadDepths(s, c);
    if chroma.scalingMatrix != 0 {
      ListsAgree(s, c', 0, ListCount(chroma.format));
    }
  }

  lemma OrderAgrees(s: seq<bit>, c: Cursor)
    ensures ReadOrder(s, c).1 == FixOrder(s, c)
  {
  }

  lemma FrameAgrees(s: seq<bit>, c: Cursor)
    ensures ReadFrame(s, c).1 == FixFrame(s, c)
  {
  }

  lemma LeadAgrees(s: seq<bit>, c: Cursor)
    ensures var lead := ReadLead(s, c);
            FixLead(s, c) == if lead.0.present != 0 && lead.0.signal != 0 then Some(lead.1) else None
  {
  }

  // FixPixFmt looks at the very bit that DecodeSPS stores as video_full_range_flag.
  lemma RangeAgrees(s: seq<bit>)
    requires !HasScalingList(s)
    ensures RangeAt(s) == if HasRange(ReadFront(s).0) then Some(ReadFront(s).1) else None
  {
    GivesUpExactly(s);
    var (header, c1) := ReadHeader(s);
    var (chroma, c2) := if IsHigh(header.profile) then ReadChroma(s, c1) else (NO_CHROMA, c1);
    if IsHigh(header.profile) {
      ChromaAgrees(s, c1);
    }
    OrderAgrees(s, c2);
    var c3 := FixOrder(s, c2);
    FrameAgrees(s, c3);
    LeadAgrees(s, FixFrame(s, c3));
  }

  // ---------- neither part of the parse depends on that bit ----------

  // Equal but for bit q.
  ghost predicate Agree(s: seq<bit>, s': seq<bit>, q: nat) {
    |s| == |s'| && forall i :: 0 <= i < |s| && i != q ==> s[i] == s'[i]
  }

  // Behind the flag nothing depends on it.
  lemma ClearedBack(s: seq<bit>, s': seq<bit>, c: Cursor, front: Front)
    requires Agree(s, s', c.at) && c.at < |s| && s[c.at] == 1 && s'[c.at] == 0 && HasRange(front)
    ensures var (range, tail, end) := ReadBack(s, c, front);
            range == 1 && ReadBack(s', c, front) == (0, tail, end)
  {
    SameTail(s, s', Next(s, c), true);
  }

  // ---------- FixPixFmt ----------

  ghost predicate DifferInOneBit(s: seq<bit>, s': seq<bit>) {
    exists q: nat :: Agree(s, s', q)
  }

  // The parameter set FixPixFmt should leave behind.
  function WithoutFullRange(sps: Option<Sps>): Option<Sps> {
    match sps
    case None => None
    case Some(v) => Some(v.(fullRange := 0))
  }

  // Both outcomes of clearing, once the parse is cut at the flag.
  lemma ClearedVerdict(front: Front, back: (bit, Tail, Cursor))
    ensures Verdict(front, (0, back.1, back.2)) == WithoutFullRange(Verdict(front, back))
  {
  }

  lemma CutAtFlag(s: seq<bit>, front: Front, c: Cursor)
    requires ReadFront(s) == (front, c)
    ensures DecodeSPS(s) == Verdict(front, ReadBack(s, c, front))
  {
  }

  lemma AtFlag(s: seq<bit>, c: Cursor)
    requires !HasScalingList(s) && RangeAt(s) == Some(c)
    ensures ReadFront(s).1 == c && HasRange(ReadFront(s).0)
    ensures DecodeSPS(s) == Verdict(ReadFront(s).0, ReadBack(s, c, ReadFront(s).0))
  {
    RangeAgrees(s);
  }

  lemma SameCut(s: seq<bit>, s': seq<bit>, c: Cursor)
    requires Agree(s, s', c.at) && ReadFront(s).1 == c
    ensures DecodeSPS(s') == Verdict(ReadFront(s).0, ReadBack(s', c, ReadFront(s).0))
  {
    SameFront(s, s');
    CutAtFlag(s', ReadFront(s).0, c);
  }

  lemma ClearedFlag(s: seq<bit>, c: Cursor)
    requires !HasScalingList(s) && RangeAt(s) == Some(c) && c.at < |s| && s[c.at] == 1
    ensures DecodeSPS(s[c.at := 0]) == WithoutFullRange(DecodeSPS(s))
  {
    var s', front := s[c.at := 0], ReadFront(s).0;
    AtFlag(s, c);
    SameCut(s, s', c);
    ClearedBack(s, s', c, front);
    ClearedVerdict(front, ReadBack(s, c, front));
  }

  lemma BackRange(s: seq<bit>, c: Cursor, front: Front)
    ensures ReadBack(s, c, front).0 == if HasRange(front) then BitAt(s, c) else 0
  {
  }

  lemma ClearAlready(s: seq<bit>)
    requires !HasScalingList(s) && FixPixFmt(s) == s
    ensures DecodeSPS(s) == WithoutFullRange(DecodeSPS(s))
  {
    var (front, c) := ReadFront(s);
    assert HasRange(front) ==> BitAt(s, c) == 0 by {
      RangeAgrees(s);
    }
    BackRange(s, c, front);
    CutAtFlag(s, front, c);
    ClearedVerdict(front, ReadBack(s, c, front));
  }

  lemma ScalingListStops(s: seq<bit>)
    requires HasScalingList(s)
    ensures FixPixFmt(s) == s
  {
    GivesUpExactly(s);
    assert RangeAt(s).None?;
  }

  // FixPixFmt changes at most one bit. Without a scaling list DecodeSPS then returns the same
  // parameter set with video_full_range_flag cleared, and nil for the same inputs as before;
  // with one nothing changes.
  lemma FixKeepsTheRest(s: seq<bit>)
    ensures DifferInOneBit(s, FixPixFmt(s))
    ensures HasScalingList(s) ==> FixPixFmt(s) == s
    ensures !HasScalingList(s) ==> DecodeSPS(FixPixFmt(s)) == WithoutFullRange(DecodeSPS(s))
  {
    var s', c := FixPixFmt(s), RangeAt(s);
    if HasScalingList(s) {
      ScalingListStops(s);
      assert Agree(s, s', 0);
    } else if c.Some? && c.value.at < |s| && s[c.value.at] == 1 {
      ClearedFlag(s, c.value);
      assert Agree(s, s', c.value.at);
    } else {
      ClearAlready(s);
      assert Agree(s, s', 0);
    }
  }

  lemma ClearsExactly(before: Option<Sps>, after: Option<Sps>, list: bool)
    requires after == if list then before else WithoutFullRange(before)
    ensures after == WithoutFullRange(before) <==> !(list && before.Some? && before.value.fullRange == 1)
  {
  }

  // The fix reaches its goal exactly when no scaling list hides a set flag from it.
  lemma FixClearsExactly(s: seq<bit>)
    ensures DecodeSPS(FixPixFmt(s)) == WithoutFullRange(DecodeSPS(s))
       <==> !(HasScalingList(s) && DecodeSPS(s).Some? && DecodeSPS(s).value.fullRange == 1)
  {
    FixKeepsTheRest(s);
    ClearsExactly(DecodeSPS(s), DecodeSPS(FixPixFmt(s)), HasScalingList(s));
  }

  lemma {:induction false} SamePresents(s: seq<bit>, s': seq<bit>, c: Cursor, i: nat, n: nat)
    requires i <= n && Alike(s, s', c, ScalingLists(s, c, i, n))
    ensures Presents(s', c, i, n) == Presents(s, c, i, n)
    decreases n - i
  {
    if i < n {
      var (present, c1) := OneBit(s, c);
      var c2 := if present != 0 then ScalingList(s, c1, if i < 6 then 16 else 64, 8, 8) else c1;
      assert Moves(s, c2, ScalingLists(s, c2, i + 1, n));
      SameBit(s, s', c);
      if present != 0 {
        SameScalingList(s, s', c1, if i < 6 then 16 else 64, 8, 8);
      }
      SamePresents(s, s', c2, i + 1, n);
    }
  }

  lemma SameListFlags(s: seq<bit>, s': seq<bit>)
    requires Alike(s, s', Cursor(0, false), ReadFront(s).1)
    ensures ListFlags(s') == ListFlags(s)
  {
    var (header, c) := ReadHeader(s);
    SameHeader(s, s');
    if IsHigh(header.profile) {
      var (chroma, c') := ReadDepths(s, c);
      SameDepths(s, s', c);
      if chroma.scalingMatrix != 0 {
        SamePresents(s, s', c', 0, ListCount(chroma.format));
      }
    }
  }

  // The fix is idempotent: the flag it would clear is gone.
  lemma FixIsIdempotent(s: seq<bit>)
    ensures FixPixFmt(FixPixFmt(s)) == FixPixFmt(s)
  {
    var s', c := FixPixFmt(s), RangeAt(s);
    if s' != s {
      if HasScalingList(s) {
        ScalingListStops(s);
      }
      var q := c.value.at;
      assert Agree(s, s', q);
      RangeAgrees(s);
      SameFront(s, s');
      SameListFlags(s, s');
      RangeAgrees(s');
    }
  }
}
