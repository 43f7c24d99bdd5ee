// IsKeyframe of pkg/h264/h264.go and pkg/h265/helper.go: the first slice of an AVCC access
// unit decides.
module Keyframes {
  import opened Wrappers
  import opened Bytes
  import opened Seqs
  import opened Avcc

  datatype Slice = NoSlice | Inter | Intra

  // The type is in different bits of the first byte of a NAL unit.
  function SliceOf(h265: bool, b: byte): Slice {
    var nalType := if h265 then b / 2 % 64 else b % 32;
    if nalType == 1 then Inter
    else if (if h265 then 19 <= nalType <= 21 else nalType == 5) then Intra
    else NoSlice
  }

  // None: the access unit, or what is left of it, is too short to have a type, and indexing it
  // panics.
  function Keyframe(h265: bool, b: seq<byte>): Option<bool>
    decreases |b|
  {
    if |b| < 5 then None
    else
      match SliceOf(h265, b[4])
      case Inter => Some(false)
      case Intra => Some(true)
      case NoSlice =>
        var size := U(b[..4]) + 4;
        if size < |b| then Keyframe(h265, b[size..]) else Some(false)
  }

  method IsKeyframe(h265: bool, payload: seq<byte>) returns (r: Option<bool>)
    ensures r == Keyframe(h265, payload)
  {
    var b := payload;
    while true
      invariant Keyframe(h265, b) == Keyframe(h265, payload)
      decreases |b|
    {
      if |b| < 5 {
        return None;
      }
      var slice := SliceOf(h265, b[4]);
      if slice == Inter {
        return Some(false);
      }
      if slice == Intra {
        return Some(true);
      }
      var size := U(b[..4]) + 4;
      if size >= |b| {
        return Some(false);
      }
      b := b[size..];
    }
  }

  // Slices of a key frame, and of other frames, in H.265 and in H.264.
  predicate IsIntra(h265: bool, nal: seq<byte>) {
    nal != [] && if h265 then nal[0] / 2 % 64 in {19, 20, 21} else nal[0] % 32 == 5
  }

  predicate IsInter(h265: bool, nal: seq<byte>) {
    nal != [] && if h265 then nal[0] / 2 % 64 == 1 else nal[0] % 32 == 1
  }

  lemma {:induction false} FirstUnit(h265: bool, nal: seq<byte>, rest: seq<byte>)
    requires nal != [] && |nal| < TWO32
    ensures Keyframe(h265, Unit(nal) + rest)
         == match SliceOf(h265, nal[0])
            case Inter => Some(false)
            case Intra => Some(true)
            case NoSlice => if rest == [] then Some(false) else Keyframe(h265, rest)
  {
    var b := Unit(nal) + rest;
    Halves(Unit(nal), rest);
    Halves(Be(|nal|, 4), nal);
    assert b[..4] == Unit(nal)[..4];
    assert b[4] == Unit(nal)[4] == nal[0];
    LengthRead(|nal|);
  }

  // There is such a slice, and none of another frame in front of it.
  predicate LeadsIntra(h265: bool, nals: seq<seq<byte>>) {
    exists k :: 0 <= k < |nals| && IsIntra(h265, nals[k]) && forall j :: 0 <= j < k ==> !IsInter(h265, nals[j])
  }

  lemma LeadsOn(h265: bool, nals: seq<seq<byte>>, k: nat)
    requires 0 < k < |nals| && IsIntra(h265, nals[k]) && forall j :: 0 <= j < k ==> !IsInter(h265, nals[j])
    ensures LeadsIntra(h265, nals[1..])
  {
    assert nals[1..][k - 1] == nals[k];
    forall j | 0 <= j < k - 1
      ensures !IsInter(h265, nals[1..][j])
    {
      assert nals[1..][j] == nals[j + 1];
    }
  }

  lemma LeadsBack(h265: bool, nals: seq<seq<byte>>, k: nat)
    requires k < |nals| - 1 && IsIntra(h265, nals[1..][k]) && !IsInter(h265, nals[0])
    requires forall j :: 0 <= j < k ==> !IsInter(h265, nals[1..][j])
    ensures LeadsIntra(h265, nals)
  {
    assert nals[k + 1] == nals[1..][k];
    forall j | 0 <= j < k + 1
      ensures !IsInter(h265, nals[j])
    {
      assert j > 0 ==> nals[1..][j - 1] == nals[j];
    }
  }

  lemma LeadsNext(h265: bool, nals: seq<seq<byte>>)
    requires nals != []
    ensures LeadsIntra(h265, nals) <==>
              IsIntra(h265, nals[0]) || (!IsInter(h265, nals[0]) && LeadsIntra(h265, nals[1..]))
  {
    if LeadsIntra(h265, nals) {
      var k :| 0 <= k < |nals| && IsIntra(h265, nals[k]) && forall j :: 0 <= j < k ==> !IsInter(h265, nals[j]);
      if k > 0 {
        LeadsOn(h265, nals, k);
      }
    }
    if !IsInter(h265, nals[0]) && LeadsIntra(h265, nals[1..]) {
      var k :| 0 <= k < |nals[1..]| && IsIntra(h265, nals[1..][k]) && forall j :: 0 <= j < k ==> !IsInter(h265, nals[1..][j]);
      LeadsBack(h265, nals, k);
    }
  }

  // On the units of an access unit it says whether the first slice is a key frame's.
  lemma {:induction false} FirstSliceDecides(h265: bool, nals: seq<seq<byte>>)
    requires nals != [] && forall k :: 0 <= k < |nals| ==> 0 < |nals[k]| < TWO32
    ensures Keyframe(h265, Join(nals)) == Some(LeadsIntra(h265, nals))
  {
    FirstUnit(h265, nals[0], Join(nals[1..]));
    LeadsNext(h265, nals);
    if nals[1..] != [] {
      FirstSliceDecides(h265, nals[1..]);
      assert Join(nals[1..]) == Unit(nals[1..][0]) + Join(nals[1..][1..]);
    }
  }
}
