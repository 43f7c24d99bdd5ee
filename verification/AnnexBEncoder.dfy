// Writing NAL units as a byte stream (Annex B of ITU-T H.264), which DecodeAnnexB takes apart.
module AnnexBEncoder {
  import opened Wrappers
  import opened Bytes
  import opened Seqs
  import opened Avcc
  import opened AnnexB

  // No start code inside, and no zero at the end.
  predicate Clean(nal: seq<byte>) {
    && nal != [] && nal[|nal| - 1] != 0
    && forall p :: 0 <= p < |nal| - 2 ==> !(nal[p] == 0 && nal[p + 1] == 0 && nal[p + 2] == 1)
  }

  // F is 0, and it is a slice (1, 5) or a parameter set (7, 8).
  predicate Cuttable(nal: seq<byte>) {
    nal != [] && nal[0] < 128 && (nal[0] % 32 == 1 || nal[0] % 32 == 5 || nal[0] % 32 == 7 || nal[0] % 32 == 8)
  }

  function StartCode(long: bool): seq<byte> {
    if long then [0, 0, 0, 1] else [0, 0, 1]
  }

  // Each unit behind a start code of three or four bytes.
  function Stream(nals: seq<seq<byte>>, long: seq<bool>): seq<byte>
    requires |nals| == |long|
  {
    if nals == [] then [] else StartCode(long[0]) + (nals[0] + Stream(nals[1..], long[1..]))
  }

  lemma {:induction false} NoCuts(b: seq<byte>, i: nat, j: nat)
    requires i <= j && forall p :: i <= p < j ==> !IsCut(b, p)
    ensures Cuts(b, i) == Cuts(b, j)
    decreases j - i
  {
    if i < j {
      NoCuts(b, i + 1, j);
    }
  }

  // A unit at the end of the stream.
  lemma {:induction false} LastUnit(b: seq<byte>, start: nat, nal: seq<byte>)
    requires start <= |b| && b[start..] == nal && Clean(nal)
    ensures Pieces(b, start, Cuts(b, start)) == [nal]
  {
    forall p | start <= p < |b|
      ensures !IsCut(b, p)
    {
      if p < start + |nal| - 2 {
        CleanInside(b, start, nal, p);
      }
    }
    NoCuts(b, start, |b|);
  }

  lemma CleanInside(b: seq<byte>, start: nat, nal: seq<byte>, p: nat)
    requires start + |nal| <= |b| && b[start..start + |nal|] == nal && Clean(nal) && start <= p < start + |nal| - 2
    ensures !IsCut(b, p)
  {
    var q := p - start;
    assert b[p] == nal[q] && b[p + 1] == nal[q + 1] && b[p + 2] == nal[q + 2];
  }

  // No cut from the beginning of a unit up to the last three bytes of the start code behind it.
  lemma CleanUpTo(b: seq<byte>, start: nat, nal: seq<byte>, p: nat, code: nat)
    requires start + |nal| + 4 <= |b| && b[start..start + |nal|] == nal && Clean(nal)
    requires start <= p < code && code <= start + |nal| + 1 && b[start + |nal|] == 0
    requires code == start + |nal| + 1 ==> b[start + |nal| + 1] == 0 && b[start + |nal| + 2] == 0
    ensures !IsCut(b, p)
  {
    if p < start + |nal| - 2 {
      CleanInside(b, start, nal, p);
    } else if p < start + |nal| {
      assert b[start + |nal| - 1] == nal[|nal| - 1];
    }
  }

  // The next cut is found, and nothing is cut inside its start code.
  lemma {:induction false} CutsFrom(b: seq<byte>, start: nat, p: nat)
    requires start <= p && IsCut(b, p) && forall q :: start <= q < p ==> !IsCut(b, q)
    ensures Cuts(b, start) == [p] + Cuts(b, p + 3)
  {
    NoCuts(b, start, p);
    assert !IsCut(b, p + 1) && !IsCut(b, p + 2);
    NoCuts(b, p + 1, p + 3);
  }

  // The start code behind a unit, from its last two zeros on.
  lemma {:induction false} CodeBehind(b: seq<byte>, start: nat, nal: seq<byte>, long: bool, rest: seq<byte>) returns (p: nat)
    requires start <= |b| && b[start..] == nal + (StartCode(long) + rest) && Clean(nal) && Cuttable(rest)
    ensures p == start + |nal| + (if long then 1 else 0) && p + 3 < |b| && IsCut(b, p) && b[p + 3..] == rest
    ensures b[start..start + |nal|] == nal && b[start + |nal|] == 0 && (long ==> b[p] == 0 && b[p + 1] == 0)
    ensures BodyEnd(b, p) == start + |nal|
  {
    p := start + |nal| + if long then 1 else 0;
    Tail(b, start, nal, StartCode(long), rest);
    CodeBytes(b, start + |nal|, long);
    assert b[start + |nal| - 1] == nal[|nal| - 1];
  }

  lemma CodeBytes(b: seq<byte>, at: nat, long: bool)
    requires at + |StartCode(long)| <= |b| && forall i :: 0 <= i < |StartCode(long)| ==> b[at + i] == StartCode(long)[i]
    ensures b[at] == 0 && b[at + 1] == 0 && if long then b[at + 2] == 0 && b[at + 3] == 1 else b[at + 2] == 1
  {
    assert b[at + 0] == StartCode(long)[0] && b[at + 1] == StartCode(long)[1] && b[at + 2] == StartCode(long)[2];
    assert long ==> b[at + 3] == StartCode(long)[3];
  }

  lemma {:induction false} NextCut(b: seq<byte>, start: nat, nal: seq<byte>, long: bool, rest: seq<byte>) returns (p: nat)
    requires start <= |b| && b[start..] == nal + (StartCode(long) + rest) && Clean(nal) && Cuttable(rest)
    ensures 0 < p && p + 3 < |b| && b[p + 3..] == rest && b[start..start + |nal|] == nal
    ensures BodyEnd(b, p) == start + |nal| && Cuts(b, start) == [p] + Cuts(b, p + 3)
  {
    p := CodeBehind(b, start, nal, long, rest);
    forall q | start <= q < p
      ensures !IsCut(b, q)
    {
      CleanUpTo(b, start, nal, q, p);
    }
    CutsFrom(b, start, p);
  }

  lemma {:induction false} Tail(b: seq<byte>, start: nat, nal: seq<byte>, code: seq<byte>, rest: seq<byte>)
    requires start <= |b| && b[start..] == nal + (code + rest)
    ensures |b| == start + |nal| + |code| + |rest| && b[start..start + |nal|] == nal
    ensures forall i :: 0 <= i < |code| ==> b[start + |nal| + i] == code[i]
    ensures b[start + |nal| + |code|..] == rest
    ensures rest != [] ==> b[start + |nal| + |code|] == rest[0]
  {
    var all := nal + (code + rest);
    Halves(nal, code + rest);
    Halves(code, rest);
    assert b[start..][..|nal|] == b[start..start + |nal|];
    forall i | 0 <= i < |code|
      ensures b[start + |nal| + i] == code[i]
    {
      assert b[start..][|nal| + i] == all[|nal| + i];
    }
    DropDrop(b, start, |nal|);
    DropDrop(b, start + |nal|, |code|);
  }

  // The pieces from the beginning of a unit on are that unit and the ones behind it.
  lemma {:induction false} PiecesAre(b: seq<byte>, start: nat, nal: seq<byte>, nals: seq<seq<byte>>, long: seq<bool>)
    requires |nals| == |long| && start <= |b| && b[start..] == nal + Stream(nals, long) && Clean(nal)
    requires forall k :: 0 <= k < |nals| ==> Clean(nals[k]) && Cuttable(nals[k])
    ensures Pieces(b, start, Cuts(b, start)) == [nal] + nals
    decreases |nals|
  {
    if nals == [] {
      assert nal + Stream(nals, long) == nal;
      LastUnit(b, start, nal);
    } else {
      var p := NextCut(b, start, nal, long[0], nals[0] + Stream(nals[1..], long[1..]));
      PiecesAre(b, p + 3, nals[0], nals[1..], long[1..]);
      Cons(b, start, nal, p, Cuts(b, p + 3), nals);
    }
  }

  lemma Cons(b: seq<byte>, start: nat, nal: seq<byte>, p: nat, cuts: seq<nat>, nals: seq<seq<byte>>)
    requires 0 < p <= |b| && BodyEnd(b, p) == start + |nal| <= |b| && b[start..start + |nal|] == nal
    requires nals != [] && Pieces(b, p + 3, cuts) == [nals[0]] + nals[1..]
    ensures Pieces(b, start, [p] + cuts) == [nal] + nals
  {
    assert [nals[0]] + nals[1..] == nals;
    assert ([p] + cuts)[1..] == cuts;
  }

  // Any units without a start code inside or a zero at the end, each behind a start code of
  // either length, and all but the first slices or parameter sets: these are what the byte
  // stream is taken apart into.
  lemma {:induction false} BodiesInvert(nals: seq<seq<byte>>, long: seq<bool>)
    requires |nals| == |long| && nals != [] && forall k :: 0 <= k < |nals| ==> Clean(nals[k])
    requires forall k :: 0 < k < |nals| ==> Cuttable(nals[k])
    ensures StartsWithCode(Stream(nals, long)) && Bodies(Stream(nals, long)) == nals
  {
    var b, rest := Stream(nals, long), nals[0] + Stream(nals[1..], long[1..]);
    Halves(StartCode(long[0]), rest);
    assert StartsWithCode(b);
    var c := Canonical(b);
    assert c == [0, 0, 0, 1] + rest && c[4..] == rest;
    PiecesAre(c, 4, nals[0], nals[1..], long[1..]);
    assert [nals[0]] + nals[1..] == nals;
  }

  // So a client that writes them, decodes the stream and walks the result has them again.
  method WriteDecode(nals: seq<seq<byte>>, long: seq<bool>) returns (b: seq<byte>)
    requires |nals| == |long| && nals != [] && forall k :: 0 <= k < |nals| ==> Clean(nals[k])
    requires forall k :: 0 < k < |nals| ==> Cuttable(nals[k])
    ensures b == Join(nals) && (|b| < TWO32 ==> EmitNalus(b) == Some(nals))
  {
    BodiesInvert(nals, long);
    b := DecodeAnnexB(Stream(nals, long));
    TiledJoin(nals);
    if |b| < TWO32 {
      EmitTiled(nals);
    }
  }

  lemma {:induction false} TiledJoin(nals: seq<seq<byte>>)
    requires forall k :: 0 <= k < |nals| ==> nals[k] != []
    ensures Tiled(nals) == Join(nals)
  {
    if nals != [] {
      var n := |nals| - 1;
      TiledJoin(nals[..n]);
      JoinSnoc(nals[..n], nals[n]);
      TakeLast(nals);
    }
  }
}
