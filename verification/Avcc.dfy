// AVCC streams: NAL units behind 4-byte lengths (pkg/h264/avcc.go, EmitNalus of
// pkg/h264/payloader.go in its AVC mode).
module Avcc {
  import opened Wrappers
  import opened Bytes
  import opened Seqs

  function Unit(nal: seq<byte>): seq<byte> {
    if nal == [] then [] else Be(|nal|, 4) + nal
  }

  // The AVCC stream of a list of NAL units; empty ones leave no trace.
  function Join(nals: seq<seq<byte>>): seq<byte> {
    if nals == [] then [] else Unit(nals[0]) + Join(nals[1..])
  }

  function NonEmpty(nals: seq<seq<byte>>): seq<seq<byte>> {
    if nals == [] then [] else (if nals[0] == [] then [] else [nals[0]]) + NonEmpty(nals[1..])
  }

  lemma {:induction false} JoinAppend(a: seq<seq<byte>>, b: seq<seq<byte>>)
    ensures Join(a + b) == Join(a) + Join(b)
  {
    if a == [] {
      assert a + b == b;
    } else {
      calc {
        Join(a + b);
        { assert (a + b)[1..] == a[1..] + b; }
        Unit(a[0]) + Join(a[1..] + b);
        { JoinAppend(a[1..], b); }
        Unit(a[0]) + (Join(a[1..]) + Join(b));
        (Unit(a[0]) + Join(a[1..])) + Join(b);
        Join(a) + Join(b);
      }
    }
  }

  lemma JoinSnoc(a: seq<seq<byte>>, nal: seq<byte>)
    ensures Join(a + [nal]) == Join(a) + Unit(nal)
  {
    JoinAppend(a, [nal]);
    assert Join([nal]) == Unit(nal);
  }

  // One turn of the EmitNalus loop. A length of 2^32-4 or more makes the uint32 end wrap
  // around, and the slice expression fails.
  datatype Turn = End | Wrapped | More(nal: seq<byte>, rest: seq<byte>)

  function Next(nals: seq<byte>): (turn: Turn)
    ensures turn.More? ==> |turn.rest| < |nals|
  {
    var n := |nals| % TWO32;
    if n < 4 then End
    else
      var end := (4 + U(nals[..4])) % TWO32;
      if n < end then End else if end < 4 then Wrapped else More(nals[4..end], nals[end..])
  }

  // The NAL units handed to the callback; None is the failed slice expression.
  function EmitNalus(nals: seq<byte>): Option<seq<seq<byte>>>
    decreases |nals|
  {
    match Next(nals)
    case End => Some([])
    case Wrapped => None
    case More(nal, rest) =>
      var more := EmitNalus(rest);
      if more.None? then None else Some([nal] + more.value)
  }

  // A loop over `payload` that has emitted `done` and still has `nals` to read.
  ghost predicate Walked(payload: seq<byte>, done: seq<seq<byte>>, nals: seq<byte>) {
    EmitNalus(payload) == if EmitNalus(nals).None? then None else Some(done + EmitNalus(nals).value)
  }

  lemma WalkStart(payload: seq<byte>)
    ensures Walked(payload, [], payload)
  {
    assert forall nals: seq<seq<byte>> :: [] + nals == nals;
  }

  lemma WalkMore(payload: seq<byte>, done: seq<seq<byte>>, nals: seq<byte>)
    requires Walked(payload, done, nals) && Next(nals).More?
    ensures Walked(payload, done + [Next(nals).nal], Next(nals).rest)
  {
    var more := EmitNalus(Next(nals).rest);
    if more.Some? {
      Assoc(done, [Next(nals).nal], more.value);
    }
  }

  lemma WalkEnd(payload: seq<byte>, done: seq<seq<byte>>, nals: seq<byte>)
    requires Walked(payload, done, nals) && !Next(nals).More?
    ensures EmitNalus(payload) == if Next(nals).End? then Some(done) else None
  {
    assert done + [] == done;
  }

  // EmitNalus inverts Join on every list whose stream a uint32 can measure.
  lemma {:induction false} EmitJoin(nals: seq<seq<byte>>)
    requires |Join(nals)| < TWO32
    ensures EmitNalus(Join(nals)) == Some(NonEmpty(nals))
  {
    if nals != [] {
      var nal, rest := nals[0], Join(nals[1..]);
      EmitJoin(nals[1..]);
      if nal == [] {
        assert Join(nals) == rest;
        assert NonEmpty(nals) == NonEmpty(nals[1..]);
      } else {
        EmitFirst(nal, rest);
      }
    }
  }

  lemma EmitFirst(nal: seq<byte>, rest: seq<byte>)
    requires nal != [] && |Unit(nal) + rest| < TWO32
    ensures EmitNalus(Unit(nal) + rest) ==
            if EmitNalus(rest).None? then None else Some([nal] + EmitNalus(rest).value)
  {
    NextUnit(nal, rest);
  }

  lemma {:induction false} LengthRead(n: nat)
    requires n < TWO32
    ensures U(Be(n, 4)) == n
  {
    UBe(n, 4);
    Powers();
  }

  lemma {:induction false} NextFrom(b: seq<byte>, n: nat)
    requires 4 + n <= |b| < TWO32 && U(b[..4]) == n
    ensures Next(b) == More(b[4..4 + n], b[4 + n..])
  {
  }

  lemma {:induction false} NextUnit(nal: seq<byte>, rest: seq<byte>)
    requires nal != [] && |Unit(nal) + rest| < TWO32
    ensures Next(Unit(nal) + rest) == More(nal, rest)
  {
    Thirds(Be(|nal|, 4), nal, rest);
    LengthRead(|nal|);
    NextFrom(Be(|nal|, 4) + nal + rest, |nal|);
  }

  lemma JoinStep(nals: seq<seq<byte>>, k: nat)
    requires k < |nals|
    ensures Join(nals[..k + 1]) == Join(nals[..k]) + Unit(nals[k])
    ensures |Join(nals[..k])| + |Unit(nals[k])| <= |Join(nals)|
  {
    assert nals[..k + 1] == nals[..k] + [nals[k]];
    JoinSnoc(nals[..k], nals[k]);
    assert nals == nals[..k + 1] + nals[k + 1..];
    JoinAppend(nals[..k + 1], nals[k + 1..]);
  }

  // JoinNALU: measures, allocates, then fills by running offset.
  method JoinNALU(nalus: seq<seq<byte>>) returns (avcc: array<byte>)
    ensures fresh(avcc) && avcc[..] == Join(nalus)
  {
    var n, k := 0, 0;
    while k < |nalus|
      invariant 0 <= k <= |nalus| && n == |Join(nalus[..k])|
    {
      JoinStep(nalus, k);
      if |nalus[k]| > 0 {
        n := n + 4 + |nalus[k]|;
      }
      k := k + 1;
    }
    assert nalus[..k] == nalus;
    avcc := FillUnits(nalus, n);
  }

  method FillUnits(nalus: seq<seq<byte>>, size: nat) returns (avcc: array<byte>)
    requires size == |Join(nalus)|
    ensures fresh(avcc) && avcc[..] == Join(nalus)
  {
    avcc := new byte[size];
    var n, k := 0, 0;
    while k < |nalus|
      invariant 0 <= k <= |nalus| && avcc.Length == |Join(nalus)|
      invariant n == |Join(nalus[..k])| <= avcc.Length
      invariant avcc[..n] == Join(nalus[..k])
    {
      JoinStep(nalus, k);
      if |nalus[k]| > 0 {
        Fill(avcc, n, Be(|nalus[k]|, 4) + nalus[k]);
        n := n + 4 + |nalus[k]|;
      }
      k := k + 1;
    }
    assert nalus[..k] == nalus;
  }

  // copy(b[at:], bytes)
  method Fill(b: array<byte>, at: nat, bytes: seq<byte>)
    requires at + |bytes| <= b.Length
    modifies b
    ensures b[..] == Patch(old(b[..]), at, bytes)
    ensures b[..at + |bytes|] == old(b[..at]) + bytes
  {
    var i := 0;
    while i < |bytes|
      invariant 0 <= i <= |bytes|
      invariant b[..] == Patch(old(b[..]), at, bytes[..i])
    {
      b[at + i] := bytes[i];
      i := i + 1;
    }
    assert bytes[..i] == bytes;
  }
}
