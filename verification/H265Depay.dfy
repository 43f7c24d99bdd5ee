// The H.265 reassembly state machine of pkg/h265/rtp.go.
module H265Depay {
  import opened Wrappers
  import opened Bytes
  import opened H265Nal

  const PS_MAX_SIZE: nat := 128

  datatype Packet = Packet(seqNum: nat, marker: bool, data: seq<byte>)

  // What the closure keeps between packets.
  datatype Depay = Depay(buf: seq<byte>, nuStart: nat, seqNum: nat)

  const START := Depay([], 0, 0)

  // ---------- one packet ----------

  // `complete`: the packet reached the marker check.
  datatype Absorbed = Crash | Absorbed(d: Depay, complete: bool)

  function FuBegin(ps: seq<byte>, d: Depay, data: seq<byte>): Depay
    requires |data| >= 3
  {
    var t := data[2] % 64;
    var buf := if d.buf == [] && 19 <= t <= 21 then ps else d.buf;
    Depay(buf + [0, 0, 0, 0] + ([WithType(data[0], t), data[1]] + data[3..]), |buf|, d.seqNum)
  }

  // The size is patched in at nuStart; a stale nuStart close to the end of the buffer makes
  // PutUint32 run out of range, because the guard tests the wrong side.
  function FuEnd(d: Depay, data: seq<byte>): Absorbed
    requires |data| >= 3
  {
    var buf := d.buf + data[3..];
    if d.buf == [] then Absorbed(d, false)
    else if d.nuStart > |buf| + 4 then Absorbed(d.(buf := []), false)
    else if d.nuStart + 4 > |buf| then Crash
    else Absorbed(d.(buf := Patch(buf, d.nuStart, Be(|buf| - d.nuStart - 4, 4))), true)
  }

  function Absorb(ps: seq<byte>, d: Depay, data: seq<byte>): Absorbed
    requires |data| >= 3
  {
    if !IsFU(data) then Absorbed(d.(buf := d.buf + (Be(|data|, 4) + data)), true)
    else
      match data[2] / 64
      case 2 => Absorbed(FuBegin(ps, d, data), false)
      case 0 => Absorbed(if d.buf == [] then d else d.(buf := d.buf + data[3..]), false)
      case 1 => FuEnd(d, data)
      case _ =>
        var nal := [WithType(data[0], data[2] % 64), data[1]] + data[3..];
        Absorbed(d.(buf := d.buf + (Be(|data| - 1, 4) + nal)), true)
  }

  predicate IsParameterSet(nuType: nat) {
    nuType == 32 || nuType == 33 || nuType == 34
  }

  predicate IsSEI(nuType: nat) {
    nuType == 39 || nuType == 40
  }

  // Returned from before the sequence check: the packet leaves no trace.
  predicate Ignored(p: Packet) {
    |p.data| < 3 || (p.marker && |p.data| < PS_MAX_SIZE && IsSEI(NalType(p.data[0])))
  }

  // The marker after the fix for small parameter sets.
  predicate Marked(p: Packet)
    requires |p.data| >= 3
  {
    p.marker && !(|p.data| < PS_MAX_SIZE && IsParameterSet(NalType(p.data[0])))
  }

  // uint16 subtraction
  predicate Follows(next: nat, prev: nat) {
    (next + TWO16 - prev % TWO16) % TWO16 == 1
  }

  datatype Outcome = Panic | Outcome(d: Depay, unit: Option<seq<byte>>)

  function Step(ps: seq<byte>, d: Depay, p: Packet): Outcome {
    if Ignored(p) then Outcome(d, None)
    else if d.buf != [] && !Follows(p.seqNum, d.seqNum) then Outcome(d.(buf := []), None)
    else
      match Absorb(ps, d.(seqNum := p.seqNum), p.data)
      case Crash => Panic
      case Absorbed(d', complete) =>
        if complete && Marked(p) then Outcome(d'.(buf := []), Some(d'.buf)) else Outcome(d', None)
  }

  class RTPDepay {
    const ps: seq<byte>
    var buf: seq<byte>
    var nuStart: nat
    var seqNum: nat

    function View(): Depay
      reads this
    {
      Depay(buf, nuStart, seqNum)
    }

    constructor (ps: seq<byte>)
      ensures this.ps == ps && View() == START
    {
      this.ps := ps;
      buf, nuStart, seqNum := [], 0, 0;
    }

    method Receive(p: Packet) returns (r: Outcome)
      modifies this
      ensures r == Step(ps, old(View()), p)
      ensures r.Outcome? ==> View() == r.d
    {
      var data := p.data;
      if |data| < 3 {
        return Outcome(View(), None);
      }
      var nuType: nat := NalType(data[0]);
      var marker := p.marker;
      if marker && |data| < PS_MAX_SIZE {
        if IsParameterSet(nuType) {
          marker := false;
        } else if IsSEI(nuType) {
          return Outcome(View(), None);
        }
      }
      if |buf| > 0 && (p.seqNum + TWO16 - seqNum % TWO16) % TWO16 != 1 {
        buf := [];
        return Outcome(View(), None);
      }
      seqNum := p.seqNum;
      if nuType == FU {
        var taken := TakeFragment(data);
        if taken.Crash? {
          return Panic;
        } else if !taken.complete {
          return Outcome(View(), None);
        }
      } else {
        buf := buf + (Be(|data|, 4) + data);
      }
      if !marker {
        return Outcome(View(), None);
      }
      var unit := buf;
      buf := [];
      r := Outcome(View(), Some(unit));
    }

    // The NALUTypeFU branch: `complete` unless the closure returns.
    method TakeFragment(data: seq<byte>) returns (r: Absorbed)
      requires |data| >= 3 && IsFU(data)
      modifies `buf, `nuStart
      ensures r == Absorb(ps, old(View()), data)
      ensures r.Absorbed? ==> View() == r.d
    {
      var bits, nuType := data[2] / 64, data[2] % 64;
      if bits == 2 {
        if |buf| == 0 && 19 <= nuType <= 21 {
          buf := buf + ps;
          assert buf == ps;
        }
        nuStart := |buf|;
        buf := buf + [0, 0, 0, 0];
        buf := buf + ([WithType(data[0], nuType), data[1]] + data[3..]);
        return Absorbed(View(), false);
      } else if bits == 0 {
        if |buf| != 0 {
          buf := buf + data[3..];
        }
        return Absorbed(View(), false);
      } else if bits == 1 {
        if |buf| == 0 {
          return Absorbed(View(), false);
        }
        buf := buf + data[3..];
        if nuStart > |buf| + 4 {
          buf := [];
          return Absorbed(View(), false);
        }
        if nuStart + 4 > |buf| {
          return Crash;
        }
        buf := Patch(buf, nuStart, Be(|buf| - nuStart - 4, 4));
      } else {
        buf := buf + (Be(|data| - 1, 4) + ([WithType(data[0], nuType), data[1]] + data[3..]));
      }
      r := Absorbed(View(), true);
    }
  }

  // ---------- a whole packet sequence ----------

  // The state after the packets and the access units emitted on the way.
  datatype Fed = Panicked | Fed(d: Depay, units: seq<seq<byte>>)

  function Feed(ps: seq<byte>, d: Depay, packets: seq<Packet>): Fed {
    if packets == [] then Fed(d, [])
    else
      var n := |packets| - 1;
      match Feed(ps, d, packets[..n])
      case Panicked => Panicked
      case Fed(d', units) =>
        match Step(ps, d', packets[n])
        case Panic => Panicked
        case Outcome(d'', unit) => Fed(d'', if unit.Some? then units + [unit.value] else units)
  }

  // ---------- nothing is stitched across a gap ----------

  function Heard(packets: seq<Packet>): seq<Packet> {
    if packets == [] then []
    else
      var n := |packets| - 1;
      Heard(packets[..n]) + if Ignored(packets[n]) then [] else [packets[n]]
  }

  ghost predicate Consecutive(run: seq<Packet>) {
    && (forall k :: 0 <= k < |run| ==> |run[k].data| >= 3)
    && (forall k :: 0 < k < |run| ==> Follows(run[k].seqNum, run[k - 1].seqNum))
  }

  // One more, modulo 2^16.
  lemma {:induction false} FollowsExactly(next: nat, prev: nat)
    ensures Follows(next, prev) <==> (next - prev) % 0x1_0000 == 1
  {
    SubMod(next + TWO16, prev, TWO16);
    ModAdd(next - prev, 1, TWO16);
  }

  // Packet n is heard while a unit is being built, and does not follow the one heard before it.
  ghost predicate Breaks(ps: seq<byte>, packets: seq<Packet>, n: nat)
    requires n < |packets|
  {
    var before := Feed(ps, START, packets[..n]);
    before.Fed? && before.d.buf != [] && !Ignored(packets[n]) && !Follows(packets[n].seqNum, before.d.seqNum)
  }

  ghost predicate Unbroken(ps: seq<byte>, packets: seq<Packet>, lo: nat, n: nat)
    requires n <= |packets|
  {
    forall k :: lo <= k < n ==> !Breaks(ps, packets, k)
  }

  // The buffer that a run of packets builds from an empty one, whatever nuStart was left by
  // earlier access units; None is a panic.
  function Assemble(ps: seq<byte>, stale: nat, run: seq<Packet>): Option<Depay>
    requires forall k :: 0 <= k < |run| ==> |run[k].data| >= 3
  {
    if run == [] then Some(Depay([], stale, 0))
    else
      var n := |run| - 1;
      match Assemble(ps, stale, run[..n])
      case None => None
      case Some(d) =>
        match Absorb(ps, d.(seqNum := run[n].seqNum), run[n].data)
        case Crash => None
        case Absorbed(d', _) => Some(d')
  }

  // The state that a run of consecutive packets leaves behind.
  ghost predicate Leaves(ps: seq<byte>, stale: nat, run: seq<Packet>, d: Depay) {
    run != [] && Consecutive(run) && run[|run| - 1].seqNum == d.seqNum && Assemble(ps, stale, run) == Some(d)
  }

  // The buffer holds exactly what the packets heard since packet lo have built.
  ghost predicate Built(ps: seq<byte>, packets: seq<Packet>, lo: nat, n: nat, stale: nat, d: Depay)
    requires lo <= n <= |packets|
  {
    Leaves(ps, stale, Heard(packets[lo..n]), d)
  }

  lemma HeardSnoc(packets: seq<Packet>, lo: nat, n: nat)
    requires lo <= n < |packets|
    ensures Heard(packets[lo..n + 1]) ==
            if Ignored(packets[n]) then Heard(packets[lo..n]) else Heard(packets[lo..n]) + [packets[n]]
  {
    assert packets[lo..n + 1][..n - lo] == packets[lo..n];
  }

  lemma AssembleSnoc(ps: seq<byte>, stale: nat, run: seq<Packet>, p: Packet)
    requires |p.data| >= 3 && forall k :: 0 <= k < |run| ==> |run[k].data| >= 3
    requires Assemble(ps, stale, run).Some?
    ensures var next := Absorb(ps, Assemble(ps, stale, run).value.(seqNum := p.seqNum), p.data);
            Assemble(ps, stale, run + [p]) == if next.Crash? then None else Some(next.d)
  {
    assert (run + [p])[..|run|] == run;
  }

  lemma BuiltStart(ps: seq<byte>, packets: seq<Packet>, n: nat, d: Depay)
    requires n < |packets| && d.buf == [] && !Ignored(packets[n])
    requires Absorb(ps, d.(seqNum := packets[n].seqNum), packets[n].data).Absorbed?
    ensures Built(ps, packets, n, n + 1, d.nuStart, Absorb(ps, d.(seqNum := packets[n].seqNum), packets[n].data).d)
  {
    HeardSnoc(packets, n, n);
    AssembleSnoc(ps, d.nuStart, [], packets[n]);
    assert [] + [packets[n]] == [packets[n]];
  }

  lemma LeavesSnoc(ps: seq<byte>, stale: nat, run: seq<Packet>, d: Depay, p: Packet)
    requires Leaves(ps, stale, run, d) && |p.data| >= 3 && Follows(p.seqNum, d.seqNum)
    requires Absorb(ps, d.(seqNum := p.seqNum), p.data).Absorbed?
    ensures Leaves(ps, stale, run + [p], Absorb(ps, d.(seqNum := p.seqNum), p.data).d)
  {
    AssembleSnoc(ps, stale, run, p);
  }

  lemma BuiltMore(ps: seq<byte>, packets: seq<Packet>, lo: nat, n: nat, stale: nat, d: Depay)
    requires lo <= n < |packets| && Built(ps, packets, lo, n, stale, d)
    requires !Ignored(packets[n]) && Follows(packets[n].seqNum, d.seqNum)
    requires Absorb(ps, d.(seqNum := packets[n].seqNum), packets[n].data).Absorbed?
    ensures Built(ps, packets, lo, n + 1, stale, Absorb(ps, d.(seqNum := packets[n].seqNum), packets[n].data).d)
  {
    HeardSnoc(packets, lo, n);
    LeavesSnoc(ps, stale, Heard(packets[lo..n]), d, packets[n]);
  }

  lemma HistoryStep(ps: seq<byte>, packets: seq<Packet>, n: nat, before: Depay, lo: nat, stale: nat)
    returns (lo': nat, stale': nat)
    requires n < |packets| && Step(ps, before, packets[n]).Outcome? && Feed(ps, START, packets[..n]).Fed?
    requires before == Feed(ps, START, packets[..n]).d
    requires before.buf != [] ==> lo < n && Built(ps, packets, lo, n, stale, before) && Unbroken(ps, packets, lo, n)
    ensures var d := Step(ps, before, packets[n]).d;
            d.buf != [] ==> lo' <= n && Built(ps, packets, lo', n + 1, stale', d) && Unbroken(ps, packets, lo', n + 1)
  {
    lo', stale' := lo, stale;
    if Ignored(packets[n]) {
      if before.buf != [] {
        HeardSnoc(packets, lo, n);
      }
    } else if before.buf == [] {
      lo', stale' := n, before.nuStart;
      BuiltStart(ps, packets, n, before);
    } else if Follows(packets[n].seqNum, before.seqNum) {
      BuiltMore(ps, packets, lo, n, stale, before);
    }
  }

  lemma {:induction false} BufferHistory(ps: seq<byte>, packets: seq<Packet>, n: nat, d: Depay)
    returns (lo: nat, stale: nat)
    requires n <= |packets|
    requires Feed(ps, START, packets[..n]).Fed? && d == Feed(ps, START, packets[..n]).d
    ensures d.buf != [] ==> lo < n && Built(ps, packets, lo, n, stale, d) && Unbroken(ps, packets, lo, n)
  {
    lo, stale := 0, 0;
    if n > 0 {
      assert packets[..n][..n - 1] == packets[..n - 1];
      var before := Feed(ps, START, packets[..n - 1]).d;
      lo, stale := BufferHistory(ps, packets, n - 1, before);
      lo, stale := HistoryStep(ps, packets, n - 1, before, lo, stale);
    }
  }

  // For every packet sequence: an access unit emitted at packet n is built from an empty
  // buffer by all the packets heard from some packet lo up to n, and their sequence numbers
  // are consecutive modulo 2^16. No packet that shows a gap is among them, not even as the first.
  lemma UnitsAreConsecutive(ps: seq<byte>, packets: seq<Packet>, n: nat)
    returns (lo: nat, stale: nat)
    requires n < |packets| && Feed(ps, START, packets[..n]).Fed?
    requires var out := Step(ps, Feed(ps, START, packets[..n]).d, packets[n]);
             out.Outcome? && out.unit.Some?
    ensures lo <= n && Consecutive(Heard(packets[lo..n + 1])) && Unbroken(ps, packets, lo, n + 1)
    ensures Heard(packets[lo..n + 1]) != [] && Heard(packets[lo..n + 1])[|Heard(packets[lo..n + 1])| - 1] == packets[n]
    ensures var built := Assemble(ps, stale, Heard(packets[lo..n + 1]));
            built.Some? && Step(ps, Feed(ps, START, packets[..n]).d, packets[n]).unit == Some(built.value.buf)
  {
    var d := Feed(ps, START, packets[..n]).d;
    lo, stale := BufferHistory(ps, packets, n, d);
    if d.buf == [] {
      lo, stale := n, d.nuStart;
      BuiltStart(ps, packets, n, d);
    } else {
      BuiltMore(ps, packets, lo, n, stale, d);
    }
    HeardSnoc(packets, lo, n);
  }

  // Packets without a trace: too short, or a small SEI that carries the marker.
  lemma IgnoredExactly(ps: seq<byte>, d: Depay, p: Packet)
    ensures Ignored(p) <==> |p.data| < 3 || (p.marker && |p.data| < 128 && p.data[0] / 2 % 64 in {39, 40})
    ensures Ignored(p) ==> Step(ps, d, p) == Outcome(d, None)
  {
  }

  // A unit comes out at a marked packet that completes a NAL unit and is not a small parameter set.
  lemma EmitsExactly(ps: seq<byte>, d: Depay, p: Packet)
    requires Step(ps, d, p).Outcome?
    ensures Step(ps, d, p).unit.Some? <==>
            && |p.data| >= 3 && p.marker && !(|p.data| < 128 && p.data[0] / 2 % 64 in {32, 33, 34, 39, 40})
            && (d.buf != [] ==> (p.seqNum - d.seqNum) % 0x1_0000 == 1)
            && (p.data[0] / 2 % 64 == 49 ==>
                  p.data[2] / 64 == 3 || (p.data[2] / 64 == 1 && d.buf != [] && d.nuStart <= |d.buf| + |p.data| - 3 + 4))
    ensures Step(ps, d, p).unit.Some? ==> Step(ps, d, p).d.buf == []
  {
    FollowsExactly(p.seqNum, d.seqNum);
  }
}
