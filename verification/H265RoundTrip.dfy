// Reassembly against a reference depacketizer (section 4.4.3 of RFC 7798), and the round
// trip from an AVCC access unit through payloader, packets and reassembly.
module H265RoundTrip {
  import opened Wrappers
  import opened Bytes
  import opened Seqs
  import opened Avcc
  import opened H265Nal
  import opened H265Depay

  // ---------- the reference ----------

  // NAL units finished so far, and the fragmented one that is still open.
  datatype Part = Part(nals: seq<seq<byte>>, open: Option<seq<byte>>)

  // F and the upper bit of the layer id come from the packet, the type from the FU header.
  function Restored(b: byte, nalType: nat): byte
    requires nalType < 64
  {
    b / 128 * 128 + b % 2 + 2 * nalType
  }

  function Opened(data: seq<byte>): seq<byte>
    requires |data| >= 3
  {
    [Restored(data[0], data[2] % 64), data[1]] + data[3..]
  }

  // Single NAL units stand alone; fragments open, continue and close one; None is malformed.
  function DepackOne(part: Part, data: seq<byte>): Option<Part>
    requires |data| >= 3
  {
    if data[0] / 2 % 64 != 49 then
      if part.open.Some? then None else Some(Part(part.nals + [data], None))
    else
      var flags := data[2] / 64;
      if part.open.None? then
        if flags == 2 then Some(part.(open := Some(Opened(data))))
        else if flags == 3 then Some(Part(part.nals + [Opened(data)], None))
        else None
      else if flags == 0 then Some(part.(open := Some(part.open.value + data[3..])))
      else if flags == 1 then Some(Part(part.nals + [part.open.value + data[3..]], None))
      else None
  }

  function Depack(part: Part, payloads: seq<seq<byte>>): Option<Part>
    requires forall k :: 0 <= k < |payloads| ==> |payloads[k]| >= 3
  {
    if payloads == [] then Some(part)
    else
      var n := |payloads| - 1;
      match Depack(part, payloads[..n])
      case None => None
      case Some(p) => DepackOne(p, payloads[n])
  }

  const EMPTY := Part([], None)

  lemma {:induction false} DepackAppend(part: Part, a: seq<seq<byte>>, b: seq<seq<byte>>)
    requires forall k :: 0 <= k < |a| ==> |a[k]| >= 3
    requires forall k :: 0 <= k < |b| ==> |b[k]| >= 3
    ensures Depack(part, a + b) ==
            if Depack(part, a).None? then None else Depack(Depack(part, a).value, b)
  {
    if b == [] {
      assert a + b == a;
    } else {
      var n := |b| - 1;
      DepackAppend(part, a, b[..n]);
      assert (a + b)[..|a| + n] == a + b[..n];
    }
  }

  // ---------- reassembly computes the reference ----------

  function Data(run: seq<Packet>): (data: seq<seq<byte>>)
    ensures |data| == |run| && forall k :: 0 <= k < |run| ==> data[k] == run[k].data
  {
    seq(|run|, k requires 0 <= k < |run| => run[k].data)
  }

  // Stored parameter sets go first only when the unit opens with a fragmented keyframe.
  function Lead(ps: seq<byte>, first: seq<byte>): seq<byte>
    requires |first| >= 3
  {
    if first[0] / 2 % 64 == 49 && first[2] / 64 == 2 && 19 <= first[2] % 64 <= 21 then ps else []
  }

  // The buffer that holds `lead`, the finished units of a part and its open one.
  function Layout(lead: seq<byte>, part: Part): seq<byte> {
    if part.open.None? then lead + Join(part.nals)
    else (lead + Join(part.nals)) + ([0, 0, 0, 0] + part.open.value)
  }

  ghost predicate Shows(d: Depay, lead: seq<byte>, part: Part) {
    && d.buf == Layout(lead, part)
    && (part.open.Some? ==> d.nuStart == |lead + Join(part.nals)|)
  }

  // The size patched in at the end of a fragmented NAL unit turns its placeholder into a unit.
  lemma PatchSize(head: seq<byte>, nal: seq<byte>)
    ensures Patch(head + ([0, 0, 0, 0] + nal), |head|, Be(|nal|, 4)) == head + (Be(|nal|, 4) + nal)
  {
    Replace(head, [0, 0, 0, 0], Be(|nal|, 4), nal);
  }

  // Appending a unit to a buffer without an open NAL unit appends it to the list.
  lemma LayoutMore(lead: seq<byte>, nals: seq<seq<byte>>, nal: seq<byte>)
    requires nal != []
    ensures Layout(lead, Part(nals + [nal], None)) == Layout(lead, Part(nals, None)) + (Be(|nal|, 4) + nal)
    ensures Layout(lead, Part(nals + [nal], None)) == (lead + Join(nals)) + (Be(|nal|, 4) + nal)
  {
    calc {
      Layout(lead, Part(nals + [nal], None));
      lead + Join(nals + [nal]);
      { JoinSnoc(nals, nal); }
      lead + (Join(nals) + Unit(nal));
      { Assoc(lead, Join(nals), Unit(nal)); }
      (lead + Join(nals)) + Unit(nal);
    }
  }

  lemma AbsorbSingle(ps: seq<byte>, d: Depay, data: seq<byte>, lead: seq<byte>, part: Part)
    requires |data| >= 3 && !IsFU(data) && Shows(d, lead, part) && part.open.None?
    ensures var r := Absorb(ps, d, data);
            r.Absorbed? && r.complete && Shows(r.d, lead, Part(part.nals + [data], None))
  {
    LayoutMore(lead, part.nals, data);
  }

  lemma AbsorbWhole(ps: seq<byte>, d: Depay, data: seq<byte>, lead: seq<byte>, part: Part)
    requires |data| >= 3 && IsFU(data) && data[2] / 64 == 3 && Shows(d, lead, part) && part.open.None?
    ensures var r := Absorb(ps, d, data);
            r.Absorbed? && r.complete && Shows(r.d, lead, Part(part.nals + [Opened(data)], None))
  {
    OpenedIs(data);
    LayoutMore(lead, part.nals, Opened(data));
    WholeTaken(ps, d, data, Opened(data));
  }

  lemma WholeTaken(ps: seq<byte>, d: Depay, data: seq<byte>, nal: seq<byte>)
    requires |data| >= 3 && IsFU(data) && data[2] / 64 == 3 && |nal| == |data| - 1
    requires nal == [WithType(data[0], data[2] % 64), data[1]] + data[3..]
    ensures Absorb(ps, d, data) == Absorbed(d.(buf := d.buf + (Be(|nal|, 4) + nal)), true)
  {
  }

  lemma AbsorbBegin(ps: seq<byte>, d: Depay, data: seq<byte>, lead: seq<byte>, part: Part)
    requires |data| >= 3 && IsFU(data) && data[2] / 64 == 2 && Shows(d, lead, part) && part.open.None?
    requires d.buf != [] || !(19 <= data[2] % 64 <= 21)
    ensures var r := Absorb(ps, d, data);
            r.Absorbed? && !r.complete && Shows(r.d, lead, part.(open := Some(Opened(data))))
  {
    OpenedIs(data);
    BeginTaken(ps, d, data, Opened(data));
    Assoc(lead + Join(part.nals), [0, 0, 0, 0], Opened(data));
  }

  lemma OpenedIs(data: seq<byte>)
    requires |data| >= 3
    ensures Opened(data) == [WithType(data[0], data[2] % 64), data[1]] + data[3..] && |Opened(data)| == |data| - 1
  {
  }

  lemma BeginTaken(ps: seq<byte>, d: Depay, data: seq<byte>, nal: seq<byte>)
    requires |data| >= 3 && IsFU(data) && data[2] / 64 == 2 && (d.buf != [] || !(19 <= data[2] % 64 <= 21))
    requires nal == [WithType(data[0], data[2] % 64), data[1]] + data[3..]
    ensures Absorb(ps, d, data) == Absorbed(Depay(d.buf + [0, 0, 0, 0] + nal, |d.buf|, d.seqNum), false)
  {
  }

  lemma AbsorbContinue(ps: seq<byte>, d: Depay, data: seq<byte>, lead: seq<byte>, part: Part)
    requires |data| >= 3 && IsFU(data) && data[2] / 64 == 0 && Shows(d, lead, part) && part.open.Some?
    ensures var r := Absorb(ps, d, data);
            r.Absorbed? && !r.complete && Shows(r.d, lead, part.(open := Some(part.open.value + data[3..])))
  {
    var head, zero: seq<byte> := lead + Join(part.nals), [0, 0, 0, 0];
    Assoc(zero, part.open.value, data[3..]);
    Assoc(head, zero + part.open.value, data[3..]);
  }

  lemma {:induction false} PatchEnd(buf: seq<byte>, head: seq<byte>, open: seq<byte>, tail: seq<byte>)
    requires buf == (head + ([0, 0, 0, 0] + open)) + tail
    ensures var nal := open + tail;
            |buf| == |head| + 4 + |nal| && Patch(buf, |head|, Be(|nal|, 4)) == head + (Be(|nal|, 4) + nal)
  {
    var zero: seq<byte> := [0, 0, 0, 0];
    Assoc(zero, open, tail);
    Assoc(head, zero + open, tail);
    PatchSize(head, open + tail);
  }

  lemma {:induction false} EndsOpen(d: Depay, data: seq<byte>, head: seq<byte>, open: seq<byte>)
    requires |data| >= 3 && open != []
    requires d.buf == head + ([0, 0, 0, 0] + open) && d.nuStart == |head|
    ensures var nal := open + data[3..];
            FuEnd(d, data) == Absorbed(d.(buf := head + (Be(|nal|, 4) + nal)), true)
  {
    var buf, nal := d.buf + data[3..], open + data[3..];
    PatchEnd(buf, head, open, data[3..]);
    EndTaken(d, data, |nal|, head + (Be(|nal|, 4) + nal));
  }

  lemma EndTaken(d: Depay, data: seq<byte>, n: nat, patched: seq<byte>)
    requires |data| >= 3 && d.buf != [] && |d.buf + data[3..]| == d.nuStart + 4 + n
    requires patched == Patch(d.buf + data[3..], d.nuStart, Be(n, 4))
    ensures FuEnd(d, data) == Absorbed(d.(buf := patched), true)
  {
    assert |d.buf + data[3..]| - d.nuStart - 4 == n;
  }

  lemma AbsorbEnd(ps: seq<byte>, d: Depay, data: seq<byte>, lead: seq<byte>, part: Part)
    requires |data| >= 3 && IsFU(data) && data[2] / 64 == 1 && Shows(d, lead, part) && part.open.Some?
    requires part.open.value != []
    ensures var r := Absorb(ps, d, data);
            r.Absorbed? && r.complete && Shows(r.d, lead, Part(part.nals + [part.open.value + data[3..]], None))
  {
    EndsOpen(d, data, lead + Join(part.nals), part.open.value);
    LayoutMore(lead, part.nals, part.open.value + data[3..]);
  }

  lemma AbsorbDepacks(ps: seq<byte>, d: Depay, data: seq<byte>, lead: seq<byte>, part: Part)
    requires |data| >= 3 && Shows(d, lead, part) && DepackOne(part, data).Some?
    requires part.open.Some? ==> part.open.value != []
    requires d.buf != [] || !(IsFU(data) && data[2] / 64 == 2 && 19 <= data[2] % 64 <= 21)
    ensures Absorb(ps, d, data).Absorbed? && Shows(Absorb(ps, d, data).d, lead, DepackOne(part, data).value)
    ensures Absorb(ps, d, data).complete == DepackOne(part, data).value.open.None?
  {
    if !IsFU(data) {
      AbsorbSingle(ps, d, data, lead, part);
    } else if data[2] / 64 == 2 {
      AbsorbBegin(ps, d, data, lead, part);
    } else if data[2] / 64 == 3 {
      AbsorbWhole(ps, d, data, lead, part);
    } else if data[2] / 64 == 0 {
      AbsorbContinue(ps, d, data, lead, part);
    } else {
      AbsorbEnd(ps, d, data, lead, part);
    }
  }

  // The first packet of an access unit; `ps` may go before it.
  lemma AbsorbFirst(ps: seq<byte>, d: Depay, data: seq<byte>)
    requires |data| >= 3 && d.buf == [] && DepackOne(EMPTY, data).Some?
    ensures Absorb(ps, d, data).Absorbed? && Shows(Absorb(ps, d, data).d, Lead(ps, data), DepackOne(EMPTY, data).value)
    ensures Absorb(ps, d, data).complete == DepackOne(EMPTY, data).value.open.None?
  {
    if IsFU(data) && data[2] / 64 == 2 && 19 <= data[2] % 64 <= 21 {
      var zero: seq<byte> := [0, 0, 0, 0];
      assert ps + [] == ps;
      Assoc(ps, zero, Opened(data));
    } else {
      assert [] + Join([]) + [] == [];
      AbsorbDepacks(ps, d, data, [], EMPTY);
    }
  }

  ghost predicate Whole(run: seq<Packet>) {
    forall k :: 0 <= k < |run| ==> |run[k].data| >= 3
  }

  lemma DepackSome(part: Part, payloads: seq<seq<byte>>)
    requires forall k :: 0 <= k < |payloads| ==> |payloads[k]| >= 3
    requires payloads != [] && Depack(part, payloads).Some?
    ensures var before := Depack(part, payloads[..|payloads| - 1]);
            before.Some? && DepackOne(before.value, payloads[|payloads| - 1]) == Depack(part, payloads)
  {
  }

  // An open NAL unit is never empty, and something is in the buffer after the first packet.
  lemma {:induction false} DepackProgress(payloads: seq<seq<byte>>)
    requires forall k :: 0 <= k < |payloads| ==> |payloads[k]| >= 3
    requires Depack(EMPTY, payloads).Some?
    ensures var part := Depack(EMPTY, payloads).value;
            && (part.open.Some? ==> part.open.value != [])
            && (forall k :: 0 <= k < |part.nals| ==> part.nals[k] != [])
            && (payloads != [] ==> part.open.Some? || part.nals != [])
  {
    if payloads != [] {
      DepackSome(EMPTY, payloads);
      DepackProgress(payloads[..|payloads| - 1]);
    }
  }

  lemma LayoutNonEmpty(lead: seq<byte>, part: Part)
    requires part.open.Some? || (part.nals != [] && part.nals[0] != [])
    ensures Layout(lead, part) != []
  {
    if part.open.None? {
      assert |Join(part.nals)| >= |Unit(part.nals[0])|;
    }
  }

  // What reassembly makes of the last packet of a run.
  function LastAbsorbed(ps: seq<byte>, stale: nat, run: seq<Packet>): Absorbed
    requires Whole(run) && run != [] && Assemble(ps, stale, run[..|run| - 1]).Some?
  {
    var last := run[|run| - 1];
    Absorb(ps, Assemble(ps, stale, run[..|run| - 1]).value.(seqNum := last.seqNum), last.data)
  }

  // Whenever the reference understands a run, reassembly never panics on it and its buffer is
  // the reference's NAL units in AVCC form, the last one still without its size while open.
  lemma {:induction false} AssembleDepacks(ps: seq<byte>, stale: nat, run: seq<Packet>)
    requires Whole(run) && run != [] && Depack(EMPTY, Data(run)).Some?
    ensures Assemble(ps, stale, run).Some? && Assemble(ps, stale, run[..|run| - 1]).Some?
    ensures Shows(Assemble(ps, stale, run).value, Lead(ps, run[0].data), Depack(EMPTY, Data(run)).value)
    ensures LastAbsorbed(ps, stale, run) ==
            Absorbed(Assemble(ps, stale, run).value, Depack(EMPTY, Data(run)).value.open.None?)
  {
    var n := |run| - 1;
    var before := run[..n];
    assert Data(run)[..n] == Data(before);
    DepackSome(EMPTY, Data(run));
    if n == 0 {
      assert Assemble(ps, stale, before) == Some(Depay([], stale, 0));
      AbsorbFirst(ps, Depay([], stale, run[0].seqNum), run[0].data);
    } else {
      AssembleDepacks(ps, stale, before);
      DepackProgress(Data(before));
      var d, part := Assemble(ps, stale, before).value, Depack(EMPTY, Data(before)).value;
      LayoutNonEmpty(Lead(ps, run[0].data), part);
      AbsorbDepacks(ps, d.(seqNum := run[n].seqNum), run[n].data, Lead(ps, run[0].data), part);
    }
  }

  // For every packet sequence: when the packets behind an emitted unit are well-formed, the
  // unit is their NAL units, behind the stored parameter sets where a keyframe opens it.
  lemma EmittedUnitIsDepacked(ps: seq<byte>, packets: seq<Packet>, n: nat) returns (lo: nat)
    requires n < |packets| && Feed(ps, START, packets[..n]).Fed?
    requires var out := Step(ps, Feed(ps, START, packets[..n]).d, packets[n]);
             out.Outcome? && out.unit.Some?
    ensures lo <= n && Consecutive(Heard(packets[lo..n + 1])) && Heard(packets[lo..n + 1]) != []
    ensures var run := Heard(packets[lo..n + 1]);
            var part := Depack(EMPTY, Data(run));
            part.Some? && part.value.open.None? ==>
              Step(ps, Feed(ps, START, packets[..n]).d, packets[n]).unit
              == Some(Lead(ps, run[0].data) + Join(part.value.nals))
  {
    var stale;
    lo, stale := UnitsAreConsecutive(ps, packets, n);
    var run := Heard(packets[lo..n + 1]);
    if Depack(EMPTY, Data(run)).Some? {
      AssembleDepacks(ps, stale, run);
    }
  }

  // ---------- the payloader's packets ----------

  ghost predicate Payable(mtu: nat, nal: seq<byte>) {
    |nal| >= 3 && (|nal| <= mtu ==> nal[0] / 2 % 64 != 49)
  }

  ghost predicate AllPackets(payloads: seq<seq<byte>>) {
    forall k :: 0 <= k < |payloads| ==> |payloads[k]| >= 3
  }

  lemma {:induction false} FragmentsShape(h0: byte, h1: byte, data: seq<byte>, max: nat, first: bool)
    requires max > 0
    ensures AllPackets(Fragments(h0, h1, data, max, first))
    decreases |data|
  {
    if data != [] {
      FragmentsShape(h0, h1, data[if |data| > max then max else |data|..], max, false);
    }
  }

  lemma DepackCons(part: Part, one: seq<byte>, rest: seq<seq<byte>>)
    requires |one| >= 3 && AllPackets(rest)
    ensures Depack(part, [one] + rest) ==
            if DepackOne(part, one).None? then None else Depack(DepackOne(part, one).value, rest)
  {
    DepackAppend(part, [one], rest);
    assert Depack(part, [one][..0]) == Some(part);
  }

  // Continuing fragments rebuild the rest of the body and close the NAL unit.
  lemma {:induction false} DepackRest(h0: byte, h1: byte, data: seq<byte>, max: nat, part: Part)
    requires max > 0 && data != [] && part.open.Some?
    ensures AllPackets(Fragments(h0, h1, data, max, false))
    ensures Depack(part, Fragments(h0, h1, data, max, false)) == Some(Part(part.nals + [part.open.value + data], None))
    decreases |data|
  {
    FragmentsShape(h0, h1, data, max, false);
    var n := if |data| > max then max else |data|;
    var flag := Flag(false, n == |data|);
    var one, rest := Fragment(h0, h1, flag, data[..n]), Fragments(h0, h1, data[n..], max, false);
    FragmentFacts(h0, h1, flag, data[..n]);
    FragmentsShape(h0, h1, data[n..], max, false);
    DepackCons(part, one, rest);
    if n == |data| {
      assert data[..n] == data && rest == [];
    } else {
      DepackRest(h0, h1, data[n..], max, part.(open := Some(part.open.value + data[..n])));
      Assoc(part.open.value, data[..n], data[n..]);
      Split(data, n);
    }
  }

  lemma {:induction false} FirstOpens(h0: byte, h1: byte, head: seq<byte>, part: Part)
    requires part.open.None? && head != []
    ensures DepackOne(part, Fragment(h0, h1, 128, head)) == Some(part.(open := Some([h0, h1] + head)))
  {
    FragmentFacts(h0, h1, 128, head);
    var f := Fragment(h0, h1, 128, head);
    assert Opened(f) == [h0, h1] + head;
  }

  // Every fragment but the last one fills the mtu.
  lemma {:induction false} FragmentsFill(h0: byte, h1: byte, data: seq<byte>, max: nat, first: bool, k: nat)
    requires max > 0 && k + 1 < |Fragments(h0, h1, data, max, first)|
    ensures |Fragments(h0, h1, data, max, first)[k]| == max + 3
    decreases |data|
  {
    var n := if |data| > max then max else |data|;
    if k > 0 {
      FragmentsFill(h0, h1, data[n..], max, false, k - 1);
    }
  }

  // A NAL unit that fits is sent as it is; of one that does not, every packet but the last is
  // exactly as long as the mtu, and the last is no longer.
  lemma {:induction false} PacketsFill(mtu: nat, nal: seq<byte>, k: nat)
    requires mtu >= 4 && |nal| >= 3 && k < |PayNal(mtu, nal)|
    ensures |nal| <= mtu ==> PayNal(mtu, nal) == [nal]
    ensures |nal| > mtu ==> if k + 1 < |PayNal(mtu, nal)| then |PayNal(mtu, nal)[k]| == mtu
                            else 3 < |PayNal(mtu, nal)[k]| <= mtu
  {
    if |nal| > mtu {
      if k + 1 < |PayNal(mtu, nal)| {
        FragmentsFill(nal[0], nal[1], nal[2..], mtu - 3, true, k);
      } else {
        FragmentsFit(nal[0], nal[1], nal[2..], mtu - 3, true, k);
      }
    }
  }

  lemma {:induction false} FragmentsFit(h0: byte, h1: byte, data: seq<byte>, max: nat, first: bool, k: nat)
    requires max > 0 && k < |Fragments(h0, h1, data, max, first)|
    ensures 3 < |Fragments(h0, h1, data, max, first)[k]| <= max + 3
    decreases |data|
  {
    if k > 0 {
      FragmentsFit(h0, h1, data[if |data| > max then max else |data|..], max, false, k - 1);
    }
  }

  // A beginning fragment opens the NAL unit that the rest completes.
  lemma {:induction false} DepackFirst(h0: byte, h1: byte, data: seq<byte>, max: nat, part: Part)
    requires 0 < max < |data| && part.open.None?
    ensures AllPackets(Fragments(h0, h1, data, max, true))
    ensures Depack(part, Fragments(h0, h1, data, max, true)) == Some(Part(part.nals + [[h0, h1] + data], None))
  {
    FragmentsShape(h0, h1, data, max, true);
    FragmentsShape(h0, h1, data[max..], max, false);
    var head, tail := data[..max], data[max..];
    var one, rest := Fragment(h0, h1, 128, head), Fragments(h0, h1, tail, max, false);
    FirstOpens(h0, h1, head, part);
    DepackCons(part, one, rest);
    DepackRest(h0, h1, tail, max, part.(open := Some([h0, h1] + head)));
    Assoc([h0, h1], head, tail);
    Split(data, max);
  }

  // The fragments of a NAL unit that does not fit rebuild it.
  lemma {:induction false} DepackFragments(mtu: nat, nal: seq<byte>, part: Part)
    requires 4 <= mtu < |nal| && part.open.None?
    ensures AllPackets(PayNal(mtu, nal))
    ensures Depack(part, PayNal(mtu, nal)) == Some(Part(part.nals + [nal], None))
  {
    DepackFirst(nal[0], nal[1], nal[2..], mtu - 3, part);
    assert [nal[0], nal[1]] + nal[2..] == nal;
  }

  lemma DepackNal(mtu: nat, nal: seq<byte>, part: Part)
    requires 4 <= mtu && Payable(mtu, nal) && part.open.None?
    ensures AllPackets(PayNal(mtu, nal))
    ensures Depack(part, PayNal(mtu, nal)) == Some(Part(part.nals + [nal], None))
  {
    if |nal| > mtu {
      DepackFragments(mtu, nal, part);
    } else {
      assert [nal][..0] == [];
    }
  }

  lemma {:induction false} DepackTwo(a: seq<seq<byte>>, b: seq<seq<byte>>, nals: seq<seq<byte>>)
    requires nals != [] && AllPackets(a) && AllPackets(b)
    requires Depack(EMPTY, a) == Some(Part(nals[..|nals| - 1], None))
    requires Depack(Part(nals[..|nals| - 1], None), b) == Some(Part(nals[..|nals| - 1] + [nals[|nals| - 1]], None))
    ensures AllPackets(a + b) && Depack(EMPTY, a + b) == Some(Part(nals, None))
  {
    DepackAppend(EMPTY, a, b);
    assert nals[..|nals| - 1] + [nals[|nals| - 1]] == nals;
  }

  // The reference inverts the payloader.
  lemma {:induction false} DepackPaid(mtu: nat, nals: seq<seq<byte>>)
    requires 4 <= mtu && forall k :: 0 <= k < |nals| ==> Payable(mtu, nals[k])
    ensures AllPackets(PayAll(mtu, nals))
    ensures Depack(EMPTY, PayAll(mtu, nals)) == Some(Part(nals, None))
  {
    if nals != [] {
      var n := |nals| - 1;
      DepackPaid(mtu, nals[..n]);
      DepackNal(mtu, nals[n], Part(nals[..n], None));
      DepackTwo(PayAll(mtu, nals[..n]), PayNal(mtu, nals[n]), nals);
    }
  }

  // ---------- the round trip ----------

  // One RTP packet a payload: consecutive sequence numbers from `first` on, wrapping at 2^16,
  // and the marker on the last.
  function Packets(first: nat, payloads: seq<seq<byte>>): (packets: seq<Packet>)
    ensures |packets| == |payloads|
    ensures forall k :: 0 <= k < |packets| ==>
              packets[k] == Packet((first + k) % TWO16, k == |payloads| - 1, payloads[k])
  {
    seq(|payloads|, k requires 0 <= k < |payloads| =>
      Packet((first + k) % TWO16, k == |payloads| - 1, payloads[k]))
  }

  // RTPDepay lets the marker of this packet through.
  ghost predicate Closes(data: seq<byte>) {
    |data| >= 3 && !(|data| < PS_MAX_SIZE && (IsParameterSet(NalType(data[0])) || IsSEI(NalType(data[0]))))
  }

  lemma SeqFollows(first: nat, k: nat)
    requires k > 0
    ensures Follows((first + k) % TWO16, (first + k - 1) % TWO16)
  {
  }

  lemma AssembledSeq(ps: seq<byte>, stale: nat, run: seq<Packet>)
    requires Whole(run) && run != [] && Assemble(ps, stale, run).Some?
    ensures Assemble(ps, stale, run).value.seqNum == run[|run| - 1].seqNum
  {
  }

  // The reassembly has followed `run` from an empty buffer and emitted nothing.
  ghost predicate Silent(ps: seq<byte>, d: Depay, run: seq<Packet>)
    requires Whole(run) && Assemble(ps, d.nuStart, run).Some?
  {
    if run == [] then d.buf == [] else Feed(ps, d, run) == Fed(Assemble(ps, d.nuStart, run).value, [])
  }

  // ... so the next packet of the sequence is absorbed, and emits the buffer if it may.
  lemma FeedNext(ps: seq<byte>, d: Depay, run: seq<Packet>)
    requires Whole(run) && run != [] && Assemble(ps, d.nuStart, run[..|run| - 1]).Some?
    requires Silent(ps, d, run[..|run| - 1]) && LastAbsorbed(ps, d.nuStart, run).Absorbed?
    requires var last := run[|run| - 1];
             && !Ignored(last)
             && (|run| > 1 ==> Follows(last.seqNum, run[|run| - 2].seqNum))
    ensures var last, r := run[|run| - 1], LastAbsorbed(ps, d.nuStart, run);
            Feed(ps, d, run) == if r.complete && Marked(last) then Fed(r.d.(buf := []), [r.d.buf]) else Fed(r.d, [])
  {
    var before := run[..|run| - 1];
    if before == [] {
      assert Feed(ps, d, before) == Fed(d, []);
    } else {
      AssembledSeq(ps, d.nuStart, before);
    }
  }

  // Until the last packet nothing is emitted and the buffer follows the assembly.
  lemma {:induction false} FeedPrefix(ps: seq<byte>, d: Depay, run: seq<Packet>)
    requires d.buf == [] && run != [] && Consecutive(run) && Depack(EMPTY, Data(run)).Some?
    requires forall k :: 0 <= k < |run| ==> !run[k].marker
    ensures Assemble(ps, d.nuStart, run).Some? && Silent(ps, d, run)
  {
    var before := run[..|run| - 1];
    AssembleDepacks(ps, d.nuStart, run);
    if before != [] {
      DepackSome(EMPTY, Data(run));
      assert Data(run)[..|run| - 1] == Data(before);
      FeedPrefix(ps, d, before);
    }
    FeedNext(ps, d, run);
  }

  lemma PacketsConsecutive(first: nat, payloads: seq<seq<byte>>)
    requires AllPackets(payloads)
    ensures Consecutive(Packets(first, payloads)) && Data(Packets(first, payloads)) == payloads
  {
    var run := Packets(first, payloads);
    forall k | 0 < k < |run|
      ensures Follows(run[k].seqNum, run[k - 1].seqNum)
    {
      SeqFollows(first, k);
    }
  }

  // Feeding the packets of a well-formed, closing payload list to an empty reassembly emits
  // exactly one access unit and leaves it empty again.
  lemma FeedEmitsOnce(ps: seq<byte>, d: Depay, first: nat, payloads: seq<seq<byte>>, nals: seq<seq<byte>>)
    requires d.buf == [] && payloads != [] && AllPackets(payloads)
    requires Depack(EMPTY, payloads) == Some(Part(nals, None)) && Closes(payloads[|payloads| - 1])
    ensures var r := Feed(ps, d, Packets(first, payloads));
            r.Fed? && r.units == [Lead(ps, payloads[0]) + Join(nals)] && r.d.buf == []
  {
    var run, n := Packets(first, payloads), |payloads| - 1;
    PacketsConsecutive(first, payloads);
    AssembleDepacks(ps, d.nuStart, run);
    if n > 0 {
      DepackSome(EMPTY, payloads);
      assert Data(run[..n]) == payloads[..n];
      FeedPrefix(ps, d, run[..n]);
    }
    FeedNext(ps, d, run);
  }

  // If the last packet does not close the unit, nothing is emitted.
  lemma {:induction false} FeedEmitsNothing(ps: seq<byte>, d: Depay, first: nat, payloads: seq<seq<byte>>, nals: seq<seq<byte>>)
    requires d.buf == [] && payloads != [] && AllPackets(payloads)
    requires Depack(EMPTY, payloads) == Some(Part(nals, None)) && !Closes(payloads[|payloads| - 1])
    ensures var r := Feed(ps, d, Packets(first, payloads)); r.Fed? && r.units == []
  {
    var run, n := Packets(first, payloads), |payloads| - 1;
    PacketsConsecutive(first, payloads);
    AssembleDepacks(ps, d.nuStart, run);
    if n > 0 {
      DepackSome(EMPTY, payloads);
      assert Data(run[..n]) == payloads[..n];
      FeedPrefix(ps, d, run[..n]);
    }
    if Ignored(run[n]) {
      FeedIgnored(ps, d, run);
    } else {
      FeedNext(ps, d, run);
    }
  }

  lemma {:induction false} FeedIgnored(ps: seq<byte>, d: Depay, run: seq<Packet>)
    requires Whole(run) && run != [] && Assemble(ps, d.nuStart, run[..|run| - 1]).Some?
    requires Silent(ps, d, run[..|run| - 1]) && Ignored(run[|run| - 1])
    ensures var r := Feed(ps, d, run); r.Fed? && r.units == []
  {
    var before := run[..|run| - 1];
    if before == [] {
      assert Feed(ps, d, before) == Fed(d, []);
    }
  }

  lemma PayAllLast(mtu: nat, nals: seq<seq<byte>>)
    requires 4 <= mtu && nals != [] && forall k :: 0 <= k < |nals| ==> Payable(mtu, nals[k])
    ensures var payloads, last := PayAll(mtu, nals), PayNal(mtu, nals[|nals| - 1]);
            last != [] && payloads != [] && payloads[|payloads| - 1] == last[|last| - 1]
  {
  }

  lemma {:induction false} FragmentsLast(h0: byte, h1: byte, data: seq<byte>, max: nat)
    requires max > 0 && data != []
    ensures var f := Fragments(h0, h1, data, max, false);
            f != [] && Closes(f[|f| - 1])
    decreases |data|
  {
    HeaderSurvives(h0);
    FragmentsShape(h0, h1, data, max, false);
    if |data| > max {
      FragmentsLast(h0, h1, data[max..], max);
    }
  }

  lemma LastCloses(mtu: nat, nal: seq<byte>)
    requires 4 <= mtu && Payable(mtu, nal)
    requires !Swallowed(mtu, nal)
    ensures PayNal(mtu, nal) != [] && Closes(PayNal(mtu, nal)[|PayNal(mtu, nal)| - 1])
  {
    if |nal| > mtu {
      FragmentsLast(nal[0], nal[1], nal[2..][mtu - 3..], mtu - 3);
    }
  }

  lemma {:induction false} PayAllFirst(mtu: nat, nals: seq<seq<byte>>)
    requires 4 <= mtu && nals != [] && forall k :: 0 <= k < |nals| ==> Payable(mtu, nals[k])
    ensures PayNal(mtu, nals[0]) != [] && PayAll(mtu, nals) != [] && PayAll(mtu, nals)[0] == PayNal(mtu, nals[0])[0]
  {
    var n := |nals| - 1;
    if n > 0 {
      PayAllFirst(mtu, nals[..n]);
    } else {
      assert nals[..0] == [] && PayAll(mtu, nals) == [] + PayNal(mtu, nals[0]);
    }
  }

  // A last packet whose marker RTPDepay drops, or which it drops altogether.
  predicate Swallowed(mtu: nat, nal: seq<byte>) {
    0 < |nal| <= mtu && |nal| < 128 && nal[0] / 2 % 64 in {32, 33, 34, 39, 40}
  }

  // A keyframe NAL unit that is fragmented.
  predicate LeadsKeyframe(mtu: nat, nal: seq<byte>) {
    |nal| > mtu && nal != [] && 19 <= nal[0] / 2 % 64 <= 21
  }

  lemma LeadIsKeyframe(ps: seq<byte>, mtu: nat, nal: seq<byte>)
    requires 4 <= mtu && Payable(mtu, nal)
    ensures PayNal(mtu, nal) != [] && |PayNal(mtu, nal)[0]| >= 3
    ensures Lead(ps, PayNal(mtu, nal)[0]) == if LeadsKeyframe(mtu, nal) then ps else []
  {
    HeaderSurvives(nal[0]);
  }

  lemma {:induction false} PaidJoin(mtu: nat, nals: seq<seq<byte>>)
    requires mtu >= 4 && |Join(nals)| < TWO32 && forall k :: 0 <= k < |nals| ==> Payable(mtu, nals[k])
    ensures Paid(mtu, Join(nals)) == Some(PayAll(mtu, nals))
  {
    EmitJoin(nals);
    NoneEmpty(nals);
  }

  // Payload, packets with consecutive wrapping sequence numbers and the marker on the last,
  // reassembly: one access unit, equal to the AVCC input, behind the stored parameter sets
  // exactly when the input opens with a keyframe NAL unit that had to be fragmented.
  lemma RoundTrip(ps: seq<byte>, d: Depay, first: nat, mtu: nat, nals: seq<seq<byte>>)
    requires d.buf == [] && mtu >= 4 && nals != [] && |Join(nals)| < TWO32
    requires forall k :: 0 <= k < |nals| ==> Payable(mtu, nals[k])
    requires !Swallowed(mtu, nals[|nals| - 1])
    ensures Paid(mtu, Join(nals)).Some?
    ensures var r := Feed(ps, d, Packets(first, Paid(mtu, Join(nals)).value));
            r.Fed? && r.d.buf == []
            && r.units == [(if LeadsKeyframe(mtu, nals[0]) then ps else []) + Join(nals)]
  {
    PaidJoin(mtu, nals);
    var lead := PayloadsClose(ps, mtu, nals, PayAll(mtu, nals));
    FeedEmitsOnce(ps, d, first, PayAll(mtu, nals), nals);
  }

  lemma PayloadsClose(ps: seq<byte>, mtu: nat, nals: seq<seq<byte>>, payloads: seq<seq<byte>>) returns (lead: seq<byte>)
    requires mtu >= 4 && nals != [] && payloads == PayAll(mtu, nals)
    requires forall k :: 0 <= k < |nals| ==> Payable(mtu, nals[k])
    requires !Swallowed(mtu, nals[|nals| - 1])
    ensures payloads != [] && AllPackets(payloads) && Depack(EMPTY, payloads) == Some(Part(nals, None))
    ensures Closes(payloads[|payloads| - 1])
    ensures lead == Lead(ps, payloads[0]) && lead == if LeadsKeyframe(mtu, nals[0]) then ps else []
  {
    DepackPaid(mtu, nals);
    PayAllLast(mtu, nals);
    LastCloses(mtu, nals[|nals| - 1]);
    PayAllFirst(mtu, nals);
    LeadIsKeyframe(ps, mtu, nals[0]);
    lead := Lead(ps, payloads[0]);
  }

  // The last NAL unit decides: behind a swallowed one the access unit never comes out.
  lemma RoundTripExactly(ps: seq<byte>, d: Depay, first: nat, mtu: nat, nals: seq<seq<byte>>)
    requires d.buf == [] && mtu >= 4 && nals != [] && |Join(nals)| < TWO32
    requires forall k :: 0 <= k < |nals| ==> Payable(mtu, nals[k])
    ensures Paid(mtu, Join(nals)).Some?
    ensures var r := Feed(ps, d, Packets(first, Paid(mtu, Join(nals)).value));
            r.Fed? && (r.units == [(if LeadsKeyframe(mtu, nals[0]) then ps else []) + Join(nals)]
                       <==> !Swallowed(mtu, nals[|nals| - 1]))
  {
    if Swallowed(mtu, nals[|nals| - 1]) {
      PaidJoin(mtu, nals);
      DepackPaid(mtu, nals);
      PayAllLast(mtu, nals);
      FeedEmitsNothing(ps, d, first, PayAll(mtu, nals), nals);
    } else {
      RoundTrip(ps, d, first, mtu, nals);
    }
  }

  lemma {:induction false} NoneEmpty(nals: seq<seq<byte>>)
    requires forall k :: 0 <= k < |nals| ==> nals[k] != []
    ensures NonEmpty(nals) == nals
  {
    if nals != [] {
      NoneEmpty(nals[1..]);
    }
  }

  // ---------- stray end fragments ----------

  // Reassembly panics exactly when an end fragment continues a buffer whose end, with the
  // fragment, lies less than 4 bytes behind nuStart and at most 4 bytes before it.
  lemma PanicsExactly(ps: seq<byte>, d: Depay, p: Packet)
    ensures Step(ps, d, p).Panic? <==>
            && |p.data| >= 3 && p.data[0] / 2 % 64 == 49 && p.data[2] / 64 == 1
            && d.buf != [] && (p.seqNum - d.seqNum) % 0x1_0000 == 1
            && d.nuStart - 4 <= |d.buf| + |p.data| - 3 < d.nuStart + 4
  {
    FollowsExactly(p.seqNum, d.seqNum);
  }

  lemma {:induction false} FeedSnoc(ps: seq<byte>, packets: seq<Packet>, d: Depay, p: Packet)
    requires Feed(ps, START, packets) == Fed(d, [])
    ensures Feed(ps, START, packets + [p]) ==
            match Step(ps, d, p)
            case Panic => Panicked
            case Outcome(d', unit) => Fed(d', if unit.Some? then [unit.value] else [])
  {
    SnocTake(packets, p);
  }

  // Packet k takes state k to state k + 1 silently, and the last packet panics.
  ghost predicate Stray(ps: seq<byte>, p: seq<Packet>, d: seq<Depay>) {
    && |p| == |d| == 5 && d[0] == START && Step(ps, d[4], p[4]).Panic?
    && forall k :: 0 <= k < 4 ==> Step(ps, d[k], p[k]) == Outcome(d[k + 1], None)
  }

  lemma {:induction false} FeedStray(ps: seq<byte>, p: seq<Packet>, d: seq<Depay>)
    requires Stray(ps, p, d)
    ensures Feed(ps, START, p).Panicked?
  {
    FeedSnoc(ps, p[..0], d[0], p[0]);
    assert p[..1] == p[..0] + [p[0]] && p[..2] == p[..1] + [p[1]];
    FeedSnoc(ps, p[..1], d[1], p[1]);
    assert p[..3] == p[..2] + [p[2]] && p[..4] == p[..3] + [p[3]];
    FeedSnoc(ps, p[..2], d[2], p[2]);
    FeedSnoc(ps, p[..3], d[3], p[3]);
    FeedSnoc(ps, p[..4], d[4], p[4]);
    assert p == p[..4] + [p[4]];
  }

  lemma StepSingle(ps: seq<byte>, d: Depay, p: Packet)
    requires d.buf == [] && |p.data| >= 3 && !IsFU(p.data) && !p.marker
    ensures Step(ps, d, p) == Outcome(Depay(Be(|p.data|, 4) + p.data, d.nuStart, p.seqNum), None)
  {
    assert [] + (Be(|p.data|, 4) + p.data) == Be(|p.data|, 4) + p.data;
  }

  lemma StepBegin(ps: seq<byte>, d: Depay, p: Packet) returns (d': Depay)
    requires d.buf != [] && Follows(p.seqNum, d.seqNum)
    requires |p.data| >= 3 && IsFU(p.data) && p.data[2] / 64 == 2 && !p.marker
    ensures Step(ps, d, p) == Outcome(d', None)
    ensures d'.buf != [] && d'.nuStart == |d.buf| && d'.seqNum == p.seqNum
  {
    d' := Step(ps, d, p).d;
  }

  // A fragmented NAL unit loses its end, and a shorter access unit is followed by an end
  // fragment that no begin fragment goes with.
  lemma StrayPackets(ps: seq<byte>) returns (p: seq<Packet>, d: seq<Depay>)
    ensures Stray(ps, p, d)
  {
    var long, begin := Packet(0, false, Zeros(20)), Packet(1, false, [98, 0, 129] + Zeros(5));
    var lost, short := Packet(5, false, Zeros(12)), Packet(6, false, Zeros(12));
    var end := Packet(7, false, [98, 0, 65] + Zeros(5));
    StepSingle(ps, START, long);
    var d1 := Depay(Be(20, 4) + long.data, 0, 0);
    var d2 := StepBegin(ps, d1, begin);
    var d3 := d2.(buf := []);
    assert Step(ps, d2, lost) == Outcome(d3, None);
    StepSingle(ps, d3, short);
    var d4 := Depay(Be(12, 4) + short.data, 24, 6);
    PanicsExactly(ps, d4, end);
    p, d := [long, begin, lost, short, end], [START, d1, d2, d3, d4];
  }

  // Such packets exist.
  lemma {:induction false} StrayEndPanics(ps: seq<byte>)
    ensures exists packets :: Feed(ps, START, packets).Panicked?
  {
    var packets, states := StrayPackets(ps);
    FeedStray(ps, packets, states);
  }
}
