// Whole runs: any interleaving of GetPayload calls on the muxer's tracks, read back by the
// demuxer with successive ReadPacket calls.
module TsRuns {
  import opened Wrappers
  import opened Bytes
  import opened Seqs
  import opened TsSyntax
  import opened TsDemux
  import opened TsRoundTrip

  // One PES on its way: the track, its state when it is written, and the payload.
  datatype Job = Job(track: nat, sequence: nat, streamId: byte, pts: nat, payload: seq<byte>)

  predicate JobOk(j: Job, n: nat) {
    j.track < n && j.pts < TWO32 && j.payload != []
  }

  predicate JobsOk(jobs: seq<Job>, n: nat) {
    n <= 33 && forall k :: 0 <= k < |jobs| ==> JobOk(jobs[k], n)
  }

  function JobPackets(j: Job): seq<seq<byte>>
    requires j.track < 33 && j.pts < TWO32
  {
    PesBytes(PES0_PID + j.track, j.sequence, j.streamId, j.pts, j.payload)
  }

  function JobBytes(jobs: seq<Job>, n: nat): seq<byte>
    requires JobsOk(jobs, n)
    decreases |jobs|
  {
    if jobs == [] then [] else Flat(JobPackets(jobs[0])) + JobBytes(jobs[1..], n)
  }

  // ---------- what should come out ----------

  // Per track: the last sequence number and the long payload that waits for the next start.
  datatype Slot = Slot(sequence: nat, held: Option<(nat, seq<byte>)>)

  datatype Delivery = Delivery(track: nat, packet: Packet)

  function Next(sequence: nat): nat {
    (sequence + 1) % TWO16
  }

  predicate Fits(payload: seq<byte>) {
    8 + |payload| <= 0xFFFF
  }

  // A new PES pushes the held payload out; one that fits the length field follows at once.
  function Pushed(slot: Slot): Slot {
    if slot.held.Some? then Slot(Next(slot.sequence), None) else slot
  }

  function PushedOut(track: nat, streamType: byte, slot: Slot): seq<Delivery> {
    if slot.held.None? then []
    else [Delivery(track, Packet(streamType, Next(slot.sequence), slot.held.value.0, slot.held.value.1))]
  }

  function Kept(slot: Slot, pts: nat, payload: seq<byte>): Slot {
    if Fits(payload) then Slot(Next(slot.sequence), None) else Slot(slot.sequence, Some((pts, payload)))
  }

  function KeptOut(track: nat, streamType: byte, slot: Slot, pts: nat, payload: seq<byte>): seq<Delivery> {
    if Fits(payload) then [Delivery(track, Packet(streamType, Next(slot.sequence), pts, payload))] else []
  }

  function Deliver(types: seq<byte>, slots: seq<Slot>, j: Job): seq<Delivery>
    requires |slots| == |types| && JobOk(j, |types|)
  {
    var streamType, slot := types[j.track], slots[j.track];
    PushedOut(j.track, streamType, slot) + KeptOut(j.track, streamType, Pushed(slot), j.pts, j.payload)
  }

  function SlotsAfter(slots: seq<Slot>, j: Job): (r: seq<Slot>)
    requires JobOk(j, |slots|)
    ensures |r| == |slots|
  {
    slots[j.track := Kept(Pushed(slots[j.track]), j.pts, j.payload)]
  }

  function Deliveries(types: seq<byte>, slots: seq<Slot>, jobs: seq<Job>): seq<Delivery>
    requires |slots| == |types| && JobsOk(jobs, |types|)
    decreases |jobs|
  {
    if jobs == [] then []
    else Deliver(types, slots, jobs[0]) + Deliveries(types, SlotsAfter(slots, jobs[0]), jobs[1..])
  }

  function FinalSlots(slots: seq<Slot>, jobs: seq<Job>): (r: seq<Slot>)
    requires JobsOk(jobs, |slots|)
    ensures |r| == |slots|
    decreases |jobs|
  {
    if jobs == [] then slots else FinalSlots(SlotsAfter(slots, jobs[0]), jobs[1..])
  }

  // ---------- nothing is lost or reordered ----------

  // The presentation times and payloads of one track, as sent, delivered and held.
  function Sent(jobs: seq<Job>, i: nat): seq<(nat, seq<byte>)> {
    if jobs == [] then []
    else (if jobs[0].track == i then [(jobs[0].pts, jobs[0].payload)] else []) + Sent(jobs[1..], i)
  }

  function Received(ds: seq<Delivery>, i: nat): seq<(nat, seq<byte>)> {
    if ds == [] then []
    else (if ds[0].track == i then [(ds[0].packet.timestamp, ds[0].packet.payload)] else []) + Received(ds[1..], i)
  }

  function Held(slot: Slot): seq<(nat, seq<byte>)> {
    if slot.held.None? then [] else [slot.held.value]
  }

  lemma {:induction false} ReceivedAppend(a: seq<Delivery>, b: seq<Delivery>, i: nat)
    ensures Received(a + b, i) == Received(a, i) + Received(b, i)
  {
    if a == [] {
      assert a + b == b;
    } else {
      assert (a + b)[1..] == a[1..] + b;
      ReceivedAppend(a[1..], b, i);
    }
  }

  lemma ReceivedOne(d: Delivery, i: nat)
    ensures Received([d], i) == if d.track == i then [(d.packet.timestamp, d.packet.payload)] else []
  {
    var none: seq<Delivery> := [];
    assert [d][1..] == none;
  }

  lemma DeliverKeeps(types: seq<byte>, slots: seq<Slot>, j: Job, i: nat)
    requires |slots| == |types| && JobOk(j, |types|) && i < |types|
    ensures Received(Deliver(types, slots, j), i) + Held(SlotsAfter(slots, j)[i])
         == Held(slots[i]) + if j.track == i then [(j.pts, j.payload)] else []
  {
    var streamType, slot := types[j.track], slots[j.track];
    var a := PushedOut(j.track, streamType, slot);
    var b := KeptOut(j.track, streamType, Pushed(slot), j.pts, j.payload);
    ReceivedAppend(a, b, i);
    PushedKeeps(j.track, streamType, slot, i);
    KeptKeeps(j.track, streamType, Pushed(slot), j, i);
    if j.track == i {
      Assoc(Received(a, i), Received(b, i), Held(Kept(Pushed(slot), j.pts, j.payload)));
    } else {
      assert Received(a, i) + Received(b, i) == [];
    }
  }

  lemma PushedKeeps(track: nat, streamType: byte, slot: Slot, i: nat)
    ensures Received(PushedOut(track, streamType, slot), i) == if track == i then Held(slot) else []
  {
    if slot.held.Some? {
      ReceivedOne(PushedOut(track, streamType, slot)[0], i);
    }
  }

  lemma KeptKeeps(track: nat, streamType: byte, slot: Slot, j: Job, i: nat)
    ensures var out := Received(KeptOut(track, streamType, slot, j.pts, j.payload), i);
            if track == i then out + Held(Kept(slot, j.pts, j.payload)) == [(j.pts, j.payload)] else out == []
  {
    if Fits(j.payload) {
      ReceivedOne(KeptOut(track, streamType, slot, j.pts, j.payload)[0], i);
    }
  }

  // On every track the demuxer hands out what was sent, in order, up to one payload that is
  // still held.
  lemma {:induction false} NothingLost(types: seq<byte>, slots: seq<Slot>, jobs: seq<Job>, i: nat)
    requires |slots| == |types| && JobsOk(jobs, |types|) && i < |types|
    ensures Received(Deliveries(types, slots, jobs), i) + Held(FinalSlots(slots, jobs)[i])
         == Held(slots[i]) + Sent(jobs, i)
    decreases |jobs|
  {
    if jobs != [] {
      var j, slots' := jobs[0], SlotsAfter(slots, jobs[0]);
      var now, later := Deliver(types, slots, j), Deliveries(types, slots', jobs[1..]);
      var one := if j.track == i then [(j.pts, j.payload)] else [];
      var end := Held(FinalSlots(slots', jobs[1..])[i]);
      calc {
        Received(now + later, i) + end;
        { ReceivedAppend(now, later, i); }
        (Received(now, i) + Received(later, i)) + end;
        { Assoc(Received(now, i), Received(later, i), end); }
        Received(now, i) + (Received(later, i) + end);
        { NothingLost(types, slots', jobs[1..], i); }
        Received(now, i) + (Held(slots'[i]) + Sent(jobs[1..], i));
        { Assoc(Received(now, i), Held(slots'[i]), Sent(jobs[1..], i)); }
        (Received(now, i) + Held(slots'[i])) + Sent(jobs[1..], i);
        { DeliverKeeps(types, slots, j, i); }
        (Held(slots[i]) + one) + Sent(jobs[1..], i);
        { Assoc(Held(slots[i]), one, Sent(jobs[1..], i)); }
        Held(slots[i]) + Sent(jobs, i);
      }
    }
  }

  // ---------- the demuxer delivers exactly that ----------

  // What n calls of ReadPacket return.
  function Outcomes(d: Demux, input: seq<byte>, n: nat): seq<Outcome>
    decreases n
  {
    if n == 0 then [] else var (d', outcome, rest) := Read(d, input); [outcome] + Outcomes(d', rest, n - 1)
  }

  function Medias(ds: seq<Delivery>): (os: seq<Outcome>)
    ensures |os| == |ds|
  {
    seq(|ds|, k requires 0 <= k < |ds| => Media(ds[k].packet))
  }

  predicate PesMatches(pes: Pes, streamType: byte, slot: Slot) {
    && pes.streamType == streamType && PassThrough(streamType) && pes.sequence == slot.sequence
    && match slot.held
       case None => pes.payload == []
       case Some(h) => pes.payload == h.1 && h.1 != [] && pes.pts == h.0
  }

  predicate Known(d: Demux, track: nat) {
    d.tracks.Some? && PES0_PID + track in d.tracks.value
  }

  function PesOf(d: Demux, track: nat): Pes {
    if Known(d, track) then d.tracks.value[PES0_PID + track] else NewPes(0)
  }

  predicate Matches(d: Demux, types: seq<byte>, slots: seq<Slot>) {
    && d.tracks.Some? && |types| == |slots|
    && forall i :: 0 <= i < |types| ==> Known(d, i) && PesMatches(PesOf(d, i), types[i], slots[i])
  }

  // The demuxer's PES once it has pushed out what it held, and once a payload has arrived.
  function Pending(pes: Pes): Pes {
    if pes.payload == [] then pes else GetPacket(pes).0
  }

  function Arrived(pes: Pes, j: Job): Pes {
    Finish(Opened(Pending(pes), j.streamId, j.pts, |j.payload|, j.payload)).0
  }

  function DemuxAfter(d: Demux, j: Job): Demux
    requires d.tracks.Some?
  {
    With(d, PES0_PID + j.track, Arrived(PesOf(d, j.track), j))
  }

  lemma ArrivedMatches(pes: Pes, streamType: byte, slot: Slot, j: Job)
    requires PesMatches(pes, streamType, slot) && j.payload != []
    ensures PesMatches(Arrived(pes, j), streamType, Kept(Pushed(slot), j.pts, j.payload))
  {
  }

  lemma StaysMatched(d: Demux, types: seq<byte>, slots: seq<Slot>, j: Job)
    requires Matches(d, types, slots) && JobOk(j, |types|)
    ensures Matches(DemuxAfter(d, j), types, SlotsAfter(slots, j))
  {
    ArrivedMatches(PesOf(d, j.track), types[j.track], slots[j.track], j);
    var d' := DemuxAfter(d, j);
    forall i | 0 <= i < |types|
      ensures Known(d', i) && PesMatches(PesOf(d', i), types[i], SlotsAfter(slots, j)[i])
    {
      assert Known(d, i) && PesMatches(PesOf(d, i), types[i], slots[i]);
    }
  }

  lemma OneOutcome(d: Demux, input: seq<byte>, n: nat, d': Demux, outcome: Outcome, rest: seq<byte>)
    requires Read(d, input) == (d', outcome, rest)
    ensures Outcomes(d, input, n + 1) == [outcome] + Outcomes(d', rest, n)
  {
  }

  lemma SameReads(d: Demux, input: seq<byte>, d': Demux, input': seq<byte>, n: nat)
    requires Read(d, input) == Read(d', input')
    ensures Outcomes(d, input, n) == Outcomes(d', input', n)
  {
  }

  lemma MediasOne(d: Delivery)
    ensures Medias([d]) == [Media(d.packet)]
  {
  }

  lemma MediasAppend(a: seq<Delivery>, b: seq<Delivery>)
    ensures Medias(a + b) == Medias(a) + Medias(b)
  {
  }

  lemma FinishFits(pes: Pes, j: Job)
    requires PassThrough(pes.streamType) && j.payload != []
    ensures var full := Opened(pes, j.streamId, j.pts, |j.payload|, j.payload);
            if Fits(j.payload)
            then Finish(full).1 == Media(Packet(pes.streamType, Next(pes.sequence), j.pts, j.payload))
            else Finish(full) == (full, Quiet)
  {
  }

  // From an idle track: one packet out if it fits, none if not.
  lemma IdleRead(d: Demux, j: Job, input: seq<byte>, rest: seq<byte>, k: nat)
    requires Known(d, j.track) && j.payload != [] && PassThrough(PesOf(d, j.track).streamType)
    requires PesOf(d, j.track).payload == []
    requires Read(d, input)
          == Arrive(d, PES0_PID + j.track, Opened(PesOf(d, j.track), j.streamId, j.pts, |j.payload|, j.payload), rest)
    ensures var pes := PesOf(d, j.track);
            var late := KeptOut(j.track, pes.streamType, Slot(pes.sequence, None), j.pts, j.payload);
            Outcomes(d, input, |late| + k) == Medias(late) + Outcomes(DemuxAfter(d, j), rest, k)
  {
    var pes := PesOf(d, j.track);
    FinishFits(pes, j);
    if Fits(j.payload) {
      var packet := Packet(pes.streamType, Next(pes.sequence), j.pts, j.payload);
      OneOutcome(d, input, k, DemuxAfter(d, j), Media(packet), rest);
      MediasOne(Delivery(j.track, packet));
    } else {
      SameReads(d, input, DemuxAfter(d, j), rest, k);
      assert Medias([]) + Outcomes(DemuxAfter(d, j), rest, k) == Outcomes(DemuxAfter(d, j), rest, k);
    }
  }

  lemma IdleJob(d: Demux, j: Job, rest: seq<byte>, k: nat)
    requires Known(d, j.track) && JobOk(j, 33) && PassThrough(PesOf(d, j.track).streamType)
    requires PesOf(d, j.track).payload == []
    ensures var pes := PesOf(d, j.track);
            var late := KeptOut(j.track, pes.streamType, Slot(pes.sequence, None), j.pts, j.payload);
            Outcomes(d, Flat(JobPackets(j)) + rest, |late| + k) == Medias(late) + Outcomes(DemuxAfter(d, j), rest, k)
  {
    ReadWhole(d, PES0_PID + j.track, j.sequence, j.streamId, j.pts, j.payload, rest);
    IdleRead(d, j, Flat(JobPackets(j)) + rest, rest, k);
  }

  // With a payload held, that one comes out first.
  lemma HeldJob(d: Demux, j: Job, rest: seq<byte>, k: nat)
    requires Known(d, j.track) && JobOk(j, 33) && PassThrough(PesOf(d, j.track).streamType)
    requires PesOf(d, j.track).payload != []
    ensures var pes := PesOf(d, j.track);
            var first := Packet(pes.streamType, Next(pes.sequence), pes.pts, pes.payload);
            var late := KeptOut(j.track, pes.streamType, Slot(Next(pes.sequence), None), j.pts, j.payload);
            Outcomes(d, Flat(JobPackets(j)) + rest, 1 + |late| + k)
            == [Media(first)] + (Medias(late) + Outcomes(DemuxAfter(d, j), rest, k))
  {
    var pes := PesOf(d, j.track);
    var d' := With(d, PES0_PID + j.track, Pending(pes));
    var late := KeptOut(j.track, pes.streamType, Slot(Next(pes.sequence), None), j.pts, j.payload);
    ReadPush(d, PES0_PID + j.track, j.sequence, j.streamId, j.pts, j.payload, rest);
    OneOutcome(d, Flat(JobPackets(j)) + rest, |late| + k, d', GetPacket(pes).1, Flat(JobPackets(j)) + rest);
    IdleAfterHeld(d, j);
    IdleJob(d', j, rest, k);
  }

  lemma IdleAfterHeld(d: Demux, j: Job)
    requires Known(d, j.track) && PassThrough(PesOf(d, j.track).streamType) && PesOf(d, j.track).payload != []
    ensures var pes := PesOf(d, j.track);
            var d' := With(d, PES0_PID + j.track, Pending(pes));
            && Known(d', j.track) && PesOf(d', j.track) == pes.(sequence := Next(pes.sequence), payload := [])
            && DemuxAfter(d', j) == DemuxAfter(d, j)
  {
    var pes := PesOf(d, j.track);
    WithTwice(d, PES0_PID + j.track, Pending(pes), Arrived(pes, j));
  }

  lemma JobDelivers(d: Demux, types: seq<byte>, slots: seq<Slot>, j: Job, rest: seq<byte>, k: nat)
    requires Matches(d, types, slots) && |types| <= 33 && JobOk(j, |types|)
    ensures Outcomes(d, Flat(JobPackets(j)) + rest, |Deliver(types, slots, j)| + k)
         == Medias(Deliver(types, slots, j)) + Outcomes(DemuxAfter(d, j), rest, k)
  {
    var streamType, slot := types[j.track], slots[j.track];
    assert Known(d, j.track) && PesMatches(PesOf(d, j.track), streamType, slot);
    var first := PushedOut(j.track, streamType, slot);
    var late := KeptOut(j.track, streamType, Pushed(slot), j.pts, j.payload);
    if slot.held.None? {
      assert first + late == late;
      IdleJob(d, j, rest, k);
    } else {
      HeldJob(d, j, rest, k);
      MediasAppend(first, late);
      MediasOne(first[0]);
      Assoc(Medias(first), Medias(late), Outcomes(DemuxAfter(d, j), rest, k));
    }
  }

  // The next ReadPacket calls return `ds`, and then go on as `d2` does with `rest`.
  ghost predicate Brings(d: Demux, input: seq<byte>, ds: seq<Delivery>, d2: Demux, rest: seq<byte>) {
    forall k: nat :: Outcomes(d, input, |ds| + k) == Medias(ds) + Outcomes(d2, rest, k)
  }

  lemma JobBrings(d: Demux, types: seq<byte>, slots: seq<Slot>, j: Job, rest: seq<byte>)
    requires Matches(d, types, slots) && |types| <= 33 && JobOk(j, |types|)
    ensures Brings(d, Flat(JobPackets(j)) + rest, Deliver(types, slots, j), DemuxAfter(d, j), rest)
  {
    forall k: nat
      ensures Outcomes(d, Flat(JobPackets(j)) + rest, |Deliver(types, slots, j)| + k)
           == Medias(Deliver(types, slots, j)) + Outcomes(DemuxAfter(d, j), rest, k)
    {
      JobDelivers(d, types, slots, j, rest, k);
    }
  }

  lemma NothingBrought(d: Demux, rest: seq<byte>)
    ensures Brings(d, [] + rest, [], d, rest)
  {
    assert [] + rest == rest;
    forall k: nat
      ensures Outcomes(d, rest, 0 + k) == Medias([]) + Outcomes(d, rest, k)
    {
      assert Medias([]) + Outcomes(d, rest, k) == Outcomes(d, rest, k);
    }
  }

  lemma Compose(d: Demux, first: seq<byte>, more: seq<byte>, rest: seq<byte>,
                now: seq<Delivery>, later: seq<Delivery>, d1: Demux, d2: Demux)
    requires Brings(d, first + (more + rest), now, d1, more + rest)
    requires Brings(d1, more + rest, later, d2, rest)
    ensures Brings(d, (first + more) + rest, now + later, d2, rest)
  {
    Assoc(first, more, rest);
    MediasAppend(now, later);
    forall k: nat
      ensures Outcomes(d, first + (more + rest), |now + later| + k) == Medias(now + later) + Outcomes(d2, rest, k)
    {
      var k' := |later| + k;
      assert Outcomes(d, first + (more + rest), |now| + k') == Medias(now) + Outcomes(d1, more + rest, k');
      Assoc(Medias(now), Medias(later), Outcomes(d2, rest, k));
    }
  }

  function DemuxAtEnd(d: Demux, jobs: seq<Job>): Demux
    requires d.tracks.Some?
    decreases |jobs|
  {
    if jobs == [] then d else DemuxAtEnd(DemuxAfter(d, jobs[0]), jobs[1..])
  }

  // Successive ReadPacket calls return the deliveries of the jobs, then go on with `rest`.
  lemma {:induction false} JobsDeliver(d: Demux, types: seq<byte>, slots: seq<Slot>, jobs: seq<Job>, rest: seq<byte>)
    requires Matches(d, types, slots) && JobsOk(jobs, |types|)
    ensures Brings(d, JobBytes(jobs, |types|) + rest, Deliveries(types, slots, jobs), DemuxAtEnd(d, jobs), rest)
    decreases |jobs|
  {
    if jobs == [] {
      NothingBrought(d, rest);
    } else {
      var j := jobs[0];
      var d1, slots' := DemuxAfter(d, j), SlotsAfter(slots, j);
      var more := JobBytes(jobs[1..], |types|);
      StaysMatched(d, types, slots, j);
      JobBrings(d, types, slots, j, more + rest);
      JobsDeliver(d1, types, slots', jobs[1..], rest);
      Compose(d, Flat(JobPackets(j)), more, rest,
              Deliver(types, slots, j), Deliveries(types, slots', jobs[1..]), d1, DemuxAtEnd(d1, jobs[1..]));
    }
  }
}
