// The muxer's calls as jobs, and the round trip of a whole stream.
module TsStream {
  import opened Wrappers
  import opened Bytes
  import opened Seqs
  import opened TsSyntax
  import opened TsDemux
  import opened TsMux
  import opened TsRoundTrip
  import opened TsRuns

  datatype Call = Call(track: nat, timestamp: nat, payload: seq<byte>)

  predicate CallsOk(calls: seq<Call>, n: nat) {
    n <= 33 && forall k :: 0 <= k < |calls| ==>
      calls[k].track < n && calls[k].timestamp < TWO32 && calls[k].payload != []
  }

  predicate TracksOk(ts: seq<Track>) {
    forall i :: 0 <= i < |ts| ==> TrackOk(ts[i])
  }

  function JobOf(ts: seq<Track>, c: Call): Job
    requires TracksOk(ts) && c.track < |ts| && c.timestamp < TWO32
  {
    var t := Clock(ts[c.track], c.timestamp);
    Job(c.track, t.sequence, t.streamId, t.pts, c.payload)
  }

  function TracksAfter(ts: seq<Track>, c: Call): (r: seq<Track>)
    requires TracksOk(ts) && c.track < |ts| <= 33 && c.timestamp < TWO32
    ensures TracksOk(r) && |r| == |ts|
  {
    ts[c.track := AfterChop(PES0_PID + c.track, Clock(ts[c.track], c.timestamp), c.payload)]
  }

  function Jobs(ts: seq<Track>, calls: seq<Call>): (jobs: seq<Job>)
    requires TracksOk(ts) && CallsOk(calls, |ts|)
    ensures JobsOk(jobs, |ts|) && |jobs| == |calls|
    decreases |calls|
  {
    if calls == [] then [] else [JobOf(ts, calls[0])] + Jobs(TracksAfter(ts, calls[0]), calls[1..])
  }

  function Fresh(types: seq<byte>): (ts: seq<Track>)
    ensures |ts| == |types| && TracksOk(ts) && Types(ts) == types
  {
    seq(|types|, i requires 0 <= i < |types| => NewTrack(types[i]))
  }

  // ---------- the round trip ----------

  function Idle(n: nat): (slots: seq<Slot>)
    ensures |slots| == n
  {
    seq(n, _ => Slot(0, None))
  }

  lemma LearnedMatches(types: seq<byte>)
    requires forall i :: 0 <= i < |types| ==> PassThrough(types[i])
    ensures Matches(Demux(PMT_PID, Some(Learned(types))), types, Idle(|types|))
  {
    var d := Demux(PMT_PID, Some(Learned(types)));
    LearnedExactly(types);
    forall i | 0 <= i < |types|
      ensures Known(d, i) && PesMatches(PesOf(d, i), types[i], Idle(|types|)[i])
    {
      assert Learned(types)[PES0_PID + i] == NewPes(types[i]);
    }
  }

  // A new demuxer that reads everything the muxer writes for any interleaving of calls
  // returns the track list, the deliveries and the end of the stream. TsRuns.NothingLost
  // says what the deliveries are.
  lemma {:induction false} StreamRoundTrip(types: seq<byte>, patCrc: seq<byte>, pmtCrc: seq<byte>, calls: seq<Call>)
    requires |patCrc| == 4 && |pmtCrc| == 4 && CallsOk(calls, |types|)
    requires forall i :: 0 <= i < |types| ==> PassThrough(types[i])
    ensures var jobs := Jobs(Fresh(types), calls);
            var ds := Deliveries(types, Idle(|types|), jobs);
            Outcomes(NEW_DEMUX, Pat(patCrc) + Pmt(types, pmtCrc) + JobBytes(jobs, |types|), 1 + (|ds| + 1))
            == [Meta] + (Medias(ds) + [Eof])
  {
    var jobs := Jobs(Fresh(types), calls);
    var d := Demux(PMT_PID, Some(Learned(types)));
    HeaderTeaches(types, patCrc, pmtCrc, JobBytes(jobs, |types|));
    LearnedMatches(types);
    BodyRoundTrip(d, types, Idle(|types|), jobs);
    OneOutcome(NEW_DEMUX, Pat(patCrc) + Pmt(types, pmtCrc) + JobBytes(jobs, |types|),
               |Deliveries(types, Idle(|types|), jobs)| + 1, d, Meta, JobBytes(jobs, |types|));
  }

  lemma {:induction false} BodyRoundTrip(d: Demux, types: seq<byte>, slots: seq<Slot>, jobs: seq<Job>)
    requires Matches(d, types, slots) && JobsOk(jobs, |types|)
    ensures var ds := Deliveries(types, slots, jobs);
            Outcomes(d, JobBytes(jobs, |types|), |ds| + 1) == Medias(ds) + [Eof]
  {
    var bytes, end: seq<byte> := JobBytes(jobs, |types|), [];
    assert bytes + end == bytes;
    JobsDeliver(d, types, slots, jobs, end);
    AtTheEnd(DemuxAtEnd(d, jobs));
    assert Outcomes(d, bytes, |Deliveries(types, slots, jobs)| + 1)
        == Medias(Deliveries(types, slots, jobs)) + Outcomes(DemuxAtEnd(d, jobs), end, 1);
  }

  lemma AtTheEnd(d: Demux)
    ensures Outcomes(d, [], 1) == [Eof]
  {
    var none: seq<Outcome> := [];
    assert Outcomes(d, [], 1) == [Eof] + none;
  }

  // ---------- packet sizes and continuity counters ----------

  lemma {:induction false} WholePackets(ps: seq<seq<byte>>)
    requires forall k :: 0 <= k < |ps| ==> |ps[k]| == PACKET_SIZE
    ensures |Flat(ps)| == PACKET_SIZE * |ps|
  {
    if ps != [] {
      WholePackets(ps[..|ps| - 1]);
    }
  }

  lemma JobSize(j: Job, n: nat)
    requires JobOk(j, n) && n <= 33
    ensures |Flat(JobPackets(j))| % PACKET_SIZE == 0
  {
    WholePackets(JobPackets(j));
  }

  lemma SumWhole(a: nat, b: nat)
    requires a % PACKET_SIZE == 0 && b % PACKET_SIZE == 0
    ensures (a + b) % PACKET_SIZE == 0
  {
  }

  lemma FirstJob(jobs: seq<Job>, n: nat)
    requires JobsOk(jobs, n) && jobs != []
    ensures JobBytes(jobs, n) == Flat(JobPackets(jobs[0])) + JobBytes(jobs[1..], n)
  {
  }

  // Everything the muxer writes is whole packets.
  lemma {:induction false} WholeStream(jobs: seq<Job>, n: nat)
    requires JobsOk(jobs, n)
    ensures |JobBytes(jobs, n)| % PACKET_SIZE == 0
    decreases |jobs|
  {
    if jobs != [] {
      FirstJob(jobs, n);
      JobSize(jobs[0], n);
      WholeStream(jobs[1..], n);
      SumWhole(|Flat(JobPackets(jobs[0]))|, |JobBytes(jobs[1..], n)|);
    }
  }

  // The packets of one track, in the order they are written.
  function PacketsOf(jobs: seq<Job>, n: nat, i: nat): seq<seq<byte>>
    requires JobsOk(jobs, n)
    decreases |jobs|
  {
    if jobs == [] then []
    else (if jobs[0].track == i then JobPackets(jobs[0]) else []) + PacketsOf(jobs[1..], n, i)
  }

  // p belongs to the PID and carries the counter that follows `sequence` by k.
  predicate Follows(p: seq<byte>, pid: nat, sequence: nat, k: nat) {
    |p| == PACKET_SIZE && Word(p, 1) % 0x2000 == pid && (p[3] as nat) % 16 == (sequence + k) % 16
  }

  lemma PacketFollows(pid: nat, start: bool, sequence: nat, chunk: seq<byte>)
    requires pid < 0x2000 && |chunk| <= 184
    ensures Follows(TsPacket(pid, start, sequence, chunk), pid, sequence, 0)
  {
    var p := TsPacket(pid, start, sequence, chunk);
    var id := pid + if start then 0x4000 else 0;
    assert p[1] == id / 256 && p[2] == id % 256;
    HeadBytes(pid, start);
    if |chunk| < 184 {
      assert p[3] == 0x30 + sequence % 16;
    } else {
      assert p[3] == 0x10 + sequence % 16;
    }
  }

  // uint16 counters: 65536 is a multiple of 16
  lemma Carry(sequence: nat, m: nat, k: nat)
    ensures ((sequence + m) % TWO16 + k) % 16 == (sequence + m + k) % 16
  {
    var x := sequence + m;
    assert x % TWO16 == x - TWO16 * (x / TWO16);
    assert (x + k) % 16 == (x % TWO16 + k + 16 * (0x1000 * (x / TWO16))) % 16;
  }

  lemma {:induction false} PacketsFollow(pid: nat, start: bool, sequence: nat, data: seq<byte>, k: nat)
    requires pid < 0x2000 && k < |Packets(pid, start, sequence, data)|
    ensures Follows(Packets(pid, start, sequence, data)[k], pid, sequence, k)
    decreases k
  {
    var n := if |data| < 184 then |data| else 184;
    PacketsStep(pid, start, sequence, data);
    if k == 0 {
      PacketFollows(pid, start, sequence, data[..n]);
    } else {
      PacketsFollow(pid, false, (sequence + 1) % TWO16, data[n..], k - 1);
      Carry(sequence, 1, k - 1);
    }
  }

  lemma JobFollows(j: Job, k: nat)
    requires JobOk(j, 33) && k < |JobPackets(j)|
    ensures Follows(JobPackets(j)[k], PES0_PID + j.track, j.sequence, k)
  {
    PacketsFollow(PES0_PID + j.track, true, j.sequence, PesHeader(j.streamId, j.pts, |j.payload|) + j.payload, k);
  }

  lemma {:induction false} LaterJobs(ts: seq<Track>, calls: seq<Call>)
    requires TracksOk(ts) && CallsOk(calls, |ts|) && calls != []
    ensures Jobs(ts, calls)[0] == JobOf(ts, calls[0])
    ensures Jobs(ts, calls)[1..] == Jobs(TracksAfter(ts, calls[0]), calls[1..])
  {
    Halves([JobOf(ts, calls[0])], Jobs(TracksAfter(ts, calls[0]), calls[1..]));
  }

  lemma {:induction false} FirstPackets(jobs: seq<Job>, n: nat, i: nat)
    requires JobsOk(jobs, n) && jobs != [] && i < n
    ensures PacketsOf(jobs, n, i)
         == (if jobs[0].track == i then JobPackets(jobs[0]) else []) + PacketsOf(jobs[1..], n, i)
  {
  }

  lemma SequenceAfter(ts: seq<Track>, c: Call, i: nat)
    requires TracksOk(ts) && c.track < |ts| <= 33 && c.timestamp < TWO32 && i < |ts|
    ensures JobOf(ts, c).sequence == ts[c.track].sequence
    ensures TracksAfter(ts, c)[i].sequence
         == if c.track == i then (ts[i].sequence + |JobPackets(JobOf(ts, c))|) % TWO16 else ts[i].sequence
  {
  }

  // The first job's packets, then the others' on the same track.
  lemma {:induction false} FollowJobs(j: Job, i: nat, sequence: nat, later: seq<seq<byte>>, k: nat)
    requires JobOk(j, 33) && j.sequence == sequence && j.track == i && k < |JobPackets(j) + later|
    requires k >= |JobPackets(j)| ==>
               var m := |JobPackets(j)|;
               Follows(later[k - m], PES0_PID + i, (sequence + m) % TWO16, k - m)
    ensures Follows((JobPackets(j) + later)[k], PES0_PID + i, sequence, k)
  {
    var m := |JobPackets(j)|;
    if k < m {
      JobFollows(j, k);
    } else {
      FollowsLater(later[k - m], PES0_PID + i, sequence, m, k - m);
    }
  }

  // On every track the continuity counters of a whole run are consecutive modulo 16.
  lemma {:induction false} CountersRun(ts: seq<Track>, calls: seq<Call>, i: nat, k: nat)
    requires TracksOk(ts) && CallsOk(calls, |ts|) && i < |ts|
    requires k < |PacketsOf(Jobs(ts, calls), |ts|, i)|
    ensures Follows(PacketsOf(Jobs(ts, calls), |ts|, i)[k], PES0_PID + i, ts[i].sequence, k)
    decreases |calls|
  {
    assert calls != [];
    var j, ts' := JobOf(ts, calls[0]), TracksAfter(ts, calls[0]);
    var later := PacketsOf(Jobs(ts', calls[1..]), |ts|, i);
    LaterJobs(ts, calls);
    FirstPackets(Jobs(ts, calls), |ts|, i);
    SequenceAfter(ts, calls[0], i);
    if j.track != i {
      assert PacketsOf(Jobs(ts, calls), |ts|, i) == later;
      CountersRun(ts', calls[1..], i, k);
    } else {
      if k >= |JobPackets(j)| {
        CountersRun(ts', calls[1..], i, k - |JobPackets(j)|);
      }
      FollowJobs(j, i, ts[i].sequence, later, k);
    }
  }

  lemma FollowsLater(p: seq<byte>, pid: nat, sequence: nat, n: nat, k: nat)
    requires Follows(p, pid, (sequence + n) % TWO16, k)
    ensures Follows(p, pid, sequence, n + k)
  {
    Carry(sequence, n, k);
  }

  // ---------- the muxer makes these jobs ----------

  // A client: add the tracks, write the header, then the payloads.
  method Stream(types: seq<byte>, patCrc: seq<byte>, pmtCrc: seq<byte>, calls: seq<Call>) returns (b: seq<byte>)
    requires |patCrc| == 4 && |pmtCrc| == 4 && CallsOk(calls, |types|)
    requires forall i :: 0 <= i < |types| ==> PassThrough(types[i])
    ensures b == Pat(patCrc) + Pmt(types, pmtCrc) + JobBytes(Jobs(Fresh(types), calls), |types|)
  {
    var m := new Muxer();
    for i := 0 to |types|
      invariant m.Valid() && fresh(m) && m.Tracks() == Fresh(types[..i])
    {
      var _ := m.AddTrack(types[i]);
    }
    assert types[..|types|] == types;
    b := m.GetHeader(patCrc, pmtCrc);
    var payloads := WriteAll(m, types, calls);
    b := b + payloads;
  }

  lemma {:induction false} CallWrites(ts: seq<Track>, calls: seq<Call>, before: seq<byte>)
    requires TracksOk(ts) && CallsOk(calls, |ts|) && calls != []
    ensures before + JobBytes(Jobs(ts, calls), |ts|)
         == (before + Flat(JobPackets(JobOf(ts, calls[0])))) + JobBytes(Jobs(TracksAfter(ts, calls[0]), calls[1..]), |ts|)
  {
    LaterJobs(ts, calls);
    FirstJob(Jobs(ts, calls), |ts|);
    Assoc(before, Flat(JobPackets(JobOf(ts, calls[0]))), JobBytes(Jobs(TracksAfter(ts, calls[0]), calls[1..]), |ts|));
  }

  // One GetPayload call, seen as a job.
  method Write(m: Muxer, types: seq<byte>, c: Call) returns (b: seq<byte>)
    requires m.Valid() && Types(m.Tracks()) == types && |types| <= 33
    requires c.track < |types| && c.timestamp < TWO32 && PassThrough(types[c.track])
    modifies m
    ensures m.Valid() && Types(m.Tracks()) == types && m.Tracks() == TracksAfter(old(m.Tracks()), c)
    ensures b == Flat(JobPackets(JobOf(old(m.Tracks()), c)))
  {
    ghost var now := m.Tracks();
    assert Types(now)[c.track] == types[c.track] && now[c.track] == m.pes[PES0_PID + c.track];
    b := m.GetPayload(PES0_PID + c.track, c.timestamp, c.payload);
  }

  // One round of the client's loop.
  method WriteNext(m: Muxer, types: seq<byte>, calls: seq<Call>, k: nat, before: seq<byte>) returns (b: seq<byte>)
    requires m.Valid() && Types(m.Tracks()) == types && CallsOk(calls, |types|) && k < |calls|
    requires forall i :: 0 <= i < |types| ==> PassThrough(types[i])
    modifies m
    ensures m.Valid() && Types(m.Tracks()) == types
    ensures b + JobBytes(Jobs(m.Tracks(), calls[k + 1..]), |types|)
         == before + JobBytes(old(Jobs(m.Tracks(), calls[k..])), |types|)
  {
    CallWrites(m.Tracks(), calls[k..], before);
    assert calls[k..][1..] == calls[k + 1..];
    var p := Write(m, types, calls[k]);
    b := before + p;
  }

  method WriteAll(m: Muxer, types: seq<byte>, calls: seq<Call>) returns (b: seq<byte>)
    requires m.Valid() && Types(m.Tracks()) == types && CallsOk(calls, |types|)
    requires forall i :: 0 <= i < |types| ==> PassThrough(types[i])
    modifies m
    ensures m.Valid() && b == JobBytes(old(Jobs(m.Tracks(), calls)), |types|)
  {
    b := [];
    ghost var ts := m.Tracks();
    var k := 0;
    assert calls[0..] == calls;
    while k < |calls|
      invariant 0 <= k <= |calls| && m.Valid() && Types(m.Tracks()) == types
      invariant b + JobBytes(Jobs(m.Tracks(), calls[k..]), |types|) == JobBytes(Jobs(ts, calls), |types|)
    {
      b := WriteNext(m, types, calls, k, b);
      k := k + 1;
    }
  }
}
