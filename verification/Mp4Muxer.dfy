// pkg/mp4/muxer.go: fragments of live tracks with repaired durations.
module Mp4Muxer {
  import opened Wrappers
  import opened Bytes
  import Avcc
  import opened IsoFragment
  import opened IsoReader
  import Keyframes

  datatype Codec = H264 | H265 | AAC | OtherAudio

  // pts: the timestamp up to which the track has been written
  datatype Track = Track(codec: Codec, clockRate: nat, dts: nat, pts: nat)

  // What GetPayload takes from the packet.
  datatype Packet = Packet(timestamp: nat, cts: nat, payload: seq<byte>)

  const I_FRAME: nat := 0x200_0000
  const NON_I_FRAME: nat := 0x101_0000
  const AUDIO: nat := 0x200_0000

  predicate TrackOk(t: Track) {
    t.clockRate < TWO32 && t.dts < TWO64 && t.pts < TWO32
  }

  predicate PacketOk(p: Packet) {
    p.timestamp < TWO32 && p.cts < TWO16
  }

  // None: looking for a key frame panics.
  function Flags(codec: Codec, payload: seq<byte>): Option<nat> {
    if codec == H264 || codec == H265 then
      var keyframe := Keyframes.Keyframe(codec == H265, payload);
      if keyframe.None? then None else Some(if keyframe.value then I_FRAME else NON_I_FRAME)
    else Some(AUDIO)
  }

  // A fragment is marked as one that depends on no other exactly if it is audio, or if a key
  // frame's slice is the first slice in it.
  lemma FlagsExactly(codec: Codec, nals: seq<seq<byte>>)
    requires nals != [] && forall k :: 0 <= k < |nals| ==> 0 < |nals[k]| < TWO32
    ensures codec == H264 || codec == H265 ==>
              Flags(codec, Avcc.Join(nals)) == Some(if Keyframes.LeadsIntra(codec == H265, nals) then 0x0200_0000 else 0x0101_0000)
    ensures codec != H264 && codec != H265 ==> Flags(codec, Avcc.Join(nals)) == Some(0x0200_0000)
  {
    Keyframes.FirstSliceDecides(codec == H265, nals);
  }

  // The duration before the repair.
  function Elapsed(t: Track, p: Packet): nat
    requires TrackOk(t) && PacketOk(p)
  {
    if t.codec == AAC then 1024 else (TWO32 + p.timestamp - t.pts) % TWO32
  }

  predicate Broken(t: Track, p: Packet)
    requires TrackOk(t) && PacketOk(p)
  {
    Elapsed(t, p) == 0 || Elapsed(t, p) > t.clockRate
  }

  function Duration(t: Track, p: Packet): nat
    requires TrackOk(t) && PacketOk(p)
  {
    if Broken(t, p) then t.clockRate / 1000 + 1 else Elapsed(t, p)
  }

  function Advance(t: Track, p: Packet): (r: Track)
    requires TrackOk(t) && PacketOk(p)
    ensures TrackOk(r)
  {
    t.(pts := if Broken(t, p) then (p.timestamp + Duration(t, p)) % TWO32 else p.timestamp,
       dts := (t.dts + Duration(t, p)) % TWO64)
  }

  // The fragment header of one packet.
  function SampleOf(index: nat, track: nat, t: Track, p: Packet): Sample
    requires TrackOk(t) && PacketOk(p) && Flags(t.codec, p.payload).Some?
  {
    Sample(index, (track + 1) % 256, Duration(t, p), |p.payload| % TWO32, Flags(t.codec, p.payload).value, t.dts, p.cts)
  }

  // ---------- one track over time ----------

  predicate PacketsOk(packets: seq<Packet>) {
    forall k :: 0 <= k < |packets| ==> PacketOk(packets[k])
  }

  function After(t: Track, packets: seq<Packet>): (r: Track)
    requires TrackOk(t) && PacketsOk(packets)
    ensures TrackOk(r) && r.codec == t.codec && r.clockRate == t.clockRate
    decreases |packets|
  {
    if packets == [] then t
    else
      var n := |packets| - 1;
      Advance(After(t, packets[..n]), packets[n])
  }

  // Time and duration in the header of a track's fragment k, whatever other tracks do in between.
  function Slot(t: Track, packets: seq<Packet>, k: nat): (nat, nat)
    requires TrackOk(t) && PacketsOk(packets) && k < |packets|
  {
    var now := After(t, packets[..k]);
    (now.dts, Duration(now, packets[k]))
  }

  // Durations are never zero, and never longer than a second of the clock unless the clock
  // is too slow to count milliseconds.
  lemma {:induction false} DurationBounds(t: Track, p: Packet)
    requires TrackOk(t) && PacketOk(p)
    ensures 1 <= Duration(t, p) < TWO32
    ensures Duration(t, p) <= t.clockRate || (t.clockRate == 0 && Duration(t, p) == 1)
  {
  }

  // The time since the last packet, modulo 2^32, and 1024 for AAC, if that is at most a second
  // of the clock; otherwise a millisecond.
  lemma {:induction false} DurationExactly(t: Track, p: Packet)
    requires TrackOk(t) && PacketOk(p)
    ensures t.codec != AAC ==>
              Duration(t, p) == var gap := (p.timestamp - t.pts) % 0x1_0000_0000;
                                if 0 < gap <= t.clockRate then gap else t.clockRate / 1000 + 1
    ensures t.codec == AAC ==> Duration(t, p) == if t.clockRate >= 1024 then 1024 else t.clockRate / 1000 + 1
  {
    ModAdd(p.timestamp - t.pts, 1, TWO32);
  }

  // Successive fragments of a track: each starts where the one before it ended, for any
  // timestamps.
  lemma {:induction false} Gapless(t: Track, packets: seq<Packet>, k: nat)
    requires TrackOk(t) && PacketsOk(packets) && k < |packets|
    ensures Slot(t, packets, k).1 >= 1
    ensures Slot(t, packets, k).0
            == if k == 0 then t.dts else (Slot(t, packets, k - 1).0 + Slot(t, packets, k - 1).1) % TWO64
  {
    DurationBounds(After(t, packets[..k]), packets[k]);
    if k > 0 {
      assert packets[..k][..k - 1] == packets[..k - 1];
    }
  }

  // ---------- the written time and the timestamps ----------

  // How far the written time is ahead of the timestamps, on the 32-bit clock.
  function Drift(t: Track): (d: nat)
    ensures d < TWO32
  {
    (t.dts - t.pts) % TWO32
  }

  // From where the track has been written up to, to the packet's timestamp.
  function Gap(t: Track, p: Packet): int {
    p.timestamp - t.pts
  }

  // What one packet takes off: a repaired duration stands for the whole gap, and an AAC
  // duration is 1024 whatever the gap is.
  function Loss(t: Track, p: Packet): int
    requires TrackOk(t) && PacketOk(p)
  {
    if Broken(t, p) then Gap(t, p) else if t.codec == AAC then Gap(t, p) - 1024 else 0
  }

  lemma {:induction false} LowTime(x: nat, y: int)
    ensures (x % TWO64 - y) % TWO32 == (x - y) % TWO32
  {
    ModAdd(x % TWO64 - y, TWO32 * (x / TWO64), TWO32);
    assert TWO32 * (x / TWO64) * TWO32 == TWO64 * (x / TWO64);
  }

  lemma {:induction false} BrokenDrift(dts: nat, pts: nat, timestamp: nat, d: nat)
    ensures ((dts + d) % TWO64 - (timestamp + d) % TWO32) % TWO32 == ((dts - pts) % TWO32 - (timestamp - pts)) % TWO32
  {
    LowTime(dts + d, (timestamp + d) % TWO32);
    SubMod(dts + d, timestamp + d, TWO32);
    ModSub(dts - pts, timestamp - pts, TWO32);
  }

  lemma {:induction false} SoundDrift(dts: nat, pts: nat, timestamp: nat)
    requires pts < TWO32
    ensures ((dts + (TWO32 + timestamp - pts) % TWO32) % TWO64 - timestamp) % TWO32 == (dts - pts) % TWO32
  {
    LowTime(dts + (TWO32 + timestamp - pts) % TWO32, timestamp);
    ModSub(TWO32 + timestamp - pts, timestamp - dts, TWO32);
    ModAdd(dts - pts, 1, TWO32);
  }

  lemma {:induction false} AudioDrift(dts: nat, pts: nat, timestamp: nat, d: nat)
    ensures ((dts + d) % TWO64 - timestamp) % TWO32 == ((dts - pts) % TWO32 - (timestamp - pts - d)) % TWO32
  {
    LowTime(dts + d, timestamp);
    ModSub(dts - pts, timestamp - pts - d, TWO32);
  }

  // The repaired duration itself does not matter: the drift changes by the loss.
  lemma {:induction false} DriftStep(t: Track, p: Packet)
    requires TrackOk(t) && PacketOk(p)
    ensures Drift(Advance(t, p)) == (Drift(t) - Loss(t, p)) % TWO32
  {
    if Broken(t, p) {
      BrokenDrift(t.dts, t.pts, p.timestamp, Duration(t, p));
    } else if t.codec == AAC {
      AudioDrift(t.dts, t.pts, p.timestamp, 1024);
    } else {
      SoundDrift(t.dts, t.pts, p.timestamp);
      Small(Drift(t), TWO32);
    }
  }

  function Lost(t: Track, packets: seq<Packet>): int
    requires TrackOk(t) && PacketsOk(packets)
    decreases |packets|
  {
    if packets == [] then 0
    else
      var n := |packets| - 1;
      Lost(t, packets[..n]) + Loss(After(t, packets[..n]), packets[n])
  }

  // After any packets the drift is what it was, minus all that was lost on the way.
  lemma {:induction false} DriftOfRun(t: Track, packets: seq<Packet>)
    requires TrackOk(t) && PacketsOk(packets)
    ensures Drift(After(t, packets)) == (Drift(t) - Lost(t, packets)) % TWO32
    decreases |packets|
  {
    if packets == [] {
      Small(Drift(t), TWO32);
    } else {
      var n := |packets| - 1;
      var now := After(t, packets[..n]);
      DriftOfRun(t, packets[..n]);
      DriftStep(now, packets[n]);
      ModSub(Drift(t) - Lost(t, packets[..n]), Loss(now, packets[n]), TWO32);
    }
  }

  // The written time keeps pace with the timestamps over a run exactly if the losses cancel.
  lemma {:induction false} KeepsPace(t: Track, packets: seq<Packet>)
    requires TrackOk(t) && PacketsOk(packets)
    ensures Drift(After(t, packets)) == Drift(t) <==> Lost(t, packets) % TWO32 == 0
  {
    DriftOfRun(t, packets);
    SubStays(Drift(t), Lost(t, packets), TWO32);
  }

  // A pause of ten seconds on a 90 kHz clock is written as 91 ticks, and the rest is lost.
  lemma {:induction false} PauseIsLost()
    ensures var t := Track(H264, 90000, 0, 0);
            var p := Packet(900000, 0, []);
            Advance(t, p) == Track(H264, 90000, 91, 900091) && Lost(t, [p]) == 900000
  {
    var t, p := Track(H264, 90000, 0, 0), Packet(900000, 0, []);
    assert Broken(t, p);
    var none: seq<Packet> := [];
    assert [p][..0] == none && Lost(t, none) == 0;
  }

  // ---------- the muxer ----------

  // Sequence numbers wrap at 32 bits.
  function Next(index: nat): (r: nat)
    requires index < TWO32
    ensures r < TWO32
  {
    if index + 1 == TWO32 then 0 else index + 1
  }

  class Muxer {
    var index: nat
    var dts: seq<nat>
    var pts: seq<nat>
    var codecs: seq<(Codec, nat)>

    ghost predicate Valid()
      reads this
    {
      && index < TWO32 && |dts| == |pts| == |codecs|
      && forall i :: 0 <= i < |codecs| ==> dts[i] < TWO64 && pts[i] < TWO32 && codecs[i].1 < TWO32
    }

    ghost function TrackAt(i: nat): (t: Track)
      requires Valid() && i < |codecs|
      reads this
      ensures TrackOk(t)
    {
      Track(codecs[i].0, codecs[i].1, dts[i], pts[i])
    }

    ghost function Tracks(): (ts: seq<Track>)
      requires Valid()
      reads this
      ensures |ts| == |codecs| && forall i :: 0 <= i < |ts| ==> ts[i] == TrackAt(i) && TrackOk(ts[i])
    {
      seq(|codecs|, i requires 0 <= i < |codecs| && Valid() reads this => TrackAt(i))
    }

    constructor ()
      ensures Valid() && index == 0 && codecs == []
    {
      index, dts, pts, codecs := 0, [], [], [];
    }

    method AddTrack(codec: Codec, clockRate: nat)
      requires Valid() && clockRate < TWO32
      modifies this
      ensures Valid() && index == old(index) && |codecs| == |old(codecs)| + 1
      ensures TrackAt(|old(codecs)|) == Track(codec, clockRate, 0, 0)
      ensures forall i :: 0 <= i < |old(codecs)| ==> TrackAt(i) == old(TrackAt(i))
    {
      dts := dts + [0];
      pts := pts + [0];
      codecs := codecs + [(codec, clockRate)];
    }

    method Reset()
      requires Valid()
      modifies this
      ensures Valid() && index == 0 && codecs == old(codecs)
      ensures forall i :: 0 <= i < |codecs| ==> TrackAt(i) == old(TrackAt(i)).(dts := 0, pts := 0)
    {
      index := 0;
      for i := 0 to |dts|
        invariant Valid() && codecs == old(codecs) && index == 0
        invariant forall j :: 0 <= j < i ==> dts[j] == 0 && pts[j] == 0
      {
        dts := dts[i := 0];
        pts := pts[i := 0];
      }
    }

    // Track ids are bytes, and so is the one written, which is one more. None is a panic, which
    // comes when the index and the timestamp are already there.
    method GetPayload(track: nat, p: Packet) returns (r: Option<seq<byte>>)
      requires Valid() && track < |codecs| && track < 256 && PacketOk(p)
      modifies this
      ensures Valid() && codecs == old(codecs) && index == Next(old(index))
      ensures r.None? <==> Flags(codecs[track].0, p.payload).None?
      ensures r.Some? ==> r.value == Fragment(SampleOf(index, track, old(TrackAt(track)), p), 0, p.payload)
      ensures TrackAt(track) == if r.Some? then Advance(old(TrackAt(track)), p) else old(TrackAt(track)).(pts := p.timestamp)
      ensures forall i :: 0 <= i < |codecs| && i != track ==> TrackAt(i) == old(TrackAt(i))
    {
      index := Next(index);
      ghost var t := TrackAt(track);
      var last := pts[track];
      pts := pts[track := p.timestamp];
      var flags := FindFlags(codecs[track].0, p.payload);
      if flags.None? {
        return None;
      }
      var b := Append(track, t, last, flags.value, p);
      r := Some(b);
    }

    // t: the track as it was before the timestamp was stored.
    method Append(track: nat, ghost t: Track, last: nat, flags: nat, p: Packet) returns (b: seq<byte>)
      requires Valid() && track < |codecs| && TrackOk(t) && PacketOk(p) && t.(pts := p.timestamp) == TrackAt(track)
      requires last == t.pts && Flags(t.codec, p.payload) == Some(flags)
      modifies `pts, `dts
      ensures Valid() && TrackAt(track) == Advance(t, p)
      ensures forall i :: 0 <= i < |codecs| && i != track ==> TrackAt(i) == old(TrackAt(i))
      ensures b == Fragment(SampleOf(index, track, t, p), 0, p.payload)
    {
      var duration, next := Time(codecs[track].0, codecs[track].1, dts[track], last, p);
      b := Build(track, t, flags, dts[track], duration, p);
      Store(track, next, duration, t, p);
    }

    method Store(track: nat, next: nat, duration: nat, ghost t: Track, ghost p: Packet)
      requires Valid() && track < |codecs| && TrackOk(t) && PacketOk(p) && t.(pts := p.timestamp) == TrackAt(track)
      requires duration == Duration(t, p) && next == Advance(t, p).pts
      modifies `pts, `dts
      ensures Valid() && TrackAt(track) == Advance(t, p)
      ensures forall i :: 0 <= i < |codecs| && i != track ==> TrackAt(i) == old(TrackAt(i))
    {
      pts := pts[track := next];
      dts := dts[track := (dts[track] + duration) % TWO64];
    }

    method Build(track: nat, ghost t: Track, flags: nat, at: nat, duration: nat, p: Packet) returns (b: seq<byte>)
      requires TrackOk(t) && PacketOk(p) && at == t.dts && duration == Duration(t, p)
      requires Flags(t.codec, p.payload) == Some(flags)
      ensures b == Fragment(SampleOf(index, track, t, p), 0, p.payload)
    {
      b := WriteFragment(Sample(index, (track + 1) % 256, duration, |p.payload| % TWO32, flags, at, p.cts), p.payload);
    }

    // The duration of the packet and the timestamp up to which the track is then written.
    method Time(codec: Codec, clockRate: nat, ghost at: nat, last: nat, p: Packet) returns (duration: nat, next: nat)
      requires TrackOk(Track(codec, clockRate, at, last)) && PacketOk(p)
      ensures var t := Track(codec, clockRate, at, last);
              duration == Duration(t, p) && next == Advance(t, p).pts
    {
      duration, next := (TWO32 + p.timestamp - last) % TWO32, p.timestamp;
      if codec == AAC {
        duration := 1024;
      }
      if duration == 0 || duration > clockRate {
        duration := clockRate / 1000 + 1;
        next := (next + duration) % TWO32;
      }
    }

    method FindFlags(codec: Codec, payload: seq<byte>) returns (flags: Option<nat>)
      ensures flags == Flags(codec, payload)
    {
      flags := Some(AUDIO);
      if codec == H264 || codec == H265 {
        var keyframe := Keyframes.IsKeyframe(codec == H265, payload);
        if keyframe.None? {
          return None;
        }
        flags := Some(if keyframe.value then I_FRAME else NON_I_FRAME);
      }
    }
  }

  // A reader of the stream gets back what the packet and the timeline say.
  lemma {:induction false} PayloadReads(index: nat, track: nat, t: Track, p: Packet)
    requires index < TWO32 && track < 256 && TrackOk(t) && PacketOk(p) && |p.payload| < TWO32 - 8
    requires Flags(t.codec, p.payload).Some?
    ensures var s := SampleOf(index, track, t, p);
            DecodeAtoms(Fragment(s, 0, p.payload))
            == Boxes([Mfhd(index)]
                     + [Tfhd((track + 1) % 256, Duration(t, p), |p.payload|, Flags(t.codec, p.payload).value), Tfdt(t.dts),
                        Trun(DataOffset(s, 0), 0, Timing(p.cts))]
                     + [Mdat(p.payload)])
  {
    DurationBounds(t, p);
    Small(|p.payload|, TWO32);
    FragmentReads(SampleOf(index, track, t, p), 0, p.payload);
  }

  // ---------- interleaved tracks ----------

  datatype Job = Job(track: nat, packet: Packet)

  predicate JobOk(ts: seq<Track>, j: Job) {
    && j.track < |ts| && j.track < 256 && PacketOk(j.packet) && |j.packet.payload| < TWO32 - 8
    && Flags(ts[j.track].codec, j.packet.payload).Some?
  }

  predicate TracksOk(ts: seq<Track>) {
    forall i :: 0 <= i < |ts| ==> TrackOk(ts[i])
  }

  predicate JobsOk(ts: seq<Track>, jobs: seq<Job>) {
    TracksOk(ts) && forall k :: 0 <= k < |jobs| ==> JobOk(ts, jobs[k])
  }

  // The tracks after the first k jobs.
  function AllAfter(ts: seq<Track>, jobs: seq<Job>, k: nat): (r: seq<Track>)
    requires JobsOk(ts, jobs) && k <= |jobs|
    ensures TracksOk(r) && |r| == |ts| && forall i :: 0 <= i < |ts| ==> r[i].codec == ts[i].codec
  {
    if k == 0 then ts else Turn(AllAfter(ts, jobs, k - 1), jobs[k - 1])
  }

  function Turn(ts: seq<Track>, j: Job): (r: seq<Track>)
    requires TracksOk(ts) && j.track < |ts| && PacketOk(j.packet)
    ensures TracksOk(r) && |r| == |ts| && forall i :: 0 <= i < |ts| ==> r[i].codec == ts[i].codec
  {
    ts[j.track := Advance(ts[j.track], j.packet)]
  }

  // The sequence number k fragments later.
  function Later(index: nat, k: nat): (r: nat)
    requires index < TWO32
    ensures r < TWO32
  {
    if k == 0 then index else Next(Later(index, k - 1))
  }

  // The header of fragment k in any interleaving of packets.
  function Header(index: nat, ts: seq<Track>, jobs: seq<Job>, k: nat): Sample
    requires index < TWO32 && JobsOk(ts, jobs) && k < |jobs|
  {
    assert JobOk(ts, jobs[k]);
    var j := jobs[k];
    SampleOf(Later(index, k + 1), j.track, AllAfter(ts, jobs, k)[j.track], j.packet)
  }

  // The bytes of fragment k.
  function Emitted(index: nat, ts: seq<Track>, jobs: seq<Job>, k: nat): seq<byte>
    requires index < TWO32 && JobsOk(ts, jobs) && k < |jobs|
  {
    Fragment(Header(index, ts, jobs, k), 0, jobs[k].packet.payload)
  }

  // The packets of one track among the first k jobs.
  function PacketsOf(ts: seq<Track>, jobs: seq<Job>, k: nat, i: nat): (r: seq<Packet>)
    requires JobsOk(ts, jobs) && k <= |jobs|
    ensures PacketsOk(r)
  {
    if k == 0 then []
    else
      var before := PacketsOf(ts, jobs, k - 1, i);
      assert JobOk(ts, jobs[k - 1]);
      if jobs[k - 1].track == i then before + [jobs[k - 1].packet] else before
  }

  lemma {:induction false} AfterOneMore(t: Track, packets: seq<Packet>, p: Packet)
    requires TrackOk(t) && PacketsOk(packets) && PacketOk(p)
    ensures PacketsOk(packets + [p]) && After(t, packets + [p]) == Advance(After(t, packets), p)
  {
    assert (packets + [p])[..|packets|] == packets;
  }

  // Interleaving does not disturb a track: it is where its own packets alone have brought it.
  lemma {:induction false} TrackIsItsOwn(ts: seq<Track>, jobs: seq<Job>, k: nat, i: nat)
    requires JobsOk(ts, jobs) && k <= |jobs| && i < |ts|
    ensures AllAfter(ts, jobs, k)[i] == After(ts[i], PacketsOf(ts, jobs, k, i))
  {
    if k > 0 {
      TrackIsItsOwn(ts, jobs, k - 1, i);
      assert JobOk(ts, jobs[k - 1]);
      if jobs[k - 1].track == i {
        AfterOneMore(ts[i], PacketsOf(ts, jobs, k - 1, i), jobs[k - 1].packet);
      }
    }
  }

  // One fragment of the stream, and the next one of the same track.
  predicate Successive(jobs: seq<Job>, a: nat, b: nat) {
    a < b < |jobs| && jobs[a].track == jobs[b].track && forall k :: a < k < b ==> jobs[k].track != jobs[a].track
  }

  lemma {:induction false} Untouched(ts: seq<Track>, jobs: seq<Job>, a: nat, b: nat, i: nat)
    requires JobsOk(ts, jobs) && a <= b <= |jobs| && i < |ts| && forall k :: a <= k < b ==> jobs[k].track != i
    ensures AllAfter(ts, jobs, b)[i] == AllAfter(ts, jobs, a)[i]
    decreases b
  {
    if a < b {
      Untouched(ts, jobs, a, b - 1, i);
    }
  }

  lemma {:induction false} NextStarts(index: nat, ts: seq<Track>, jobs: seq<Job>, a: nat, b: nat)
    requires index < TWO32 && JobsOk(ts, jobs) && Successive(jobs, a, b)
    ensures var first, second := Header(index, ts, jobs, a), Header(index, ts, jobs, b);
            second.dts == (first.dts + first.duration) % TWO64
  {
    assert JobOk(ts, jobs[a]);
    Untouched(ts, jobs, a + 1, b, jobs[a].track);
  }

  ghost predicate AllEmitted(fragments: seq<seq<byte>>, index: nat, ts: seq<Track>, jobs: seq<Job>, n: nat)
    requires index < TWO32 && JobsOk(ts, jobs)
  {
    |fragments| == n <= |jobs| && forall k :: 0 <= k < n ==> fragments[k] == Emitted(index, ts, jobs, k)
  }

  // A client: one fragment a packet, over any interleaving of the tracks.
  method Emit(m: Muxer, jobs: seq<Job>) returns (fragments: seq<seq<byte>>)
    requires m.Valid() && JobsOk(m.Tracks(), jobs)
    modifies m
    ensures At(m, old(m.index), old(m.Tracks()), jobs, |jobs|)
    ensures AllEmitted(fragments, old(m.index), old(m.Tracks()), jobs, |jobs|)
  {
    fragments := [];
    ghost var index, ts := m.index, m.Tracks();
    var k := 0;
    while k < |jobs|
      invariant 0 <= k <= |jobs| && At(m, index, ts, jobs, k) && AllEmitted(fragments, index, ts, jobs, k)
    {
      fragments := EmitNext(m, index, ts, jobs, k, fragments);
      k := k + 1;
    }
  }

  // The muxer after the first k jobs.
  ghost predicate At(m: Muxer, index: nat, ts: seq<Track>, jobs: seq<Job>, k: nat)
    requires index < TWO32 && JobsOk(ts, jobs) && k <= |jobs|
    reads m
  {
    m.Valid() && m.index == Later(index, k) && m.Tracks() == AllAfter(ts, jobs, k)
  }

  method EmitNext(m: Muxer, ghost index: nat, ghost ts: seq<Track>, jobs: seq<Job>, k: nat, fragments: seq<seq<byte>>)
    returns (more: seq<seq<byte>>)
    requires index < TWO32 && JobsOk(ts, jobs) && k < |jobs|
    requires At(m, index, ts, jobs, k) && AllEmitted(fragments, index, ts, jobs, k)
    modifies m
    ensures At(m, index, ts, jobs, k + 1) && AllEmitted(more, index, ts, jobs, k + 1)
  {
    assert JobOk(ts, jobs[k]);
    OneOn(index, ts, jobs, k, m.index, m.Tracks());
    var b := Put(m, jobs[k]);
    OneMore(fragments, b, index, ts, jobs, k);
    more := fragments + [b];
  }

  lemma {:induction false} OneMore(fragments: seq<seq<byte>>, b: seq<byte>, index: nat, ts: seq<Track>, jobs: seq<Job>, k: nat)
    requires index < TWO32 && JobsOk(ts, jobs) && k < |jobs|
    requires AllEmitted(fragments, index, ts, jobs, k) && b == Emitted(index, ts, jobs, k)
    ensures AllEmitted(fragments + [b], index, ts, jobs, k + 1)
  {
  }

  lemma {:induction false} OneOn(index: nat, ts: seq<Track>, jobs: seq<Job>, k: nat, n: nat, now: seq<Track>)
    requires index < TWO32 && JobsOk(ts, jobs) && k < |jobs|
    requires n == Later(index, k) && now == AllAfter(ts, jobs, k)
    ensures JobOk(now, jobs[k])
    ensures Later(index, k + 1) == Next(n) && AllAfter(ts, jobs, k + 1) == Turn(now, jobs[k])
    ensures Emitted(index, ts, jobs, k)
            == Fragment(SampleOf(Next(n), jobs[k].track, now[jobs[k].track], jobs[k].packet), 0, jobs[k].packet.payload)
  {
    assert JobOk(ts, jobs[k]);
  }

  method Put(m: Muxer, j: Job) returns (b: seq<byte>)
    requires m.Valid() && JobOk(m.Tracks(), j)
    modifies m
    ensures m.Valid() && m.index == Next(old(m.index)) && m.Tracks() == Turn(old(m.Tracks()), j)
    ensures b == Fragment(SampleOf(m.index, j.track, old(m.Tracks())[j.track], j.packet), 0, j.packet.payload)
  {
    var r := m.GetPayload(j.track, j.packet);
    b := r.value;
  }

  // What a reader finds out of one fragment, the time and the duration.
  predicate Reads(d: Result, time: nat, duration: nat) {
    && d.Boxes? && |d.boxes| == 5 && d.boxes[1].Tfhd? && d.boxes[1].duration == duration
    && d.boxes[2].Tfdt? && d.boxes[2].time == time
  }

  lemma {:induction false} FiveBoxes(a: Box, b: Box, c: Box, d: Box, e: Box)
    requires b.Tfhd? && c.Tfdt?
    ensures Reads(Boxes([a] + [b, c, d] + [e]), c.time, b.duration)
  {
  }

  lemma {:induction false} SampleReads(index: nat, track: nat, t: Track, p: Packet)
    requires index < TWO32 && track < 256 && TrackOk(t) && PacketOk(p) && |p.payload| < TWO32 - 8
    requires Flags(t.codec, p.payload).Some?
    ensures Duration(t, p) >= 1
    ensures Reads(DecodeAtoms(Fragment(SampleOf(index, track, t, p), 0, p.payload)), t.dts, Duration(t, p))
  {
    DurationBounds(t, p);
    PayloadReads(index, track, t, p);
    FiveBoxes(Mfhd(index),
              Tfhd((track + 1) % 256, Duration(t, p), |p.payload|, Flags(t.codec, p.payload).value), Tfdt(t.dts),
              Trun(DataOffset(SampleOf(index, track, t, p), 0), 0, Timing(p.cts)),
              Mdat(p.payload));
  }

  lemma {:induction false} HeaderReads(index: nat, ts: seq<Track>, jobs: seq<Job>, k: nat)
    requires index < TWO32 && JobsOk(ts, jobs) && k < |jobs|
    ensures var h := Header(index, ts, jobs, k);
            h.duration >= 1 && Reads(DecodeAtoms(Emitted(index, ts, jobs, k)), h.dts, h.duration)
  {
    assert JobOk(ts, jobs[k]);
    var j, t := jobs[k], AllAfter(ts, jobs, k)[jobs[k].track];
    SampleReads(Later(index, k + 1), j.track, t, j.packet);
  }

  // In the bytes that come out: a reader of two successive fragments of one track finds the
  // second to start where the first ends, after a time of at least 1.
  lemma {:induction false} StreamIsGapless(index: nat, ts: seq<Track>, jobs: seq<Job>, a: nat, b: nat)
    requires index < TWO32 && JobsOk(ts, jobs) && Successive(jobs, a, b)
    ensures var first, second := Header(index, ts, jobs, a), Header(index, ts, jobs, b);
            && Reads(DecodeAtoms(Emitted(index, ts, jobs, a)), first.dts, first.duration)
            && Reads(DecodeAtoms(Emitted(index, ts, jobs, b)), second.dts, second.duration)
            && first.duration >= 1 && second.dts == (first.dts + first.duration) % TWO64
  {
    NextStarts(index, ts, jobs, a, b);
    HeaderReads(index, ts, jobs, a);
    HeaderReads(index, ts, jobs, b);
  }
}
