// Program tables and PES headers as sections 2.4.3.7, 2.4.4.3 and 2.4.4.8 of ISO/IEC 13818-1
// lay them out, with everything in them that the muxer never writes, and what the demuxer learns.
module TsTables {
  import opened Wrappers
  import opened Bytes
  import opened Seqs
  import opened TsSyntax
  import opened TsDemux

  // ---------- sections ----------

  function Two(high: nat, v: nat): (b: seq<byte>)
    requires high < 256 && v < 0x10000 && high + v / 256 < 256
    ensures |b| == 2
  {
    [high + v / 256, v % 256]
  }

  // Table id, length of what follows it, extension, version, section numbers; then the body
  // and the checksum.
  function Section(table: byte, extension: nat, body: seq<byte>, crc: seq<byte>): (b: seq<byte>)
    requires extension < TWO16 && |body| < 1000 && |crc| == 4
    ensures |b| == 12 + |body|
  {
    [table] + Two(0xB0, 9 + |body|) + Two(0, extension) + [0xC1, 0, 0] + body + crc
  }

  // `buf` carries the section behind a pointer field at `at` and the filler it points over.
  predicate Carries(buf: seq<byte>, at: nat, section: seq<byte>) {
    && |buf| == 188 && at < 188
    && var p := at + 1 + buf[at];
       p + |section| <= 188 && buf[p..p + |section|] == section
  }

  // The body from position 8 of the section on, and where the section ends.
  lemma {:induction false} HeadRead(buf: seq<byte>, at: nat, table: byte, extension: nat, body: seq<byte>, crc: seq<byte>)
    requires extension < TWO16 && |body| < 1000 && |crc| == 4
    requires Carries(buf, at, Section(table, extension, body, crc))
    ensures var p := at + 1 + buf[at];
            && p + 12 + |body| <= 188
            && ReadTableHead(buf, at) == Some((p + 8, p + 12 + |body|))
            && buf[p + 8..p + 8 + |body|] == body
  {
    var p, s := at + 1 + buf[at], Section(table, extension, body, crc);
    var head := [table] + Two(0xB0, 9 + |body|) + Two(0, extension) + [0xC1, 0, 0];
    Thirds(head, body, crc);
    SliceSlice(buf, p, p + |s|, 8, 8 + |body|);
    assert s[2] == (9 + |body|) % 256;
    assert buf[p + 2] == s[2];
    SectionEnds(buf, at, |body|);
  }

  lemma SectionEnds(buf: seq<byte>, at: nat, size: nat)
    requires |buf| == 188 && at < 188 && at + 1 + buf[at] + 12 + size <= 188
    requires buf[at + 1 + buf[at] + 2] == (9 + size) % 256
    ensures var p := at + 1 + buf[at]; ReadTableHead(buf, at) == Some((p + 8, p + 12 + size))
  {
    var p := at + 1 + buf[at];
    Small(p, 256);
    Small(9 + size, 256);
    Small(p + 12 + size, 256);
  }

  // ---------- the program association table ----------

  datatype Program = Program(number: nat, pid: nat)

  predicate ProgramsOk(programs: seq<Program>) {
    forall k :: 0 <= k < |programs| ==> programs[k].number < TWO16 && programs[k].pid < 0x2000
  }

  function PatBody(programs: seq<Program>): (b: seq<byte>)
    requires ProgramsOk(programs)
    ensures |b| == 4 * |programs|
  {
    if programs == [] then []
    else Two(0, programs[0].number) + Two(0xE0, programs[0].pid) + PatBody(programs[1..])
  }

  // The last program other than the network, or else what was known before.
  function LastProgram(programs: seq<Program>, pmt: nat): nat {
    if programs == [] then pmt
    else LastProgram(programs[1..], if programs[0].number != 0 then programs[0].pid else pmt)
  }

  lemma WordReads(buf: seq<byte>, p: nat, high: nat, v: nat)
    requires p + 2 <= |buf| && high < 256 && v < 0x10000 && high + v / 256 < 256 && buf[p..p + 2] == Two(high, v)
    ensures buf[p] == high + v / 256 && buf[p + 1] == v % 256 && Word(buf, p) == 256 * high + v
  {
    var b := buf[p..p + 2];
    assert buf[p] == b[0] && buf[p + 1] == b[1];
  }

  lemma {:induction false} ProgramRead(buf: seq<byte>, at: nat, program: Program, more: seq<byte>)
    requires program.number < TWO16 && program.pid < 0x2000 && at + 4 + |more| <= |buf|
    requires buf[at..at + 4 + |more|] == Two(0, program.number) + Two(0xE0, program.pid) + more
    ensures Word(buf, at) == program.number && Word(buf, at + 2) % 0x2000 == program.pid
    ensures buf[at + 4..at + 4 + |more|] == more
  {
    var a, b := Two(0, program.number), Two(0xE0, program.pid);
    Thirds(a, b, more);
    SliceSlice(buf, at, at + 4 + |more|, 0, 2);
    SliceSlice(buf, at, at + 4 + |more|, 2, 4);
    SliceSlice(buf, at, at + 4 + |more|, 4, 4 + |more|);
    WordReads(buf, at, 0, program.number);
    WordReads(buf, at + 2, 0xE0, program.pid);
  }

  lemma {:induction false} ProgramsRead(buf: seq<byte>, at: nat, end: nat, programs: seq<Program>, pmt: nat)
    requires |buf| == PACKET_SIZE && ProgramsOk(programs) && at + 4 * |programs| + 4 == end <= 188
    requires buf[at..end - 4] == PatBody(programs)
    ensures ReadPrograms(buf, at, end, pmt) == Some(LastProgram(programs, pmt))
    decreases |programs|
  {
    if programs != [] {
      ProgramRead(buf, at, programs[0], PatBody(programs[1..]));
      ProgramsRead(buf, at + 4, end, programs[1..], if programs[0].number != 0 then programs[0].pid else pmt);
    }
  }

  lemma {:induction false} LastProgramIs(programs: seq<Program>, pmt: nat, k: nat)
    requires k < |programs| && programs[k].number != 0 && forall j :: k < j < |programs| ==> programs[j].number == 0
    ensures LastProgram(programs, pmt) == programs[k].pid
    decreases |programs|
  {
    if k > 0 {
      LastProgramIs(programs[1..], if programs[0].number != 0 then programs[0].pid else pmt, k - 1);
    } else {
      NoProgram(programs[1..], programs[0].pid);
    }
  }

  lemma {:induction false} NoProgram(programs: seq<Program>, pmt: nat)
    requires forall j :: 0 <= j < |programs| ==> programs[j].number == 0
    ensures LastProgram(programs, pmt) == pmt
    decreases |programs|
  {
    if programs != [] {
      NoProgram(programs[1..], pmt);
    }
  }

  // A program association table with any entries, network entries among them: the demuxer goes
  // for the map of the last program.
  lemma {:induction false} PatTeaches(d: Demux, buf: seq<byte>, at: nat, id: nat, programs: seq<Program>, crc: seq<byte>)
    requires ProgramsOk(programs) && |programs| < 250 && id < TWO16 && |crc| == 4
    requires Carries(buf, at, Section(0, id, PatBody(programs), crc))
    ensures ReadPat(d, buf, at).1 == Quiet && ReadPat(d, buf, at).0.tracks == d.tracks
    ensures forall k :: 0 <= k < |programs| && programs[k].number != 0
                        && (forall j :: k < j < |programs| ==> programs[j].number == 0) ==>
              ReadPat(d, buf, at).0.pmt == programs[k].pid
    ensures (forall k :: 0 <= k < |programs| ==> programs[k].number == 0) ==> ReadPat(d, buf, at).0.pmt == d.pmt
  {
    var p := at + 1 + buf[at];
    HeadRead(buf, at, 0, id, PatBody(programs), crc);
    ProgramsRead(buf, p + 8, p + 12 + 4 * |programs|, programs, d.pmt);
    forall k | 0 <= k < |programs| && programs[k].number != 0 && forall j :: k < j < |programs| ==> programs[j].number == 0
      ensures LastProgram(programs, d.pmt) == programs[k].pid
    {
      LastProgramIs(programs, d.pmt, k);
    }
    if forall k :: 0 <= k < |programs| ==> programs[k].number == 0 {
      NoProgram(programs, d.pmt);
    }
  }

  // ---------- the program map ----------

  // An elementary stream with its descriptors.
  datatype Stream = Stream(kind: byte, pid: nat, info: seq<byte>)

  predicate StreamsOk(streams: seq<Stream>) {
    forall k :: 0 <= k < |streams| ==> streams[k].pid < 0x2000 && |streams[k].info| < 1024
  }

  function StreamBytes(s: Stream): (b: seq<byte>)
    requires s.pid < 0x2000 && |s.info| < 1024
    ensures |b| == 5 + |s.info|
  {
    [s.kind] + Two(0xE0, s.pid) + Two(0xF0, |s.info|) + s.info
  }

  function AllStreams(streams: seq<Stream>): seq<byte>
    requires StreamsOk(streams)
  {
    if streams == [] then [] else StreamBytes(streams[0]) + AllStreams(streams[1..])
  }

  function PmtBody(pcr: nat, info: seq<byte>, streams: seq<Stream>): seq<byte>
    requires pcr < 0x2000 && |info| < 1024 && StreamsOk(streams)
  {
    Two(0xE0, pcr) + Two(0xF0, |info|) + info + AllStreams(streams)
  }

  // Private data that is announced as Opus has a type of its own.
  function KindOf(s: Stream): byte {
    if s.kind == 0x06 && |s.info| >= 6 && s.info[..6] == [0x05, 0x04, 0x4F, 0x70, 0x75, 0x73] then 0xEB else s.kind
  }

  function Teach(tracks: map<nat, Pes>, streams: seq<Stream>): map<nat, Pes>
    decreases |streams|
  {
    if streams == [] then tracks
    else Teach(tracks[streams[0].pid := Pes(0, KindOf(streams[0]), 0, 0, 0, [], 0)], streams[1..])
  }

  lemma KindIs(s: Stream)
    ensures TrackType(s.kind, s.info) == KindOf(s)
  {
    assert |OPUS_INFO| == 6;
  }

  lemma {:induction false} StreamRead(buf: seq<byte>, at: nat, s: Stream, more: seq<byte>)
    requires s.pid < 0x2000 && |s.info| < 1024 && at + 5 + |s.info| + |more| <= |buf| == PACKET_SIZE
    requires buf[at..at + 5 + |s.info| + |more|] == StreamBytes(s) + more
    ensures buf[at] == s.kind && Word(buf, at + 1) % 0x2000 == s.pid && buf[at + 4] == |s.info|
    ensures buf[at + 5..at + 5 + |s.info|] == s.info
    ensures buf[at + 5 + |s.info|..at + 5 + |s.info| + |more|] == more
  {
    var e, all := StreamBytes(s), at + 5 + |s.info| + |more|;
    Halves(e, more);
    SliceSlice(buf, at, all, 0, |e|);
    SliceSlice(buf, at, all, |e|, |e| + |more|);
    var front := [s.kind] + Two(0xE0, s.pid) + Two(0xF0, |s.info|);
    Halves(front, s.info);
    SliceSlice(buf, at, at + |e|, 5, 5 + |s.info|);
    assert buf[at] == e[0] && buf[at + 1] == e[1] && buf[at + 2] == e[2] && buf[at + 4] == e[4];
    PidWord(buf, at + 1, s.pid);
  }

  lemma PidWord(buf: seq<byte>, p: nat, pid: nat)
    requires p + 2 <= |buf| && pid < 0x2000 && buf[p] == 0xE0 + pid / 256 && buf[p + 1] == pid % 256
    ensures Word(buf, p) % 0x2000 == pid
  {
    assert Word(buf, p) == 0xE000 + pid;
  }

  lemma {:induction false} StreamStep(buf: seq<byte>, at: nat, end: nat, tracks: map<nat, Pes>, s: Stream)
    requires |buf| == PACKET_SIZE && at + 5 + |s.info| + 4 <= end <= 188 && TrackType(s.kind, s.info) == KindOf(s)
    requires buf[at] == s.kind && Word(buf, at + 1) % 0x2000 == s.pid && buf[at + 4] == |s.info|
    requires buf[at + 5..at + 5 + |s.info|] == s.info
    ensures ReadTracks(buf, at, end, tracks)
         == ReadTracks(buf, at + 5 + |s.info|, end, tracks[s.pid := Pes(0, KindOf(s), 0, 0, 0, [], 0)])
  {
  }

  lemma {:induction false} StreamsRead(buf: seq<byte>, at: nat, end: nat, tracks: map<nat, Pes>, streams: seq<Stream>)
    requires |buf| == PACKET_SIZE && StreamsOk(streams) && at + |AllStreams(streams)| + 4 == end <= 188
    requires buf[at..end - 4] == AllStreams(streams)
    ensures ReadTracks(buf, at, end, tracks) == Some((Teach(tracks, streams), end - 4))
    decreases |streams|
  {
    if streams != [] {
      var s, more := streams[0], AllStreams(streams[1..]);
      StreamRead(buf, at, s, more);
      KindIs(s);
      StreamStep(buf, at, end, tracks, s);
      StreamsRead(buf, at + 5 + |s.info|, end, tracks[s.pid := Pes(0, KindOf(s), 0, 0, 0, [], 0)], streams[1..]);
    }
  }

  lemma {:induction false} TeachExactly(tracks: map<nat, Pes>, streams: seq<Stream>)
    ensures forall pid: nat :: pid in Teach(tracks, streams) <==>
              pid in tracks || exists k :: 0 <= k < |streams| && streams[k].pid == pid
    ensures forall pid: nat :: pid in tracks && (forall k :: 0 <= k < |streams| ==> streams[k].pid != pid) ==>
              Teach(tracks, streams)[pid] == tracks[pid]
    ensures forall k :: 0 <= k < |streams| && (forall j :: k < j < |streams| ==> streams[j].pid != streams[k].pid) ==>
              Teach(tracks, streams)[streams[k].pid] == Pes(0, KindOf(streams[k]), 0, 0, 0, [], 0)
    decreases |streams|
  {
    if streams != [] {
      var s, more := streams[0], streams[1..];
      var tracks' := tracks[s.pid := Pes(0, KindOf(s), 0, 0, 0, [], 0)];
      TeachExactly(tracks', more);
    }
  }

  // A program map with any program descriptors and any list of streams with any descriptors:
  // the demuxer learns exactly the type of each PID, that of its last entry.
  lemma {:induction false} PmtTeaches(
      d: Demux, buf: seq<byte>, at: nat, program: nat, pcr: nat, info: seq<byte>, streams: seq<Stream>, crc: seq<byte>)
    requires program < TWO16 && pcr < 0x2000 && |info| < 1024 && StreamsOk(streams) && |crc| == 4
    requires |PmtBody(pcr, info, streams)| < 1000 && Carries(buf, at, Section(2, program, PmtBody(pcr, info, streams), crc))
    ensures var (d', outcome, used) := ReadPmt(d, buf, at);
            && outcome == Meta && used && d'.pmt == d.pmt && d'.tracks.Some?
            && (forall pid: nat :: pid in d'.tracks.value <==> exists k :: 0 <= k < |streams| && streams[k].pid == pid)
            && forall k :: 0 <= k < |streams| && (forall j :: k < j < |streams| ==> streams[j].pid != streams[k].pid) ==>
                 d'.tracks.value[streams[k].pid] == Pes(0, KindOf(streams[k]), 0, 0, 0, [], 0)
  {
    PmtRead(d, buf, at, program, pcr, info, streams, crc);
    TeachExactly(map[], streams);
  }

  lemma {:induction false} PmtRead(
      d: Demux, buf: seq<byte>, at: nat, program: nat, pcr: nat, info: seq<byte>, streams: seq<Stream>, crc: seq<byte>)
    requires program < TWO16 && pcr < 0x2000 && |info| < 1024 && StreamsOk(streams) && |crc| == 4
    requires |PmtBody(pcr, info, streams)| < 1000 && Carries(buf, at, Section(2, program, PmtBody(pcr, info, streams), crc))
    ensures ReadPmt(d, buf, at) == (d.(tracks := Some(Teach(map[], streams))), Meta, true)
  {
    var p, start, end := PmtParts(buf, at, program, pcr, info, streams, crc);
    var tracks := StreamsTaught(buf, start, end, streams);
    MapRead(d, buf, at, p, start, end, tracks);
  }

  lemma {:induction false} StreamsTaught(buf: seq<byte>, start: nat, end: nat, streams: seq<Stream>)
    returns (tracks: map<nat, Pes>)
    requires |buf| == PACKET_SIZE && StreamsOk(streams) && start + |AllStreams(streams)| + 4 == end <= 188
    requires buf[start..end - 4] == AllStreams(streams)
    ensures ReadTracks(buf, start, end, map[]) == Some((tracks, end - 4)) && tracks == Teach(map[], streams)
  {
    tracks := Teach(map[], streams);
    StreamsRead(buf, start, end, map[], streams);
  }

  lemma {:induction false} PmtParts(
      buf: seq<byte>, at: nat, program: nat, pcr: nat, info: seq<byte>, streams: seq<Stream>, crc: seq<byte>)
    returns (p: nat, start: nat, end: nat)
    requires program < TWO16 && pcr < 0x2000 && |info| < 1024 && StreamsOk(streams) && |crc| == 4
    requires |PmtBody(pcr, info, streams)| < 1000 && Carries(buf, at, Section(2, program, PmtBody(pcr, info, streams), crc))
    ensures |buf| == 188 && at < 188 && start + |AllStreams(streams)| + 4 == end <= 188 && p + 4 <= start && start == p + 4 + buf[p + 3]
    ensures ReadTableHead(buf, at) == Some((p, end)) && buf[start..end - 4] == AllStreams(streams)
  {
    var body := PmtBody(pcr, info, streams);
    p, end := at + 1 + buf[at] + 8, at + 1 + buf[at] + 12 + |body|;
    HeadRead(buf, at, 2, program, body, crc);
    BodyRead(buf, p, pcr, info, streams);
    start := p + 4 + |info|;
  }

  lemma MapRead(d: Demux, buf: seq<byte>, at: nat, p: nat, start: nat, end: nat, tracks: map<nat, Pes>)
    requires |buf| == PACKET_SIZE && at < PACKET_SIZE && p + 4 <= start && start + 4 <= end <= PACKET_SIZE && start == p + 4 + buf[p + 3]
    requires ReadTableHead(buf, at) == Some((p, end))
    requires ReadTracks(buf, start, end, map[]) == Some((tracks, end - 4))
    ensures ReadPmt(d, buf, at) == (d.(tracks := Some(tracks)), Meta, true)
  {
    assert Wrap(p + 4 + buf[p + 3]) == start;
    assert Wrap(end) != SKIP_READ;
  }

  lemma {:induction false} BodyRead(buf: seq<byte>, p: nat, pcr: nat, info: seq<byte>, streams: seq<Stream>)
    requires |buf| == PACKET_SIZE && pcr < 0x2000 && |info| < 1024 && StreamsOk(streams)
    requires p + |PmtBody(pcr, info, streams)| <= 188 && buf[p..p + |PmtBody(pcr, info, streams)|] == PmtBody(pcr, info, streams)
    ensures |PmtBody(pcr, info, streams)| == 4 + |info| + |AllStreams(streams)| && buf[p + 3] == |info|
    ensures buf[p + 4 + |info|..p + 4 + |info| + |AllStreams(streams)|] == AllStreams(streams)
  {
    var body, front := PmtBody(pcr, info, streams), Two(0xE0, pcr) + Two(0xF0, |info|) + info;
    Halves(front, AllStreams(streams));
    SliceSlice(buf, p, p + |body|, 4 + |info|, |body|);
    assert buf[p + 3] == body[3];
  }

  // ---------- packet headers ----------

  // Every field of a packet header; the adaptation field with any content.
  datatype PacketHead = PacketHead(
    tei: nat, start: bool, priority: nat, pid: nat, scrambling: nat, adaptation: Option<seq<byte>>, payload: nat, counter: nat)

  predicate HeadOk(h: PacketHead) {
    && h.tei < 2 && h.priority < 2 && h.pid < 0x2000 && h.scrambling < 4 && h.payload < 2 && h.counter < 16
    && (h.adaptation.Some? ==> |h.adaptation.value| < 184)
  }

  function HeadBytes(h: PacketHead): (b: seq<byte>)
    requires HeadOk(h)
  {
    [0x47, 128 * h.tei + (if h.start then 64 else 0) + 32 * h.priority + h.pid / 256, h.pid % 256,
     64 * h.scrambling + (if h.adaptation.Some? then 32 else 0) + 16 * h.payload + h.counter]
    + if h.adaptation.Some? then [|h.adaptation.value|] + h.adaptation.value else []
  }

  lemma HeadFields(b1: nat, b2: nat, b3: nat, h: PacketHead)
    requires HeadOk(h) && b1 == 128 * h.tei + (if h.start then 64 else 0) + 32 * h.priority + h.pid / 256
    requires b2 == h.pid % 256
    requires b3 == 64 * h.scrambling + (if h.adaptation.Some? then 32 else 0) + 16 * h.payload + h.counter
    ensures (256 * b1 + b2) % 0x2000 == h.pid && Field(b1, 64, 2) == (if h.start then 1 else 0)
    ensures Field(b3, 32, 2) == if h.adaptation.Some? then 1 else 0
  {
    var high := 4 * h.tei + (if h.start then 2 else 0) + h.priority;
    assert 256 * b1 + b2 == high * 0x2000 + h.pid;
    ModOf(256 * b1 + b2, high, h.pid, 0x2000);
  }

  // PID, start flag and the first byte behind the header, whatever the other fields say; an
  // adaptation field of 183 bytes is refused.
  lemma {:induction false} HeadTeaches(buf: seq<byte>, h: PacketHead)
    requires |buf| == 188 && HeadOk(h) && HeadBytes(h) <= buf
    ensures ReadHead(buf) == if h.adaptation.Some? && |h.adaptation.value| == 183 then Bad(WrongAdaptation)
                             else Head(h.pid, h.start, |HeadBytes(h)|)
  {
    var b := HeadBytes(h);
    assert buf[0] == b[0] && buf[1] == b[1] && buf[2] == b[2] && buf[3] == b[3];
    assert h.adaptation.Some? ==> buf[4] == b[4];
    HeadFields(buf[1], buf[2], buf[3], h);
  }

  // ---------- PES headers ----------

  // A 33-bit time behind four bits that say which one it is.
  function Stamp(kind: nat, t: nat): (b: seq<byte>)
    requires kind < 16 && t < 0x2_0000_0000
    ensures |b| == 5
  {
    [16 * kind + 2 * (t / 0x4000_0000) + 1, t / 0x40_0000 % 256, Odd(t / 0x4000 % 256), t / 0x80 % 256, Odd(2 * t % 256)]
  }

  lemma StampSum(t: nat)
    requires t < 0x2_0000_0000
    ensures (t / 0x4000_0000) * 0x4000_0000 % TWO32 + (t / 0x8000 % 0x8000) * 0x8000 + t % 0x8000 == t % TWO32
  {
    if t < TWO32 {
      Small(t, TWO32);
      TimeSum(t);
    } else {
      var low := t - TWO32;
      ModOf(t, 1, low, TWO32);
      TimeSum(low);
      HighBit(low);
    }
  }

  lemma HighBit(low: nat)
    requires low < TWO32
    ensures var t := low + TWO32;
            && (t / 0x4000_0000) * 0x4000_0000 % TWO32 == (low / 0x4000_0000) * 0x4000_0000 % TWO32
            && t / 0x8000 % 0x8000 == low / 0x8000 % 0x8000 && t % 0x8000 == low % 0x8000
  {
    var t := low + TWO32;
    assert t / 0x4000_0000 == low / 0x4000_0000 + 4;
    assert t / 0x8000 == low / 0x8000 + 0x2_0000;
    ModAdd((low / 0x4000_0000) * 0x4000_0000, 1, TWO32);
    ModAdd(low / 0x8000, 4, 0x8000);
  }

  lemma {:induction false} StampReads(buf: seq<byte>, p: nat, kind: nat, t: nat)
    requires kind < 16 && t < 0x2_0000_0000 && p + 5 <= |buf| && buf[p..p + 5] == Stamp(kind, t)
    ensures TimeAt(buf, p) == t % TWO32
  {
    var e := buf[p..p + 5];
    assert buf[p] == e[0] && buf[p + 1] == e[1] && buf[p + 2] == e[2] && buf[p + 3] == e[3] && buf[p + 4] == e[4];
    var top: nat := e[0];
    assert top / 2 % 8 == t / 0x4000_0000;
    assert Fifteen(e[1], e[2]) == t / 0x8000 % 0x8000 by {
      MiddleBits(t);
    }
    assert Fifteen(e[3], e[4]) == t % 0x8000 by {
      LowBits(t);
    }
    StampSum(t);
  }

  // Everything in a PES header that the demuxer looks at or has to skip.
  datatype PesStart = PesStart(
    id: byte, length: nat, bits: nat, flags: nat, pts: Option<nat>, dts: Option<nat>, more: seq<byte>)

  function Stamps(h: PesStart): (n: nat) {
    (if h.pts.Some? then 5 else 0) + if h.dts.Some? then 5 else 0
  }

  predicate PesOk(h: PesStart) {
    && h.length < TWO16 && h.bits < 64 && h.flags < 64
    && (h.pts.Some? ==> h.pts.value < 0x2_0000_0000) && (h.dts.Some? ==> h.dts.value < 0x2_0000_0000)
    && Stamps(h) + |h.more| < 256
  }

  function StampIf(kind: nat, t: Option<nat>): (b: seq<byte>)
    requires kind < 16 && (t.Some? ==> t.value < 0x2_0000_0000)
    ensures |b| == if t.Some? then 5 else 0
  {
    if t.Some? then Stamp(kind, t.value) else []
  }

  function PesBytes(h: PesStart): (b: seq<byte>)
    requires PesOk(h)
    ensures |b| == 9 + Stamps(h) + |h.more|
  {
    [0, 0, 1, h.id] + Two(0, h.length)
    + [0x80 + h.bits, (if h.pts.Some? then 128 else 0) + (if h.dts.Some? then 64 else 0) + h.flags, Stamps(h) + |h.more|]
    + StampIf(if h.dts.Some? then 3 else 2, h.pts) + StampIf(1, h.dts) + h.more
  }

  lemma FlagBits(b: nat, pts: bool, dts: bool, flags: nat)
    requires flags < 64 && b == (if pts then 128 else 0) + (if dts then 64 else 0) + flags
    ensures Field(b, 128, 2) == (if pts then 1 else 0) && Field(b, 64, 2) == if dts then 1 else 0
  {
  }

  lemma {:induction false} PesParts(h: PesStart, b: seq<byte>)
    requires PesOk(h) && b == PesBytes(h)
    ensures b[0] == 0 && b[1] == 0 && b[2] == 1 && b[3] == h.id && b[4..6] == Two(0, h.length)
    ensures b[7] == (if h.pts.Some? then 128 else 0) + (if h.dts.Some? then 64 else 0) + h.flags
    ensures b[8] == Stamps(h) + |h.more|
    ensures h.pts.Some? ==> b[9..14] == Stamp(if h.dts.Some? then 3 else 2, h.pts.value)
    ensures h.dts.Some? ==> b[9 + Stamps(h) - 5..9 + Stamps(h)] == Stamp(1, h.dts.value)
  {
    var first := [0, 0, 1, h.id] + Two(0, h.length)
      + [0x80 + h.bits, (if h.pts.Some? then 128 else 0) + (if h.dts.Some? then 64 else 0) + h.flags, Stamps(h) + |h.more|];
    var pts, dts := StampIf(if h.dts.Some? then 3 else 2, h.pts), StampIf(1, h.dts);
    FourParts(first, pts, dts, h.more);
  }

  lemma FourParts(a: seq<byte>, b: seq<byte>, c: seq<byte>, d: seq<byte>)
    ensures var s := a + b + c + d;
            && (forall i :: 0 <= i < |a| ==> s[i] == a[i])
            && s[|a|..|a| + |b|] == b && s[|a| + |b|..|a| + |b| + |c|] == c
  {
  }

  // What the demuxer makes of a header with any flags, with either time or none, and with
  // anything behind the times: the times modulo 2^32, the rest of the packet as payload, and as
  // size what the length leaves for it.
  lemma {:induction false} PesTeaches(pes: Pes, buf: seq<byte>, at: nat, h: PesStart)
    requires PesOk(h) && |buf| == 188 && at + |PesBytes(h)| <= 188 && buf[at..at + |PesBytes(h)|] == PesBytes(h)
    requires h.length == 0 || h.length >= |PesBytes(h)| - 6
    requires at < 188
    ensures var whole := Pes(h.id, pes.streamType, pes.sequence,
                              if h.pts.Some? then h.pts.value % TWO32 else 0, if h.dts.Some? then h.dts.value % TWO32 else 0,
                              buf[at + |PesBytes(h)|..], if h.length == 0 then 0 else h.length - (|PesBytes(h)| - 6));
            OpenPes(pes, buf, at) == Finish(whole)
  {
    PesRead(buf, at, h);
  }

  lemma {:induction false} PesRead(buf: seq<byte>, at: nat, h: PesStart)
    requires PesOk(h) && |buf| == 188 && at + |PesBytes(h)| <= 188 && buf[at..at + |PesBytes(h)|] == PesBytes(h)
    requires h.length == 0 || h.length >= |PesBytes(h)| - 6
    ensures ReadPrefix(buf, at) == Some(true)
    ensures ReadPesHead(buf, at + 3)
         == Some(PesHead(h.id, if h.length == 0 then 0 else h.length - (|PesBytes(h)| - 6),
                         if h.pts.Some? then h.pts.value % TWO32 else 0,
                         if h.dts.Some? then h.dts.value % TWO32 else 0, at + |PesBytes(h)|))
  {
    FirstBytes(buf, at, h);
    Times(buf, at, h);
    HeadEnds(buf, at + 3, h);
  }

  lemma {:induction false} FirstBytes(buf: seq<byte>, at: nat, h: PesStart)
    requires PesOk(h) && |buf| == 188 && at + |PesBytes(h)| <= 188 && buf[at..at + |PesBytes(h)|] == PesBytes(h)
    ensures ReadPrefix(buf, at) == Some(true) && buf[at + 3] == h.id && Word(buf, at + 4) == h.length
    ensures buf[at + 8] == Stamps(h) + |h.more|
    ensures Field(buf[at + 7], 128, 2) == (if h.pts.Some? then 1 else 0)
    ensures Field(buf[at + 7], 64, 2) == (if h.dts.Some? then 1 else 0)
  {
    var b := PesBytes(h);
    PesParts(h, b);
    assert buf[at] == b[0] && buf[at + 1] == b[1] && buf[at + 2] == b[2] && buf[at + 3] == b[3];
    assert buf[at + 7] == b[7] && buf[at + 8] == b[8];
    SliceSlice(buf, at, at + |b|, 4, 6);
    WordReads(buf, at + 4, 0, h.length);
    FlagBits(buf[at + 7], h.pts.Some?, h.dts.Some?, h.flags);
  }

  lemma {:induction false} Times(buf: seq<byte>, at: nat, h: PesStart)
    requires PesOk(h) && |buf| == 188 && at + |PesBytes(h)| <= 188 && buf[at..at + |PesBytes(h)|] == PesBytes(h)
    ensures h.pts.Some? ==> TimeAt(buf, at + 9) == h.pts.value % TWO32
    ensures h.dts.Some? ==> TimeAt(buf, at + 9 + Stamps(h) - 5) == h.dts.value % TWO32
  {
    var b := PesBytes(h);
    PesParts(h, b);
    if h.pts.Some? {
      SliceSlice(buf, at, at + |b|, 9, 14);
      StampReads(buf, at + 9, if h.dts.Some? then 3 else 2, h.pts.value);
    }
    if h.dts.Some? {
      SliceSlice(buf, at, at + |b|, 9 + Stamps(h) - 5, 9 + Stamps(h));
      StampReads(buf, at + 9 + Stamps(h) - 5, 1, h.dts.value);
    }
  }

  lemma {:induction false} HeadEnds(buf: seq<byte>, p: nat, h: PesStart)
    requires PesOk(h) && |buf| == 188 && p + 6 + Stamps(h) + |h.more| <= 188
    requires h.length == 0 || h.length >= 3 + Stamps(h) + |h.more|
    requires buf[p] == h.id && Word(buf, p + 1) == h.length && buf[p + 5] == Stamps(h) + |h.more|
    requires Field(buf[p + 4], 128, 2) == (if h.pts.Some? then 1 else 0)
    requires Field(buf[p + 4], 64, 2) == (if h.dts.Some? then 1 else 0)
    ensures ReadPesHead(buf, p)
         == Some(PesHead(h.id, if h.length == 0 then 0 else h.length - 3 - Stamps(h) - |h.more|,
                         if h.pts.Some? then TimeAt(buf, p + 6) else 0,
                         if h.dts.Some? then TimeAt(buf, p + 6 + Stamps(h) - 5) else 0, p + 6 + Stamps(h) + |h.more|))
  {
    assert Wrap(512 + buf[p + 5] - Stamps(h)) == |h.more|;
    assert Wrap(p + 6 + Stamps(h) + |h.more|) == p + 6 + Stamps(h) + |h.more|;
  }

  // ---------- finished payloads ----------

  // A finished payload becomes a packet for PCMA (0x90) and PCMU (0x91), is repackaged for H.264,
  // H.265, AAC and Opus, and is dropped otherwise. It is finished once it has the announced size,
  // if there is one.
  lemma FinishesExactly(pes: Pes)
    ensures var (pes', outcome) := Finish(pes);
            if pes.size == 0 || |pes.payload| < pes.size then pes' == pes && outcome == Quiet
            else if pes.streamType == 0x90 || pes.streamType == 0x91 then
              && pes'.payload == [] && pes'.sequence == (pes.sequence + 1) % 0x1_0000
              && outcome == Media(Packet(pes.streamType, (pes.sequence + 1) % 0x1_0000, pes.pts, pes.payload))
            else if pes.streamType == 0x1B || pes.streamType == 0x24 || pes.streamType == 0x0F || pes.streamType == 0xEB
            then outcome == Repackaged
            else pes'.payload == [] && outcome == Quiet
  {
  }

  // ---------- what the muxer writes is of this form ----------

  lemma {:induction false} PatIsSection(crc: seq<byte>)
    requires |crc| == 4
    ensures Pat(crc) == [0x47, 0x40, 0x00, 0x10, 0x00] + Section(0, 1, PatBody([Program(1, 0x1000)]), crc) + Zeros(167)
  {
    var programs: seq<Program> := [Program(1, 0x1000)];
    assert programs[1..] == [] && PatBody(programs[1..]) == [];
    assert PatBody(programs) == [0, 1, 0xF0, 0];
  }

  // The tracks in order, from PID 0x100 on, without descriptors.
  function TrackStreams(types: seq<byte>): (r: seq<Stream>)
    requires |types| < 0x1F00
    ensures |r| == |types| && StreamsOk(r)
    ensures forall i :: 0 <= i < |r| ==> r[i] == Stream(types[i], 0x100 + i, [])
  {
    seq(|types|, i requires 0 <= i < |types| => Stream(types[i], 0x100 + i, []))
  }

  lemma {:induction false} StreamsSnoc(streams: seq<Stream>, s: Stream)
    requires StreamsOk(streams) && s.pid < 0x2000 && |s.info| < 1024
    ensures StreamsOk(streams + [s]) && AllStreams(streams + [s]) == AllStreams(streams) + StreamBytes(s)
    decreases |streams|
  {
    if streams == [] {
      assert [s][1..] == [] && streams + [s] == [s];
    } else {
      var more := streams[1..];
      assert (streams + [s])[1..] == more + [s];
      StreamsSnoc(more, s);
      Assoc(StreamBytes(streams[0]), AllStreams(more), StreamBytes(s));
    }
  }

  lemma {:induction false} EntriesAreStreams(types: seq<byte>)
    requires |types| < 0x1F00
    ensures PmtEntries(types) == AllStreams(TrackStreams(types))
    decreases |types|
  {
    if types != [] {
      var n := |types| - 1;
      var last := Stream(types[n], 0x100 + n, []);
      EntriesAreStreams(types[..n]);
      assert TrackStreams(types) == TrackStreams(types[..n]) + [last];
      StreamsSnoc(TrackStreams(types[..n]), last);
      assert StreamBytes(last) == PmtEntry(0x100 + n, types[n]);
    }
  }

  lemma {:induction false} HeadIs(n: nat)
    requires n <= 190
    ensures PmtHead(n) == [0x47, 0x50, 0x00, 0x10, 0x00] + ([2] + Two(0xB0, 13 + 5 * n) + Two(0, 1) + [0xC1, 0, 0]) + [0xFF, 0xFF, 0xF0, 0]
  {
    Small(13 + 5 * n, 1024);
  }

  lemma Regroup(front: seq<byte>, head: seq<byte>, start: seq<byte>, entries: seq<byte>, crc: seq<byte>)
    ensures (front + head + start) + entries + crc == front + (head + (start + entries) + crc)
  {
  }

  // As long as the section length has ten bits.
  lemma {:induction false} PmtIsSection(types: seq<byte>, crc: seq<byte>)
    requires |crc| == 4 && |types| <= 190
    ensures var body := PmtBody(0x1FFF, [], TrackStreams(types));
            |body| == 4 + 5 * |types|
            && Pmt(types, crc) == Padded([0x47, 0x50, 0x00, 0x10, 0x00] + Section(2, 1, body, crc))
  {
    EntriesAreStreams(types);
    var n, start: seq<byte> := |types|, [0xFF, 0xFF, 0xF0, 0];
    var body := PmtBody(0x1FFF, [], TrackStreams(types));
    BodyIs(types, body);
    HeadIs(n);
    Regroup([0x47, 0x50, 0x00, 0x10, 0x00], [2] + Two(0xB0, 13 + 5 * n) + Two(0, 1) + [0xC1, 0, 0], start, PmtEntries(types), crc);
  }

  lemma {:induction false} BodyIs(types: seq<byte>, body: seq<byte>)
    requires |types| <= 190 && PmtEntries(types) == AllStreams(TrackStreams(types))
    requires body == PmtBody(0x1FFF, [], TrackStreams(types))
    ensures body == [0xFF, 0xFF, 0xF0, 0] + PmtEntries(types) && |body| == 4 + 5 * |types|
  {
    assert Two(0xE0, 0x1FFF) + Two(0xF0, 0) + [] == [0xFF, 0xFF, 0xF0, 0];
  }

  // A packet of the muxer: nothing but PID, start flag and counter is set, and a short chunk is
  // stuffed with an adaptation field of zeros.
  lemma {:induction false} PacketIs(pid: nat, start: bool, sequence: nat, chunk: seq<byte>)
    requires pid < 0x2000 && 0 < |chunk| <= 184
    ensures TsPacket(pid, start, sequence, chunk)
         == HeadBytes(PacketHead(0, start, 0, pid, 0, if |chunk| < 184 then Some(Zeros(183 - |chunk|)) else None, 1, sequence % 16))
            + chunk
  {
  }

  // Its PES header has a presentation time and nothing else.
  lemma {:induction false} PesHeaderIs(streamId: byte, pts: nat, length: nat)
    requires pts < TWO32
    ensures PesHeader(streamId, pts, length)
         == PesBytes(PesStart(streamId, if 8 + length < 0x1_0000 then 8 + length else 0, 0, 0, Some(pts), None, []))
  {
    assert TimeBytes(pts) == Stamp(2, pts);
  }
}
