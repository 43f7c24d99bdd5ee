// What the demuxer returns for the streams the muxer writes.
module TsRoundTrip {
  import opened Wrappers
  import opened Bytes
  import opened Seqs
  import opened TsSyntax
  import opened TsDemux

  // ---------- one packet ----------

  lemma HeadBytes(pid: nat, start: bool)
    requires pid < 0x2000
    ensures var id := pid + if start then 0x4000 else 0;
            && (256 * (id / 256) + id % 256) % 0x2000 == pid
            && Field(id / 256, 64, 2) == if start then 1 else 0
  {
  }

  lemma PacketHead(pid: nat, start: bool, sequence: nat, chunk: seq<byte>)
    requires pid < 0x2000 && 0 < |chunk| <= 184
    ensures ReadHead(TsPacket(pid, start, sequence, chunk)) == Head(pid, start, 188 - |chunk|)
  {
    var b := TsPacket(pid, start, sequence, chunk);
    var id := pid + if start then 0x4000 else 0;
    assert b[0] == SYNC && b[1] == id / 256 && b[2] == id % 256;
    HeadBytes(pid, start);
    if |chunk| < 184 {
      assert b[3] == 0x30 + sequence % 16 && b[4] == 183 - |chunk|;
    } else {
      assert b[3] == 0x10 + sequence % 16;
    }
  }

  // A packet that continues a PES adds its chunk.
  lemma ContinueTurn(d: Demux, pid: nat, sequence: nat, chunk: seq<byte>)
    requires pid < 0x2000 && 0 < |chunk| <= 184 && d.tracks.Some? && pid in d.tracks.value
    ensures var pes := d.tracks.value[pid];
            var (pes', outcome) := Finish(pes.(payload := pes.payload + chunk));
            Turn(d, TsPacket(pid, false, sequence, chunk))
            == (d.(tracks := Some(d.tracks.value[pid := pes'])), outcome, true)
  {
    PacketHead(pid, false, sequence, chunk);
  }

  // The size the demuxer works out from the length field.
  function BodySize(length: nat): nat {
    if 8 + length <= 0xFFFF then length else 0
  }

  lemma HeaderBytes(buf: seq<byte>, at: nat, streamId: byte, pts: nat, length: nat)
    requires at + 14 <= |buf| && pts < TWO32 && buf[at..at + 14] == PesHeader(streamId, pts, length)
    ensures buf[at] == 0 && buf[at + 1] == 0 && buf[at + 2] == 1 && buf[at + 3] == streamId
    ensures buf[at + 4] == PesSize(length) / 256 && buf[at + 5] == PesSize(length) % 256
    ensures buf[at + 7] == 0x80 && buf[at + 8] == 5
    ensures TimeAt(buf, at + 9) == pts
  {
    var h, size := buf[at..at + 14], PesSize(length);
    assert h[0] == 0 && h[1] == 0 && h[2] == 1 && h[3] == streamId && h[4] == size / 256 && h[5] == size % 256;
    assert h[7] == 0x80 && h[8] == 5;
    assert buf[at + 9..at + 14] == h[9..];
    assert h[9..] == TimeBytes(pts);
    TimeRoundTrip(pts, buf, at + 9);
  }

  lemma SizeWord(length: nat)
    ensures var size := PesSize(length);
            && (256 * (size / 256) + size % 256) == size
            && BodySize(length) == if size == 0 then 0 else (TWO16 + size - 8) % TWO16
  {
  }

  lemma PesHeadFrom(buf: seq<byte>, p: nat, size: nat)
    requires |buf| == PACKET_SIZE && p + 11 <= PACKET_SIZE
    requires Word(buf, p + 1) == size && buf[p + 4] == 0x80 && buf[p + 5] == 5
    ensures ReadPesHead(buf, p)
         == Some(PesHead(buf[p], if size == 0 then 0 else (TWO16 + size - 8) % TWO16, TimeAt(buf, p + 6), 0, p + 11))
  {
    var flags: nat := buf[p + 4];
    assert Field(flags, 128, 2) == 1;
    assert Field(flags, 64, 2) == 0;
    assert Wrap(p + 11) == p + 11;
  }

  lemma HeaderReads(buf: seq<byte>, at: nat, streamId: byte, pts: nat, length: nat)
    requires |buf| == PACKET_SIZE && at + 14 <= PACKET_SIZE && pts < TWO32
    requires buf[at..at + 14] == PesHeader(streamId, pts, length)
    ensures ReadPrefix(buf, at) == Some(true)
    ensures ReadPesHead(buf, at + 3) == Some(PesHead(streamId, BodySize(length), pts, 0, at + 14))
  {
    HeaderBytes(buf, at, streamId, pts, length);
    SizeWord(length);
    PesHeadFrom(buf, at + 3, PesSize(length));
  }

  // The PES after its first packet.
  function Opened(pes: Pes, streamId: byte, pts: nat, length: nat, payload: seq<byte>): Pes {
    pes.(streamId := streamId, pts := pts, dts := 0, payload := payload, size := BodySize(length))
  }

  lemma StartTurn(d: Demux, pid: nat, sequence: nat, chunk: seq<byte>, streamId: byte, pts: nat, length: nat)
    requires pid < 0x2000 && 14 <= |chunk| <= 184 && pts < TWO32 && chunk[..14] == PesHeader(streamId, pts, length)
    requires d.tracks.Some? && pid in d.tracks.value && d.tracks.value[pid].payload == []
    ensures var pes := d.tracks.value[pid];
            var (pes', outcome) := Finish(Opened(pes, streamId, pts, length, chunk[14..]));
            Turn(d, TsPacket(pid, true, sequence, chunk))
            == (d.(tracks := Some(d.tracks.value[pid := pes'])), outcome, true)
  {
    var buf, at := TsPacket(pid, true, sequence, chunk), 188 - |chunk|;
    PacketHead(pid, true, sequence, chunk);
    assert buf[at..] == chunk;
    assert buf[at..at + 14] == buf[at..][..14];
    assert buf[at + 14..] == buf[at..][14..];
    HeaderReads(buf, at, streamId, pts, length);
  }

  // A start packet behind an unfinished payload pushes that payload out and is kept.
  lemma PushTurn(d: Demux, pid: nat, sequence: nat, chunk: seq<byte>)
    requires pid < 0x2000 && 0 < |chunk| <= 184
    requires d.tracks.Some? && pid in d.tracks.value
    requires d.tracks.value[pid].payload != [] && PassThrough(d.tracks.value[pid].streamType)
    ensures var (pes', outcome) := GetPacket(d.tracks.value[pid]);
            Turn(d, TsPacket(pid, true, sequence, chunk))
            == (d.(tracks := Some(d.tracks.value[pid := pes'])), outcome, false)
  {
    PacketHead(pid, true, sequence, chunk);
  }

  // ---------- the packets of one PES ----------

  function With(d: Demux, pid: nat, pes: Pes): Demux
    requires d.tracks.Some?
  {
    d.(tracks := Some(d.tracks.value[pid := pes]))
  }

  // The state and the outcome once all the data of a PES has arrived, then on to `rest`.
  function Arrive(d: Demux, pid: nat, pes: Pes, rest: seq<byte>): (Demux, Outcome, seq<byte>)
    requires d.tracks.Some?
  {
    var (pes', outcome) := Finish(pes);
    if outcome.Quiet? then Read(With(d, pid, pes'), rest) else (With(d, pid, pes'), outcome, rest)
  }

  lemma {:induction false} ReadTail(d: Demux, pid: nat, sequence: nat, data: seq<byte>, rest: seq<byte>)
    requires pid < 0x2000 && data != [] && d.tracks.Some? && pid in d.tracks.value
    requires var pes := d.tracks.value[pid]; pes.size == 0 || pes.size == |pes.payload| + |data|
    ensures var pes := d.tracks.value[pid];
            Read(d, Flat(Packets(pid, false, sequence, data)) + rest)
            == Arrive(d, pid, pes.(payload := pes.payload + data), rest)
    decreases |data|
  {
    var pes := d.tracks.value[pid];
    if |data| <= 184 {
      var p := TsPacket(pid, false, sequence, data);
      assert Flat(Packets(pid, false, sequence, data)) == p by {
        LastPacket(pid, false, sequence, data);
      }
      ReadOne(d, p, rest);
      ContinueTurn(d, pid, sequence, data);
    } else {
      var chunk, more := data[..184], data[184..];
      var p, ps := TsPacket(pid, false, sequence, chunk), Packets(pid, false, (sequence + 1) % TWO16, more);
      FlatCons(p, ps, rest);
      ReadOne(d, p, Flat(ps) + rest);
      ContinueTurn(d, pid, sequence, chunk);
      var pes' := pes.(payload := pes.payload + chunk);
      var d' := With(d, pid, pes');
      ReadTail(d', pid, (sequence + 1) % TWO16, more, rest);
      assert pes.payload + chunk + more == pes.payload + data by {
        Assoc(pes.payload, chunk, more);
        Split(data, 184);
      }
      WithTwice(d, pid, pes', Finish(pes'.(payload := pes'.payload + more)).0);
    }
  }

  lemma LastPacket(pid: nat, start: bool, sequence: nat, data: seq<byte>)
    requires pid < 0x2000 && 0 < |data| <= 184
    ensures Flat(Packets(pid, start, sequence, data)) == TsPacket(pid, start, sequence, data)
  {
    var p := TsPacket(pid, start, sequence, data);
    if |data| == 184 {
      assert data[..184] == data && data[184..] == [];
      assert Packets(pid, start, sequence, data) == [p];
    }
    FlatOne(p);
  }

  lemma FlatCons(p: seq<byte>, ps: seq<seq<byte>>, rest: seq<byte>)
    ensures Flat([p] + ps) + rest == p + (Flat(ps) + rest)
  {
    FlatFront(p, ps);
    Assoc(p, Flat(ps), rest);
  }

  lemma WithTwice(d: Demux, pid: nat, a: Pes, b: Pes)
    requires d.tracks.Some?
    ensures With(With(d, pid, a), pid, b) == With(d, pid, b)
  {
    assert d.tracks.value[pid := a][pid := b] == d.tracks.value[pid := b];
  }

  function PesBytes(pid: nat, sequence: nat, streamId: byte, pts: nat, payload: seq<byte>): seq<seq<byte>>
    requires pid < 0x2000 && pts < TWO32
  {
    Packets(pid, true, sequence, PesHeader(streamId, pts, |payload|) + payload)
  }

  // A whole PES read from an idle track.
  lemma ReadWhole(d: Demux, pid: nat, sequence: nat, streamId: byte, pts: nat, payload: seq<byte>, rest: seq<byte>)
    requires pid < 0x2000 && pts < TWO32 && payload != []
    requires d.tracks.Some? && pid in d.tracks.value && d.tracks.value[pid].payload == []
    ensures Read(d, Flat(PesBytes(pid, sequence, streamId, pts, payload)) + rest)
         == Arrive(d, pid, Opened(d.tracks.value[pid], streamId, pts, |payload|, payload), rest)
  {
    var header := PesHeader(streamId, pts, |payload|);
    var data, pes := header + payload, d.tracks.value[pid];
    Halves(header, payload);
    if |data| <= 184 {
      var p := TsPacket(pid, true, sequence, data);
      LastPacket(pid, true, sequence, data);
      ReadOne(d, p, rest);
      StartTurn(d, pid, sequence, data, streamId, pts, |payload|);
    } else {
      var chunk, more := data[..184], data[184..];
      var p, ps := TsPacket(pid, true, sequence, chunk), Packets(pid, false, (sequence + 1) % TWO16, more);
      FlatCons(p, ps, rest);
      ReadOne(d, p, Flat(ps) + rest);
      assert chunk[..14] == header && chunk[14..] + more == payload by {
        ChunkParts(header, payload);
      }
      StartTurn(d, pid, sequence, chunk, streamId, pts, |payload|);
      var pes' := Opened(pes, streamId, pts, |payload|, chunk[14..]);
      ReadTail(With(d, pid, pes'), pid, (sequence + 1) % TWO16, more, rest);
      WithTwice(d, pid, pes', Finish(pes'.(payload := payload)).0);
    }
  }

  lemma ChunkParts(header: seq<byte>, payload: seq<byte>)
    requires |header| == 14 && |header + payload| > 184
    ensures var data := header + payload; data[..184][..14] == header && data[..184][14..] + data[184..] == payload
  {
    var data := header + payload;
    assert data[..184][..14] == data[..14];
    assert data[..184][14..] == payload[..170];
    assert data[184..] == payload[170..];
  }

  // The same from a track whose last payload is still held: that one comes out first.
  lemma ReadPush(d: Demux, pid: nat, sequence: nat, streamId: byte, pts: nat, payload: seq<byte>, rest: seq<byte>)
    requires pid < 0x2000 && pts < TWO32
    requires d.tracks.Some? && pid in d.tracks.value
    requires d.tracks.value[pid].payload != [] && PassThrough(d.tracks.value[pid].streamType)
    ensures var (pes', outcome) := GetPacket(d.tracks.value[pid]);
            var input := Flat(PesBytes(pid, sequence, streamId, pts, payload)) + rest;
            Read(d, input) == (With(d, pid, pes'), outcome, input)
  {
    var data := PesHeader(streamId, pts, |payload|) + payload;
    if |data| <= 184 {
      LastPacket(pid, true, sequence, data);
      ReadOne(d, TsPacket(pid, true, sequence, data), rest);
      PushTurn(d, pid, sequence, data);
    } else {
      var p, ps := TsPacket(pid, true, sequence, data[..184]), Packets(pid, false, (sequence + 1) % TWO16, data[184..]);
      FlatCons(p, ps, rest);
      ReadOne(d, p, Flat(ps) + rest);
      PushTurn(d, pid, sequence, data[..184]);
    }
  }

  // ---------- the header ----------

  lemma TableHeadReads(buf: seq<byte>, pid: nat, table: byte, size: nat)
    requires |buf| == PACKET_SIZE && pid < 0x2000 && buf[..13] == TableHead(pid, table, size)
    ensures ReadHead(buf) == Head(pid, true, 4)
    ensures ReadTableHead(buf, 4) == Some((13, Wrap(8 + (9 + size) % 1024 % 256)))
  {
    var h, length := TableHead(pid, table, size), (9 + size) % 1024;
    assert buf[0] == h[0] && buf[1] == h[1] && buf[2] == h[2] && buf[3] == h[3] && buf[4] == h[4] && buf[7] == h[7];
    assert (256 * (0x40 + pid / 256) + pid % 256) % 0x2000 == pid;
    assert Field(0x40 + pid / 256, 64, 2) == 1;
    var control: nat := buf[3];
    assert Field(control, 32, 2) == 0;
  }

  lemma ProgramsRead(buf: seq<byte>, pmt: nat)
    requires |buf| == PACKET_SIZE && buf[13..17] == [0, 1, 0xE0 + PMT_PID / 256, PMT_PID % 256]
    ensures ReadPrograms(buf, 13, 21, pmt) == Some(PMT_PID)
  {
    var b := buf[13..17];
    assert buf[13] == b[0] && buf[14] == b[1] && buf[15] == b[2] && buf[16] == b[3];
    assert Word(buf, 13) == 1 && Word(buf, 15) % 0x2000 == PMT_PID;
    assert MoreThanCrc(13, 21) && !MoreThanCrc(17, 21);
    assert ReadPrograms(buf, 17, 21, PMT_PID) == Some(PMT_PID);
  }

  lemma PatTurn(d: Demux, crc: seq<byte>)
    requires |crc| == 4 && d.tracks.None?
    ensures Turn(d, Pat(crc)) == (d.(pmt := PMT_PID), Quiet, true)
  {
    var buf := Pat(crc);
    assert buf[..13] == TableHead(PAT_PID, 0, 4);
    TableHeadReads(buf, PAT_PID, 0, 4);
    assert buf[13..17] == [0, 1, 0xE0 + PMT_PID / 256, PMT_PID % 256];
    ProgramsRead(buf, d.pmt);
  }

  // The map from PIDs to types that a header should teach.
  function Learn(tracks: map<nat, Pes>, types: seq<byte>, i: nat): map<nat, Pes>
    requires i <= |types|
    decreases |types| - i
  {
    if i == |types| then tracks else Learn(tracks[PES0_PID + i := NewPes(types[i])], types, i + 1)
  }

  function Learned(types: seq<byte>): map<nat, Pes> {
    Learn(map[], types, 0)
  }

  lemma {:induction false} LearnExactly(tracks: map<nat, Pes>, types: seq<byte>, i: nat)
    requires i <= |types|
    ensures var m := Learn(tracks, types, i);
            && (forall pid: nat :: pid in m <==> pid in tracks || PES0_PID + i <= pid < PES0_PID + |types|)
            && (forall pid: nat :: pid in tracks && pid < PES0_PID + i ==> m[pid] == tracks[pid])
            && (forall k :: i <= k < |types| ==> m[PES0_PID + k] == NewPes(types[k]))
    decreases |types| - i
  {
    if i < |types| {
      LearnExactly(tracks[PES0_PID + i := NewPes(types[i])], types, i + 1);
    }
  }

  // It says: PID 0x100 + i belongs to the i-th track, and there is nothing else.
  lemma LearnedExactly(types: seq<byte>)
    ensures forall pid: nat :: pid in Learned(types) <==> PES0_PID <= pid < PES0_PID + |types|
    ensures forall i :: 0 <= i < |types| ==> Learned(types)[PES0_PID + i] == NewPes(types[i])
  {
    LearnExactly(map[], types, 0);
  }

  lemma {:induction false} EntryAt(types: seq<byte>, i: nat)
    requires i < |types| < 0x1F00
    ensures PmtEntries(types)[5 * i..5 * i + 5] == PmtEntry(PES0_PID + i, types[i])
  {
    var n := |types| - 1;
    if i < n {
      EntryAt(types[..n], i);
      var head, last := PmtEntries(types[..n]), PmtEntry(PES0_PID + n, types[n]);
      assert (head + last)[5 * i..5 * i + 5] == head[5 * i..5 * i + 5];
    }
  }

  lemma EntryReads(buf: seq<byte>, at: nat, pid: nat, streamType: byte)
    requires |buf| == PACKET_SIZE && at + 5 <= PACKET_SIZE && pid < 0x2000
    requires buf[at..at + 5] == PmtEntry(pid, streamType)
    ensures buf[at] == streamType && Word(buf, at + 1) % 0x2000 == pid && buf[at + 4] == 0
  {
    var e := buf[at..at + 5];
    assert buf[at] == e[0] && buf[at + 1] == e[1] && buf[at + 2] == e[2] && buf[at + 4] == e[4];
    assert (256 * (0xE0 + pid / 256) + pid % 256) % 0x2000 == pid;
  }

  lemma NoInfo(streamType: byte, info: seq<byte>)
    requires info == []
    ensures TrackType(streamType, info) == streamType
  {
    assert |OPUS_INFO| == 6;
  }

  lemma TrackStep(buf: seq<byte>, at: nat, end: nat, tracks: map<nat, Pes>, pid: nat, streamType: byte)
    requires |buf| == PACKET_SIZE && at + 5 <= PACKET_SIZE && pid < 0x2000
    requires buf[at..at + 5] == PmtEntry(pid, streamType) && MoreThanCrc(at, end)
    ensures ReadTracks(buf, at, end, tracks) == ReadTracks(buf, at + 5, end, tracks[pid := NewPes(streamType)])
  {
    EntryReads(buf, at, pid, streamType);
    NoInfo(streamType, buf[at + 5..at + 5]);
  }

  lemma TracksEnd(buf: seq<byte>, at: nat, end: nat, tracks: map<nat, Pes>)
    requires |buf| == PACKET_SIZE && at < 256 && !MoreThanCrc(at, end)
    ensures ReadTracks(buf, at, end, tracks) == Some((tracks, at))
  {
  }

  lemma {:induction false} EntryIn(buf: seq<byte>, types: seq<byte>, i: nat)
    requires |buf| == PACKET_SIZE && i < |types| <= 34
    requires buf[17..17 + 5 * |types|] == PmtEntries(types)
    ensures buf[17 + 5 * i..22 + 5 * i] == PmtEntry(PES0_PID + i, types[i])
  {
    EntryAt(types, i);
    SliceSlice(buf, 17, 17 + 5 * |types|, 5 * i, 5 * i + 5);
  }

  lemma {:induction false} LearnStep(buf: seq<byte>, at: nat, end: nat, tracks: map<nat, Pes>, types: seq<byte>, i: nat)
    requires |buf| == PACKET_SIZE && i < |types| <= 34 && at == 17 + 5 * i && end == 21 + 5 * |types|
    requires buf[17..17 + 5 * |types|] == PmtEntries(types)
    ensures var tracks' := tracks[PES0_PID + i := NewPes(types[i])];
            ReadTracks(buf, at, end, tracks) == ReadTracks(buf, at + 5, end, tracks')
            && Learn(tracks, types, i) == Learn(tracks', types, i + 1)
  {
    EntryIn(buf, types, i);
    TrackStep(buf, at, end, tracks, PES0_PID + i, types[i]);
  }

  lemma {:induction false} TracksRead(buf: seq<byte>, at: nat, end: nat, tracks: map<nat, Pes>, types: seq<byte>, i: nat)
    requires |buf| == PACKET_SIZE && i <= |types| <= 34 && at == 17 + 5 * i && end == 21 + 5 * |types|
    requires buf[17..17 + 5 * |types|] == PmtEntries(types)
    ensures ReadTracks(buf, at, end, tracks) == Some((Learn(tracks, types, i), end - 4))
    decreases |types| - i
  {
    if i < |types| {
      LearnStep(buf, at, end, tracks, types, i);
      TracksRead(buf, at + 5, end, tracks[PES0_PID + i := NewPes(types[i])], types, i + 1);
    } else {
      TracksEnd(buf, at, end, tracks);
    }
  }

  lemma Layers(a: seq<byte>, b: seq<byte>, c: seq<byte>, d: seq<byte>)
    ensures (a + b + c + d)[..|a|] == a && (a + b + c + d)[|a|..|a| + |b|] == b
  {
  }

  lemma HeadLayers(n: nat)
    ensures PmtHead(n)[..13] == TableHead(PMT_PID, 2, 4 + 5 * n) && PmtHead(n)[16] == 0
  {
  }

  lemma PaddedLayers(a: seq<byte>, b: seq<byte>, c: seq<byte>, p: nat, q: nat)
    requires p == |a| && q == p + |b|
    ensures Padded(a + b + c)[..p] == a && Padded(a + b + c)[p..q] == b
  {
    Layers(a, b, c, Zeros(PACKET_SIZE - |a + b + c| % PACKET_SIZE));
  }

  lemma PmtLayout(types: seq<byte>, crc: seq<byte>)
    requires |crc| == 4 && |types| < 0x1F00
    ensures Pmt(types, crc)[..17] == PmtHead(|types|)
    ensures Pmt(types, crc)[17..17 + 5 * |types|] == PmtEntries(types)
  {
    PaddedLayers(PmtHead(|types|), PmtEntries(types), crc, 17, 17 + 5 * |types|);
  }

  lemma SectionEnd(n: nat)
    requires n <= 34
    ensures Wrap(8 + (9 + (4 + 5 * n)) % 1024 % 256) == 21 + 5 * n
  {
  }

  lemma PmtHeads(buf: seq<byte>, n: nat)
    requires |buf| == PACKET_SIZE && buf[..17] == PmtHead(n) && n <= 34
    ensures ReadHead(buf) == Head(PMT_PID, true, 4)
    ensures ReadTableHead(buf, 4) == Some((13, 21 + 5 * n)) && buf[16] == 0
  {
    HeadLayers(n);
    SliceSlice(buf, 0, 17, 0, 13);
    assert buf[16] == buf[..17][16];
    TableHeadReads(buf, PMT_PID, 2, 4 + 5 * n);
    SectionEnd(n);
  }

  lemma PmtRead(buf: seq<byte>, end: nat, tracks: map<nat, Pes>)
    requires |buf| == PACKET_SIZE && ReadHead(buf) == Head(PMT_PID, true, 4) && buf[16] == 0 && end < 250
    requires ReadTableHead(buf, 4) == Some((13, end)) && end > 4
    requires ReadTracks(buf, 17, end, map[]) == Some((tracks, end - 4))
    ensures Turn(Demux(PMT_PID, None), buf) == (Demux(PMT_PID, Some(tracks)), Meta, true)
  {
    var d := Demux(PMT_PID, None);
    assert Wrap(13 + 4 + buf[16]) == 17 && Wrap(end - 4 + 4) != SKIP_READ;
    assert ReadPmt(d, buf, 4) == (Demux(PMT_PID, Some(tracks)), Meta, true);
  }

  lemma PmtEnd(buf: seq<byte>, n: nat) returns (end: nat)
    requires |buf| == PACKET_SIZE && n <= 34 && buf[..17] == PmtHead(n)
    ensures end == 21 + 5 * n < 250 && ReadHead(buf) == Head(PMT_PID, true, 4) && buf[16] == 0
    ensures ReadTableHead(buf, 4) == Some((13, end))
  {
    end := 21 + 5 * n;
    PmtHeads(buf, n);
  }

  lemma PmtBuffer(buf: seq<byte>, types: seq<byte>)
    requires |buf| == PACKET_SIZE && |types| <= 34
    requires buf[..17] == PmtHead(|types|) && buf[17..17 + 5 * |types|] == PmtEntries(types)
    ensures Turn(Demux(PMT_PID, None), buf) == (Demux(PMT_PID, Some(Learned(types))), Meta, true)
  {
    var end := PmtEnd(buf, |types|);
    var at, i := 17, 0;
    TracksRead(buf, at, end, map[], types, i);
    PmtRead(buf, end, Learned(types));
  }

  const NEW_DEMUX: Demux := Demux(0, None)

  // The first packet of the program map, and what does not fit it.
  function FirstPart(types: seq<byte>, crc: seq<byte>): (p: seq<byte>)
    requires |crc| == 4 && |types| < 0x1F00
    ensures |p| == PACKET_SIZE
  {
    Pmt(types, crc)[..PACKET_SIZE]
  }

  function Leftover(types: seq<byte>, crc: seq<byte>): seq<byte>
    requires |crc| == 4 && |types| < 0x1F00
  {
    Pmt(types, crc)[PACKET_SIZE..]
  }

  lemma {:induction false} LeftoverSize(types: seq<byte>, crc: seq<byte>)
    requires |crc| == 4 && |types| < 0x1F00
    ensures |Leftover(types, crc)| % PACKET_SIZE == 0
    ensures Leftover(types, crc) == [] <==> |types| <= 33
  {
    var size := 21 + 5 * |types|;
    assert |Pmt(types, crc)| == size + (PACKET_SIZE - size % PACKET_SIZE);
    PaddedSize(size);
  }

  lemma {:induction false} PaddedSize(size: nat)
    ensures var all := size + (PACKET_SIZE - size % PACKET_SIZE);
            all >= PACKET_SIZE && (all - PACKET_SIZE) % PACKET_SIZE == 0 && (all == PACKET_SIZE <==> size < PACKET_SIZE)
  {
    var q := size / PACKET_SIZE;
    assert size + (PACKET_SIZE - size % PACKET_SIZE) == PACKET_SIZE * (q + 1);
  }

  // Reading the header comes down to the first packet of the program map.
  lemma {:induction false} HeaderStarts(types: seq<byte>, patCrc: seq<byte>, pmtCrc: seq<byte>, rest: seq<byte>)
    requires |patCrc| == 4 && |pmtCrc| == 4 && |types| < 0x1F00
    ensures Read(NEW_DEMUX, Pat(patCrc) + Pmt(types, pmtCrc) + rest)
         == Read(Demux(PMT_PID, None), FirstPart(types, pmtCrc) + (Leftover(types, pmtCrc) + rest))
  {
    var pmt := Pmt(types, pmtCrc);
    Assoc(Pat(patCrc), pmt, rest);
    ReadOne(NEW_DEMUX, Pat(patCrc), pmt + rest);
    PatTurn(NEW_DEMUX, patCrc);
    Split(pmt, PACKET_SIZE);
    Assoc(FirstPart(types, pmtCrc), Leftover(types, pmtCrc), rest);
  }

  lemma {:induction false} FirstLayout(types: seq<byte>, crc: seq<byte>)
    requires |crc| == 4 && |types| < 0x1F00
    ensures FirstPart(types, crc)[..17] == PmtHead(|types|)
    ensures |types| <= 34 ==> FirstPart(types, crc)[17..17 + 5 * |types|] == PmtEntries(types)
  {
    PmtLayout(types, crc);
    SliceSlice(Pmt(types, crc), 0, PACKET_SIZE, 0, 17);
    if |types| <= 34 {
      SliceSlice(Pmt(types, crc), 0, PACKET_SIZE, 17, 17 + 5 * |types|);
    }
  }

  // GetHeader teaches a new demuxer exactly the muxer's map from PIDs to types, for up to 34
  // tracks; what does not fit the packet is left in the stream.
  lemma {:induction false} MapTaught(types: seq<byte>, patCrc: seq<byte>, pmtCrc: seq<byte>, rest: seq<byte>)
    requires |patCrc| == 4 && |pmtCrc| == 4 && |types| <= 34
    ensures Read(NEW_DEMUX, Pat(patCrc) + Pmt(types, pmtCrc) + rest)
         == (Demux(PMT_PID, Some(Learned(types))), Meta, Leftover(types, pmtCrc) + rest)
  {
    HeaderStarts(types, patCrc, pmtCrc, rest);
    FirstLayout(types, pmtCrc);
    PmtBuffer(FirstPart(types, pmtCrc), types);
    ReadOne(Demux(PMT_PID, None), FirstPart(types, pmtCrc), Leftover(types, pmtCrc) + rest);
  }

  // Up to 33 tracks leave nothing behind.
  lemma {:induction false} HeaderTeaches(types: seq<byte>, patCrc: seq<byte>, pmtCrc: seq<byte>, rest: seq<byte>)
    requires |patCrc| == 4 && |pmtCrc| == 4 && |types| <= 33
    ensures Read(NEW_DEMUX, Pat(patCrc) + Pmt(types, pmtCrc) + rest)
         == (Demux(PMT_PID, Some(Learned(types))), Meta, rest)
  {
    MapTaught(types, patCrc, pmtCrc, rest);
    LeftoverSize(types, pmtCrc);
    var none: seq<byte> := [];
    assert none + rest == rest;
  }

  // ---------- longer headers ----------

  lemma {:induction false} LearnSize(tracks: map<nat, Pes>, types: seq<byte>, i: nat)
    requires i <= |types| && forall pid :: pid in tracks ==> pid < PES0_PID + i
    ensures |Learn(tracks, types, i)| == |tracks| + |types| - i
    decreases |types| - i
  {
    if i < |types| {
      LearnSize(tracks[PES0_PID + i := NewPes(types[i])], types, i + 1);
    }
  }

  // A packet has room for one entry every five bytes.
  lemma {:induction false} TracksAtMost(buf: seq<byte>, at: nat, end: nat, tracks: map<nat, Pes>)
    requires |buf| == PACKET_SIZE && at < 256
    ensures var r := ReadTracks(buf, at, end, tracks);
            r.Some? ==> 5 * |r.value.0| <= 5 * |tracks| + (if at < PACKET_SIZE then PACKET_SIZE - at else 0)
    decreases 256 - at
  {
    if MoreThanCrc(at, end) && at + 5 <= PACKET_SIZE && at + 5 + buf[at + 4] <= PACKET_SIZE {
      var pid, next := Word(buf, at + 1) % 0x2000, at + 5 + buf[at + 4];
      var tracks' := tracks[pid := NewPes(TrackType(buf[at], buf[at + 5..next]))];
      assert |tracks'| <= |tracks| + 1;
      TracksAtMost(buf, next, end, tracks');
    }
  }

  // Whatever a program map says, its first packet does not teach more than 34 tracks.
  lemma {:induction false} PmtAtMost(buf: seq<byte>, n: nat, rest: seq<byte>)
    requires |buf| == PACKET_SIZE && buf[..17] == PmtHead(n)
    ensures var r := Read(Demux(PMT_PID, None), buf + rest);
            |r.2| >= |rest| && (r.0.tracks.Some? ==> |r.0.tracks.value| <= 34)
  {
    var d := Demux(PMT_PID, None);
    HeadLayers(n);
    SliceSlice(buf, 0, 17, 0, 13);
    TableHeadReads(buf, PMT_PID, 2, 4 + 5 * n);
    assert buf[16] == buf[..17][16];
    TracksAtMost(buf, 17, Wrap(8 + (9 + (4 + 5 * n)) % 1024 % 256), map[]);
    ReadOne(d, buf, rest);
    assert !ReadPmt(d, buf, 4).1.Quiet?;
  }

  lemma {:induction false} LongHeader(types: seq<byte>, patCrc: seq<byte>, pmtCrc: seq<byte>, rest: seq<byte>)
    requires |patCrc| == 4 && |pmtCrc| == 4 && |types| < 0x1F00
    ensures var r := Read(NEW_DEMUX, Pat(patCrc) + Pmt(types, pmtCrc) + rest);
            && (|types| > 33 ==> |r.2| > |rest|)
            && (|types| > 34 ==> r.0 != Demux(PMT_PID, Some(Learned(types))))
  {
    HeaderStarts(types, patCrc, pmtCrc, rest);
    FirstLayout(types, pmtCrc);
    LeftoverSize(types, pmtCrc);
    PmtAtMost(FirstPart(types, pmtCrc), |types|, Leftover(types, pmtCrc) + rest);
    LearnSize(map[], types, 0);
  }

  // The map is learned exactly for up to 34 tracks, ...
  lemma {:induction false} MapLimit(types: seq<byte>, patCrc: seq<byte>, pmtCrc: seq<byte>, rest: seq<byte>)
    requires |patCrc| == 4 && |pmtCrc| == 4 && |types| < 0x1F00
    ensures Read(NEW_DEMUX, Pat(patCrc) + Pmt(types, pmtCrc) + rest).0 == Demux(PMT_PID, Some(Learned(types)))
       <==> |types| <= 34
  {
    if |types| <= 34 {
      MapTaught(types, patCrc, pmtCrc, rest);
    } else {
      LongHeader(types, patCrc, pmtCrc, rest);
    }
  }

  // ... and the header is used up exactly for up to 33.
  lemma {:induction false} HeaderLimit(types: seq<byte>, patCrc: seq<byte>, pmtCrc: seq<byte>, rest: seq<byte>)
    requires |patCrc| == 4 && |pmtCrc| == 4 && |types| < 0x1F00
    ensures Read(NEW_DEMUX, Pat(patCrc) + Pmt(types, pmtCrc) + rest).2 == rest <==> |types| <= 33
  {
    if |types| <= 33 {
      HeaderTeaches(types, patCrc, pmtCrc, rest);
    } else {
      LongHeader(types, patCrc, pmtCrc, rest);
    }
  }

  // With 34 tracks three bytes of the checksum are left, and zeros up to a whole packet.
  lemma {:induction false} LeftoverOf34(types: seq<byte>, crc: seq<byte>)
    requires |crc| == 4 && |types| == 34
    ensures Leftover(types, crc) == crc[1..] + Zeros(185)
  {
    var front := PmtHead(34) + PmtEntries(types);
    var section, pad := front + crc, Zeros(PACKET_SIZE - |front + crc| % PACKET_SIZE);
    assert Pmt(types, crc) == section + pad;
    assert (section + pad)[PACKET_SIZE..] == section[PACKET_SIZE..] + pad;
    assert section[PACKET_SIZE..] == crc[1..];
  }

  // The next read takes them for a packet. That fails, unless the second byte of the checksum
  // happens to be the sync byte; then it adds zeros to the track that the next two bytes name,
  // if they name one and do not start a payload, and goes on.
  lemma {:induction false} LeftoverTurn(types: seq<byte>, crc: seq<byte>)
    requires |crc| == 4 && |types| == 34
    ensures var d, p := Demux(PMT_PID, Some(Learned(types))), Leftover(types, crc);
            var pid, start := (256 * (crc[2] as nat) + crc[3]) % 0x2000, Field(crc[2], 64, 2) == 1;
            |p| == PACKET_SIZE && Turn(d, p)
            == if crc[1] != SYNC then (d, WrongSync, true)
               else if pid in Learned(types) && !start
               then (With(d, pid, Learned(types)[pid].(payload := Zeros(184))), Quiet, true)
               else (d, Quiet, true)
  {
    LeftoverOf34(types, crc);
    LearnedExactly(types);
    forall pid | pid in Learned(types)
      ensures Learned(types)[pid].payload == [] && Learned(types)[pid].size == 0
    {
      assert Learned(types)[PES0_PID + (pid - PES0_PID)] == NewPes(types[pid - PES0_PID]);
    }
    ZeroTurn(Demux(PMT_PID, Some(Learned(types))), crc, Leftover(types, crc));
  }

  lemma {:induction false} ZeroTurn(d: Demux, crc: seq<byte>, p: seq<byte>)
    requires |crc| == 4 && p == crc[1..] + Zeros(185) && d.tracks.Some?
    requires forall pid :: pid in d.tracks.value ==> d.tracks.value[pid].payload == [] && d.tracks.value[pid].size == 0
    ensures var pid, start := (256 * (crc[2] as nat) + crc[3]) % 0x2000, Field(crc[2], 64, 2) == 1;
            Turn(d, p)
            == if crc[1] != SYNC then (d, WrongSync, true)
               else if pid in d.tracks.value && !start
               then (With(d, pid, d.tracks.value[pid].(payload := Zeros(184))), Quiet, true)
               else (d, Quiet, true)
  {
    assert p[0] == crc[1] && p[1] == crc[2] && p[2] == crc[3] && p[3] == 0 && p[4] == 0 && p[5] == 0 && p[6] == 0;
    if crc[1] == SYNC {
      var pid := (256 * (crc[2] as nat) + crc[3]) % 0x2000;
      assert ReadHead(p) == Head(pid, Field(crc[2], 64, 2) == 1, 4);
      if pid in d.tracks.value {
        var pes := d.tracks.value[pid];
        assert d.tracks.value[pid := pes] == d.tracks.value;
        assert p[4..] == Zeros(184);
        assert pes.payload + p[4..] == Zeros(184);
      }
    }
  }
}
