// pkg/mpegts/muxer.go: what its calls write, and the muxer itself over the bit writer.
module TsMux {
  import opened Bytes
  import opened Seqs
  import opened Bits
  import BitIO
  import opened TsSyntax

  datatype Track = Track(streamType: byte, streamId: byte, timestamp: nat, pts: nat, sequence: nat)

  function StreamId(streamType: byte): byte {
    if streamType == TYPE_H264 || streamType == TYPE_H265 then 0xE0
    else if streamType == TYPE_AAC || streamType == TYPE_PCMA then 0xC0
    else 0
  }

  function NewTrack(streamType: byte): Track {
    Track(streamType, StreamId(streamType), 0, 0, 0)
  }

  // Video (H.264, H.265) and audio (AAC, PCMA) streams are announced as such.
  lemma StreamIds(streamType: byte)
    ensures NewTrack(streamType).streamId
         == if streamType == 0x1B || streamType == 0x24 then 0xE0
            else if streamType == 0x0F || streamType == 0x90 then 0xC0 else 0
  {
  }

  predicate TrackOk(t: Track) {
    t.timestamp < TWO32 && t.pts < TWO32 && t.sequence < TWO16
  }

  function Types(tracks: seq<Track>): (types: seq<byte>)
    ensures |types| == |tracks|
  {
    seq(|tracks|, i requires 0 <= i < |tracks| => tracks[i].streamType)
  }

  // The presentation clock follows the caller's timestamps, from zero at the first one.
  function Clock(t: Track, timestamp: nat): (r: Track)
    requires TrackOk(t) && timestamp < TWO32
    ensures TrackOk(r)
  {
    t.(pts := if t.timestamp != 0 then (t.pts + TWO32 + timestamp - t.timestamp) % TWO32 else t.pts,
       timestamp := timestamp)
  }

  // The packets of one GetPayload call, given the track after Clock.
  function Chop(pid: nat, t: Track, payload: seq<byte>): seq<seq<byte>>
    requires pid < 0x2000 && TrackOk(t)
  {
    Packets(pid, true, t.sequence, PesHeader(t.streamId, t.pts, |payload|) + payload)
  }

  function AfterChop(pid: nat, t: Track, payload: seq<byte>): (r: Track)
    requires pid < 0x2000 && TrackOk(t)
    ensures TrackOk(r)
  {
    t.(sequence := (t.sequence + |Chop(pid, t, payload)|) % TWO16)
  }

  // ---------- the presentation clock ----------

  // How far the clock is ahead of the timestamps.
  function Offset(t: Track): (d: nat)
    ensures d < TWO32
  {
    (t.pts - t.timestamp) % TWO32
  }

  // The muxer takes a timestamp of zero for "none yet": the next one is not counted.
  function Uncounted(t: Track, timestamp: nat): nat {
    if t.timestamp == 0 then timestamp else 0
  }

  lemma {:induction false} OffsetStep(t: Track, timestamp: nat)
    requires TrackOk(t) && timestamp < TWO32
    ensures Offset(Clock(t, timestamp)) == (Offset(t) - Uncounted(t, timestamp)) % TWO32
  {
    ModSub(t.pts - t.timestamp, Uncounted(t, timestamp), TWO32);
    if t.timestamp != 0 {
      ModSub(t.pts + TWO32 + timestamp - t.timestamp, timestamp, TWO32);
      ModAdd(t.pts - t.timestamp, 1, TWO32);
    }
  }

  predicate TimesOk(timestamps: seq<nat>) {
    forall k :: 0 <= k < |timestamps| ==> timestamps[k] < TWO32
  }

  function ClockAfter(t: Track, timestamps: seq<nat>): (r: Track)
    requires TrackOk(t) && TimesOk(timestamps)
    ensures TrackOk(r)
    decreases |timestamps|
  {
    if timestamps == [] then t else ClockAfter(Clock(t, timestamps[0]), timestamps[1..])
  }

  // The sum of the timestamps that follow a timestamp of zero.
  function UncountedSum(t: Track, timestamps: seq<nat>): nat
    requires TrackOk(t) && TimesOk(timestamps)
    decreases |timestamps|
  {
    if timestamps == [] then 0
    else Uncounted(t, timestamps[0]) + UncountedSum(Clock(t, timestamps[0]), timestamps[1..])
  }

  // After any timestamps the clock is behind by that sum.
  lemma {:induction false} OffsetOfRun(t: Track, timestamps: seq<nat>)
    requires TrackOk(t) && TimesOk(timestamps)
    ensures Offset(ClockAfter(t, timestamps)) == (Offset(t) - UncountedSum(t, timestamps)) % TWO32
    decreases |timestamps|
  {
    if timestamps == [] {
      Small(Offset(t), TWO32);
    } else {
      var t', rest := Clock(t, timestamps[0]), timestamps[1..];
      OffsetStep(t, timestamps[0]);
      OffsetOfRun(t', rest);
      ModSub(Offset(t) - Uncounted(t, timestamps[0]), UncountedSum(t', rest), TWO32);
    }
  }

  // So it keeps pace with the timestamps over a run exactly if the sum is a multiple of 2^32.
  lemma {:induction false} ClockKeepsPace(t: Track, timestamps: seq<nat>)
    requires TrackOk(t) && TimesOk(timestamps)
    ensures Offset(ClockAfter(t, timestamps)) == Offset(t) <==> UncountedSum(t, timestamps) % TWO32 == 0
  {
    OffsetOfRun(t, timestamps);
    SubStays(Offset(t), UncountedSum(t, timestamps), TWO32);
  }

  // A new track counts from its first timestamp: unless a later one is zero, the clock is the
  // distance from there.
  lemma {:induction false} ClockFromFirst(streamType: byte, timestamps: seq<nat>)
    requires TimesOk(timestamps) && timestamps != []
    requires forall k :: 0 <= k < |timestamps| - 1 ==> timestamps[k] != 0
    ensures var last := timestamps[|timestamps| - 1];
            ClockAfter(NewTrack(streamType), timestamps).pts == (last - timestamps[0]) % TWO32
  {
    var t := Clock(NewTrack(streamType), timestamps[0]);
    CountsAll(t, timestamps[1..], timestamps[0]);
  }

  lemma {:induction false} CountsAll(t: Track, timestamps: seq<nat>, first: nat)
    requires TrackOk(t) && TimesOk(timestamps) && t.pts == (t.timestamp - first) % TWO32
    requires timestamps != [] ==> t.timestamp != 0
    requires forall k :: 0 <= k < |timestamps| - 1 ==> timestamps[k] != 0
    ensures var last := if timestamps == [] then t.timestamp else timestamps[|timestamps| - 1];
            ClockAfter(t, timestamps).pts == (last - first) % TWO32
    decreases |timestamps|
  {
    if timestamps != [] {
      var next := timestamps[0];
      ModSub(t.timestamp - first, t.timestamp - TWO32 - next, TWO32);
      ModAdd(next - first, 1, TWO32);
      CountsAll(Clock(t, next), timestamps[1..], first);
    }
  }

  // ---------- bits and bytes ----------

  // Two fields next to each other are one wider field.
  lemma {:induction false} Join(a: nat, m: nat, b: nat, n: nat)
    requires b < Pow2(n)
    ensures ToBits(a, m) + ToBits(b, n) == ToBits(a * Pow2(n) + b, m + n)
    decreases n
  {
    if n > 0 {
      var v := a * Pow2(n) + b;
      assert v / 2 == a * Pow2(n - 1) + b / 2 && v % 2 == b % 2 by {
        assert a * Pow2(n) == 2 * (a * Pow2(n - 1));
      }
      Assoc(ToBits(a, m), ToBits(b / 2, n - 1), [b % 2]);
      Join(a, m, b / 2, n - 1);
    }
  }

  lemma Fold(w: seq<bit>, a: nat, m: nat, b: nat, n: nat)
    requires b < Pow2(n)
    ensures (w + ToBits(a, m)) + ToBits(b, n) == w + ToBits(a * Pow2(n) + b, m + n)
  {
    Join(a, m, b, n);
    Assoc(w, ToBits(a, m), ToBits(b, n));
  }

  lemma JoinAt(a: nat, m: nat, b: nat, n: nat, p: nat)
    requires p == Pow2(n) && b < p
    ensures ToBits(a, m) + ToBits(b, n) == ToBits(a * p + b, m + n)
  {
    Join(a, m, b, n);
  }

  lemma {:induction false} SnocByte(s: seq<byte>, low: byte, high: nat, m: nat)
    requires BitsOf(s) == ToBits(high, m)
    ensures BitsOf(s + [low]) == ToBits(high * 256 + low, m + 8)
  {
    JoinByte(high, m, low);
    SnocTake(s, low);
  }

  lemma {:induction false} JoinByte(high: nat, m: nat, low: byte)
    ensures ToBits(high, m) + ToBits(low, 8) == ToBits(high * 256 + low, m + 8)
  {
    Pow32();
    JoinAt(high, m, low, 8, 256);
  }

  lemma {:induction false} BitsOfBe(v: nat, n: nat)
    ensures BitsOf(Be(v, n)) == ToBits(v, 8 * n)
  {
    if n > 0 {
      BitsOfBe(v / 256, n - 1);
      SnocByte(Be(v / 256, n - 1), v % 256, v / 256, 8 * (n - 1));
    }
  }

  lemma {:induction false} BitsInjective(a: seq<byte>, b: seq<byte>)
    requires BitsOf(a) == BitsOf(b)
    ensures a == b
  {
    if a != [] {
      var n := |a| - 1;
      BitIO.LastByte(a[..n], a[n], 8);
      BitIO.LastByte(b[..n], b[n], 8);
      TakeLast(a);
      TakeLast(b);
      BitsInjective(a[..n], b[..n]);
      Halves(BitsOf(a[..n]), ToBits(a[n], 8));
      Halves(BitsOf(b[..n]), ToBits(b[n], 8));
      BitIO.ByteBits(a[n]);
      BitIO.ByteBits(b[n]);
    }
  }

  // A writer that is back on a byte boundary holds the bytes of what was written.
  lemma Flushed(w: BitIO.Writer, before: seq<byte>, v: nat, n: nat)
    requires w.Valid() && w.Written() == BitsOf(before) + ToBits(v, 8 * n)
    ensures w.bits == 0 && w.buf == before + Be(v, n)
  {
    assert w.Written() == BitsOf(w.buf);
    BitsOfBe(v, n);
    BitsOfAppend(before, Be(v, n));
    BitsInjective(w.buf, before + Be(v, n));
  }

  // ---------- the muxer ----------

  // WriteTime into a buffer at index `at`.
  method WriteTime(b: array<byte>, at: nat, t: nat)
    requires at + 5 <= b.Length && t < TWO32
    modifies b
    ensures b[..] == old(b[..at]) + TimeBytes(t) + old(b[at + 5..])
  {
    b[at] := 0x20 + Odd(t / 0x2000_0000);
    b[at + 1] := t / 0x40_0000 % 256;
    b[at + 2] := Odd(t / 0x4000 % 256);
    b[at + 3] := t / 0x80 % 256;
    b[at + 4] := Odd(2 * t % 256);
  }

  class Muxer {
    var pes: map<nat, Track>

    ghost predicate Valid()
      reads this
    {
      && |pes| < 0x1F00
      && (forall pid :: pid in pes <==> PES0_PID <= pid < PES0_PID + |pes|)
      && (forall pid :: pid in pes ==> TrackOk(pes[pid]))
    }

    ghost function Tracks(): (ts: seq<Track>)
      requires Valid()
      reads this
      ensures |ts| == |pes|
    {
      seq(|pes|, i requires 0 <= i < |pes| && PES0_PID + i in pes reads this => pes[PES0_PID + i])
    }

    constructor ()
      ensures Valid() && Tracks() == []
    {
      pes := map[];
    }

    // PIDs have 13 bits.
    method AddTrack(streamType: byte) returns (pid: nat)
      requires Valid() && |pes| < 0x1EFF
      modifies this
      ensures Valid() && pid == PES0_PID + |old(pes)| && Tracks() == old(Tracks()) + [NewTrack(streamType)]
    {
      pid := PES0_PID + |pes|;
      pes := pes[pid := NewTrack(streamType)];
    }

    // writeHeader, two bytes of flags and PID and one of control
    method WriteHeader(wr: BitIO.Writer, pid: nat)
      requires wr.Valid() && wr.bits == 0 && pid < 0x2000
      modifies wr
      ensures wr.Valid() && wr.bits == 0
      ensures wr.buf == old(wr.buf) + [SYNC, 0x40 + pid / 256, pid % 256, 0x10]
    {
      PutBytes(wr, [SYNC]);
      WritePid(wr, pid);
      WriteControl(wr);
    }

    method WritePid(wr: BitIO.Writer, pid: nat)
      requires wr.Valid() && wr.bits == 0 && pid < 0x2000
      modifies wr
      ensures wr.Valid() && wr.bits == 0 && wr.buf == old(wr.buf) + [0x40 + pid / 256, pid % 256]
    {
      ghost var b := wr.buf;
      WriteFlags(wr);
      AddBits(wr, pid, 13, 8192, b, 2, 3, 0x4000 + pid);
      Flushed2(wr, b, 0x4000 + pid);
    }

    // Error indicator, payload unit start and priority.
    method WriteFlags(wr: BitIO.Writer)
      requires wr.Valid() && wr.bits == 0
      modifies wr
      ensures Wrote(wr, old(wr.buf), 2, 3)
    {
      ghost var b := wr.buf;
      Aligned(wr);
      AddBits(wr, 0, 1, 2, b, 0, 0, 0);
      AddBits(wr, 1, 1, 2, b, 0, 1, 1);
      AddBits(wr, 0, 1, 2, b, 1, 2, 2);
    }

    method WriteControl(wr: BitIO.Writer)
      requires wr.Valid() && wr.bits == 0
      modifies wr
      ensures wr.Valid() && wr.bits == 0 && wr.buf == old(wr.buf) + [0x10]
    {
      ghost var b := wr.buf;
      Aligned(wr);
      AddBits(wr, 0, 2, 4, b, 0, 0, 0);
      AddBits(wr, 0, 1, 2, b, 0, 2, 0);
      AddBits(wr, 1, 1, 2, b, 0, 3, 1);
      assert Wrote(wr, b, 1, 4);
      AddBits(wr, 0, 4, 16, b, 1, 4, 0x10);
      Flushed1(wr, b, 0x10);
    }

    // Three reserved bits and a PID.
    method WriteReservedPid(wr: BitIO.Writer, pid: nat)
      requires wr.Valid() && wr.bits == 0 && pid < 0x2000
      modifies wr
      ensures wr.Valid() && wr.bits == 0 && wr.buf == old(wr.buf) + [0xE0 + pid / 256, pid % 256]
    {
      ghost var b := wr.buf;
      Aligned(wr);
      AddBits(wr, 7, 3, 8, b, 0, 0, 7);
      AddBits(wr, pid, 13, 8192, b, 7, 3, 0xE000 + pid);
      Flushed2(wr, b, 0xE000 + pid);
    }

    // Four reserved bits and an info length of zero.
    method WriteNoInfo(wr: BitIO.Writer)
      requires wr.Valid() && wr.bits == 0
      modifies wr
      ensures wr.Valid() && wr.bits == 0 && wr.buf == old(wr.buf) + [0xF0, 0]
    {
      WriteInfo(wr, 15, 0);
    }

    method WriteInfo(wr: BitIO.Writer, reserved: nat, length: nat)
      requires wr.Valid() && wr.bits == 0 && reserved < 16 && length < 1024
      modifies wr
      ensures wr.Valid() && wr.bits == 0 && wr.buf == old(wr.buf) + [16 * reserved + length / 256, length % 256]
    {
      ghost var b := wr.buf;
      WriteSix(wr, reserved);
      InfoBytes(reserved, length);
      AddBits(wr, length, 10, 1024, b, 4 * reserved, 6, 4096 * reserved + length);
      Flushed2(wr, b, 4096 * reserved + length);
    }

    // Four bits and two zeros.
    method WriteSix(wr: BitIO.Writer, reserved: nat)
      requires wr.Valid() && wr.bits == 0 && reserved < 16
      modifies wr
      ensures Wrote(wr, old(wr.buf), 4 * reserved, 6)
    {
      ghost var b := wr.buf;
      Aligned(wr);
      AddBits(wr, reserved, 4, 16, b, 0, 0, reserved);
      AddBits(wr, 0, 2, 4, b, reserved, 4, 4 * reserved);
    }

    // The bits around the section length, which is cut to ten.
    method WriteLength(wr: BitIO.Writer, size: nat)
      requires wr.Valid() && wr.bits == 0
      modifies wr
      ensures var length := (9 + size) % 1024;
              wr.Valid() && wr.bits == 0 && wr.buf == old(wr.buf) + [0xB0 + length / 256, length % 256]
    {
      ghost var b := wr.buf;
      Aligned(wr);
      AddBits(wr, 1, 1, 2, b, 0, 0, 1);
      AddBits(wr, 0, 1, 2, b, 1, 1, 2);
      AddBits(wr, 3, 2, 4, b, 2, 2, 11);
      AddBits(wr, 0, 2, 4, b, 11, 4, 44);
      AddBits(wr, 5 + size + 4, 10, 1024, b, 44, 6, 0xB000 + (9 + size) % 1024);
      Flushed2(wr, b, 0xB000 + (9 + size) % 1024);
    }

    method WriteVersion(wr: BitIO.Writer)
      requires wr.Valid() && wr.bits == 0
      modifies wr
      ensures wr.Valid() && wr.bits == 0 && wr.buf == old(wr.buf) + [0xC1]
    {
      ghost var b := wr.buf;
      WriteNumber(wr);
      AddBits(wr, 1, 1, 2, b, 96, 7, 0xC1);
      Flushed1(wr, b, 0xC1);
    }

    // Two reserved bits and version zero.
    method WriteNumber(wr: BitIO.Writer)
      requires wr.Valid() && wr.bits == 0
      modifies wr
      ensures Wrote(wr, old(wr.buf), 96, 7)
    {
      ghost var b := wr.buf;
      Aligned(wr);
      AddBits(wr, 3, 2, 4, b, 0, 0, 3);
      AddBits(wr, 0, 5, 32, b, 3, 2, 96);
    }

    // writeHeader and writePSIHeader
    method WriteTableHead(wr: BitIO.Writer, pid: nat, table: byte, size: nat)
      requires wr.Valid() && wr.bits == 0 && pid < 0x2000
      modifies wr
      ensures wr.Valid() && wr.bits == 0 && wr.buf == old(wr.buf) + TableHead(pid, table, size)
    {
      WriteHeader(wr, pid);
      PutBytes(wr, [0, table]);
      WriteLength(wr, size);
      PutBytes(wr, [0, 1]);
      WriteVersion(wr);
      PutBytes(wr, [0, 0]);
    }

    method WriteTail(wr: BitIO.Writer)
      requires wr.Valid() && wr.bits == 0
      modifies wr
      ensures wr.Valid() && wr.bits == 0
      ensures wr.buf == old(wr.buf) + Zeros(PACKET_SIZE - |old(wr.buf)| % PACKET_SIZE)
    {
      PutBytes(wr, Zeros(PACKET_SIZE - |wr.buf| % PACKET_SIZE));
    }

    method WritePat(wr: BitIO.Writer, crc: seq<byte>)
      requires wr.Valid() && wr.buf == [] && |crc| == 4
      modifies wr
      ensures wr.Valid() && wr.bits == 0 && wr.buf == Pat(crc)
    {
      WriteTableHead(wr, PAT_PID, 0, 4);
      PutBytes(wr, [0, 1]);
      WriteReservedPid(wr, PMT_PID);
      PutBytes(wr, crc);
      WriteTail(wr);
      PatShape(crc);
    }

    method WritePmtEntry(wr: BitIO.Writer, pid: nat, streamType: byte)
      requires wr.Valid() && wr.bits == 0 && pid < 0x2000
      modifies wr
      ensures wr.Valid() && wr.bits == 0 && wr.buf == old(wr.buf) + PmtEntry(pid, streamType)
    {
      PutBytes(wr, [streamType]);
      WriteReservedPid(wr, pid);
      WriteNoInfo(wr);
    }

    // The loop over the tracks, which stops at the first PID that is not there.
    method WritePmtEntries(wr: BitIO.Writer)
      requires Valid() && wr.Valid() && wr.bits == 0
      modifies wr
      ensures wr.Valid() && wr.bits == 0 && wr.buf == old(wr.buf) + PmtEntries(Types(Tracks()))
    {
      ghost var types := Types(Tracks());
      var pid := PES0_PID;
      assert types[..0] == [];
      while pid in pes
        invariant PES0_PID <= pid <= PES0_PID + |pes| && wr.Valid() && wr.bits == 0
        invariant wr.buf == old(wr.buf) + PmtEntries(types[..pid - PES0_PID])
        decreases PES0_PID + |pes| - pid
      {
        WritePmtEntry(wr, pid, pes[pid].streamType);
        EntriesGrow(types, pid - PES0_PID, old(wr.buf));
        pid := pid + 1;
      }
      assert types[..|pes|] == types;
    }

    method WritePmtHead(wr: BitIO.Writer)
      requires wr.Valid() && wr.bits == 0
      modifies wr
      ensures wr.Valid() && wr.bits == 0 && wr.buf == old(wr.buf) + PmtHead(|pes|)
    {
      WriteTableHead(wr, PMT_PID, 2, 4 + 5 * |pes|);
      WriteReservedPid(wr, 0x1FFF);
      WriteNoInfo(wr);
    }

    method WritePmt(wr: BitIO.Writer, crc: seq<byte>)
      requires Valid() && wr.Valid() && wr.bits == 0 && |wr.buf| == PACKET_SIZE && |crc| == 4
      modifies wr
      ensures wr.Valid() && wr.bits == 0 && wr.buf == old(wr.buf) + Pmt(Types(Tracks()), crc)
    {
      WritePmtHead(wr);
      WritePmtEntries(wr);
      PutBytes(wr, crc);
      WriteTail(wr);
      ghost var head, entries := PmtHead(|pes|), PmtEntries(Types(Tracks()));
      Nest(old(wr.buf), head, entries, crc);
      PadBehind(old(wr.buf), head + entries + crc);
    }

    // The two checksums are parameters.
    method GetHeader(patCrc: seq<byte>, pmtCrc: seq<byte>) returns (b: seq<byte>)
      requires Valid() && |patCrc| == 4 && |pmtCrc| == 4
      ensures b == Pat(patCrc) + Pmt(Types(Tracks()), pmtCrc)
    {
      var bw := new BitIO.Writer();
      WritePat(bw, patCrc);
      WritePmt(bw, pmtCrc);
      b := bw.buf;
    }

    // writePES: one packet; returns what is left of the payload.
    method WritePes(wr: BitIO.Writer, pid: nat, start: bool, sequence: nat, payload: seq<byte>) returns (left: seq<byte>)
      requires wr.Valid() && wr.bits == 0 && pid < 0x2000
      modifies wr
      ensures wr.Valid() && wr.bits == 0
      ensures var n := if |payload| < 184 then |payload| else 184;
              left == payload[n..] && wr.buf == old(wr.buf) + TsPacket(pid, start, sequence, payload[..n])
    {
      var id := pid;
      if start {
        id := id + 0x4000;
      }
      PutBytes(wr, [SYNC]);
      PutBytes(wr, [id / 256, id % 256]);
      var counter := sequence % 16;
      if |payload| < 184 {
        PutBytes(wr, [0x30 + counter]);
        PutBytes(wr, [183 - |payload|]);
        PutBytes(wr, Zeros(183 - |payload|));
        PutBytes(wr, payload);
        left := [];
        assert payload[..|payload|] == payload;
        ShortShape(old(wr.buf), pid, start, sequence, payload);
      } else {
        PutBytes(wr, [0x10 + counter]);
        PutBytes(wr, payload[..184]);
        left := payload[184..];
      }
    }

    // One round of the loop: a packet more is written.
    method WriteNext(wr: BitIO.Writer, pid: nat, start: bool, sequence: nat, data: seq<byte>, ghost done: seq<seq<byte>>)
      returns (left: seq<byte>, ghost p: seq<byte>)
      requires wr.Valid() && wr.bits == 0 && wr.buf == Flat(done) && pid < 0x2000 && data != []
      modifies wr
      ensures wr.Valid() && wr.bits == 0 && wr.buf == Flat(done + [p]) && |left| < |data|
      ensures done + Packets(pid, start, sequence, data)
              == (done + [p]) + Packets(pid, false, (sequence + 1) % TWO16, left)
    {
      p := PacketsNext(done, pid, start, sequence, data);
      left := WritePes(wr, pid, start, sequence, data);
    }

    // The loop over writePES.
    method WriteAll(pid: nat, first: nat, payload: seq<byte>) returns (b: seq<byte>, sequence: nat)
      requires pid < 0x2000 && first < TWO16
      ensures var ps := Packets(pid, true, first, payload);
              b == Flat(ps) && sequence == (first + |ps|) % TWO16
    {
      ghost var all, done: seq<seq<byte>> := Packets(pid, true, first, payload), [];
      assert done + all == all;
      var data, start := payload, true;
      sequence := first;
      var wr := new BitIO.Writer();
      while data != []
        invariant wr.Valid() && wr.bits == 0 && fresh(wr) && wr.buf == Flat(done)
        invariant all == done + Packets(pid, start, sequence, data)
        invariant sequence == (first + |done|) % TWO16
        decreases |data|
      {
        ghost var p;
        Increment(first + |done|);
        data, p := WriteNext(wr, pid, start, sequence, data, done);
        sequence := (sequence + 1) % TWO16;
        start := false;
        done := done + [p];
      }
      NoPackets(done, pid, start, sequence);
      b := wr.buf;
    }

    // The part of GetPayload behind the clock.
    method Render(pid: nat, t: Track, payload: seq<byte>) returns (b: seq<byte>, t': Track)
      requires pid < 0x2000 && TrackOk(t)
      ensures b == Flat(Chop(pid, t, payload)) && t' == AfterChop(pid, t, payload)
    {
      var header := Header(t.streamId, t.pts, |payload|);
      var sequence;
      b, sequence := WriteAll(pid, t.sequence, header + payload);
      t' := t.(sequence := sequence);
    }

    // H.264 and H.265 payloads are converted first, which is not part of this model.
    method GetPayload(pid: nat, timestamp: nat, payload: seq<byte>) returns (b: seq<byte>)
      requires Valid() && pid in pes && timestamp < TWO32
      requires pes[pid].streamType != TYPE_H264 && pes[pid].streamType != TYPE_H265
      modifies this
      ensures Valid() && |pes| == old(|pes|)
      ensures var t := Clock(old(pes[pid]), timestamp);
              b == Flat(Chop(pid, t, payload))
              && Tracks() == old(Tracks())[pid - PES0_PID := AfterChop(pid, t, payload)]
    {
      var t := pes[pid];
      if t.timestamp != 0 {
        t := t.(pts := (t.pts + TWO32 + timestamp - t.timestamp) % TWO32);
      }
      t := t.(timestamp := timestamp);
      assert t == Clock(old(pes[pid]), timestamp);
      b, t := Render(pid, t, payload);
      pes := pes[pid := t];
    }

    method Header(streamId: byte, pts: nat, length: nat) returns (h: seq<byte>)
      requires pts < TWO32
      ensures h == PesHeader(streamId, pts, length)
    {
      var b := new byte[14](_ => 0);
      FillHeader(b, streamId, length);
      WriteTime(b, 9, pts);
      h := b[..];
    }

    // Everything in front of the time.
    method FillHeader(b: array<byte>, streamId: byte, length: nat)
      requires b.Length == 14 && b[4] == 0 && b[5] == 0
      modifies b
      ensures b[..9] == [0, 0, 1, streamId, PesSize(length) / 256, PesSize(length) % 256, 0x80, 0x80, 5]
    {
      b[0], b[1], b[2] := 0, 0, 1;
      b[3] := streamId;
      var size := 3 + 5 + length;
      if size <= 0xFFFF {
        b[4], b[5] := size / 256, size % 256;
      }
      b[6] := 0x80;
      b[7] := 0x80;
      b[8] := 5;
    }
  }

  // ---------- groups of fields that fill whole bytes ----------

  lemma Be1(v: byte)
    ensures Be(v, 1) == [v]
  {
    assert Be(v / 256, 0) == [];
  }

  lemma Be2(v: nat)
    requires v < TWO16
    ensures Be(v, 2) == [v / 256, v % 256]
  {
    Be1(v / 256);
  }

  // m bits, together the number v, have been written behind the bytes `before`.
  ghost predicate Wrote(w: BitIO.Writer, before: seq<byte>, v: nat, m: nat)
    reads w
  {
    w.Valid() && w.Written() == BitsOf(before) + ToBits(v, m)
  }

  lemma Aligned(w: BitIO.Writer)
    requires w.Valid() && w.bits == 0
    ensures Wrote(w, w.buf, 0, 0)
  {
  }

  // Only the low bits of a field are written.
  lemma {:induction false} ToBitsMod(v: nat, n: nat)
    ensures ToBits(v, n) == ToBits(v % Pow2(n), n)
  {
    ToFromBits(ToBits(v, n));
    FromToBits(v, n);
  }

  // Bytes written on a byte boundary are the bytes behind the ones there.
  method PutBytes(w: BitIO.Writer, bytes: seq<byte>)
    requires w.Valid() && w.bits == 0
    modifies w
    ensures w.Valid() && w.bits == 0 && w.buf == old(w.buf) + bytes
  {
    BitsOfAppend(w.buf, bytes);
    w.WriteBytes(bytes);
    assert w.Written() == BitsOf(w.buf);
    BitsInjective(w.buf, old(w.buf) + bytes);
  }

  // WriteBits, keeping count of the number written so far: from a to r. p is 2^n.
  method AddBits(w: BitIO.Writer, v: nat, n: nat, ghost p: nat, ghost before: seq<byte>, ghost a: nat, ghost m: nat, ghost r: nat)
    requires n <= 64 && p == Pow2(n) && Wrote(w, before, a, m) && r == a * p + v % p
    modifies w
    ensures Wrote(w, before, r, m + n)
  {
    w.WriteBits(v, n);
    ToBitsMod(v, n);
    Fold(BitsOf(before), a, m, v % Pow2(n), n);
  }

  lemma Flushed1(w: BitIO.Writer, before: seq<byte>, v: byte)
    requires Wrote(w, before, v, 8)
    ensures w.bits == 0 && w.buf == before + [v]
  {
    Flushed(w, before, v, 1);
    Be1(v);
  }

  lemma Flushed2(w: BitIO.Writer, before: seq<byte>, v: nat)
    requires v < TWO16 && Wrote(w, before, v, 16)
    ensures w.bits == 0 && w.buf == before + [v / 256, v % 256]
  {
    Flushed(w, before, v, 2);
    Be2(v);
  }

  lemma InfoBytes(reserved: nat, length: nat)
    requires reserved < 16 && length < 1024
    ensures length % 1024 == length && 4096 * reserved + length < TWO16
    ensures (4096 * reserved + length) / 256 == 16 * reserved + length / 256
    ensures (4096 * reserved + length) % 256 == length % 256
  {
  }

  // ---------- shapes ----------

  lemma PatShape(crc: seq<byte>)
    requires |crc| == 4
    ensures var section := TableHead(PAT_PID, 0, 4) + [0, 1] + [0xE0 + PMT_PID / 256, PMT_PID % 256] + crc;
            Pat(crc) == section + Zeros(PACKET_SIZE - |section| % PACKET_SIZE)
  {
    Assoc(TableHead(PAT_PID, 0, 4), [0, 1], [0xE0 + PMT_PID / 256, PMT_PID % 256]);
  }

  lemma EntriesGrow(types: seq<byte>, i: nat, before: seq<byte>)
    requires i < |types| < 0x1F00
    ensures (before + PmtEntries(types[..i])) + PmtEntry(PES0_PID + i, types[i]) == before + PmtEntries(types[..i + 1])
  {
    assert types[..i + 1][..i] == types[..i];
    Assoc(before, PmtEntries(types[..i]), PmtEntry(PES0_PID + i, types[i]));
  }

  lemma PadBehind(before: seq<byte>, section: seq<byte>)
    requires |before| == PACKET_SIZE
    ensures before + Padded(section) == (before + section) + Zeros(PACKET_SIZE - |before + section| % PACKET_SIZE)
  {
    assert |before + section| % PACKET_SIZE == |section| % PACKET_SIZE;
    Assoc(before, section, Zeros(PACKET_SIZE - |section| % PACKET_SIZE));
  }

  lemma Nest(a: seq<byte>, b: seq<byte>, c: seq<byte>, d: seq<byte>)
    ensures a + b + c + d == a + (b + c + d)
  {
  }

  lemma ShortShape(before: seq<byte>, pid: nat, start: bool, sequence: nat, chunk: seq<byte>)
    requires pid < 0x2000 && |chunk| < 184
    ensures var id := pid + if start then 0x4000 else 0;
            before + [SYNC] + [id / 256, id % 256] + [0x30 + sequence % 16] + [183 - |chunk|] + Zeros(183 - |chunk|) + chunk
            == before + TsPacket(pid, start, sequence, chunk)
  {
  }

  lemma Increment(x: nat)
    ensures (x % TWO16 + 1) % TWO16 == (x + 1) % TWO16
  {
  }

  lemma PacketsStep(pid: nat, start: bool, sequence: nat, data: seq<byte>)
    requires pid < 0x2000 && data != []
    ensures var n := if |data| < 184 then |data| else 184;
            Packets(pid, start, sequence, data)
            == [TsPacket(pid, start, sequence, data[..n])] + Packets(pid, false, (sequence + 1) % TWO16, data[n..])
  {
    if |data| < 184 {
      assert data[..|data|] == data;
    }
  }

  // One round of the loop: the packet moves from the ones to come to the ones written.
  lemma PacketsNext(done: seq<seq<byte>>, pid: nat, start: bool, sequence: nat, data: seq<byte>) returns (p: seq<byte>)
    requires pid < 0x2000 && data != []
    ensures var n := if |data| < 184 then |data| else 184;
            && p == TsPacket(pid, start, sequence, data[..n])
            && done + Packets(pid, start, sequence, data)
               == (done + [p]) + Packets(pid, false, (sequence + 1) % TWO16, data[n..])
    ensures Flat(done + [p]) == Flat(done) + p
  {
    var n := if |data| < 184 then |data| else 184;
    p := TsPacket(pid, start, sequence, data[..n]);
    PacketsStep(pid, start, sequence, data);
    Assoc(done, [p], Packets(pid, false, (sequence + 1) % TWO16, data[n..]));
    FlatSnoc(done, p);
  }

  lemma NoPackets(done: seq<seq<byte>>, pid: nat, start: bool, sequence: nat)
    requires pid < 0x2000
    ensures done + Packets(pid, start, sequence, []) == done
  {
  }
}
