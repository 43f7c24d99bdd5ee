// The transport stream packets that pkg/mpegts writes, as byte strings (sections 2.4.3.2 and
// 2.4.3.6 of ISO/IEC 13818-1).
module TsSyntax {
  import opened Bytes
  import opened Seqs

  const PACKET_SIZE: nat := 188
  const SYNC: byte := 0x47
  const PAT_PID: nat := 0
  const PMT_PID: nat := 0x1000
  const PES0_PID: nat := 0x100

  const TYPE_PRIVATE: byte := 0x06
  const TYPE_AAC: byte := 0x0F
  const TYPE_H264: byte := 0x1B
  const TYPE_H265: byte := 0x24
  const TYPE_PCMA: byte := 0x90
  const TYPE_PCMU: byte := 0x91
  const TYPE_OPUS: byte := 0xEB

  // x | 1
  function Odd(x: nat): (y: nat)
    ensures y / 2 == x / 2 && y % 2 == 1 && (x < 256 ==> y < 256)
  {
    x - x % 2 + 1
  }

  // ---------- presentation times ----------

  // WriteTime: 0010 ttt1 tttttttt ttttttt1 tttttttt ttttttt1
  function TimeBytes(t: nat): (b: seq<byte>)
    requires t < TWO32
    ensures |b| == 5
  {
    [0x20 + Odd(t / 0x2000_0000), t / 0x40_0000 % 256, Odd(t / 0x4000 % 256), t / 0x80 % 256, Odd(2 * t % 256)]
  }

  // The fifteen bits in front of a marker bit.
  function Fifteen(high: nat, low: nat): nat {
    high * 128 + low / 2
  }

  // readTime at index p: the uint32 shift drops the 33rd bit
  function TimeAt(b: seq<byte>, p: nat): (t: nat)
    requires p + 5 <= |b|
  {
    var top: nat := b[p];
    (top / 2 % 8) * 0x4000_0000 % TWO32 + Fifteen(b[p + 1], b[p + 2]) * 0x8000 + Fifteen(b[p + 3], b[p + 4])
  }

  lemma FifteenBits(v: nat, low: nat)
    requires low / 2 == v % 0x80
    ensures Fifteen(v / 0x80 % 256, low) == v % 0x8000
  {
  }

  lemma TopBits(t: nat)
    requires t < TWO32
    ensures (0x20 + Odd(t / 0x2000_0000)) / 2 % 8 == t / 0x4000_0000
  {
  }

  lemma HalfBits(u: nat)
    ensures Fifteen(u / 256 % 256, Odd(u % 256)) == u / 2 % 0x8000
  {
    assert u / 2 / 0x80 == u / 256;
    assert u % 256 / 2 == u / 2 % 0x80;
    FifteenBits(u / 2, Odd(u % 256));
  }

  lemma MiddleBits(t: nat)
    ensures Fifteen(t / 0x40_0000 % 256, Odd(t / 0x4000 % 256)) == t / 0x8000 % 0x8000
  {
    HalfBits(t / 0x4000);
    assert t / 0x4000 / 256 == t / 0x40_0000;
    assert t / 0x4000 / 2 == t / 0x8000;
  }

  lemma LowBits(t: nat)
    ensures Fifteen(t / 0x80 % 256, Odd(2 * t % 256)) == t % 0x8000
  {
    FifteenBits(t, Odd(2 * t % 256));
  }

  lemma TimeSum(t: nat)
    requires t < TWO32
    ensures (t / 0x4000_0000) * 0x4000_0000 % TWO32 + (t / 0x8000 % 0x8000) * 0x8000 + t % 0x8000 == t
  {
    var v := t / 0x8000;
    assert v / 0x8000 == t / 0x4000_0000;
  }

  // readTime inverts WriteTime for every 32-bit time.
  lemma TimeRoundTrip(t: nat, b: seq<byte>, p: nat)
    requires t < TWO32 && p + 5 <= |b| && b[p..p + 5] == TimeBytes(t)
    ensures TimeAt(b, p) == t
  {
    var e := b[p..p + 5];
    assert b[p] == e[0] && b[p + 1] == e[1] && b[p + 2] == e[2] && b[p + 3] == e[3] && b[p + 4] == e[4];
    var top: nat := e[0];
    assert top / 2 % 8 == t / 0x4000_0000 by {
      TopBits(t);
    }
    assert Fifteen(e[1], e[2]) == t / 0x8000 % 0x8000 by {
      MiddleBits(t);
    }
    assert Fifteen(e[3], e[4]) == t % 0x8000 by {
      LowBits(t);
    }
    TimeSum(t);
  }

  // ---------- packets ----------

  // One packet of a packetized elementary stream: a short chunk is pushed to the end of the
  // packet by an adaptation field.
  function TsPacket(pid: nat, start: bool, sequence: nat, chunk: seq<byte>): (b: seq<byte>)
    requires pid < 0x2000 && |chunk| <= 184
    ensures |b| == PACKET_SIZE && b[188 - |chunk|..] == chunk
  {
    var id := pid + if start then 0x4000 else 0;
    var head: seq<byte> := [SYNC, id / 256, id % 256];
    var flags: seq<byte> :=
      if |chunk| < 184 then [0x30 + sequence % 16, 183 - |chunk|] + Zeros(183 - |chunk|)
      else [0x10 + sequence % 16];
    Halves(head + flags, chunk);
    head + flags + chunk
  }

  // The packets of one PES: only the first carries the start flag, the counter goes on.
  function Packets(pid: nat, start: bool, sequence: nat, data: seq<byte>): (ps: seq<seq<byte>>)
    requires pid < 0x2000
    ensures forall k :: 0 <= k < |ps| ==> |ps[k]| == PACKET_SIZE
    decreases |data|
  {
    if data == [] then []
    else if |data| < 184 then [TsPacket(pid, start, sequence, data)]
    else [TsPacket(pid, start, sequence, data[..184])] + Packets(pid, false, (sequence + 1) % TWO16, data[184..])
  }

  // The length field is left zero when it does not fit.
  function PesSize(length: nat): (size: nat)
    ensures size < TWO16
  {
    if 8 + length <= 0xFFFF then 8 + length else 0
  }

  function PesHeader(streamId: byte, pts: nat, length: nat): (b: seq<byte>)
    requires pts < TWO32
    ensures |b| == 14
  {
    var size := PesSize(length);
    var head: seq<byte> := [0, 0, 1, streamId, size / 256, size % 256, 0x80, 0x80, 5];
    head + TimeBytes(pts)
  }

  // ---------- program tables ----------

  // A section alone in its packet(s), zeros behind it; checksums are not computed here.
  function Padded(b: seq<byte>): (r: seq<byte>)
    ensures |r| % PACKET_SIZE == 0 && |r| > |b|
  {
    b + Zeros(PACKET_SIZE - |b| % PACKET_SIZE)
  }

  // Packet header, pointer and the section header of a table with `size` bytes of content;
  // the section length is cut to ten bits.
  function TableHead(pid: nat, table: byte, size: nat): (b: seq<byte>)
    requires pid < 0x2000
    ensures |b| == 13
  {
    var length := (9 + size) % 1024;
    [SYNC, 0x40 + pid / 256, pid % 256, 0x10, 0, table, 0xB0 + length / 256, length % 256, 0, 1, 0xC1, 0, 0]
  }

  function Pat(crc: seq<byte>): (b: seq<byte>)
    requires |crc| == 4
    ensures |b| == PACKET_SIZE
  {
    var body: seq<byte> := [0, 1, 0xE0 + PMT_PID / 256, PMT_PID % 256];
    Padded(TableHead(PAT_PID, 0, 4) + body + crc)
  }

  function PmtEntry(pid: nat, streamType: byte): (b: seq<byte>)
    requires pid < 0x2000
    ensures |b| == 5
  {
    [streamType, 0xE0 + pid / 256, pid % 256, 0xF0, 0]
  }

  // The tracks in the order of their PIDs.
  function PmtEntries(types: seq<byte>): (b: seq<byte>)
    requires |types| < 0x1F00
    ensures |b| == 5 * |types|
  {
    if types == [] then []
    else PmtEntries(types[..|types| - 1]) + PmtEntry(PES0_PID + |types| - 1, types[|types| - 1])
  }

  function PmtHead(n: nat): (b: seq<byte>)
    ensures |b| == 17
  {
    TableHead(PMT_PID, 2, 4 + 5 * n) + [0xFF, 0xFF, 0xF0, 0]
  }

  function Pmt(types: seq<byte>, crc: seq<byte>): (b: seq<byte>)
    requires |crc| == 4 && |types| < 0x1F00
    ensures |types| <= 33 <==> |b| == PACKET_SIZE
    ensures |types| > 33 ==> |b| >= 2 * PACKET_SIZE
  {
    Padded(PmtHead(|types|) + PmtEntries(types) + crc)
  }
}
