// The demuxer of pkg/mpegts/demuxer.go with its cursor, proved against TsDemux. A Go panic
// (an index past the packet buffer) is the sticky flag `panicked`.
module TsDemuxer {
  import opened Wrappers
  import opened Bytes
  import opened Bits
  import BitIO
  import opened TsSyntax
  import opened TsDemux

  // ---------- bits of bytes ----------

  lemma {:induction false} Sandwich(hi: nat, v: nat, lo: nat, p: nat, q: nat)
    requires v < p && lo < q
    ensures ((hi * p + v) * q + lo) / q % p == v
  {
    Euclid((hi * p + v) * q + lo, q, hi * p + v, lo);
    Euclid(hi * p + v, p, hi, v);
  }

  // n bits with m more below them in byte i
  lemma {:induction false} SubValue(buf: seq<byte>, i: nat, k: nat, n: nat, m: nat)
    requires i < |buf| && k + n + m == 8
    ensures Value(BitsOf(buf), Cursor(8 * i + k, false), n) == buf[i] as nat / Pow2(m) % Pow2(n)
  {
    var s, c := BitsOf(buf), Cursor(8 * i, false);
    var c1 := Skip(s, c, k);
    SkipWithin(s, c, k);
    SkipWithin(s, c1, n);
    SkipSkip(s, c, k, n + m);
    SkipSkip(s, c1, n, m);
    BitIO.AlignedByte(buf, i, false);
    ValueBound(s, c1, n);
    ValueBound(s, Skip(s, c1, n), m);
    PowAdd(n, m);
    var hi, v, lo := Value(s, c, k), Value(s, c1, n), Value(s, Skip(s, c1, n), m);
    Distribute(hi, Pow2(n), v, Pow2(m));
    assert buf[i] == (hi * Pow2(n) + v) * Pow2(m) + lo;
    Sandwich(hi, v, lo, Pow2(n), Pow2(m));
  }

  lemma {:induction false} SkipWithin(s: seq<bit>, c: Cursor, n: nat)
    requires c.at + n <= |s|
    ensures Skip(s, c, n) == Cursor(c.at + n, c.eof)
  {
    TakeWithin(s, c, n);
  }

  lemma {:induction false} LowValue(buf: seq<byte>, i: nat, k: nat)
    requires i < |buf| && k <= 8
    ensures Value(BitsOf(buf), Cursor(8 * i + k, false), 8 - k) == buf[i] as nat % Pow2(8 - k)
  {
    SubValue(buf, i, k, 8 - k, 0);
    assert Pow2(0) == 1;
  }

  lemma {:induction false} HighPart(x: byte, n: nat)
    requires n <= 8
    ensures x as nat / Pow2(8 - n) % Pow2(n) == x as nat / Pow2(8 - n)
  {
    Pow32();
    Quotient(x, 8 - n, n);
    Small(x as nat / Pow2(8 - n), Pow2(n));
  }

  lemma {:induction false} HighValue(buf: seq<byte>, i: nat, n: nat)
    requires i < |buf| && n <= 8
    ensures Value(BitsOf(buf), Cursor(8 * i, false), n) == buf[i] as nat / Pow2(8 - n)
  {
    SubValue(buf, i, 0, n, 8 - n);
    HighPart(buf[i], n);
  }

  // The low 8 - k bits of byte i and then n bits of the next.
  lemma {:induction false} WideValue(buf: seq<byte>, i: nat, k: nat, n: nat)
    requires i + 1 < |buf| && k < 8 && n <= 8
    ensures Value(BitsOf(buf), Cursor(8 * i + k, false), 8 - k + n)
         == (buf[i] as nat % Pow2(8 - k)) * Pow2(n) + buf[i + 1] as nat / Pow2(8 - n)
  {
    var s, c := BitsOf(buf), Cursor(8 * i + k, false);
    SkipSkip(s, c, 8 - k, n);
    SkipWithin(s, c, 8 - k);
    LowValue(buf, i, k);
    HighValue(buf, i + 1, n);
  }

  lemma {:induction false} Quotient(x: nat, m: nat, n: nat)
    requires x < Pow2(m + n)
    ensures x / Pow2(m) < Pow2(n)
  {
    PowAdd(m, n);
    var q := x / Pow2(m);
    if q >= Pow2(n) {
      BitIO.MulMono(Pow2(n), q, Pow2(m));
    }
  }

  lemma {:induction false} FifteenValue(buf: seq<byte>, i: nat)
    requires i + 1 < |buf|
    ensures Value(BitsOf(buf), Cursor(8 * i, false), 15) == Fifteen(buf[i], buf[i + 1])
  {
    WideValue(buf, i, 0, 7);
    assert Pow2(8) == 256 && Pow2(7) == 128 && Pow2(1) == 2;
    Small(buf[i], 256);
  }

  class Demuxer {
    var buf: seq<byte>
    var cur: byte
    var bits: nat
    var pos: nat
    var end: nat
    var pmtID: nat
    var pes: Option<map<nat, Pes>>
    var panicked: bool

    ghost predicate Valid()
      reads this
    {
      && |buf| == PACKET_SIZE && pos < 256 && end < 256 && bits < 8
      && (bits > 0 && !panicked ==> 0 < pos <= PACKET_SIZE && cur == buf[pos - 1])
    }

    // Between two bytes.
    ghost predicate Aligned()
      reads this
    {
      Valid() && (!panicked ==> bits == 0)
    }

    ghost function At(): nat
      reads this
    {
      if 8 * pos >= bits then 8 * pos - bits else 0
    }

    ghost function View(): Demux
      reads this
    {
      Demux(pmtID, pes)
    }

    constructor ()
      ensures Valid() && View() == Demux(0, None) && !Holding()
    {
      buf, cur, bits, pos, end := Zeros(PACKET_SIZE), 0, 0, 0, 0;
      pmtID, pes, panicked := 0, None, false;
    }

    // pos == skipRead: the next ReadPacket takes the packet it has.
    ghost predicate Holding()
      reads this
    {
      pos == SKIP_READ
    }

    // ---------- the cursor ----------

    method ReadBit() returns (r: bit)
      requires Valid()
      modifies `cur, `bits, `pos, `panicked
      ensures Valid() && panicked == (old(panicked) || old(At()) >= 8 * PACKET_SIZE)
      ensures !panicked ==> At() == old(At()) + 1 && r == BitsOf(buf)[old(At())]
    {
      if bits == 0 {
        if pos >= PACKET_SIZE {
          panicked := true;
          return 0;
        }
        cur := buf[pos];
        pos := pos + 1;
        bits := 7;
      } else {
        bits := bits - 1;
      }
      if !panicked {
        BitIO.ShiftedBit(buf, pos - 1, bits);
      }
      r := Shr(cur, bits) % 2;
    }

    method ReadBits(n: nat) returns (res: nat)
      requires Valid()
      modifies `cur, `bits, `pos, `panicked
      ensures Valid() && panicked == (old(panicked) || (n > 0 && old(At()) + n > 8 * PACKET_SIZE))
      ensures !panicked ==> At() == old(At()) + n && res == Value(BitsOf(buf), Cursor(old(At()), false), n)
    {
      res := 0;
      ghost var s, start := BitsOf(buf), At();
      var i := n;
      while i > 0
        invariant 0 <= i <= n && Valid()
        invariant panicked == (old(panicked) || (i < n && start + n - i > 8 * PACKET_SIZE))
        invariant !panicked ==> At() == start + n - i
        invariant !panicked ==> res + Value(s, Cursor(At(), false), i) == Value(s, Cursor(start, false), n)
      {
        i := i - 1;
        var b := ReadBit();
        res := res + b * Pow2(i);
      }
    }

    // readByte on a byte boundary
    method ReadByte() returns (b: byte)
      requires Aligned()
      modifies `cur, `bits, `pos, `panicked
      ensures Aligned() && panicked == (old(panicked) || old(pos) >= PACKET_SIZE)
      ensures !panicked ==> pos == old(pos) + 1 && b == buf[old(pos)]
    {
      if bits != 0 || pos >= PACKET_SIZE {
        panicked := true;
        return 0;
      }
      b := buf[pos];
      pos := pos + 1;
    }

    // The fields of one byte, from the high end.
    method ReadPart(n: nat, ghost i: nat, ghost k: nat) returns (v: nat)
      requires Valid() && n > 0 && k + n <= 8 && (!panicked ==> At() == 8 * i + k)
      modifies `cur, `bits, `pos, `panicked
      ensures Valid() && panicked == (old(panicked) || i >= PACKET_SIZE)
      ensures !panicked ==> At() == 8 * i + k + n && v == buf[i] as nat / Pow2(8 - k - n) % Pow2(n)
    {
      v := ReadBits(n);
      if !panicked {
        SubValue(buf, i, k, n, 8 - k - n);
      }
    }

    // The rest of one byte and the first n bits of the next.
    method ReadAcross(n: nat, ghost i: nat, ghost k: nat) returns (v: nat)
      requires Valid() && n == 8 - k + 8 && k < 8 && (!panicked ==> At() == 8 * i + k)
      modifies `cur, `bits, `pos, `panicked
      ensures Valid() && panicked == (old(panicked) || i + 1 >= PACKET_SIZE)
      ensures !panicked ==>
                At() == 8 * i + 16 && v == (buf[i] as nat % Pow2(8 - k)) * 256 + buf[i + 1] as nat
    {
      v := ReadBits(n);
      if !panicked {
        WideValue(buf, i, k, 8);
        Pow32();
      }
    }

    // Fields whose value is not used.
    method Drop(n: nat)
      requires Valid()
      modifies `cur, `bits, `pos, `panicked
      ensures Valid() && panicked == (old(panicked) || (n > 0 && old(At()) + n > 8 * PACKET_SIZE))
      ensures !panicked ==> At() == old(At()) + n
    {
      var _ := ReadBits(n);
    }

    method Skip(i: byte)
      requires Aligned()
      modifies `pos
      ensures Aligned() && pos == Wrap(old(pos) + i)
    {
      pos := (pos + i) % 256;
    }

    // Two bytes as a number.
    method ReadWord() returns (v: nat)
      requires Aligned()
      modifies `cur, `bits, `pos, `panicked
      ensures Aligned() && panicked == (old(panicked) || old(pos) + 2 > PACKET_SIZE)
      ensures !panicked ==> pos == old(pos) + 2 && v == Word(buf, old(pos))
    {
      ghost var p := pos;
      v := ReadAcross(16, p, 0);
      Pow32();
    }

    // Three bits and a PID.
    method ReadPid() returns (pid: nat)
      requires Aligned()
      modifies `cur, `bits, `pos, `panicked
      ensures Aligned() && panicked == (old(panicked) || old(pos) + 2 > PACKET_SIZE)
      ensures !panicked ==> pos == old(pos) + 2 && pid == Word(buf, old(pos)) % 0x2000
    {
      ghost var p := pos;
      Drop(3);
      pid := ReadAcross(13, p, 3);
      if !panicked {
        LowThirteen(buf[p], buf[p + 1]);
      }
    }

    // Six bits and a length of ten, of which the low byte is used.
    method ReadLength() returns (length: byte)
      requires Aligned()
      modifies `cur, `bits, `pos, `panicked
      ensures Aligned() && panicked == (old(panicked) || old(pos) + 2 > PACKET_SIZE)
      ensures !panicked ==> pos == old(pos) + 2 && length == buf[old(pos) + 1]
    {
      ghost var p := pos;
      Drop(4);
      Drop(2);
      var size := ReadAcross(10, p, 6);
      length := size % 256;
    }

    // ---------- packet header ----------

    method Reset()
      requires Valid()
      modifies `bits, `pos, `end
      ensures Aligned() && pos == 0
    {
      pos, end, bits := 0, PACKET_SIZE, 0;
    }

    method ReadPacketHeader() returns (h: Head)
      requires Valid() && !panicked
      modifies `cur, `bits, `pos, `end, `panicked
      ensures Aligned() && !panicked && h == ReadHead(buf) && (h.Head? ==> pos == h.at)
      ensures pos != SKIP_READ
    {
      Reset();
      var sync := ReadByte();
      if sync != SYNC {
        return Bad(WrongSync);
      }
      var start, pid := ReadIds();
      var adaptation := ReadFlags();
      if adaptation != 0 {
        var size := ReadByte();
        if size > 182 {
          return Bad(WrongAdaptation);
        }
        Skip(size);
      }
      return Head(pid, start != 0, pos);
    }

    method ReadIds() returns (start: nat, pid: nat)
      requires Aligned() && !panicked && pos == 1
      modifies `cur, `bits, `pos, `panicked
      ensures Aligned() && !panicked && pos == 3
      ensures start == Field(buf[1], 64, 2) && pid == Word(buf, 1) % 0x2000
    {
      Drop(1);
      start := ReadPart(1, 1, 1);
      Drop(1);
      pid := ReadAcross(13, 1, 3);
      LowThirteen(buf[1], buf[2]);
    }

    method ReadFlags() returns (adaptation: nat)
      requires Aligned() && !panicked && pos == 3
      modifies `cur, `bits, `pos, `panicked
      ensures Aligned() && !panicked && pos == 4 && adaptation == Field(buf[3], 32, 2)
    {
      Drop(2);
      adaptation := ReadPart(1, 3, 2);
      Drop(1);
      Drop(4);
    }

    // ---------- program tables ----------

    method ReadPsiHeader()
      requires Aligned() && !panicked && pos < PACKET_SIZE
      modifies `cur, `bits, `pos, `end, `panicked
      ensures Aligned()
      ensures var table := ReadTableHead(buf, old(pos));
              panicked == table.None? && (table.Some? ==> table.value == (pos, end))
    {
      var pointer := ReadByte();
      Skip(pointer);
      ReadSectionHead();
    }

    // From the table id to the last section number.
    method ReadSectionHead()
      requires Aligned() && !panicked
      modifies `cur, `bits, `pos, `end, `panicked
      ensures Aligned() && panicked == (old(pos) + 8 > PACKET_SIZE)
      ensures !panicked ==> pos == old(pos) + 8 && end == Wrap(old(pos) + 3 + buf[old(pos) + 2])
    {
      var _ := ReadByte();
      var size := ReadLength();
      end := (pos + size) % 256;
      DropVersion();
      var _ := ReadByte();
      var _ := ReadByte();
    }

    // Table id extension, reserved bits, version and the current/next indicator.
    method DropVersion()
      requires Aligned()
      modifies `cur, `bits, `pos, `panicked
      ensures Aligned() && panicked == (old(panicked) || old(pos) + 3 > PACKET_SIZE)
      ensures !panicked ==> pos == old(pos) + 3
    {
      Drop(16);
      Drop(2);
      Drop(5);
      Drop(1);
    }

    method ReadPat()
      requires Aligned() && !panicked && pos < PACKET_SIZE
      modifies `cur, `bits, `pos, `end, `pmtID, `panicked
      ensures Valid() && (!panicked ==> !Holding()) && pes == old(pes)
      ensures var (d, outcome) := TsDemux.ReadPat(old(View()), buf, old(pos));
              if panicked then outcome == Panic else outcome == Quiet && d == View()
    {
      ReadPsiHeader();
      ghost var start := pos;
      while !panicked && (256 + end - pos) % 256 > 4
        invariant Aligned() && (!panicked ==> start <= pos <= PACKET_SIZE)
        invariant !panicked ==>
                    ReadPrograms(buf, pos, end, pmtID) == ReadPrograms(buf, start, end, old(pmtID))
        invariant panicked ==>
                    ReadTableHead(buf, old(pos)).None? || ReadPrograms(buf, start, end, old(pmtID)).None?
        invariant ReadTableHead(buf, old(pos)).Some? ==> ReadTableHead(buf, old(pos)).value == (start, end)
        decreases if panicked then 0 else 1, PACKET_SIZE - pos
      {
        var num := ReadWord();
        var pid := ReadPid();
        if !panicked && num != 0 {
          pmtID := pid;
        }
      }
      if !panicked {
        Skip(4);
      }
    }

    // d.readBytes: a slice of the packet
    method ReadInfo(i: byte) returns (info: seq<byte>)
      requires Aligned() && !panicked && pos <= PACKET_SIZE
      modifies `pos, `panicked
      ensures Aligned() && panicked == (old(pos) + i > PACKET_SIZE)
      ensures !panicked ==> pos == old(pos) + i && info == buf[old(pos)..pos]
    {
      var low := pos;
      pos := (pos + i) % 256;
      if pos < low || pos > PACKET_SIZE {
        panicked := true;
        return [];
      }
      info := buf[low..pos];
    }

    method ReadPmt()
      requires Aligned() && !panicked && pos < PACKET_SIZE
      modifies `cur, `bits, `pos, `end, `pes, `panicked
      ensures Valid()
      ensures var (d, outcome, used) := TsDemux.ReadPmt(old(View()), buf, old(pos));
              if panicked then outcome == Panic else outcome == Meta && d == View() && used == !Holding()
    {
      ReadPsiHeader();
      if !panicked {
        ReadPmtBody();
      }
    }

    // What follows the section header.
    method ReadPmtBody()
      requires Aligned() && !panicked && pos <= PACKET_SIZE
      modifies `cur, `bits, `pos, `pes, `panicked
      ensures Valid()
      ensures panicked ==>
                old(pos) + 4 > PACKET_SIZE
                || ReadTracks(buf, Wrap(old(pos) + 4 + buf[old(pos) + 3]), end, map[]).None?
      ensures !panicked ==>
                && old(pos) + 4 <= PACKET_SIZE && pes.Some?
                && var r := ReadTracks(buf, Wrap(old(pos) + 4 + buf[old(pos) + 3]), end, map[]);
                   r.Some? && r.value.0 == pes.value && pos == Wrap(r.value.1 + 4)
    {
      SkipProgramInfo();
      if panicked {
        return;
      }
      ReadTrackList();
      if !panicked {
        Skip(4);
      }
    }

    method SkipProgramInfo()
      requires Aligned() && !panicked
      modifies `cur, `bits, `pos, `panicked
      ensures Aligned() && panicked == (old(pos) + 4 > PACKET_SIZE)
      ensures !panicked ==> pos == Wrap(old(pos) + 4 + buf[old(pos) + 3])
    {
      Drop(3);
      Drop(13);
      var size := ReadLength();
      if !panicked {
        Skip(size);
      }
    }

    method ReadTrackList()
      requires Aligned() && !panicked
      modifies `cur, `bits, `pos, `pes, `panicked
      ensures Aligned()
      ensures var r := ReadTracks(buf, old(pos), end, map[]);
              if panicked then r.None? else pes.Some? && r == Some((pes.value, pos))
    {
      pes := Some(map[]);
      while !panicked && (256 + end - pos) % 256 > 4
        invariant Aligned() && pes.Some?
        invariant !panicked ==>
                    ReadTracks(buf, pos, end, pes.value) == ReadTracks(buf, old(pos), end, map[])
        invariant panicked ==> ReadTracks(buf, old(pos), end, map[]).None?
        decreases if panicked then 0 else 1, 256 - pos
      {
        ReadTrack();
      }
    }

    // One turn of that loop.
    method ReadTrack()
      requires Aligned() && !panicked && pes.Some? && MoreThanCrc(pos, end)
      modifies `cur, `bits, `pos, `pes, `panicked
      ensures Aligned() && pes.Some?
      ensures var r := ReadTracks(buf, old(pos), end, old(pes.value));
              if panicked then r.None? else pos > old(pos) && r == ReadTracks(buf, pos, end, pes.value)
    {
      var streamType := ReadByte();
      var pid := ReadPid();
      var size := ReadLength();
      if panicked {
        return;
      }
      var info := ReadInfo(size);
      if panicked {
        return;
      }
      if streamType == TYPE_PRIVATE && OPUS_INFO <= info {
        streamType := TYPE_OPUS;
      }
      pes := Some(pes.value[pid := NewPes(streamType)]);
    }

    // ---------- elementary streams ----------

    method ReadTime() returns (ts: nat)
      requires Aligned()
      modifies `cur, `bits, `pos, `panicked
      ensures Aligned() && panicked == (old(panicked) || old(pos) + 5 > PACKET_SIZE)
      ensures !panicked ==> pos == old(pos) + 5 && ts == TimeAt(buf, old(pos))
    {
      var top := ReadTopByte();
      var high := ReadMarked();
      var low := ReadMarked();
      ts := top * 0x4000_0000 % TWO32 + high * 0x8000 + low;
    }

    method ReadTopByte() returns (top: nat)
      requires Aligned()
      modifies `cur, `bits, `pos, `panicked
      ensures Aligned() && panicked == (old(panicked) || old(pos) >= PACKET_SIZE)
      ensures !panicked ==> pos == old(pos) + 1 && top == buf[old(pos)] as nat / 2 % 8
    {
      ghost var p := pos;
      Drop(4);
      top := ReadTop(p);
      Drop(1);
    }

    // Fifteen bits and a marker.
    method ReadMarked() returns (v: nat)
      requires Aligned()
      modifies `cur, `bits, `pos, `panicked
      ensures Aligned() && panicked == (old(panicked) || old(pos) + 2 > PACKET_SIZE)
      ensures !panicked ==> pos == old(pos) + 2 && v == Fifteen(buf[old(pos)], buf[old(pos) + 1])
    {
      v := ReadFifteen(pos);
      Drop(1);
    }

    method ReadTop(ghost i: nat) returns (v: nat)
      requires Valid() && (!panicked ==> At() == 8 * i + 4)
      modifies `cur, `bits, `pos, `panicked
      ensures Valid() && panicked == (old(panicked) || i >= PACKET_SIZE)
      ensures !panicked ==> At() == 8 * i + 7 && v == buf[i] as nat / 2 % 8
    {
      v := ReadPart(3, i, 4);
    }

    method ReadFifteen(ghost i: nat) returns (v: nat)
      requires Valid() && (!panicked ==> At() == 8 * i)
      modifies `cur, `bits, `pos, `panicked
      ensures Valid() && panicked == (old(panicked) || i + 2 > PACKET_SIZE)
      ensures !panicked ==> At() == 8 * i + 15 && v == Fifteen(buf[i], buf[i + 1])
    {
      v := ReadBits(15);
      if !panicked {
        FifteenValue(buf, i);
      }
    }

    method ReadPrefix() returns (ok: bool)
      requires Aligned() && !panicked && pos < PACKET_SIZE
      modifies `cur, `bits, `pos, `panicked
      ensures Aligned()
      ensures var r := TsDemux.ReadPrefix(buf, old(pos));
              if panicked then r == None else r == Some(ok) && (ok ==> pos == old(pos) + 3) && pos <= PACKET_SIZE
    {
      var a := ReadByte();
      if a != 0 {
        return false;
      }
      var b := ReadByte();
      if panicked || b != 0 {
        return false;
      }
      var c := ReadByte();
      ok := c == 1;
    }

    method ReadTimeFlags() returns (hasPts: nat, hasDts: nat)
      requires Aligned()
      modifies `cur, `bits, `pos, `panicked
      ensures Aligned() && panicked == (old(panicked) || old(pos) >= PACKET_SIZE)
      ensures hasPts < 2 && hasDts < 2
      ensures !panicked ==>
                pos == old(pos) + 1
                && hasPts == Field(buf[old(pos)], 128, 2) && hasDts == Field(buf[old(pos)], 64, 2)
    {
      ghost var p := pos;
      var first := ReadBit();
      var second := ReadBit();
      hasPts, hasDts := first, second;
      if !panicked {
        BitIO.ShiftedBit(buf, p, 7);
        BitIO.ShiftedBit(buf, p, 6);
      }
      Drop(6);
    }

    // Marker, scrambling control, priority, alignment, copyright and copy bits.
    method DropFlags()
      requires Aligned()
      modifies `cur, `bits, `pos, `panicked
      ensures Aligned() && panicked == (old(panicked) || old(pos) >= PACKET_SIZE)
      ensures !panicked ==> pos == old(pos) + 1
    {
      Drop(2);
      Drop(2);
      Drop(1);
      Drop(1);
      Drop(1);
      Drop(1);
    }

    // The six bytes in front of the times.
    method ReadFixed() returns (streamId: byte, size: nat, hasPts: nat, hasDts: nat, length: byte)
      requires Aligned() && !panicked && pos <= PACKET_SIZE
      modifies `cur, `bits, `pos, `panicked
      ensures Aligned() && panicked == (old(pos) + 6 > PACKET_SIZE) && hasPts < 2 && hasDts < 2
      ensures var p := old(pos);
              !panicked ==>
                && pos == p + 6 && streamId == buf[p] && size == Word(buf, p + 1) && length == buf[p + 5]
                && hasPts == Field(buf[p + 4], 128, 2) && hasDts == Field(buf[p + 4], 64, 2)
    {
      streamId := ReadByte();
      size := ReadWord();
      DropFlags();
      hasPts, hasDts := ReadTimeFlags();
      length := ReadByte();
    }

    // A time if it is there; its five bytes are taken off the header length, a byte.
    method ReadTimeIf(present: nat, length: byte) returns (time: nat, left: byte)
      requires Aligned() && present < 2
      modifies `cur, `bits, `pos, `panicked
      ensures Aligned() && panicked == (old(panicked) || (present == 1 && old(pos) + 5 > PACKET_SIZE))
      ensures left == Wrap(256 + length - 5 * present)
      ensures !panicked ==>
                pos == old(pos) + 5 * present && time == if present == 1 then TimeAt(buf, old(pos)) else 0
    {
      time, left := 0, length;
      if present != 0 {
        time := ReadTime();
        left := (251 + length as nat) % 256;
      }
    }

    method ReadTimes(hasPts: nat, hasDts: nat, length: byte) returns (pts: nat, dts: nat)
      requires Aligned() && !panicked && pos <= PACKET_SIZE && hasPts < 2 && hasDts < 2
      modifies `cur, `bits, `pos, `panicked
      ensures Aligned()
      ensures var p, times := old(pos), 5 * hasPts + 5 * hasDts;
              var next := Wrap(p + times + Wrap(512 + length - times));
              && panicked == (p + times > PACKET_SIZE || next > PACKET_SIZE)
              && (!panicked ==>
                    && pos == next && pts == (if hasPts == 1 then TimeAt(buf, p) else 0)
                    && dts == (if hasDts == 1 then TimeAt(buf, p + 5 * hasPts) else 0))
    {
      var left, rest;
      pts, left := ReadTimeIf(hasPts, length);
      dts, rest := ReadTimeIf(hasDts, left);
      LeftOver(length, hasPts, hasDts);
      if !panicked {
        Skip(rest);
        if pos > PACKET_SIZE {
          panicked := true;
        }
      }
    }

    method ReadPesHead() returns (h: PesHead)
      requires Aligned() && !panicked && pos <= PACKET_SIZE
      modifies `cur, `bits, `pos, `panicked
      ensures Aligned()
      ensures TsDemux.ReadPesHead(buf, old(pos)) == if panicked then None else Some(h)
      ensures !panicked ==> pos == h.at <= PACKET_SIZE
    {
      h := PesHead(0, 0, 0, 0, 0);
      var streamId, size, hasPts, hasDts, length := ReadFixed();
      if panicked {
        return;
      }
      if size != 0 {
        size := (TWO16 + size - (3 + length as nat) % 256) % TWO16;
      }
      var pts, dts := ReadTimes(hasPts, hasDts, length);
      h := PesHead(streamId, size, pts, dts, pos);
    }

    // readPES up to the payload, for a packet that starts a PES
    method OpenPes(pes: Pes) returns (r: Pes, outcome: Outcome)
      requires Aligned() && !panicked && pos < PACKET_SIZE && pes.payload == []
      modifies `cur, `bits, `pos, `panicked
      ensures Aligned() && (!panicked ==> !Holding()) && outcome != Panic
      ensures var o := TsDemux.OpenPes(pes, buf, old(pos));
              if panicked then o.1 == Panic else o == (r, outcome)
    {
      r, outcome := pes, Quiet;
      var ok := ReadPrefix();
      if panicked || !ok {
        return;
      }
      var h := ReadPesHead();
      if panicked {
        return;
      }
      r := r.(streamId := h.streamId, pts := h.pts, dts := h.dts, payload := buf[pos..], size := h.size);
      r, outcome := Complete(r);
    }

    // The end of readPES.
    method Complete(pes: Pes) returns (r: Pes, outcome: Outcome)
      ensures (r, outcome) == Finish(pes)
    {
      r, outcome := pes, Quiet;
      if pes.size != 0 && |pes.payload| >= pes.size {
        var (p, o) := GetPacket(pes);
        r, outcome := p, o;
      }
    }

    // readPES for the packet at hand. A stream type without packets drops its payload and
    // has the packet read again.
    method ReadPes(pid: nat, start: bool) returns (outcome: Outcome)
      requires Aligned() && !panicked && pos < PACKET_SIZE && pes.Some? && pid in pes.value
      modifies `cur, `bits, `pos, `pes, `panicked
      ensures Aligned() && pes.Some? && outcome != Panic
      ensures var was := old(pes.value);
              var r := TsDemux.ReadPes(was[pid], buf, old(pos), start);
              if panicked then r.1 == Panic
              else if Holding() && outcome.Quiet? then
                start && was[pid].payload != [] && GetPacket(was[pid]).1.Quiet?
                && pes.value == was[pid := was[pid].(payload := [])]
              else pes.value == was[pid := r.0] && outcome == r.1 && r.2 == !Holding()
    {
      var p := pes.value[pid];
      outcome := Quiet;
      if start {
        if p.payload != [] {
          pos := SKIP_READ;
          p, outcome := Push(p);
        } else {
          p, outcome := OpenPes(p);
        }
      } else {
        p, outcome := Complete(p.(payload := p.payload + buf[pos..]));
      }
      pes := Some(pes.value[pid := p]);
    }

    method Push(pes: Pes) returns (r: Pes, outcome: Outcome)
      ensures (r, outcome) == GetPacket(pes)
    {
      var (p, o) := GetPacket(pes);
      r, outcome := p, o;
    }

    // ---------- the loop ----------

    // The held packet, if there is one, comes before the input.
    ghost function Pending(): seq<byte>
      reads this
    {
      if Holding() then buf else []
    }

    // One turn on the packet at hand.
    method Turn() returns (outcome: Outcome)
      requires Valid() && !panicked
      modifies `cur, `bits, `pos, `end, `pmtID, `pes, `panicked
      ensures Valid() && outcome != Panic
      ensures var (d, o, used) := TsDemux.Turn(old(View()), buf);
              if panicked then o == Panic
              else if Holding() && outcome.Quiet? then Repeats(old(View()), View(), buf)
              else d == View() && o == outcome && used == !Holding()
    {
      var h := ReadPacketHeader();
      if h.Bad? {
        return h.outcome;
      }
      outcome := Quiet;
      if pes.None? {
        if h.pid == PAT_PID {
          ReadPat();
        } else if h.pid == pmtID {
          ReadPmt();
          outcome := Meta;
        }
      } else if h.pid in pes.value {
        outcome := ReadPes(h.pid, h.start);
      }
    }

    // The next packet to work on, unless the input is too short.
    method Load(input: seq<byte>) returns (ok: bool, rest: seq<byte>)
      requires Valid() && !panicked
      modifies `buf, `bits
      ensures Valid() && (old(Holding()) ==> ok && buf == old(buf) && rest == input)
      ensures if ok then old(Pending()) + input == buf + rest && (!old(Holding()) ==> |rest| < |input|)
              else |old(Pending()) + input| < PACKET_SIZE && rest == [] && !Holding()
    {
      ok, rest := true, input;
      if pos != SKIP_READ {
        if |input| < PACKET_SIZE {
          return false, [];
        }
        buf, bits := input[..PACKET_SIZE], 0;
        rest := input[PACKET_SIZE..];
      }
    }

    // Reads packets until one of them brings something to return.
    method ReadPacket(input: seq<byte>) returns (outcome: Outcome, rest: seq<byte>)
      requires Valid() && !panicked
      modifies this
      ensures Valid()
      ensures var (d, o, left) := Read(old(View()), old(Pending()) + input);
              && outcome == o && (panicked <==> o == Panic)
              && (!panicked ==> d == View() && left == Pending() + rest)
    {
      rest := input;
      outcome := Quiet;
      ghost var again := false;
      while outcome.Quiet?
        invariant Valid() && panicked == outcome.Panic?
        invariant outcome.Quiet? ==>
                    Read(View(), Pending() + rest) == Read(old(View()), old(Pending()) + input)
        invariant !outcome.Quiet? && !panicked ==>
                    (View(), outcome, Pending() + rest) == Read(old(View()), old(Pending()) + input)
        invariant panicked ==> Read(old(View()), old(Pending()) + input).1 == Panic
        invariant again && outcome.Quiet? ==> Holding() && Idle(View(), buf)
        decreases outcome.Quiet?, |rest|, if !Holding() then 0 else if again then 1 else 2
      {
        var ok;
        ok, rest := Load(rest);
        if ok {
          ghost var d := View();
          assert Read(d, buf + rest) == Read(old(View()), old(Pending()) + input);
          ReadOne(d, buf, rest);
          var none: seq<byte> := [];
          assert none + rest == rest;
          outcome := Turn();
          if panicked {
            outcome := Panic;
          } else if outcome.Quiet? && pos == SKIP_READ {
            RepeatsSame(d, View(), buf);
            ReadOne(View(), buf, rest);
            again := true;
          } else {
            again := false;
          }
        } else {
          assert Pending() + rest == [];
          outcome := Eof;
        }
      }
    }
  }

  // The packet starts a PES on a track with an empty payload.
  predicate Idle(d: Demux, buf: seq<byte>)
    requires |buf| == PACKET_SIZE
  {
    var h := ReadHead(buf);
    h.Head? && h.start && d.tracks.Some? && h.pid in d.tracks.value && d.tracks.value[h.pid].payload == []
  }

  // d' is d after the payload in front of the packet was dropped without a packet.
  predicate Repeats(d: Demux, d': Demux, buf: seq<byte>)
    requires |buf| == PACKET_SIZE
  {
    var h := ReadHead(buf);
    && h.Head? && h.start && d.tracks.Some? && h.pid in d.tracks.value
    && var pes := d.tracks.value[h.pid];
       && pes.payload != [] && GetPacket(pes).1.Quiet?
       && d' == d.(tracks := Some(d.tracks.value[h.pid := pes.(payload := [])]))
  }

  // Reading the packet again then has the effect the first reading should have had.
  lemma {:induction false} RepeatsSame(d: Demux, d': Demux, buf: seq<byte>)
    requires |buf| == PACKET_SIZE && Repeats(d, d', buf)
    ensures TsDemux.Turn(d', buf) == TsDemux.Turn(d, buf) && Idle(d', buf)
  {
    var h := ReadHead(buf);
    var pes := d.tracks.value[h.pid].(payload := []);
    var r := TsDemux.ReadPes(pes, buf, h.at, true).0;
    assert d'.tracks.value[h.pid := r] == d.tracks.value[h.pid := r];
  }

  lemma {:induction false} LeftOver(length: byte, a: nat, b: nat)
    requires a < 2 && b < 2
    ensures Wrap(256 + Wrap(256 + length - 5 * a) - 5 * b) == Wrap(512 + length - (5 * a + 5 * b))
  {
  }

  lemma {:induction false} LowThirteen(a: byte, b: byte)
    ensures (a as nat % Pow2(5)) * 256 + b as nat == (256 * (a as nat) + b) % 0x2000
  {
    assert Pow2(5) == 32;
    Euclid(256 * (a as nat) + b, 0x2000, a as nat / 32, (a as nat % 32) * 256 + b);
  }
}
