// What pkg/mpegts/demuxer.go makes of a transport stream, packet by packet. Positions are the
// bytes they are in the source: they wrap at 256, and reading past byte 187 panics.
module TsDemux {
  import opened Wrappers
  import opened Bytes
  import opened Seqs
  import opened TsSyntax

  datatype Pes = Pes(
    streamId: byte, streamType: byte, sequence: nat, pts: nat, dts: nat, payload: seq<byte>, size: nat)

  datatype Packet = Packet(payloadType: byte, sequence: nat, timestamp: nat, payload: seq<byte>)

  // tracks: nil until a program map has been read
  datatype Demux = Demux(pmt: nat, tracks: Option<map<nat, Pes>>)

  // How one turn of the ReadPacket loop ends. Quiet: go on with the next packet.
  datatype Outcome =
    | Quiet
    | Eof
    | WrongSync
    | WrongAdaptation
    | Panic
    | Meta
    | Media(packet: Packet)
    | Repackaged  // H.264, H.265, AAC and Opus payloads go through code that is not part of this model

  predicate PassThrough(streamType: byte) {
    streamType == TYPE_PCMA || streamType == TYPE_PCMU
  }

  predicate NeedsRepackaging(streamType: byte) {
    streamType in {TYPE_H264, TYPE_H265, TYPE_AAC, TYPE_OPUS}
  }

  function NewPes(streamType: byte): Pes {
    Pes(0, streamType, 0, 0, 0, [], 0)
  }

  // ---------- packet header ----------

  datatype Head = Head(pid: nat, start: bool, at: nat) | Bad(outcome: Outcome)

  // Bits `width` wide behind `below` lower ones.
  function Field(b: nat, below: nat, width: nat): nat
    requires below > 0 && width > 0
  {
    b / below % width
  }

  function Word(b: seq<byte>, p: nat): nat
    requires p + 2 <= |b|
  {
    256 * (b[p] as nat) + b[p + 1]
  }

  function ReadHead(buf: seq<byte>): (h: Head)
    requires |buf| == PACKET_SIZE
    ensures h.Head? ==> h.at < PACKET_SIZE
  {
    if buf[0] != SYNC then Bad(WrongSync)
    else
      var pid, start := Word(buf, 1) % 0x2000, Field(buf[1], 64, 2) == 1;
      if Field(buf[3], 32, 2) == 0 then Head(pid, start, 4)
      else if buf[4] > 182 then Bad(WrongAdaptation)
      else Head(pid, start, 5 + buf[4])
  }

  // ---------- program tables ----------

  function Wrap(p: nat): (q: nat)
    ensures q < 256
  {
    p % 256
  }

  // left() > CRCSize
  predicate MoreThanCrc(at: nat, end: nat)
    requires at < 256
  {
    (256 + end - at) % 256 > 4
  }

  // Behind the section header and the end of the section; None is a panic.
  function ReadTableHead(buf: seq<byte>, at: nat): (r: Option<(nat, nat)>)
    requires |buf| == PACKET_SIZE && at < PACKET_SIZE
    ensures r.Some? ==> r.value.0 <= PACKET_SIZE && r.value.1 < 256
  {
    var p := Wrap(at + 1 + buf[at]);
    if p + 8 > PACKET_SIZE then None
    else Some((p + 8, Wrap(p + 3 + buf[p + 2])))
  }

  function ReadPrograms(buf: seq<byte>, at: nat, end: nat, pmt: nat): (r: Option<nat>)
    requires |buf| == PACKET_SIZE && at <= PACKET_SIZE
    decreases |buf| - at
  {
    if !MoreThanCrc(at, end) then Some(pmt)
    else if at + 4 > PACKET_SIZE then None
    else ReadPrograms(buf, at + 4, end, if Word(buf, at) != 0 then Word(buf, at + 2) % 0x2000 else pmt)
  }

  function ReadPat(d: Demux, buf: seq<byte>, at: nat): (Demux, Outcome)
    requires |buf| == PACKET_SIZE && at < PACKET_SIZE
  {
    var table := ReadTableHead(buf, at);
    if table.None? then (d, Panic)
    else
      var pmt := ReadPrograms(buf, table.value.0, table.value.1, d.pmt);
      if pmt.None? then (d, Panic) else (d.(pmt := pmt.value), Quiet)
  }

  const OPUS_INFO: seq<byte> := [0x05, 0x04, 0x4F, 0x70, 0x75, 0x73]

  function TrackType(streamType: byte, info: seq<byte>): byte {
    if streamType == TYPE_PRIVATE && OPUS_INFO <= info then TYPE_OPUS else streamType
  }

  // The tracks and the position behind them.
  function ReadTracks(buf: seq<byte>, at: nat, end: nat, tracks: map<nat, Pes>): (r: Option<(map<nat, Pes>, nat)>)
    requires |buf| == PACKET_SIZE && at < 256
    decreases |buf| + 256 - at
  {
    if !MoreThanCrc(at, end) then Some((tracks, at))
    else if at + 5 > PACKET_SIZE || at + 5 + buf[at + 4] > PACKET_SIZE then None
    else
      var pid, next := Word(buf, at + 1) % 0x2000, at + 5 + buf[at + 4];
      var streamType := TrackType(buf[at], buf[at + 5..next]);
      ReadTracks(buf, next, end, tracks[pid := NewPes(streamType)])
  }

  // The position at which the next ReadPacket does not read.
  const SKIP_READ: nat := 255

  // The last result says whether the packet is used up; a program map whose last skip ends on
  // SKIP_READ by chance is not.
  function ReadPmt(d: Demux, buf: seq<byte>, at: nat): (r: (Demux, Outcome, bool))
    requires |buf| == PACKET_SIZE && at < PACKET_SIZE
    ensures !r.1.Quiet?
  {
    var table := ReadTableHead(buf, at);
    if table.None? || table.value.0 + 4 > PACKET_SIZE then (d, Panic, true)
    else
      var p := table.value.0;
      var tracks := ReadTracks(buf, Wrap(p + 4 + buf[p + 3]), table.value.1, map[]);
      if tracks.None? then (d, Panic, true)
      else (d.(tracks := Some(tracks.value.0)), Meta, Wrap(tracks.value.1 + 4) != SKIP_READ)
  }

  // ---------- elementary streams ----------

  // GetPacket; other stream types yield no packet, but their payload is dropped as well
  function GetPacket(pes: Pes): (Pes, Outcome) {
    if PassThrough(pes.streamType) then
      var sequence := (pes.sequence + 1) % TWO16;
      (pes.(sequence := sequence, payload := []), Media(Packet(pes.streamType, sequence, pes.pts, pes.payload)))
    else if NeedsRepackaging(pes.streamType) then (pes, Repackaged)
    else (pes.(payload := []), Quiet)
  }

  function Finish(pes: Pes): (Pes, Outcome) {
    if pes.size != 0 && |pes.payload| >= pes.size then GetPacket(pes) else (pes, Quiet)
  }

  // The packet start code prefix 0, 0, 1, read byte by byte: None is a panic.
  function ReadPrefix(buf: seq<byte>, at: nat): Option<bool>
    requires |buf| == PACKET_SIZE && at < PACKET_SIZE
  {
    if buf[at] != 0 then Some(false)
    else if at + 1 == PACKET_SIZE then None
    else if buf[at + 1] != 0 then Some(false)
    else if at + 2 == PACKET_SIZE then None
    else Some(buf[at + 2] == 1)
  }

  // The header of a PES behind its prefix.
  datatype PesHead = PesHead(streamId: byte, size: nat, pts: nat, dts: nat, at: nat)

  function ReadPesHead(buf: seq<byte>, at: nat): (r: Option<PesHead>)
    requires |buf| == PACKET_SIZE
    ensures r.Some? ==> r.value.at <= PACKET_SIZE
  {
    if at + 6 > PACKET_SIZE then None
    else
      var size, length := Word(buf, at + 1), buf[at + 5];
      var hasPts, hasDts := Field(buf[at + 4], 128, 2), Field(buf[at + 4], 64, 2);
      var times := 5 * hasPts + 5 * hasDts;
      if at + 6 + times > PACKET_SIZE then None
      else
        var pts := if hasPts == 1 then TimeAt(buf, at + 6) else 0;
        var dts := if hasDts == 1 then TimeAt(buf, at + 6 + 5 * hasPts) else 0;
        var skip := Wrap(512 + length - times);
        var next := Wrap(at + 6 + times + skip);
        if next > PACKET_SIZE then None
        else
          Some(PesHead(buf[at], if size == 0 then 0 else (TWO16 + size - (3 + length) % 256) % TWO16, pts, dts, next))
  }

  function OpenPes(pes: Pes, buf: seq<byte>, at: nat): (Pes, Outcome)
    requires |buf| == PACKET_SIZE && at < PACKET_SIZE
  {
    var prefix := ReadPrefix(buf, at);
    if prefix == None then (pes, Panic)
    else if prefix == Some(false) then (pes, Quiet)
    else
      var head := ReadPesHead(buf, at + 3);
      if head.None? then (pes, Panic)
      else
        var h := head.value;
        Finish(pes.(streamId := h.streamId, pts := h.pts, dts := h.dts, payload := buf[h.at..], size := h.size))
  }

  // The last result says whether the packet is used up: one that starts a PES is read again
  // after it has pushed out the payload before it.
  function ReadPes(pes: Pes, buf: seq<byte>, at: nat, start: bool): (r: (Pes, Outcome, bool))
    requires |buf| == PACKET_SIZE && at < PACKET_SIZE
    ensures r.1.Quiet? ==> r.2
  {
    if !start then
      var (pes', outcome) := Finish(pes.(payload := pes.payload + buf[at..]));
      (pes', outcome, true)
    else if pes.payload != [] && !GetPacket(pes).1.Quiet? then
      (GetPacket(pes).0, GetPacket(pes).1, false)
    else
      var (pes', outcome) := OpenPes(pes.(payload := []), buf, at);
      (pes', outcome, true)
  }

  // ---------- the loop ----------

  function Turn(d: Demux, buf: seq<byte>): (r: (Demux, Outcome, bool))
    requires |buf| == PACKET_SIZE
    ensures r.1.Quiet? ==> r.2
  {
    var head := ReadHead(buf);
    if head.Bad? then (d, head.outcome, true)
    else if d.tracks.None? then
      if head.pid == PAT_PID then
        var (d', outcome) := ReadPat(d, buf, head.at);
        (d', outcome, true)
      else if head.pid == d.pmt then ReadPmt(d, buf, head.at)
      else (d, Quiet, true)
    else if head.pid !in d.tracks.value then (d, Quiet, true)
    else
      var (pes, outcome, used) := ReadPes(d.tracks.value[head.pid], buf, head.at, head.start);
      (d.(tracks := Some(d.tracks.value[head.pid := pes])), outcome, used)
  }

  // ReadPacket: the new state, what it returns and the bytes left for the next call.
  function Read(d: Demux, input: seq<byte>): (r: (Demux, Outcome, seq<byte>))
    decreases |input|
  {
    if |input| < PACKET_SIZE then (d, Eof, [])
    else
      var (d', outcome, used) := Turn(d, input[..PACKET_SIZE]);
      var rest := if used then input[PACKET_SIZE..] else input;
      if outcome.Quiet? then Read(d', rest) else (d', outcome, rest)
  }

  // One turn on the first packet of the input.
  lemma ReadOne(d: Demux, p: seq<byte>, rest: seq<byte>)
    requires |p| == PACKET_SIZE
    ensures Read(d, p + rest)
         == var (d', outcome, used) := Turn(d, p);
            var left := if used then rest else p + rest;
            if outcome.Quiet? then Read(d', left) else (d', outcome, left)
  {
    Halves(p, rest);
  }
}
