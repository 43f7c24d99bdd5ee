// Movie fragments: WriteMovieFragment and WriteData of pkg/iso/atoms.go (sections 8.8.7, 8.8.8
// and 8.8.12 of ISO/IEC 14496-12).
module IsoFragment {
  import opened Bytes
  import opened Seqs
  import opened IsoMovie

  const MOOF: seq<byte> := [0x6D, 0x6F, 0x6F, 0x66]
  const MFHD: seq<byte> := [0x6D, 0x66, 0x68, 0x64]
  const TRAF: seq<byte> := [0x74, 0x72, 0x61, 0x66]
  const TFHD: seq<byte> := [0x74, 0x66, 0x68, 0x64]
  const TFDT: seq<byte> := [0x74, 0x66, 0x64, 0x74]
  const TRUN: seq<byte> := [0x74, 0x72, 0x75, 0x6E]
  const MDAT: seq<byte> := [0x6D, 0x64, 0x61, 0x74]

  const ZERO: seq<byte> := [0, 0, 0, 0]

  // Default duration, size, flags and base-is-moof.
  const TFHD_FLAGS: nat := 0x02_0038
  const TRUN_OFFSET: nat := 0x00_0001
  const TRUN_CTS: nat := 0x00_0800

  function MfhdBody(sequence: nat): (b: seq<byte>)
    ensures |b| == 8
  {
    ZERO + Be(sequence, 4)
  }

  function TfhdBody(track: nat, duration: nat, size: nat, flags: nat): (b: seq<byte>)
    ensures |b| == 20
  {
    [0] + Be(TFHD_FLAGS, 3) + Be(track, 4) + Be(duration, 4) + Be(size, 4) + Be(flags, 4)
  }

  function TfdtBody(dts: nat): (b: seq<byte>)
    ensures |b| == 12
  {
    [1, 0, 0, 0] + Be(dts, 8)
  }

  function TrunBody(offset: nat, cts: nat): (b: seq<byte>)
    ensures |b| == if cts == 0 then 12 else 16
  {
    if cts == 0 then [0] + Be(TRUN_OFFSET, 3) + Be(1, 4) + Be(offset, 4)
    else [0] + Be(TRUN_OFFSET + TRUN_CTS, 3) + Be(1, 4) + Be(offset, 4) + Be(cts, 4)
  }

  datatype Sample = Sample(sequence: nat, track: nat, duration: nat, size: nat, flags: nat, dts: nat, cts: nat)

  predicate SampleOk(s: Sample) {
    && s.sequence < TWO32 && s.track < TWO32 && s.duration < TWO32 && s.size < TWO32 && s.flags < TWO32
    && s.dts < TWO64 && s.cts < TWO32
  }

  function TrafBody(s: Sample, offset: nat): (b: seq<byte>)
    ensures |b| == if s.cts == 0 then 68 else 72
  {
    Closed(TFHD, TfhdBody(s.track, s.duration, s.size, s.flags)) + Closed(TFDT, TfdtBody(s.dts))
      + Closed(TRUN, TrunBody(offset, s.cts))
  }

  function MoofBody(s: Sample, offset: nat): (b: seq<byte>)
    ensures |b| == if s.cts == 0 then 92 else 96
  {
    Closed(MFHD, MfhdBody(s.sequence)) + Closed(TRAF, TrafBody(s, offset))
  }

  // The first payload byte, seen from a fragment that begins at `base`.
  function DataOffset(s: Sample, base: nat): nat {
    base + (if s.cts == 0 then 100 else 104) + 8
  }

  function Moof(s: Sample, base: nat): (b: seq<byte>)
    ensures |b| == if s.cts == 0 then 100 else 104
  {
    Closed(MOOF, MoofBody(s, DataOffset(s, base)))
  }

  function Fragment(s: Sample, base: nat, payload: seq<byte>): seq<byte> {
    Moof(s, base) + Closed(MDAT, payload)
  }

  // The data offset of the trun points at the payload.
  lemma {:induction false} OffsetIsPayload(s: Sample, before: seq<byte>, payload: seq<byte>)
    ensures var b, offset := before + Fragment(s, |before|, payload), DataOffset(s, |before|);
            b[offset..] == payload
  {
    var moof, head := Moof(s, |before|), Be(8 + |payload|, 4) + MDAT;
    assert before + Fragment(s, |before|, payload) == (before + moof + head) + payload;
    Halves(before + moof + head, payload);
  }

  // ---------- writing ----------

  // An open atom called `name` holds `content`.
  ghost predicate Filling(m: Movie, outer: State, name: seq<byte>, content: seq<byte>)
    reads m
  {
    m.Valid() && m.state == Grow(outer.(open := outer.open + [Level(name, [])]), content)
  }

  method Begin(m: Movie, name: seq<byte>)
    requires m.Valid()
    modifies m
    ensures Filling(m, old(m.state), name, []) && |m.b| == |old(m.b)| + 4 + |name|
  {
    m.StartAtom(name);
    GrowNothing(m.state);
  }

  method Add(m: Movie, bytes: seq<byte>, ghost outer: State, ghost name: seq<byte>, ghost content: seq<byte>)
    requires Filling(m, outer, name, content)
    modifies m
    ensures Filling(m, outer, name, content + bytes) && |m.b| == |old(m.b)| + |bytes|
  {
    m.Write(bytes);
    GrowTwice(outer.(open := outer.open + [Level(name, [])]), content, bytes);
  }

  method Finish(m: Movie, ghost outer: State, ghost name: seq<byte>, ghost content: seq<byte>)
    requires Filling(m, outer, name, content)
    modifies m
    ensures m.Valid() && m.state == Grow(outer, Closed(name, content)) && |m.b| == |old(m.b)|
  {
    OpenFillShut(outer, name, content);
    m.EndAtom();
  }

  method WriteMfhd(m: Movie, sequence: nat)
    requires m.Valid()
    modifies m
    ensures m.Valid() && m.state == Grow(old(m.state), Closed(MFHD, MfhdBody(sequence))) && |m.b| == |old(m.b)| + 16
  {
    ghost var outer := m.state;
    Begin(m, MFHD);
    Add(m, [0], outer, MFHD, []);
    Add(m, [0, 0, 0], outer, MFHD, [] + [0]);
    Add(m, Be(sequence, 4), outer, MFHD, [] + [0] + [0, 0, 0]);
    Finish(m, outer, MFHD, [] + [0] + [0, 0, 0] + Be(sequence, 4));
    assert [] + [0] + [0, 0, 0] + Be(sequence, 4) == MfhdBody(sequence);
  }

  method WriteTfhd(m: Movie, track: nat, duration: nat, size: nat, flags: nat)
    requires m.Valid()
    modifies m
    ensures m.Valid() && m.state == Grow(old(m.state), Closed(TFHD, TfhdBody(track, duration, size, flags)))
    ensures |m.b| == |old(m.b)| + 28
  {
    ghost var outer, c := m.state, [0];
    Begin(m, TFHD);
    Add(m, [0], outer, TFHD, []);
    assert [] + [0] == c;
    Add(m, Be(TFHD_FLAGS, 3), outer, TFHD, c);
    c := c + Be(TFHD_FLAGS, 3);
    Add(m, Be(track, 4), outer, TFHD, c);
    c := c + Be(track, 4);
    Add(m, Be(duration, 4), outer, TFHD, c);
    c := c + Be(duration, 4);
    Add(m, Be(size, 4), outer, TFHD, c);
    c := c + Be(size, 4);
    Add(m, Be(flags, 4), outer, TFHD, c);
    Finish(m, outer, TFHD, c + Be(flags, 4));
  }

  method WriteTfdt(m: Movie, dts: nat)
    requires m.Valid()
    modifies m
    ensures m.Valid() && m.state == Grow(old(m.state), Closed(TFDT, TfdtBody(dts))) && |m.b| == |old(m.b)| + 20
  {
    ghost var outer := m.state;
    Begin(m, TFDT);
    Add(m, [1], outer, TFDT, []);
    Add(m, [0, 0, 0], outer, TFDT, [] + [1]);
    Add(m, Be(dts, 8), outer, TFDT, [] + [1] + [0, 0, 0]);
    Finish(m, outer, TFDT, [] + [1] + [0, 0, 0] + Be(dts, 8));
    assert [] + [1] + [0, 0, 0] + Be(dts, 8) == TfdtBody(dts);
  }

  // The offset counts from the current end of the buffer: its own four bytes, the composition
  // time if there is one, and the header of the atom with the data.
  method WriteTrun(m: Movie, cts: nat)
    requires m.Valid()
    modifies m
    ensures var offset := |old(m.b)| + (if cts == 0 then 20 else 24) + 8;
            m.Valid() && m.state == Grow(old(m.state), Closed(TRUN, TrunBody(offset, cts)))
    ensures |m.b| == |old(m.b)| + if cts == 0 then 20 else 24
  {
    ghost var outer, c := m.state, [0];
    Begin(m, TRUN);
    Add(m, [0], outer, TRUN, []);
    assert [] + [0] == c;
    if cts == 0 {
      Add(m, Be(TRUN_OFFSET, 3), outer, TRUN, c);
      c := c + Be(TRUN_OFFSET, 3);
      Add(m, Be(1, 4), outer, TRUN, c);
      c := c + Be(1, 4);
      var offset := |m.b| + 4 + 8;
      Add(m, Be(offset, 4), outer, TRUN, c);
      c := c + Be(offset, 4);
    } else {
      Add(m, Be(TRUN_OFFSET + TRUN_CTS, 3), outer, TRUN, c);
      c := c + Be(TRUN_OFFSET + TRUN_CTS, 3);
      Add(m, Be(1, 4), outer, TRUN, c);
      c := c + Be(1, 4);
      var offset := |m.b| + 4 + 4 + 8;
      Add(m, Be(offset, 4), outer, TRUN, c);
      c := c + Be(offset, 4);
      Add(m, Be(cts, 4), outer, TRUN, c);
      c := c + Be(cts, 4);
    }
    Finish(m, outer, TRUN, c);
  }

  method WriteTraf(m: Movie, s: Sample)
    requires m.Valid()
    modifies m
    ensures var offset := |old(m.b)| + (if s.cts == 0 then 76 else 80) + 8;
            m.Valid() && m.state == Grow(old(m.state), Closed(TRAF, TrafBody(s, offset)))
    ensures |m.b| == |old(m.b)| + if s.cts == 0 then 76 else 80
  {
    ghost var outer := m.state;
    ghost var base := outer.(open := outer.open + [Level(TRAF, [])]);
    ghost var tfhd, tfdt := Closed(TFHD, TfhdBody(s.track, s.duration, s.size, s.flags)), Closed(TFDT, TfdtBody(s.dts));
    ghost var trun := Closed(TRUN, TrunBody(|m.b| + (if s.cts == 0 then 76 else 80) + 8, s.cts));
    Begin(m, TRAF);
    WriteTfhd(m, s.track, s.duration, s.size, s.flags);
    GrowTwice(base, [], tfhd);
    assert [] + tfhd == tfhd;
    WriteTfdt(m, s.dts);
    GrowTwice(base, tfhd, tfdt);
    WriteTrun(m, s.cts);
    GrowTwice(base, tfhd + tfdt, trun);
    Finish(m, outer, TRAF, tfhd + tfdt + trun);
  }

  method WriteMovieFragment(m: Movie, s: Sample)
    requires m.Valid()
    modifies m
    ensures m.Valid() && m.state == Grow(old(m.state), Moof(s, |old(m.b)|))
    ensures |m.b| == |old(m.b)| + |Moof(s, |old(m.b)|)|
  {
    ghost var outer, at := m.state, |m.b|;
    ghost var base := outer.(open := outer.open + [Level(MOOF, [])]);
    ghost var mfhd, traf := Closed(MFHD, MfhdBody(s.sequence)), Closed(TRAF, TrafBody(s, DataOffset(s, at)));
    Begin(m, MOOF);
    WriteMfhd(m, s.sequence);
    GrowTwice(base, [], mfhd);
    assert [] + mfhd == mfhd;
    WriteTraf(m, s);
    GrowTwice(base, mfhd, traf);
    Finish(m, outer, MOOF, mfhd + traf);
  }

  method WriteData(m: Movie, payload: seq<byte>)
    requires m.Valid()
    modifies m
    ensures m.Valid() && m.state == Grow(old(m.state), Closed(MDAT, payload))
  {
    ghost var outer := m.state;
    Begin(m, MDAT);
    Add(m, payload, outer, MDAT, []);
    assert [] + payload == payload;
    Finish(m, outer, MDAT, payload);
  }

  // A fragment in a movie of its own.
  method WriteFragment(s: Sample, payload: seq<byte>) returns (b: seq<byte>)
    ensures b == Fragment(s, 0, payload)
  {
    var m := new Movie();
    ghost var state := m.state;
    WriteMovieFragment(m, s);
    WriteData(m, payload);
    GrowTwice(state, Moof(s, 0), Closed(MDAT, payload));
    b := m.b;
    assert b == [] + Fragment(s, 0, payload);
  }
}
