// DecodeAtom and DecodeAtoms of pkg/iso/reader.go for movie fragments.
module IsoReader {
  import opened Bytes
  import opened Seqs
  import opened IsoMovie
  import opened IsoFragment

  const CONTAINERS: seq<seq<byte>> := [
    [0x6D, 0x6F, 0x6F, 0x76],  // moov
    [0x74, 0x72, 0x61, 0x6B],  // trak
    [0x6D, 0x64, 0x69, 0x61],  // mdia
    [0x6D, 0x69, 0x6E, 0x66],  // minf
    [0x73, 0x74, 0x62, 0x6C]]  // stbl

  const TKHD: seq<byte> := [0x74, 0x6B, 0x68, 0x64]
  const MDHD: seq<byte> := [0x6D, 0x64, 0x68, 0x64]

  // stsd, avc1, hev1 and mp4a: sample descriptions are not part of this model
  const DESCRIPTIONS: seq<seq<byte>> := [
    [0x73, 0x74, 0x73, 0x64], [0x61, 0x76, 0x63, 0x31], [0x68, 0x65, 0x76, 0x31], [0x6D, 0x70, 0x34, 0x61]]

  datatype Runs = Runs(durations: seq<nat>, sizes: seq<nat>, flags: seq<nat>, cts: seq<nat>)

  datatype Box =
    | Tkhd(trackId: nat)
    | Mdhd(timeScale: nat)
    | Mfhd(sequence: nat)
    | Tfhd(track: nat, duration: nat, size: nat, sampleFlags: nat)
    | Tfdt(time: nat)
    | Trun(offset: nat, first: nat, samples: Runs)
    | Mdat(data: seq<byte>)
    | Other(name: seq<byte>, content: seq<byte>)

  datatype Result = Boxes(boxes: seq<Box>) | Eof | Panic | Description

  // ---------- numbers ----------

  // The reader yields zeros past the end.
  function ByteAt(data: seq<byte>, q: nat): byte {
    if q < |data| then data[q] else 0
  }

  function Int(data: seq<byte>, p: nat, n: nat): nat
    decreases |data|, n
  {
    if n == 0 then 0 else Int(data, p, n - 1) * 256 + ByteAt(data, p + n - 1)
  }

  predicate Has(flags: nat, bit: nat)
    requires bit > 0
  {
    flags / bit % 2 == 1
  }

  // ---------- the leaves ----------

  function DecodeTfhd(data: seq<byte>): Box {
    var flags := Int(data, 1, 3);
    var p1 := 8;
    var p2 := if Has(flags, 0x08) then p1 + 4 else p1;
    var p3 := if Has(flags, 0x10) then p2 + 4 else p2;
    Tfhd(Int(data, 4, 4),
         if Has(flags, 0x08) then Int(data, p1, 4) else 0,
         if Has(flags, 0x10) then Int(data, p2, 4) else 0,
         if Has(flags, 0x20) then Int(data, p3, 4) else 0)
  }

  function NextIf(p: nat, present: bool): nat {
    if present then p + 4 else p
  }

  function TakeIf(data: seq<byte>, p: nat, present: bool): seq<nat> {
    if present then [Int(data, p, 4)] else []
  }

  // n samples from p on, behind the ones read before
  function DecodeRuns(data: seq<byte>, p: nat, n: nat, flags: nat, before: Runs): Runs
    decreases |data|, n
  {
    if n == 0 then before
    else
      var p1 := NextIf(p, Has(flags, 0x100));
      var p2 := NextIf(p1, Has(flags, 0x200));
      var p3 := NextIf(p2, Has(flags, 0x400));
      var more := Runs(before.durations + TakeIf(data, p, Has(flags, 0x100)),
                       before.sizes + TakeIf(data, p1, Has(flags, 0x200)),
                       before.flags + TakeIf(data, p2, Has(flags, 0x400)),
                       before.cts + TakeIf(data, p3, Has(flags, 0x800)));
      DecodeRuns(data, NextIf(p3, Has(flags, 0x800)), n - 1, flags, more)
  }

  function DecodeTrun(data: seq<byte>): Box {
    var flags := Int(data, 1, 3);
    var p1 := NextIf(8, Has(flags, 0x01));
    var p2 := NextIf(p1, Has(flags, 0x04));
    Trun(if Has(flags, 0x01) then Int(data, 8, 4) else 0,
         if Has(flags, 0x04) then Int(data, p1, 4) else 0,
         DecodeRuns(data, p2, Int(data, 4, 4), flags, Runs([], [], [], [])))
  }

  function DecodeLeaf(name: seq<byte>, data: seq<byte>): Result {
    if name in DESCRIPTIONS then Description
    else if name == TKHD then if |data| < 16 then Panic else Boxes([Tkhd(U(data[12..16]))])
    else if name == MDHD then if |data| < 16 then Panic else Boxes([Mdhd(U(data[12..16]))])
    else if name == MFHD then if |data| < 8 then Panic else Boxes([Mfhd(U(data[4..8]))])
    else if name == TFHD then Boxes([DecodeTfhd(data)])
    else if name == TFDT then if |data| < 12 then Panic else Boxes([Tfdt(U(data[4..12]))])
    else if name == TRUN then Boxes([DecodeTrun(data)])
    else if name == MDAT then Boxes([Mdat(data)])
    else Boxes([Other(name, data)])
  }

  predicate IsContainer(name: seq<byte>) {
    name in CONTAINERS || name == MOOF || name == TRAF
  }

  // ---------- atoms ----------

  function DecodeAtom(b: seq<byte>): Result
    decreases |b|, 0
  {
    if |b| < 4 then Panic
    else
      var size := U(b[..4]);
      if |b| < size then Eof
      else if size < 8 then Panic
      else if IsContainer(b[4..8]) then DecodeAtoms(b[8..size])
      else DecodeLeaf(b[4..8], b[8..size])
  }

  // The children of a container are spliced in.
  function DecodeAtoms(b: seq<byte>): Result
    decreases |b|, 1
  {
    if b == [] then Boxes([])
    else
      var first := DecodeAtom(b);
      if !first.Boxes? then first
      else
        assert 8 <= U(b[..4]) <= |b|;
        var more := DecodeAtoms(b[U(b[..4])..]);
        if more.Boxes? then Boxes(first.boxes + more.boxes) else more
  }

  function DecodeNamed(name: seq<byte>, data: seq<byte>): Result {
    if IsContainer(name) then DecodeAtoms(data) else DecodeLeaf(name, data)
  }

  // ---------- reading back what was written ----------

  lemma {:induction false} FirstAtom(name: seq<byte>, content: seq<byte>, rest: seq<byte>)
    requires |name| == 4 && 8 + |content| < TWO32
    ensures var first := DecodeNamed(name, content);
            var more := DecodeAtoms(rest);
            DecodeAtoms(Closed(name, content) + rest)
            == if !first.Boxes? then first
               else if more.Boxes? then Boxes(first.boxes + more.boxes) else more
  {
    var atom := Closed(name, content);
    var b, size := atom + rest, 8 + |content|;
    SizeIsExtent(name, content);
    Halves(atom, rest);
    assert b[..4] == atom[..4];
    assert b[4..8] == name && b[8..size] == content by {
      Thirds(Be(size, 4), name, content);
      assert atom[4..8] == name && atom[8..] == content;
      assert b[4..8] == atom[4..8] && b[8..size] == atom[8..];
    }
    assert b[size..] == rest;
  }

  lemma {:induction false} OneAtom(name: seq<byte>, content: seq<byte>)
    requires |name| == 4 && 8 + |content| < TWO32
    ensures DecodeAtoms(Closed(name, content)) == DecodeNamed(name, content)
  {
    var none: seq<byte> := [];
    FirstAtom(name, content, none);
    assert Closed(name, content) + none == Closed(name, content);
    var first := DecodeNamed(name, content);
    if first.Boxes? {
      assert first.boxes + [] == first.boxes;
    }
  }

  // A number written at p is read at p.
  lemma {:induction false} IntSlice(data: seq<byte>, p: nat, n: nat)
    requires p + n <= |data|
    ensures Int(data, p, n) == U(data[p..p + n])
    decreases n
  {
    if n > 0 {
      IntSlice(data, p, n - 1);
      assert data[p..p + n][..n - 1] == data[p..p + n - 1];
    }
  }

  lemma {:induction false} IntPrefix(a: seq<byte>, rest: seq<byte>, p: nat, n: nat)
    requires p + n <= |a|
    ensures Int(a + rest, p, n) == Int(a, p, n)
    decreases n
  {
    if n > 0 {
      IntPrefix(a, rest, p, n - 1);
    }
  }

  lemma {:induction false} IntBe(before: seq<byte>, v: nat, n: nat)
    requires v < Pow256(n)
    ensures Int(before + Be(v, n), |before|, n) == v
  {
    Halves(before, Be(v, n));
    assert (before + Be(v, n))[|before|..|before| + n] == (before + Be(v, n))[|before|..];
    IntSlice(before + Be(v, n), |before|, n);
    UBe(v, n);
    Small(v, Pow256(n));
  }

  // The fields of a tfhd, two at a time.
  lemma {:induction false} TfhdStart(track: nat, rest: seq<byte>)
    requires track < TWO32
    ensures var data := ([0] + Be(TFHD_FLAGS, 3) + Be(track, 4)) + rest;
            Int(data, 1, 3) == TFHD_FLAGS && Int(data, 4, 4) == track
  {
    Powers();
    var a: seq<byte> := [0];
    var b := a + Be(TFHD_FLAGS, 3);
    IntBe(a, TFHD_FLAGS, 3);
    IntPrefix(b, Be(track, 4), 1, 3);
    IntPrefix(b + Be(track, 4), rest, 1, 3);
    IntBe(b, track, 4);
    IntPrefix(b + Be(track, 4), rest, 4, 4);
  }

  lemma {:induction false} TfhdMiddle(before: seq<byte>, duration: nat, size: nat, flags: nat)
    requires duration < TWO32 && size < TWO32 && flags < TWO32
    ensures var data, p := before + Be(duration, 4) + Be(size, 4) + Be(flags, 4), |before|;
            Int(data, p, 4) == duration && Int(data, p + 4, 4) == size && Int(data, p + 8, 4) == flags
  {
    Powers();
    var d := before + Be(duration, 4);
    var e := d + Be(size, 4);
    IntBe(before, duration, 4);
    IntPrefix(d, Be(size, 4), |before|, 4);
    IntPrefix(e, Be(flags, 4), |before|, 4);
    IntBe(d, size, 4);
    IntPrefix(e, Be(flags, 4), |before| + 4, 4);
    IntBe(e, flags, 4);
  }

  lemma {:induction false} TfhdFrom(data: seq<byte>)
    requires Int(data, 1, 3) == TFHD_FLAGS
    ensures DecodeTfhd(data) == Tfhd(Int(data, 4, 4), Int(data, 8, 4), Int(data, 12, 4), Int(data, 16, 4))
  {
    assert Has(TFHD_FLAGS, 0x08) && Has(TFHD_FLAGS, 0x10) && Has(TFHD_FLAGS, 0x20);
  }

  lemma {:induction false} TfhdReads(track: nat, duration: nat, size: nat, flags: nat)
    requires track < TWO32 && duration < TWO32 && size < TWO32 && flags < TWO32
    ensures DecodeTfhd(TfhdBody(track, duration, size, flags)) == Tfhd(track, duration, size, flags)
  {
    var c := [0] + Be(TFHD_FLAGS, 3) + Be(track, 4);
    var rest := Be(duration, 4) + Be(size, 4) + Be(flags, 4);
    Regroup(c, Be(duration, 4), Be(size, 4), Be(flags, 4));
    TfhdStart(track, rest);
    TfhdMiddle(c, duration, size, flags);
    TfhdFields(c + rest, track, duration, size, flags);
  }

  lemma {:induction false} Regroup(a: seq<byte>, b: seq<byte>, c: seq<byte>, d: seq<byte>)
    ensures a + b + c + d == a + (b + c + d)
  {
  }

  lemma {:induction false} TfhdFields(data: seq<byte>, track: nat, duration: nat, size: nat, flags: nat)
    requires Int(data, 1, 3) == TFHD_FLAGS && Int(data, 4, 4) == track
    requires Int(data, 8, 4) == duration && Int(data, 12, 4) == size && Int(data, 16, 4) == flags
    ensures DecodeTfhd(data) == Tfhd(track, duration, size, flags)
  {
    TfhdFrom(data);
  }

  // Flags and sample count of the trun; then its offset and composition time.
  lemma {:induction false} TrunStart(flags: nat, offset: nat, rest: seq<byte>)
    requires flags < TWO24 && offset < TWO32
    ensures var data := [0] + Be(flags, 3) + Be(1, 4) + Be(offset, 4) + rest;
            Int(data, 1, 3) == flags && Int(data, 4, 4) == 1 && Int(data, 8, 4) == offset
  {
    Powers();
    var a: seq<byte> := [0];
    var b := a + Be(flags, 3);
    var c := b + Be(1, 4);
    var d := c + Be(offset, 4);
    IntBe(a, flags, 3);
    IntPrefix(b, Be(1, 4), 1, 3);
    IntPrefix(c, Be(offset, 4), 1, 3);
    IntPrefix(d, rest, 1, 3);
    IntBe(b, 1, 4);
    IntPrefix(c, Be(offset, 4), 4, 4);
    IntPrefix(d, rest, 4, 4);
    IntBe(c, offset, 4);
    IntPrefix(d, rest, 8, 4);
  }

  function Timing(cts: nat): Runs {
    Runs([], [], [], if cts == 0 then [] else [cts])
  }

  lemma {:induction false} TrunBits()
    ensures Has(TRUN_OFFSET, 0x01) && Has(TRUN_OFFSET + TRUN_CTS, 0x01)
    ensures !Has(TRUN_OFFSET, 0x04) && !Has(TRUN_OFFSET, 0x100) && !Has(TRUN_OFFSET, 0x200)
    ensures !Has(TRUN_OFFSET, 0x400) && !Has(TRUN_OFFSET, 0x800) && Has(TRUN_OFFSET + TRUN_CTS, 0x800)
    ensures var flags := TRUN_OFFSET + TRUN_CTS;
            !Has(flags, 0x04) && !Has(flags, 0x100) && !Has(flags, 0x200) && !Has(flags, 0x400)
  {
  }

  lemma {:induction false} NoTimes(data: seq<byte>, p: nat)
    ensures DecodeRuns(data, p, 1, TRUN_OFFSET, Timing(0)) == Timing(0)
  {
    TrunBits();
    var none: seq<nat> := [];
    assert none + none == none;
    assert DecodeRuns(data, p, 0, TRUN_OFFSET, Timing(0)) == Timing(0);
  }

  lemma {:induction false} OneTime(data: seq<byte>, p: nat)
    requires Int(data, p, 4) != 0
    ensures DecodeRuns(data, p, 1, TRUN_OFFSET + TRUN_CTS, Timing(0)) == Timing(Int(data, p, 4))
  {
    TrunBits();
    var none: seq<nat>, cts := [], Int(data, p, 4);
    assert none + none == none && none + [cts] == [cts];
    assert DecodeRuns(data, p + 4, 0, TRUN_OFFSET + TRUN_CTS, Timing(cts)) == Timing(cts);
  }

  lemma {:induction false} TrunFrom(data: seq<byte>, flags: nat, offset: nat)
    requires flags == TRUN_OFFSET || flags == TRUN_OFFSET + TRUN_CTS
    requires Int(data, 1, 3) == flags && Int(data, 4, 4) == 1 && Int(data, 8, 4) == offset
    ensures DecodeTrun(data) == Trun(offset, 0, DecodeRuns(data, 12, 1, flags, Timing(0)))
  {
    TrunBits();
  }

  lemma {:induction false} TrunReads(offset: nat, cts: nat)
    requires offset < TWO32 && cts < TWO32
    ensures DecodeTrun(TrunBody(offset, cts)) == Trun(offset, 0, Timing(cts))
  {
    var data, flags := TrunBody(offset, cts), if cts == 0 then TRUN_OFFSET else TRUN_OFFSET + TRUN_CTS;
    var none: seq<byte> := [];
    TrunStart(flags, offset, if cts == 0 then none else Be(cts, 4));
    var d := [0] + Be(flags, 3) + Be(1, 4) + Be(offset, 4);
    if cts == 0 {
      assert d + none == d;
      TrunFrom(data, flags, offset);
      NoTimes(data, 12);
    } else {
      Powers();
      IntBe(d, cts, 4);
      TrunFrom(data, flags, offset);
      OneTime(data, 12);
    }
  }

  lemma {:induction false} Names()
    ensures !IsContainer(MFHD) && !IsContainer(TFHD) && !IsContainer(TFDT) && !IsContainer(TRUN) && !IsContainer(MDAT)
    ensures MFHD !in DESCRIPTIONS && TFHD !in DESCRIPTIONS && TFDT !in DESCRIPTIONS && TRUN !in DESCRIPTIONS
    ensures MDAT !in DESCRIPTIONS
  {
  }

  lemma {:induction false} NumberRead(before: seq<byte>, v: nat, n: nat, limit: nat)
    requires |before| == 4 && limit == Pow256(n) && v < limit
    ensures U((before + Be(v, n))[4..4 + n]) == v
  {
    Halves(before, Be(v, n));
    assert (before + Be(v, n))[4..4 + n] == (before + Be(v, n))[4..];
    UBe(v, n);
    Small(v, limit);
  }

  lemma {:induction false} LeafReads(s: Sample, payload: seq<byte>)
    requires SampleOk(s)
    ensures DecodeNamed(MFHD, MfhdBody(s.sequence)) == Boxes([Mfhd(s.sequence)])
    ensures DecodeNamed(TFDT, TfdtBody(s.dts)) == Boxes([Tfdt(s.dts)])
    ensures DecodeNamed(MDAT, payload) == Boxes([Mdat(payload)])
  {
    Names();
    Powers();
    NumberRead(ZERO, s.sequence, 4, TWO32);
    NumberRead([1, 0, 0, 0], s.dts, 8, TWO64);
  }

  // ---------- the fragment ----------

  function Expected(s: Sample, base: nat, payload: seq<byte>): seq<Box> {
    ([Mfhd(s.sequence)] + TrafBoxes(s, DataOffset(s, base))) + [Mdat(payload)]
  }

  function TrafBoxes(s: Sample, offset: nat): seq<Box> {
    [Tfhd(s.track, s.duration, s.size, s.flags), Tfdt(s.dts), Trun(offset, 0, Timing(s.cts))]
  }

  lemma {:induction false} Splice(name: seq<byte>, content: seq<byte>, box: seq<Box>, rest: seq<byte>, more: seq<Box>)
    requires |name| == 4 && 8 + |content| < TWO32
    requires DecodeNamed(name, content) == Boxes(box) && DecodeAtoms(rest) == Boxes(more)
    ensures DecodeAtoms(Closed(name, content) + rest) == Boxes(box + more)
  {
    FirstAtom(name, content, rest);
  }

  lemma {:induction false} ThreeLeaves(tfhd: seq<byte>, tfdt: seq<byte>, trun: seq<byte>, x: Box, y: Box, z: Box)
    requires |tfhd| < 100 && |tfdt| < 100 && |trun| < 100
    requires DecodeNamed(TFHD, tfhd) == Boxes([x]) && DecodeNamed(TFDT, tfdt) == Boxes([y])
    requires DecodeNamed(TRUN, trun) == Boxes([z])
    ensures DecodeAtoms(Closed(TFHD, tfhd) + Closed(TFDT, tfdt) + Closed(TRUN, trun)) == Boxes([x, y, z])
  {
    OneAtom(TRUN, trun);
    Splice(TFDT, tfdt, [y], Closed(TRUN, trun), [z]);
    assert [y] + [z] == [y, z];
    Splice(TFHD, tfhd, [x], Closed(TFDT, tfdt) + Closed(TRUN, trun), [y, z]);
    assert [x] + [y, z] == [x, y, z];
    Assoc(Closed(TFHD, tfhd), Closed(TFDT, tfdt), Closed(TRUN, trun));
  }

  lemma {:induction false} Leaves(data: seq<byte>)
    ensures DecodeNamed(TFHD, data) == Boxes([DecodeTfhd(data)]) && DecodeNamed(TRUN, data) == Boxes([DecodeTrun(data)])
  {
    Names();
  }

  lemma {:induction false} TrafReads(s: Sample, offset: nat)
    requires SampleOk(s) && offset < TWO32
    ensures DecodeAtoms(TrafBody(s, offset))
         == Boxes(TrafBoxes(s, offset))
  {
    Leaves(TfhdBody(s.track, s.duration, s.size, s.flags));
    Leaves(TrunBody(offset, s.cts));
    TfhdReads(s.track, s.duration, s.size, s.flags);
    LeafReads(s, []);
    TrunReads(offset, s.cts);
    ThreeLeaves(TfhdBody(s.track, s.duration, s.size, s.flags), TfdtBody(s.dts), TrunBody(offset, s.cts),
                Tfhd(s.track, s.duration, s.size, s.flags), Tfdt(s.dts), Trun(offset, 0, Timing(s.cts)));
  }

  // A leaf in front of a container, or a container in front of a leaf.
  lemma {:induction false} TwoAtoms(a: seq<byte>, x: seq<byte>, left: seq<Box>, b: seq<byte>, y: seq<byte>, right: seq<Box>)
    requires |a| == |b| == 4 && 8 + |x| < TWO32 && 8 + |y| < TWO32
    requires DecodeNamed(a, x) == Boxes(left) && DecodeNamed(b, y) == Boxes(right)
    ensures DecodeAtoms(Closed(a, x) + Closed(b, y)) == Boxes(left + right)
  {
    OneAtom(b, y);
    Splice(a, x, left, Closed(b, y), right);
  }

  lemma {:induction false} Containers(content: seq<byte>)
    ensures DecodeNamed(TRAF, content) == DecodeAtoms(content) && DecodeNamed(MOOF, content) == DecodeAtoms(content)
  {
  }

  lemma {:induction false} MoofReads(s: Sample, offset: nat)
    requires SampleOk(s) && offset < TWO32
    ensures DecodeAtoms(MoofBody(s, offset))
         == Boxes([Mfhd(s.sequence)] + TrafBoxes(s, offset))
  {
    LeafReads(s, []);
    TrafReads(s, offset);
    Containers(TrafBody(s, offset));
    TwoAtoms(MFHD, MfhdBody(s.sequence), [Mfhd(s.sequence)], TRAF, TrafBody(s, offset), TrafBoxes(s, offset));
  }

  // DecodeAtoms of a written fragment returns everything that went into it, with the data
  // offset that IsoFragment.OffsetIsPayload is about.
  lemma {:induction false} FragmentReads(s: Sample, base: nat, payload: seq<byte>)
    requires SampleOk(s) && DataOffset(s, base) < TWO32 && 8 + |payload| < TWO32
    ensures DecodeAtoms(Fragment(s, base, payload)) == Boxes(Expected(s, base, payload))
  {
    var offset := DataOffset(s, base);
    var moof := [Mfhd(s.sequence)] + TrafBoxes(s, offset);
    LeafReads(s, payload);
    MoofReads(s, offset);
    Containers(MoofBody(s, offset));
    TwoAtoms(MOOF, MoofBody(s, offset), moof, MDAT, payload, [Mdat(payload)]);
  }
}
