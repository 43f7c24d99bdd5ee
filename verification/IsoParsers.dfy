// DecodeAtom and DecodeAtoms over the bit reader, proved against IsoReader.
module IsoParsers {
  import opened Bytes
  import opened Seqs
  import opened Bits
  import BitIO
  import opened IsoFragment
  import opened IsoReader

  function Min(a: nat, b: nat): nat {
    if a < b then a else b
  }

  lemma {:induction false} TakeByte(d: seq<byte>, q: nat, eof: bool)
    ensures Take(BitsOf(d), Cursor(8 * Min(q, |d|), eof), 8)
         == (ByteAt(d, q) as nat, Cursor(8 * Min(q + 1, |d|), eof || q >= |d|))
  {
    if q < |d| {
      BitIO.AlignedByte(d, q, eof);
    } else {
      TakePastEnd(BitsOf(d), Cursor(8 * |d|, eof), 8);
    }
  }

  // Reading whole bytes from a byte boundary, zeros past the end.
  lemma {:induction false} TakeInt(d: seq<byte>, p: nat, n: nat, eof: bool)
    ensures Take(BitsOf(d), Cursor(8 * Min(p, |d|), eof), 8 * n)
         == (Int(d, p, n), Cursor(8 * Min(p + n, |d|), eof || (n > 0 && p + n > |d|)))
    decreases n
  {
    if n > 0 {
      var q := p + n - 1;
      TakeInt(d, p, n - 1, eof);
      TakeByte(d, q, eof || (n > 1 && q > |d|));
      SkipSkip(BitsOf(d), Cursor(8 * Min(p, |d|), eof), 8 * n - 8, 8);
      Pow32();
    }
  }

  // The reader stands in front of byte p, or at the end if there is none.
  ghost predicate AtByte(r: BitIO.Reader, data: seq<byte>, p: nat)
    reads r
  {
    r.Valid() && r.buf == data && r.View().at == 8 * Min(p, |data|)
  }

  method Number(r: BitIO.Reader, ghost data: seq<byte>, ghost p: nat) returns (v: nat)
    requires AtByte(r, data, p)
    modifies r
    ensures AtByte(r, data, p + 4) && v == Int(data, p, 4)
  {
    TakeInt(data, p, 4, r.View().eof);
    v := r.ReadUint32();
  }

  method NumberIf(r: BitIO.Reader, present: bool, ghost data: seq<byte>, ghost p: nat) returns (v: nat)
    requires AtByte(r, data, p)
    modifies r
    ensures AtByte(r, data, NextIf(p, present)) && v == if present then Int(data, p, 4) else 0
  {
    v := 0;
    if present {
      v := Number(r, data, p);
    }
  }

  // Version and flags.
  method Begin(data: seq<byte>) returns (r: BitIO.Reader, flags: nat)
    ensures fresh(r) && AtByte(r, data, 4) && flags == Int(data, 1, 3)
  {
    r := new BitIO.Reader(data);
    TakeInt(data, 0, 1, false);
    TakeInt(data, 1, 3, 1 > |data|);
    var _ := r.ReadByte();
    flags := r.ReadUint24();
  }

  method ParseTfhd(data: seq<byte>) returns (box: Box)
    ensures box == DecodeTfhd(data)
  {
    var r, flags := Begin(data);
    var track := Number(r, data, 4);
    ghost var p2 := NextIf(8, Has(flags, 0x08));
    var duration := NumberIf(r, Has(flags, 0x08), data, 8);
    var size := NumberIf(r, Has(flags, 0x10), data, p2);
    var sampleFlags := NumberIf(r, Has(flags, 0x20), data, NextIf(p2, Has(flags, 0x10)));
    box := Tfhd(track, duration, size, sampleFlags);
  }

  // append(list, rd.ReadUint32()) if the samples have the field
  method AppendIf(r: BitIO.Reader, list: seq<nat>, present: bool, ghost data: seq<byte>, ghost p: nat)
      returns (longer: seq<nat>)
    requires AtByte(r, data, p)
    modifies r
    ensures AtByte(r, data, NextIf(p, present)) && longer == list + TakeIf(data, p, present)
  {
    longer := list;
    if present {
      var v := Number(r, data, p);
      longer := list + [v];
    } else {
      assert list + [] == list;
    }
  }

  method ParseRun(r: BitIO.Reader, flags: nat, before: Runs, ghost data: seq<byte>, ghost p: nat)
      returns (after: Runs, ghost next: nat)
    requires AtByte(r, data, p)
    modifies r
    ensures AtByte(r, data, next)
    ensures forall n: nat :: DecodeRuns(data, p, n + 1, flags, before) == DecodeRuns(data, next, n, flags, after)
  {
    ghost var p1 := NextIf(p, Has(flags, 0x100));
    ghost var p2 := NextIf(p1, Has(flags, 0x200));
    ghost var p3 := NextIf(p2, Has(flags, 0x400));
    var durations := AppendIf(r, before.durations, Has(flags, 0x100), data, p);
    var sizes := AppendIf(r, before.sizes, Has(flags, 0x200), data, p1);
    var sampleFlags := AppendIf(r, before.flags, Has(flags, 0x400), data, p2);
    var cts := AppendIf(r, before.cts, Has(flags, 0x800), data, p3);
    after, next := Runs(durations, sizes, sampleFlags, cts), NextIf(p3, Has(flags, 0x800));
  }

  method ParseTrun(data: seq<byte>) returns (box: Box)
    ensures box == DecodeTrun(data)
  {
    var r, flags := Begin(data);
    var samples := Number(r, data, 4);
    ghost var p := NextIf(8, Has(flags, 0x01));
    var offset := NumberIf(r, Has(flags, 0x01), data, 8);
    var first := NumberIf(r, Has(flags, 0x04), data, p);
    p := NextIf(p, Has(flags, 0x04));
    ghost var start := p;
    var runs := Runs([], [], [], []);
    for i := 0 to samples
      invariant AtByte(r, data, p)
      invariant DecodeRuns(data, p, samples - i, flags, runs)
             == DecodeRuns(data, start, samples, flags, Runs([], [], [], []))
    {
      runs, p := ParseRun(r, flags, runs, data, p);
    }
    box := Trun(offset, first, runs);
  }

  method ParseLeaf(name: seq<byte>, data: seq<byte>) returns (r: Result)
    ensures r == DecodeLeaf(name, data)
  {
    if name in DESCRIPTIONS {
      return Description;
    }
    if name == TKHD {
      return if |data| < 16 then Panic else Boxes([Tkhd(U(data[12..16]))]);
    } else if name == MDHD {
      return if |data| < 16 then Panic else Boxes([Mdhd(U(data[12..16]))]);
    } else if name == MFHD {
      return if |data| < 8 then Panic else Boxes([Mfhd(U(data[4..8]))]);
    } else if name == TFHD {
      var box := ParseTfhd(data);
      return Boxes([box]);
    } else if name == TFDT {
      return if |data| < 12 then Panic else Boxes([Tfdt(U(data[4..12]))]);
    } else if name == TRUN {
      var box := ParseTrun(data);
      return Boxes([box]);
    } else if name == MDAT {
      return Boxes([Mdat(data)]);
    }
    r := Boxes([Other(name, data)]);
  }

  method ParseAtom(b: seq<byte>) returns (r: Result)
    ensures r == DecodeAtom(b)
    decreases |b|, 0
  {
    if |b| < 4 {
      return Panic;
    }
    var size := U(b[..4]);
    if |b| < size {
      return Eof;
    }
    if size < 8 {
      return Panic;
    }
    if IsContainer(b[4..8]) {
      r := ParseAtoms(b[8..size]);
    } else {
      r := ParseLeaf(b[4..8], b[8..size]);
    }
  }

  method ParseAtoms(input: seq<byte>) returns (r: Result)
    ensures r == DecodeAtoms(input)
    decreases |input|, 1
  {
    var b: seq<byte>, atoms: seq<Box> := input, [];
    while |b| > 0
      invariant |b| <= |input|
      invariant DecodeAtoms(input)
             == var more := DecodeAtoms(b); if more.Boxes? then Boxes(atoms + more.boxes) else more
      decreases |b|
    {
      var atom := ParseAtom(b);
      if !atom.Boxes? {
        return atom;
      }
      var size := U(b[..4]);
      ghost var more := DecodeAtoms(b[size..]);
      if more.Boxes? {
        Assoc(atoms, atom.boxes, more.boxes);
      }
      atoms := atoms + atom.boxes;
      b := b[size..];
    }
    assert atoms + [] == atoms;
    r := Boxes(atoms);
  }
}
