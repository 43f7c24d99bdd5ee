// Track fragment headers and runs as sections 8.8.7 and 8.8.8 of ISO/IEC 14496-12 lay them out,
// with any flags, and what the reader makes of them.
module IsoBoxes {
  import opened Bytes
  import opened Seqs
  import opened IsoMovie
  import opened IsoFragment
  import opened IsoReader

  // ---------- words ----------

  predicate WordsOk(ws: seq<nat>) {
    forall i :: 0 <= i < |ws| ==> ws[i] < TWO32
  }

  function WordBytes(ws: seq<nat>): (b: seq<byte>)
    requires WordsOk(ws)
    ensures |b| == 4 * |ws|
  {
    if ws == [] then [] else Be(ws[0], 4) + WordBytes(ws[1..])
  }

  // The reader finds these words from p on.
  predicate WordsAt(data: seq<byte>, p: nat, ws: seq<nat>) {
    forall i :: 0 <= i < |ws| ==> Int(data, p + 4 * i, 4) == ws[i]
  }

  lemma {:induction false} FirstWord(before: seq<byte>, w: nat, rest: seq<byte>)
    requires w < TWO32
    ensures Int(before + (Be(w, 4) + rest), |before|, 4) == w
  {
    Powers();
    IntBe(before, w, 4);
    IntPrefix(before + Be(w, 4), rest, |before|, 4);
    Assoc(before, Be(w, 4), rest);
  }

  lemma {:induction false} WordsWritten(before: seq<byte>, ws: seq<nat>, rest: seq<byte>)
    requires WordsOk(ws)
    ensures WordsAt(before + (WordBytes(ws) + rest), |before|, ws)
    decreases |ws|
  {
    if ws != [] {
      var first, more := Be(ws[0], 4), WordBytes(ws[1..]);
      Assoc(first, more, rest);
      FirstWord(before, ws[0], more + rest);
      Assoc(before, first, more + rest);
      WordsWritten(before + first, ws[1..], rest);
      FirstThen(before + (first + (more + rest)), |before|, ws);
    }
  }

  lemma FirstThen(data: seq<byte>, p: nat, ws: seq<nat>)
    requires ws != [] && Int(data, p, 4) == ws[0] && WordsAt(data, p + 4, ws[1..])
    ensures WordsAt(data, p, ws)
  {
    forall i | 0 <= i < |ws|
      ensures Int(data, p + 4 * i, 4) == ws[i]
    {
      if i > 0 {
        assert Int(data, p + 4 + 4 * (i - 1), 4) == ws[1..][i - 1];
      }
    }
  }

  lemma WordsSplit(data: seq<byte>, p: nat, a: seq<nat>, b: seq<nat>)
    requires WordsAt(data, p, a + b)
    ensures WordsAt(data, p, a) && WordsAt(data, p + 4 * |a|, b)
  {
    forall i | 0 <= i < |a|
      ensures Int(data, p + 4 * i, 4) == a[i]
    {
      assert (a + b)[i] == a[i];
    }
    forall i | 0 <= i < |b|
      ensures Int(data, p + 4 * |a| + 4 * i, 4) == b[i]
    {
      assert (a + b)[|a| + i] == b[i];
      assert Int(data, p + 4 * (|a| + i), 4) == b[i];
    }
  }

  // A field that is there if the flag is set.
  function WordIf(present: bool, w: nat): seq<nat> {
    if present then [w] else []
  }

  // Version, flags and the number behind them, and then words.
  function FullBox(version: byte, flags: nat, number: nat, ws: seq<nat>, rest: seq<byte>): seq<byte>
    requires flags < TWO24 && number < TWO32 && WordsOk(ws)
  {
    [version] + Be(flags, 3) + Be(number, 4) + (WordBytes(ws) + rest)
  }

  lemma {:induction false} BoxReads(version: byte, flags: nat, number: nat, ws: seq<nat>, rest: seq<byte>)
    requires flags < TWO24 && number < TWO32 && WordsOk(ws)
    ensures var data := FullBox(version, flags, number, ws, rest);
            Int(data, 1, 3) == flags && Int(data, 4, 4) == number && WordsAt(data, 8, ws)
  {
    Powers();
    var a: seq<byte> := [version];
    var b := a + Be(flags, 3);
    var c := b + Be(number, 4);
    var more := WordBytes(ws) + rest;
    IntBe(a, flags, 3);
    IntPrefix(b, Be(number, 4), 1, 3);
    IntPrefix(c, more, 1, 3);
    IntBe(b, number, 4);
    IntPrefix(c, more, 4, 4);
    WordsWritten(c, ws, rest);
  }

  // ---------- runs ----------

  datatype Row = Row(duration: nat, size: nat, flags: nat, cts: nat)

  predicate RowsOk(rows: seq<Row>) {
    forall i :: 0 <= i < |rows| ==>
      rows[i].duration < TWO32 && rows[i].size < TWO32 && rows[i].flags < TWO32 && rows[i].cts < TWO32
  }

  // One sample: duration, size, flags and composition time, as far as the flags say so.
  function RowWords(flags: nat, r: Row): seq<nat> {
    WordIf(flags / 0x100 % 2 == 1, r.duration) + WordIf(flags / 0x200 % 2 == 1, r.size)
    + WordIf(flags / 0x400 % 2 == 1, r.flags) + WordIf(flags / 0x800 % 2 == 1, r.cts)
  }

  function AllRows(flags: nat, rows: seq<Row>): seq<nat> {
    if rows == [] then [] else RowWords(flags, rows[0]) + AllRows(flags, rows[1..])
  }

  function TrunWords(flags: nat, offset: nat, first: nat, rows: seq<Row>): seq<nat> {
    WordIf(flags % 2 == 1, offset) + WordIf(flags / 0x04 % 2 == 1, first) + AllRows(flags, rows)
  }

  lemma {:induction false} RowsAreWords(flags: nat, rows: seq<Row>)
    requires RowsOk(rows)
    ensures WordsOk(AllRows(flags, rows))
    decreases |rows|
  {
    if rows != [] {
      RowsAreWords(flags, rows[1..]);
      assert WordsOk(RowWords(flags, rows[0]));
    }
  }

  lemma {:induction false} TrunIsWords(flags: nat, offset: nat, first: nat, rows: seq<Row>)
    requires offset < TWO32 && first < TWO32 && RowsOk(rows)
    ensures WordsOk(TrunWords(flags, offset, first, rows))
  {
    RowsAreWords(flags, rows);
  }

  // One column of the table.
  function Durations(rows: seq<Row>): (c: seq<nat>)
    ensures |c| == |rows| && forall i :: 0 <= i < |rows| ==> c[i] == rows[i].duration
  {
    seq(|rows|, i requires 0 <= i < |rows| => rows[i].duration)
  }

  function Sizes(rows: seq<Row>): (c: seq<nat>)
    ensures |c| == |rows| && forall i :: 0 <= i < |rows| ==> c[i] == rows[i].size
  {
    seq(|rows|, i requires 0 <= i < |rows| => rows[i].size)
  }

  function FlagWords(rows: seq<Row>): (c: seq<nat>)
    ensures |c| == |rows| && forall i :: 0 <= i < |rows| ==> c[i] == rows[i].flags
  {
    seq(|rows|, i requires 0 <= i < |rows| => rows[i].flags)
  }

  function Offsets(rows: seq<Row>): (c: seq<nat>)
    ensures |c| == |rows| && forall i :: 0 <= i < |rows| ==> c[i] == rows[i].cts
  {
    seq(|rows|, i requires 0 <= i < |rows| => rows[i].cts)
  }

  function ColumnIf(present: bool, column: seq<nat>): seq<nat> {
    if present then column else []
  }

  // What a reader should know of the samples.
  function Known(flags: nat, rows: seq<Row>): Runs {
    Runs(ColumnIf(flags / 0x100 % 2 == 1, Durations(rows)), ColumnIf(flags / 0x200 % 2 == 1, Sizes(rows)),
         ColumnIf(flags / 0x400 % 2 == 1, FlagWords(rows)), ColumnIf(flags / 0x800 % 2 == 1, Offsets(rows)))
  }

  function Join(a: Runs, b: Runs): Runs {
    Runs(a.durations + b.durations, a.sizes + b.sizes, a.flags + b.flags, a.cts + b.cts)
  }

  lemma FirstRow(flags: nat, rows: seq<Row>)
    requires rows != []
    ensures Known(flags, rows) == Join(Known(flags, [rows[0]]), Known(flags, rows[1..]))
  {
    assert Durations(rows) == Durations([rows[0]]) + Durations(rows[1..]);
    assert Sizes(rows) == Sizes([rows[0]]) + Sizes(rows[1..]);
    assert FlagWords(rows) == FlagWords([rows[0]]) + FlagWords(rows[1..]);
    assert Offsets(rows) == Offsets([rows[0]]) + Offsets(rows[1..]);
  }

  lemma JoinAssoc(a: Runs, b: Runs, c: Runs)
    ensures Join(Join(a, b), c) == Join(a, Join(b, c))
  {
    Assoc(a.durations, b.durations, c.durations);
    Assoc(a.sizes, b.sizes, c.sizes);
    Assoc(a.flags, b.flags, c.flags);
    Assoc(a.cts, b.cts, c.cts);
  }

  lemma OneRow(data: seq<byte>, p: nat, n: nat, flags: nat, r: Row, before: Runs)
    requires n > 0 && WordsAt(data, p, RowWords(flags, r))
    ensures DecodeRuns(data, p, n, flags, before)
         == DecodeRuns(data, p + 4 * |RowWords(flags, r)|, n - 1, flags, Join(before, Known(flags, [r])))
  {
    var a, b := WordIf(flags / 0x100 % 2 == 1, r.duration), WordIf(flags / 0x200 % 2 == 1, r.size);
    var c, d := WordIf(flags / 0x400 % 2 == 1, r.flags), WordIf(flags / 0x800 % 2 == 1, r.cts);
    FourWords(data, p, a, b, c, d);
    Columns(flags, r);
    RowTaken(data, p, p + 4 * |a|, p + 4 * |a + b|, p + 4 * |a + b + c|, n, flags, a, b, c, d, before);
  }

  lemma FourWords(data: seq<byte>, p: nat, a: seq<nat>, b: seq<nat>, c: seq<nat>, d: seq<nat>)
    requires WordsAt(data, p, a + b + c + d)
    ensures WordsAt(data, p, a) && WordsAt(data, p + 4 * |a|, b)
    ensures WordsAt(data, p + 4 * |a + b|, c) && WordsAt(data, p + 4 * |a + b + c|, d)
  {
    WordsSplit(data, p, a + b + c, d);
    WordsSplit(data, p, a + b, c);
    WordsSplit(data, p, a, b);
  }

  lemma TakeOne(data: seq<byte>, p: nat, present: bool, ws: seq<nat>)
    requires |ws| == (if present then 1 else 0) && WordsAt(data, p, ws)
    ensures TakeIf(data, p, present) == ws && NextIf(p, present) == p + 4 * |ws|
  {
    if present {
      assert Int(data, p + 4 * 0, 4) == ws[0];
    }
  }

  lemma Columns(flags: nat, r: Row)
    ensures Known(flags, [r]) == Runs(WordIf(flags / 0x100 % 2 == 1, r.duration), WordIf(flags / 0x200 % 2 == 1, r.size),
                                      WordIf(flags / 0x400 % 2 == 1, r.flags), WordIf(flags / 0x800 % 2 == 1, r.cts))
  {
    assert Durations([r]) == [r.duration] && Sizes([r]) == [r.size];
    assert FlagWords([r]) == [r.flags] && Offsets([r]) == [r.cts];
  }

  lemma RowTaken(
      data: seq<byte>, p: nat, p1: nat, p2: nat, p3: nat, n: nat, flags: nat,
      a: seq<nat>, b: seq<nat>, c: seq<nat>, d: seq<nat>, before: Runs)
    requires n > 0 && p1 == p + 4 * |a| && p2 == p1 + 4 * |b| && p3 == p2 + 4 * |c|
    requires |a| == (if Has(flags, 0x100) then 1 else 0) && |b| == if Has(flags, 0x200) then 1 else 0
    requires |c| == (if Has(flags, 0x400) then 1 else 0) && |d| == if Has(flags, 0x800) then 1 else 0
    requires WordsAt(data, p, a) && WordsAt(data, p1, b) && WordsAt(data, p2, c) && WordsAt(data, p3, d)
    ensures DecodeRuns(data, p, n, flags, before)
         == DecodeRuns(data, p3 + 4 * |d|, n - 1, flags, Join(before, Runs(a, b, c, d)))
  {
    TakeOne(data, p, Has(flags, 0x100), a);
    TakeOne(data, p1, Has(flags, 0x200), b);
    TakeOne(data, p2, Has(flags, 0x400), c);
    TakeOne(data, p3, Has(flags, 0x800), d);
  }

  lemma NothingKnown(flags: nat, rows: seq<Row>, before: Runs)
    requires rows == []
    ensures Join(before, Known(flags, rows)) == before
  {
    assert before.durations + [] == before.durations && before.sizes + [] == before.sizes;
    assert before.flags + [] == before.flags && before.cts + [] == before.cts;
  }

  lemma {:induction false} RowsRead(data: seq<byte>, p: nat, flags: nat, rows: seq<Row>, before: Runs)
    requires WordsAt(data, p, AllRows(flags, rows))
    ensures DecodeRuns(data, p, |rows|, flags, before) == Join(before, Known(flags, rows))
    decreases |rows|
  {
    if rows == [] {
      NothingKnown(flags, rows, before);
    } else {
      var words, first := RowWords(flags, rows[0]), Known(flags, [rows[0]]);
      WordsSplit(data, p, words, AllRows(flags, rows[1..]));
      OneRow(data, p, |rows|, flags, rows[0], before);
      RowsRead(data, p + 4 * |words|, flags, rows[1..], Join(before, first));
      JoinAssoc(before, first, Known(flags, rows[1..]));
      FirstRow(flags, rows);
    }
  }

  // A run with any flags and any samples: exactly the fields that were written come back, in
  // their own lists, and a list is empty where its flag is not set.
  lemma {:induction false} TrunTeaches(version: byte, flags: nat, offset: nat, first: nat, rows: seq<Row>, rest: seq<byte>)
    requires flags < TWO24 && offset < TWO32 && first < TWO32 && RowsOk(rows) && |rows| < TWO32
    ensures WordsOk(TrunWords(flags, offset, first, rows))
    ensures DecodeTrun(FullBox(version, flags, |rows|, TrunWords(flags, offset, first, rows), rest))
         == Trun(if flags % 2 == 1 then offset else 0, if flags / 0x04 % 2 == 1 then first else 0,
                 Runs(if flags / 0x100 % 2 == 1 then Durations(rows) else [],
                      if flags / 0x200 % 2 == 1 then Sizes(rows) else [],
                      if flags / 0x400 % 2 == 1 then FlagWords(rows) else [],
                      if flags / 0x800 % 2 == 1 then Offsets(rows) else []))
  {
    TrunIsWords(flags, offset, first, rows);
    var a, b := WordIf(flags % 2 == 1, offset), WordIf(flags / 0x04 % 2 == 1, first);
    var data := FullBox(version, flags, |rows|, TrunWords(flags, offset, first, rows), rest);
    BoxReads(version, flags, |rows|, TrunWords(flags, offset, first, rows), rest);
    TrunRows(data, flags, a, b, rows);
    TrunTaken(data, flags, |rows|, a, b, 8 + 4 * |a + b|, Known(flags, rows));
  }

  lemma {:induction false} TrunRows(data: seq<byte>, flags: nat, a: seq<nat>, b: seq<nat>, rows: seq<Row>)
    requires WordsAt(data, 8, a + b + AllRows(flags, rows))
    ensures WordsAt(data, 8, a) && WordsAt(data, 8 + 4 * |a|, b)
    ensures DecodeRuns(data, 8 + 4 * |a + b|, |rows|, flags, Runs([], [], [], [])) == Join(Runs([], [], [], []), Known(flags, rows))
  {
    WordsSplit(data, 8, a + b, AllRows(flags, rows));
    WordsSplit(data, 8, a, b);
    RowsRead(data, 8 + 4 * |a + b|, flags, rows, Runs([], [], [], []));
  }

  lemma TrunTaken(data: seq<byte>, flags: nat, n: nat, a: seq<nat>, b: seq<nat>, p: nat, known: Runs)
    requires Int(data, 1, 3) == flags && Int(data, 4, 4) == n && p == 8 + 4 * |a| + 4 * |b|
    requires |a| == (if flags % 2 == 1 then 1 else 0) && |b| == if flags / 0x04 % 2 == 1 then 1 else 0
    requires WordsAt(data, 8, a) && WordsAt(data, 8 + 4 * |a|, b)
    requires DecodeRuns(data, p, n, flags, Runs([], [], [], [])) == Join(Runs([], [], [], []), known)
    ensures DecodeTrun(data) == Trun(if |a| == 1 then a[0] else 0, if |b| == 1 then b[0] else 0, known)
  {
    TakeOne(data, 8, Has(flags, 0x01), a);
    TakeOne(data, 8 + 4 * |a|, Has(flags, 0x04), b);
    JoinNone(known);
  }

  lemma JoinNone(known: Runs)
    ensures Join(Runs([], [], [], []), known) == known
  {
    assert [] + known.durations == known.durations && [] + known.sizes == known.sizes;
    assert [] + known.flags == known.flags && [] + known.cts == known.cts;
  }

  // ---------- track fragment headers ----------

  // The fields a header may have; the base data offset has eight bytes.
  datatype Header = Header(track: nat, base: nat, description: nat, duration: nat, size: nat, flags: nat)

  predicate HeaderOk(h: Header) {
    && h.track < TWO32 && h.base < TWO64 && h.description < TWO32 && h.duration < TWO32 && h.size < TWO32 && h.flags < TWO32
  }

  function HeaderWords(flags: nat, h: Header): seq<nat> {
    (if flags % 2 == 1 then [h.base / TWO32, h.base % TWO32] else []) + WordIf(flags / 0x02 % 2 == 1, h.description)
    + WordIf(flags / 0x08 % 2 == 1, h.duration) + WordIf(flags / 0x10 % 2 == 1, h.size)
    + WordIf(flags / 0x20 % 2 == 1, h.flags)
  }

  // What a reader should know of the header.
  function Told(flags: nat, h: Header): Box {
    Tfhd(h.track, if flags / 0x08 % 2 == 1 then h.duration else 0, if flags / 0x10 % 2 == 1 then h.size else 0,
         if flags / 0x20 % 2 == 1 then h.flags else 0)
  }

  lemma HeaderIsWords(flags: nat, h: Header)
    requires HeaderOk(h)
    ensures WordsOk(HeaderWords(flags, h))
  {
    assert h.base / TWO32 < TWO32;
  }

  // The reader takes the words that stand there, whatever they are.
  lemma {:induction false} TfhdTakes(version: byte, flags: nat, track: nat, ws: seq<nat>, rest: seq<byte>)
    requires flags < TWO24 && track < TWO32 && WordsOk(ws)
    requires |ws| >= (if flags / 0x08 % 2 == 1 then 1 else 0) + (if flags / 0x10 % 2 == 1 then 1 else 0)
                     + if flags / 0x20 % 2 == 1 then 1 else 0
    ensures var d := if flags / 0x08 % 2 == 1 then 1 else 0;
            var e := d + if flags / 0x10 % 2 == 1 then 1 else 0;
            DecodeTfhd(FullBox(version, flags, track, ws, rest))
            == Tfhd(track, if d == 1 then ws[0] else 0, if e > d then ws[d] else 0, if flags / 0x20 % 2 == 1 then ws[e] else 0)
  {
    var data := FullBox(version, flags, track, ws, rest);
    BoxReads(version, flags, track, ws, rest);
    var d := if flags / 0x08 % 2 == 1 then 1 else 0;
    var e := d + if flags / 0x10 % 2 == 1 then 1 else 0;
    assert d == 1 ==> Int(data, 8 + 4 * 0, 4) == ws[0];
    assert e > d ==> Int(data, 8 + 4 * d, 4) == ws[d];
    assert flags / 0x20 % 2 == 1 ==> Int(data, 8 + 4 * e, 4) == ws[e];
  }

  // The reader does not know of a base data offset or a description index: it gets the fields
  // of every header with these flags exactly if neither is there, or no field behind them.
  lemma {:induction false} TfhdLimit(version: byte, flags: nat, rest: seq<byte>)
    requires flags < TWO24
    ensures (forall h :: HeaderOk(h) ==> TfhdReadsRight(version, flags, h, rest))
            <==> (flags % 2 == 0 && flags / 0x02 % 2 == 0)
                 || (flags / 0x08 % 2 == 0 && flags / 0x10 % 2 == 0 && flags / 0x20 % 2 == 0)
  {
    if (flags % 2 == 0 && flags / 0x02 % 2 == 0) || (flags / 0x08 % 2 == 0 && flags / 0x10 % 2 == 0 && flags / 0x20 % 2 == 0) {
      forall h | HeaderOk(h)
        ensures TfhdReadsRight(version, flags, h, rest)
      {
        HeaderIsWords(flags, h);
        TfhdTakes(version, flags, h.track, HeaderWords(flags, h), rest);
      }
    } else {
      var h := Header(1, 0, 0, 1, 1, 1);
      HeaderIsWords(flags, h);
      TfhdTakes(version, flags, h.track, HeaderWords(flags, h), rest);
      assert HeaderOk(h) && !TfhdReadsRight(version, flags, h, rest);
    }
  }

  predicate TfhdReadsRight(version: byte, flags: nat, h: Header, rest: seq<byte>)
    requires flags < TWO24 && HeaderOk(h)
  {
    HeaderIsWords(flags, h);
    DecodeTfhd(FullBox(version, flags, h.track, HeaderWords(flags, h), rest)) == Told(flags, h)
  }

  // ---------- tracks of a movie ----------

  lemma {:induction false} WordOf(data: seq<byte>, p: nat, ws: seq<nat>, i: nat)
    requires WordsAt(data, p, ws) && i < |ws| && p + 4 * i + 4 <= |data|
    ensures U(data[p + 4 * i..p + 4 * i + 4]) == ws[i]
  {
    IntSlice(data, p + 4 * i, 4);
  }

  // A track header, or a media header: two times of 32 bits, in version 1 of 64, and then the
  // track id, or the time scale.
  function Stamped(version: byte, flags: nat, created: nat, modified: nat, v: nat, rest: seq<byte>): seq<byte>
    requires flags < TWO24 && v < TWO32 && created < (if version == 1 then TWO64 else TWO32)
    requires modified < if version == 1 then TWO64 else TWO32
  {
    if version == 1 then FullBox(1, flags, created / TWO32, [created % TWO32, modified / TWO32, modified % TWO32, v], rest)
    else FullBox(version, flags, created, [modified, v], rest)
  }

  // The reader does not look at the version: of version 1 it takes the upper half of the
  // modification time.
  lemma {:induction false} StampedReads(version: byte, flags: nat, created: nat, modified: nat, v: nat, rest: seq<byte>)
    requires flags < TWO24 && v < TWO32 && created < (if version == 1 then TWO64 else TWO32)
    requires modified < if version == 1 then TWO64 else TWO32
    ensures var data := Stamped(version, flags, created, modified, v, rest);
            var got := if version == 1 then modified / TWO32 else v;
            && DecodeNamed([0x74, 0x6B, 0x68, 0x64], data) == Boxes([Tkhd(got)])
            && DecodeNamed([0x6D, 0x64, 0x68, 0x64], data) == Boxes([Mdhd(got)])
  {
    var data := Stamped(version, flags, created, modified, v, rest);
    var ws := if version == 1 then [created % TWO32, modified / TWO32, modified % TWO32, v] else [modified, v];
    BoxReads(version, flags, if version == 1 then created / TWO32 else created, ws, rest);
    WordOf(data, 8, ws, 1);
    LeafNames();
  }

  lemma LeafNames()
    ensures !IsContainer([0x74, 0x6B, 0x68, 0x64]) && !IsContainer([0x6D, 0x64, 0x68, 0x64])
    ensures [0x74, 0x6B, 0x68, 0x64] !in DESCRIPTIONS && [0x6D, 0x64, 0x68, 0x64] !in DESCRIPTIONS
  {
  }

  // moov, trak, mdia, minf and stbl are opened, and moof and traf.
  lemma ContainerNames(data: seq<byte>)
    ensures DecodeNamed([0x6D, 0x6F, 0x6F, 0x76], data) == DecodeAtoms(data)
    ensures DecodeNamed([0x74, 0x72, 0x61, 0x6B], data) == DecodeAtoms(data)
    ensures DecodeNamed([0x6D, 0x64, 0x69, 0x61], data) == DecodeAtoms(data)
    ensures DecodeNamed([0x6D, 0x69, 0x6E, 0x66], data) == DecodeAtoms(data)
    ensures DecodeNamed([0x73, 0x74, 0x62, 0x6C], data) == DecodeAtoms(data)
    ensures DecodeNamed([0x6D, 0x6F, 0x6F, 0x66], data) == DecodeAtoms(data)
    ensures DecodeNamed([0x74, 0x72, 0x61, 0x66], data) == DecodeAtoms(data)
  {
  }

  // A media: its header, and the sample table in its information.
  function Media(mdhd: seq<byte>, table: seq<byte>): seq<byte>
    requires |mdhd| < 1000 && |table| < 0x1000_0000
  {
    Closed([0x6D, 0x64, 0x68, 0x64], mdhd) + Closed([0x6D, 0x69, 0x6E, 0x66], Closed([0x73, 0x74, 0x62, 0x6C], table))
  }

  // A movie of one track: its header and its media.
  function Movie(tkhd: seq<byte>, mdhd: seq<byte>, table: seq<byte>): seq<byte>
    requires |tkhd| < 1000 && |mdhd| < 1000 && |table| < 0x1000_0000
  {
    Closed([0x6D, 0x6F, 0x6F, 0x76],
           Closed([0x74, 0x72, 0x61, 0x6B],
                  Closed([0x74, 0x6B, 0x68, 0x64], tkhd) + Closed([0x6D, 0x64, 0x69, 0x61], Media(mdhd, table))))
  }

  lemma {:induction false} MediaReads(mdhd: seq<byte>, table: seq<byte>, scale: nat, boxes: seq<Box>)
    requires |mdhd| < 1000 && |table| < 0x1000_0000
    requires DecodeNamed([0x6D, 0x64, 0x68, 0x64], mdhd) == Boxes([Mdhd(scale)]) && DecodeAtoms(table) == Boxes(boxes)
    ensures DecodeAtoms(Media(mdhd, table)) == Boxes([Mdhd(scale)] + boxes)
  {
    var stbl := Closed([0x73, 0x74, 0x62, 0x6C], table);
    OneAtom([0x73, 0x74, 0x62, 0x6C], table);
    ContainerNames(table);
    ContainerNames(stbl);
    TwoAtoms([0x6D, 0x64, 0x68, 0x64], mdhd, [Mdhd(scale)], [0x6D, 0x69, 0x6E, 0x66], stbl, boxes);
  }

  // The reader finds the track, its time scale and whatever its sample table holds, through all
  // the containers around them.
  lemma {:induction false} MovieReads(tkhd: seq<byte>, mdhd: seq<byte>, table: seq<byte>, id: nat, scale: nat, boxes: seq<Box>)
    requires |tkhd| < 1000 && |mdhd| < 1000 && |table| < 0x1000_0000
    requires DecodeNamed([0x74, 0x6B, 0x68, 0x64], tkhd) == Boxes([Tkhd(id)])
    requires DecodeNamed([0x6D, 0x64, 0x68, 0x64], mdhd) == Boxes([Mdhd(scale)]) && DecodeAtoms(table) == Boxes(boxes)
    ensures DecodeAtoms(Movie(tkhd, mdhd, table)) == Boxes([Tkhd(id)] + ([Mdhd(scale)] + boxes))
  {
    var media := Media(mdhd, table);
    MediaReads(mdhd, table, scale, boxes);
    ContainerNames(media);
    var track := Closed([0x74, 0x6B, 0x68, 0x64], tkhd) + Closed([0x6D, 0x64, 0x69, 0x61], media);
    TwoAtoms([0x74, 0x6B, 0x68, 0x64], tkhd, [Tkhd(id)], [0x6D, 0x64, 0x69, 0x61], media, [Mdhd(scale)] + boxes);
    ContainerNames(track);
    OneAtom([0x74, 0x72, 0x61, 0x6B], track);
    ContainerNames(Closed([0x74, 0x72, 0x61, 0x6B], track));
    OneAtom([0x6D, 0x6F, 0x6F, 0x76], Closed([0x74, 0x72, 0x61, 0x6B], track));
  }

  // ---------- what the muxer writes is of this form ----------

  // One moof with one traf of one sample, and the mdat.
  function Traf(s: Sample, offset: nat): seq<byte>
    requires SampleOk(s) && offset < TWO32
  {
    var tfhd := FullBox(0, 0x02_0038, s.track, [s.duration, s.size, s.flags], []);
    var tfdt := [1, 0, 0, 0] + Be(s.dts, 8);
    var trun := FullBox(0, if s.cts == 0 then 0x001 else 0x801, 1, [offset] + (if s.cts == 0 then [] else [s.cts]), []);
    Closed([0x74, 0x66, 0x68, 0x64], tfhd) + Closed([0x74, 0x66, 0x64, 0x74], tfdt) + Closed([0x74, 0x72, 0x75, 0x6E], trun)
  }

  function Standard(s: Sample, offset: nat, payload: seq<byte>): seq<byte>
    requires SampleOk(s) && offset < TWO32
  {
    var mfhd := FullBox(0, 0, s.sequence, [], []);
    var moof := Closed([0x6D, 0x66, 0x68, 0x64], mfhd) + Closed([0x74, 0x72, 0x61, 0x66], Traf(s, offset));
    Closed([0x6D, 0x6F, 0x6F, 0x66], moof) + Closed([0x6D, 0x64, 0x61, 0x74], payload)
  }

  lemma {:induction false} TrafIs(s: Sample, offset: nat)
    requires SampleOk(s) && offset < TWO32
    ensures TrafBody(s, offset) == Traf(s, offset)
  {
    TfhdIs(s.track, s.duration, s.size, s.flags);
    TrunIs(offset, s.cts);
  }

  lemma {:induction false} MfhdIs(sequence: nat)
    requires sequence < TWO32
    ensures MfhdBody(sequence) == FullBox(0, 0, sequence, [], [])
  {
    assert Be(0, 3) == [0, 0, 0];
  }

  lemma {:induction false} WordsOfThree(a: nat, b: nat, c: nat)
    requires a < TWO32 && b < TWO32 && c < TWO32
    ensures WordBytes([a, b, c]) == Be(a, 4) + Be(b, 4) + Be(c, 4)
  {
    assert [a, b, c][1..] == [b, c] && [b, c][1..] == [c] && [c][1..] == [];
    WordsOfTwo(b, c);
  }

  lemma {:induction false} WordsOfTwo(a: nat, b: nat)
    requires a < TWO32 && b < TWO32
    ensures WordBytes([a]) == Be(a, 4) && WordBytes([a, b]) == Be(a, 4) + Be(b, 4) && WordBytes([b]) == Be(b, 4)
  {
    assert [a, b][1..] == [b] && [b][1..] == [] && [a][1..] == [];
  }

  lemma {:induction false} TfhdIs(track: nat, duration: nat, size: nat, flags: nat)
    requires track < TWO32 && duration < TWO32 && size < TWO32 && flags < TWO32
    ensures TfhdBody(track, duration, size, flags) == FullBox(0, 0x02_0038, track, [duration, size, flags], [])
  {
    WordsOfThree(duration, size, flags);
    Regroup([0] + Be(0x02_0038, 3) + Be(track, 4), Be(duration, 4), Be(size, 4), Be(flags, 4));
  }

  lemma {:induction false} TrunIs(offset: nat, cts: nat)
    requires offset < TWO32 && cts < TWO32
    ensures TrunBody(offset, cts)
         == FullBox(0, if cts == 0 then 0x001 else 0x801, 1, [offset] + (if cts == 0 then [] else [cts]), [])
  {
    WordsOfTwo(offset, cts);
    var none: seq<nat> := [];
    assert [offset] + none == [offset] && [offset] + [cts] == [offset, cts];
    Assoc([0] + Be(if cts == 0 then 0x001 else 0x801, 3) + Be(1, 4), Be(offset, 4), Be(cts, 4));
  }

  lemma {:induction false} MoofIs(s: Sample, offset: nat) returns (moof: seq<byte>)
    requires SampleOk(s) && offset < TWO32
    ensures moof == MoofBody(s, offset)
    ensures moof == Closed([0x6D, 0x66, 0x68, 0x64], FullBox(0, 0, s.sequence, [], []))
                    + Closed([0x74, 0x72, 0x61, 0x66], Traf(s, offset))
  {
    MfhdIs(s.sequence);
    TrafIs(s, offset);
    moof := MoofBody(s, offset);
    assert moof == Closed([0x6D, 0x66, 0x68, 0x64], MfhdBody(s.sequence)) + Closed([0x74, 0x72, 0x61, 0x66], TrafBody(s, offset));
  }

  lemma {:induction false} OuterIs(s: Sample, base: nat, offset: nat, moof: seq<byte>, payload: seq<byte>)
    requires offset == base + (if s.cts == 0 then 100 else 104) + 8 && moof == MoofBody(s, offset)
    ensures Fragment(s, base, payload) == Closed([0x6D, 0x6F, 0x6F, 0x66], moof) + Closed([0x6D, 0x64, 0x61, 0x74], payload)
  {
  }

  lemma {:induction false} StandardIs(s: Sample, offset: nat, moof: seq<byte>, payload: seq<byte>)
    requires SampleOk(s) && offset < TWO32
    requires moof == Closed([0x6D, 0x66, 0x68, 0x64], FullBox(0, 0, s.sequence, [], []))
                     + Closed([0x74, 0x72, 0x61, 0x66], Traf(s, offset))
    ensures Standard(s, offset, payload) == Closed([0x6D, 0x6F, 0x6F, 0x66], moof) + Closed([0x6D, 0x64, 0x61, 0x74], payload)
  {
  }

  // The fragment, atom by atom under their names, with the offset of the payload in the trun.
  lemma {:induction false} FragmentIs(s: Sample, base: nat, offset: nat, payload: seq<byte>)
    requires SampleOk(s) && offset == base + (if s.cts == 0 then 100 else 104) + 8 < TWO32
    ensures Fragment(s, base, payload) == Standard(s, offset, payload)
  {
    var moof := MoofIs(s, offset);
    OuterIs(s, base, offset, moof, payload);
    StandardIs(s, offset, moof, payload);
  }
}
