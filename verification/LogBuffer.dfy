// The circular log buffer of internal/app/log.go. Its methods hold one mutex, so each is one
// atomic step.
module LogBuffer {
  import opened Bytes
  import opened Seqs

  const CHUNK_COUNT: nat := 16
  const CHUNK_SIZE: nat := 0x1_0000

  lemma {:induction false} FlatFirst(groups: seq<seq<seq<byte>>>)
    requires groups != []
    ensures Flat(groups) == groups[0] + Flat(groups[1..])
  {
    assert groups == [groups[0]] + groups[1..];
    FlatFront(groups[0], groups[1..]);
  }

  // ---------- the simple view: the log as groups of writes, oldest first ----------

  datatype Log = Log(writes: seq<seq<byte>>, dropped: nat, groups: seq<seq<seq<byte>>>)

  const EMPTY: Log := Log([], 0, [[]])

  predicate Overflows(log: Log, p: seq<byte>)
    requires log.groups != []
  {
    |Flat(log.groups[|log.groups| - 1])| + |p| > CHUNK_SIZE
  }

  // A write that does not fit the newest group starts a new one, and drops the oldest of 16.
  function Put(log: Log, p: seq<byte>): (r: Log)
    requires log.groups != []
    ensures r.groups != []
  {
    var n := |log.groups| - 1;
    var writes := log.writes + [p];
    if !Overflows(log, p) then Log(writes, log.dropped, log.groups[n := log.groups[n] + [p]])
    else if n + 1 < CHUNK_COUNT then Log(writes, log.dropped, log.groups + [[p]])
    else Log(writes, log.dropped + |log.groups[0]|, log.groups[1..] + [[p]])
  }

  // A group was full for the first write of the next one.
  predicate Full(groups: seq<seq<seq<byte>>>) {
    forall k :: 0 < k < |groups| ==>
      groups[k] != [] && |Flat(groups[k - 1])| + |groups[k][0]| > CHUNK_SIZE
  }

  predicate Good(log: Log) {
    && 0 < |log.groups| <= CHUNK_COUNT && log.dropped <= |log.writes|
    && Flat(log.groups) == log.writes[log.dropped..]
    && Full(log.groups)
    && (log.dropped > 0 ==> |log.groups| == CHUNK_COUNT)
  }

  lemma {:induction false} EmptyGood()
    ensures Good(EMPTY)
  {
    var none: seq<seq<byte>> := [];
    assert EMPTY.groups[..0] == [] && Flat(EMPTY.groups) == none;
  }

  lemma {:induction false} PutSuffix(log: Log, p: seq<byte>)
    requires Good(log)
    ensures Put(log, p).dropped <= |Put(log, p).writes|
    ensures Flat(Put(log, p).groups) == Put(log, p).writes[Put(log, p).dropped..]
  {
    var n, r := |log.groups| - 1, Put(log, p);
    var kept := log.writes[log.dropped..];
    assert r.writes[log.dropped..] == kept + [p];
    if !Overflows(log, p) {
      assert r.groups[..n] == log.groups[..n];
      Assoc(Flat(log.groups[..n]), log.groups[n], [p]);
    } else {
      SnocTake(log.groups, [p]);
      if n + 1 == CHUNK_COUNT {
        FlatFirst(log.groups);
        FlatFirst(log.groups + [[p]]);
        assert (log.groups + [[p]])[1..] == r.groups;
        Halves(log.groups[0], Flat(r.groups));
        assert kept + [p] == log.groups[0] + Flat(r.groups);
        DropDrop(r.writes, log.dropped, |log.groups[0]|);
      }
    }
  }

  lemma {:induction false} PutFull(log: Log, p: seq<byte>)
    requires Good(log)
    ensures Full(Put(log, p).groups)
  {
    var n, r := |log.groups| - 1, Put(log, p);
    forall k | 0 < k < |r.groups|
      ensures r.groups[k] != [] && |Flat(r.groups[k - 1])| + |r.groups[k][0]| > CHUNK_SIZE
    {
      if Overflows(log, p) && n + 1 == CHUNK_COUNT && k < n {
        assert r.groups[k] == log.groups[k + 1] && r.groups[k - 1] == log.groups[k];
      }
    }
  }

  // The groups once there is room for the write.
  function Room(log: Log, p: seq<byte>): (groups: seq<seq<seq<byte>>>)
    requires log.groups != []
    ensures groups != []
  {
    if !Overflows(log, p) then log.groups
    else (if |log.groups| < CHUNK_COUNT then log.groups else log.groups[1..]) + [[]]
  }

  lemma {:induction false} RoomIs(log: Log, p: seq<byte>, size: nat)
    requires log.groups != [] && size == |Flat(log.groups[|log.groups| - 1])|
    ensures Room(log, p) == if size + |p| <= CHUNK_SIZE then log.groups
                            else (if |log.groups| < CHUNK_COUNT then log.groups else log.groups[1..]) + [[]]
  {
  }

  // Put first makes room and then appends to the newest group.
  lemma {:induction false} PutGroups(log: Log, p: seq<byte>)
    requires log.groups != []
    ensures var groups := Room(log, p);
            Put(log, p).groups == groups[|groups| - 1 := groups[|groups| - 1] + [p]]
  {
    var none: seq<seq<byte>> := [];
    assert none + [p] == [p];
  }

  // The invariant that every write keeps.
  lemma {:induction false} PutGood(log: Log, p: seq<byte>)
    requires Good(log)
    ensures Good(Put(log, p))
  {
    PutSuffix(log, p);
    PutFull(log, p);
  }

  // ---------- what the output is worth ----------

  function Output(log: Log): seq<byte> {
    Flat(Flat(log.groups))
  }

  // The output is a suffix of the whole writes since the last reset, in order.
  lemma {:induction false} OutputIsSuffix(log: Log)
    requires Good(log)
    ensures Output(log) == Flat(log.writes[log.dropped..])
    ensures Flat(log.writes) == Flat(log.writes[..log.dropped]) + Output(log)
  {
    Split(log.writes, log.dropped);
    FlatAppend(log.writes[..log.dropped], log.writes[log.dropped..]);
  }

  predicate SmallWrites(log: Log) {
    forall k :: 0 <= k < |log.writes| ==> |log.writes[k]| <= CHUNK_SIZE
  }

  predicate SmallGroups(log: Log) {
    forall k :: 0 <= k < |log.groups| ==> |Flat(log.groups[k])| <= CHUNK_SIZE
  }

  lemma {:induction false} PutSmall(log: Log, p: seq<byte>)
    requires log.groups != [] && SmallGroups(log) && |p| <= CHUNK_SIZE
    ensures SmallGroups(Put(log, p))
  {
    var n := |log.groups| - 1;
    FlatAppend(log.groups[n], [p]);
    var none: seq<seq<byte>> := [];
    assert [p][..0] == none && Flat([p]) == Flat(none) + p;
  }

  lemma {:induction false} FlatGroups(groups: seq<seq<seq<byte>>>)
    requires groups != []
    ensures |Flat(Flat(groups))| == |Flat(Flat(groups[..|groups| - 1]))| + |Flat(groups[|groups| - 1])|
  {
    FlatAppend(Flat(groups[..|groups| - 1]), groups[|groups| - 1]);
  }

  lemma {:induction false} AtMost(groups: seq<seq<seq<byte>>>)
    requires forall k :: 0 <= k < |groups| ==> |Flat(groups[k])| <= CHUNK_SIZE
    ensures |Flat(Flat(groups))| <= |groups| * CHUNK_SIZE
    decreases |groups|
  {
    if groups != [] {
      FlatGroups(groups);
      AtMost(groups[..|groups| - 1]);
    }
  }

  lemma {:induction false} FirstWrite(group: seq<seq<byte>>)
    requires group != []
    ensures |Flat(group)| >= |group[0]|
    decreases |group|
  {
    var n := |group| - 1;
    if n > 0 {
      FirstWrite(group[..n]);
    }
  }

  // Two neighbours hold more than a chunk.
  lemma {:induction false} MoreThan(groups: seq<seq<seq<byte>>>, pairs: nat)
    requires Full(groups) && |groups| == 2 * pairs && pairs > 0
    ensures |Flat(Flat(groups))| > pairs * CHUNK_SIZE
    decreases pairs
  {
    var n := |groups|;
    var front := groups[..n - 1];
    FlatGroups(groups);
    FlatGroups(front);
    FirstWrite(groups[n - 1]);
    assert front[..n - 2] == groups[..n - 2];
    if pairs > 1 {
      MoreThan(groups[..n - 2], pairs - 1);
    }
  }

  // Small writes: never more than 16 chunks' worth. Once anything was dropped: always more
  // than 8 chunks' worth.
  lemma {:induction false} OutputBounds(log: Log)
    requires Good(log)
    ensures SmallGroups(log) ==> |Output(log)| <= CHUNK_COUNT * CHUNK_SIZE
    ensures log.dropped > 0 ==> |Output(log)| > 8 * CHUNK_SIZE
  {
    if SmallGroups(log) {
      AtMost(log.groups);
    }
    if log.dropped > 0 {
      MoreThan(log.groups, 8);
    }
  }

  // ---------- runs ----------

  datatype Op = Write(p: seq<byte>) | Reset

  function Run(ops: seq<Op>): (log: Log)
    ensures log.groups != []
  {
    if ops == [] then EMPTY
    else
      var n := |ops| - 1;
      match ops[n]
      case Write(p) => Put(Run(ops[..n]), p)
      case Reset => EMPTY
  }

  // Small writes keep every group small.
  predicate Bounded(log: Log) {
    SmallWrites(log) ==> SmallGroups(log)
  }

  lemma {:induction false} PutBounded(log: Log, p: seq<byte>)
    requires log.groups != [] && Bounded(log)
    ensures Bounded(Put(log, p))
  {
    var after := Put(log, p).writes;
    assert after == log.writes + [p];
    if SmallWrites(Put(log, p)) {
      assert forall k :: 0 <= k < |log.writes| ==> log.writes[k] == after[k];
      assert after[|log.writes|] == p;
      PutSmall(log, p);
    }
  }

  lemma {:induction false} RunGood(ops: seq<Op>)
    ensures Good(Run(ops)) && Bounded(Run(ops))
  {
    EmptyGood();
    if ops != [] {
      var n := |ops| - 1;
      RunGood(ops[..n]);
      match ops[n]
      case Write(p) =>
        PutGood(Run(ops[..n]), p);
        PutBounded(Run(ops[..n]), p);
      case Reset =>
    }
  }

  // After any run of writes and resets.
  lemma {:induction false} RunBounds(ops: seq<Op>)
    ensures var log := Run(ops);
            && log.dropped <= |log.writes| && Output(log) == Flat(log.writes[log.dropped..])
            && ((forall k :: 0 <= k < |log.writes| ==> |log.writes[k]| <= 0x1_0000) ==> |Output(log)| <= 16 * 0x1_0000)
            && (log.dropped > 0 ==> |Output(log)| > 8 * 0x1_0000)
  {
    RunGood(ops);
    OutputIsSuffix(Run(ops));
    OutputBounds(Run(ops));
  }

  function Writes(ps: seq<seq<byte>>): (ops: seq<Op>)
    ensures |ops| == |ps| && forall k :: 0 <= k < |ps| ==> ops[k] == Write(ps[k])
  {
    seq(|ps|, k requires 0 <= k < |ps| => Write(ps[k]))
  }

  function Singles(ps: seq<seq<byte>>): (groups: seq<seq<seq<byte>>>)
    ensures |groups| == |ps| && forall k :: 0 <= k < |ps| ==> groups[k] == [ps[k]]
  {
    seq(|ps|, k requires 0 <= k < |ps| => [ps[k]])
  }

  // What writes that fill a chunk each leave behind.
  predicate LastChunks(log: Log, ps: seq<seq<byte>>) {
    var n := if |ps| <= 16 then 0 else |ps| - 16;
    log.writes == ps && log.dropped == n && log.groups == Singles(ps[n..])
  }

  lemma {:induction false} OneMoreChunk(log: Log, ps: seq<seq<byte>>, p: seq<byte>)
    requires ps != [] && LastChunks(log, ps) && |ps[|ps| - 1]| == 0x1_0000 && |p| == 0x1_0000
    ensures LastChunks(Put(log, p), ps + [p])
  {
    var n := if |ps| <= 16 then 0 else |ps| - 16;
    FlatOne(ps[|ps| - 1]);
    assert Overflows(log, p);
    var kept := ps[n..];
    if |ps| < 16 {
      assert (ps + [p])[0..] == kept + [p];
      assert Singles(kept) + [[p]] == Singles(kept + [p]);
    } else {
      assert (ps + [p])[n + 1..] == kept[1..] + [p];
      assert Singles(kept)[1..] + [[p]] == Singles(kept[1..] + [p]);
    }
  }

  // Writes that fill a chunk each: the buffer keeps all of them up to 16, and then the last 16.
  lemma {:induction false} FullWrites(ps: seq<seq<byte>>)
    requires ps != [] && forall k :: 0 <= k < |ps| ==> |ps[k]| == 0x1_0000
    ensures LastChunks(Run(Writes(ps)), ps)
    decreases |ps|
  {
    var last, front := ps[|ps| - 1], ps[..|ps| - 1];
    assert Writes(ps)[..|ps| - 1] == Writes(front) && ps == front + [last];
    if front == [] {
      FirstChunk(last);
      assert Writes(front) == [] && ps == [last];
    } else {
      FullWrites(front);
      OneMoreChunk(Run(Writes(front)), front, last);
    }
  }

  lemma {:induction false} FirstChunk(p: seq<byte>)
    requires |p| == 0x1_0000
    ensures LastChunks(Put(EMPTY, p), [p])
  {
    var none: seq<seq<byte>> := [];
    assert EMPTY.groups[0] == none && none + [p] == [p] && Flat(none) == [];
    assert [p][0..] == [p] && Singles([p]) == [[p]];
  }

  // ---------- the circular buffer ----------

  // The chunk of the k-th group, when the oldest one is in chunk r.
  function Slot(r: nat, k: nat): nat {
    if r + k < CHUNK_COUNT then r + k else r + k - CHUNK_COUNT
  }

  lemma {:induction false} OneGroup(groups: seq<seq<seq<byte>>>, k: nat)
    requires k < |groups|
    ensures Flat(Flat(groups[..k + 1])) == Flat(Flat(groups[..k])) + Flat(groups[k])
  {
    assert groups[..k + 1][..k] == groups[..k];
    FlatAppend(Flat(groups[..k]), groups[k]);
  }

  // The chunks from r to w hold the groups.
  ghost predicate Ring(chunks: seq<seq<byte>>, r: nat, w: nat, groups: seq<seq<seq<byte>>>) {
    && 0 < |groups| <= CHUNK_COUNT
    && r < CHUNK_COUNT && w < |chunks| <= CHUNK_COUNT && (r > 0 ==> |chunks| == CHUNK_COUNT)
    && w == Slot(r, |groups| - 1)
    && forall k :: 0 <= k < |groups| ==> Slot(r, k) < |chunks| && chunks[Slot(r, k)] == Flat(groups[k])
  }

  lemma {:induction false} RingNewest(chunks: seq<seq<byte>>, r: nat, w: nat, groups: seq<seq<seq<byte>>>)
    requires Ring(chunks, r, w, groups)
    ensures chunks[w] == Flat(groups[|groups| - 1])
  {
  }

  // An empty chunk behind the newest one, while there are fewer than 16 groups.
  lemma {:induction false} RingGrows(chunks: seq<seq<byte>>, r: nat, w: nat, groups: seq<seq<seq<byte>>>)
    requires Ring(chunks, r, w, groups) && |groups| < CHUNK_COUNT
    ensures Slot(r, |groups|) <= |chunks|
    ensures var w' := Slot(r, |groups|);
            Ring(if w' == |chunks| then chunks + [[]] else chunks[w' := []], r, w', groups + [[]])
  {
  }

  // With 16 groups the oldest one makes room.
  lemma {:induction false} RingTurns(chunks: seq<seq<byte>>, r: nat, w: nat, groups: seq<seq<seq<byte>>>)
    requires Ring(chunks, r, w, groups) && |groups| == CHUNK_COUNT
    ensures r < |chunks| && Ring(chunks[r := []], Slot(r, 1), r, groups[1..] + [[]])
  {
    var groups', chunks' := groups[1..] + [[]], chunks[r := []];
    assert |chunks| == CHUNK_COUNT;
    forall k | 0 <= k < |groups'|
      ensures Slot(Slot(r, 1), k) < |chunks'| && chunks'[Slot(Slot(r, 1), k)] == Flat(groups'[k])
    {
      if k < CHUNK_COUNT - 1 {
        assert Slot(Slot(r, 1), k) == Slot(r, k + 1) != r && groups'[k] == groups[k + 1];
      }
    }
  }

  class CircularBuffer {
    var chunks: seq<seq<byte>>
    var r: nat
    var w: nat
    ghost var log: Log

    // The chunks from r to w hold the groups.
    ghost predicate Laid(groups: seq<seq<seq<byte>>>)
      reads `chunks, `r, `w
    {
      Ring(chunks, r, w, groups)
    }

    ghost predicate Valid()
      reads this
    {
      Good(log) && Laid(log.groups)
    }

    constructor ()
      ensures Valid() && log == EMPTY
    {
      EmptyGood();
      chunks, r, w, log := [[]], 0, 0, EMPTY;
    }

    // Moves on to an empty chunk; the oldest one makes room if all 16 are in use.
    method NextChunk(ghost groups: seq<seq<seq<byte>>>)
      requires Laid(groups)
      modifies `chunks, `r, `w
      ensures Laid((if |groups| < CHUNK_COUNT then groups else groups[1..]) + [[]])
    {
      if |groups| < CHUNK_COUNT {
        RingGrows(chunks, r, w, groups);
      } else {
        RingTurns(chunks, r, w, groups);
      }
      w := w + 1;
      if w == CHUNK_COUNT {
        w := 0;
      }
      if r == w {
        r := r + 1;
        if r == CHUNK_COUNT {
          r := 0;
        }
      }
      if w == |chunks| {
        chunks := chunks + [[]];
      } else {
        chunks := chunks[w := []];
      }
    }

    method AppendToChunk(ghost groups: seq<seq<seq<byte>>>, p: seq<byte>)
      requires Laid(groups)
      modifies `chunks
      ensures Laid(groups[|groups| - 1 := groups[|groups| - 1] + [p]])
    {
      FlatSnoc(groups[|groups| - 1], p);
      chunks := chunks[w := chunks[w] + p];
    }

    method MakeRoom(p: seq<byte>)
      requires log.groups != [] && Laid(log.groups)
      modifies `chunks, `r, `w
      ensures Laid(Room(log, p))
    {
      RingNewest(chunks, r, w, log.groups);
      RoomIs(log, p, |chunks[w]|);
      if |chunks[w]| + |p| > CHUNK_SIZE {
        NextChunk(log.groups);
      }
    }

    method Write(p: seq<byte>) returns (n: nat)
      requires Valid()
      modifies this
      ensures Valid() && n == |p| && log == Put(old(log), p)
    {
      n := |p|;
      PutGood(log, p);
      PutGroups(log, p);
      MakeRoom(p);
      AppendToChunk(Room(log, p), p);
      log := Put(log, p);
    }

    method WriteTo() returns (buf: seq<byte>)
      requires Valid()
      ensures buf == Output(log)
    {
      buf := chunks[r];
      ghost var k := 0;
      var i := r;
      assert log.groups[..1] == [log.groups[0]] && Flat([log.groups[0]]) == log.groups[0];
      while i != w
        invariant 0 <= k < |log.groups| && i == Slot(r, k) && buf == Flat(Flat(log.groups[..k + 1]))
        decreases |log.groups| - k
      {
        i := i + 1;
        if i == CHUNK_COUNT {
          i := 0;
        }
        k := k + 1;
        buf := buf + chunks[i];
        OneGroup(log.groups, k);
      }
      assert log.groups[..k + 1] == log.groups;
    }

    method Reset()
      requires Valid()
      modifies this
      ensures Valid() && log == EMPTY
    {
      EmptyGood();
      chunks := chunks[0 := []];
      r, w, log := 0, 0, EMPTY;
    }
  }
}
