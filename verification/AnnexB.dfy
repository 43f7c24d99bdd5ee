// DecodeAnnexB of pkg/h264/avc.go: Annex B start codes become lengths while the scan for them
// is running (Annex B of ITU-T H.264).
module AnnexB {
  import opened Wrappers
  import opened Bytes
  import opened Seqs
  import opened Avcc

  // A start code at index p.
  predicate CodeAt(b: seq<byte>, p: nat) {
    p + 3 <= |b| && b[p] == 0 && b[p + 1] == 0 && b[p + 2] == 1
  }

  // forbidden_zero_bit 0 and a slice, an SPS or a PPS
  predicate Accepted(octet: byte) {
    octet < 128 && octet % 32 in {1, 5, 7, 8}
  }

  // The stream is cut at the start codes in front of an accepted unit.
  predicate IsCut(b: seq<byte>, p: nat) {
    CodeAt(b, p) && p + 3 < |b| && Accepted(b[p + 3])
  }

  // All of them from index i on, in ascending order.
  function Cuts(b: seq<byte>, i: nat): seq<nat>
    decreases |b| - i
  {
    if i >= |b| then [] else (if IsCut(b, i) then [i] else []) + Cuts(b, i + 1)
  }

  // A zero in front of a start code belongs to it.
  function BodyEnd(b: seq<byte>, p: nat): (e: nat)
    requires 0 < p <= |b|
    ensures e <= p
  {
    if b[p - 1] == 0 then p - 1 else p
  }

  // The pieces between the cuts, the first one starting at `start`.
  function Pieces(b: seq<byte>, start: nat, cuts: seq<nat>): seq<seq<byte>>
    decreases |cuts|
  {
    if cuts == [] then [if start <= |b| then b[start..] else []]
    else
      var p := cuts[0];
      [if 0 < p <= |b| && start <= BodyEnd(b, p) then b[start..BodyEnd(b, p)] else []] + Pieces(b, p + 3, cuts[1..])
  }

  predicate StartsWithCode(b: seq<byte>) {
    CodeAt(b, 0) || (|b| > 0 && b[0] == 0 && CodeAt(b, 1))
  }

  // The input with its first start code in the four-byte form.
  function Canonical(b: seq<byte>): (c: seq<byte>)
    requires StartsWithCode(b)
    ensures |c| >= 4 && c[..4] == [0, 0, 0, 1]
  {
    if b[2] == 1 then [0] + b else b
  }

  // The NAL units of the input.
  function Bodies(b: seq<byte>): seq<seq<byte>>
    requires StartsWithCode(b)
  {
    var c := Canonical(b);
    Pieces(c, 4, Cuts(c, 4))
  }

  // Bodies behind 4-byte lengths, empty ones included.
  function Tiled(bodies: seq<seq<byte>>): seq<byte> {
    if bodies == [] then []
    else Tiled(bodies[..|bodies| - 1]) + (Be(|bodies[|bodies| - 1]|, 4) + bodies[|bodies| - 1])
  }

  // The cuts are precisely the start codes in front of an accepted unit ...
  lemma {:induction false} CutsExactly(b: seq<byte>, i: nat, p: nat)
    ensures p in Cuts(b, i) <==>
              && i <= p && p + 3 < |b| && b[p] == 0 && b[p + 1] == 0 && b[p + 2] == 1
              && b[p + 3] < 128 && (b[p + 3] % 32 == 1 || b[p + 3] % 32 == 5 || b[p + 3] % 32 == 7 || b[p + 3] % 32 == 8)
    decreases |b| - i
  {
    if i < |b| {
      CutsExactly(b, i + 1, p);
    }
  }

  // ... in ascending order.
  lemma {:induction false} CutsAscend(b: seq<byte>, i: nat, k: nat)
    requires k < |Cuts(b, i)|
    ensures i <= Cuts(b, i)[k] && (k > 0 ==> Cuts(b, i)[k - 1] < Cuts(b, i)[k])
    decreases |b| - i
  {
    if !IsCut(b, i) {
      CutsAscend(b, i + 1, k);
    } else if k > 0 {
      CutsAscend(b, i + 1, k - 1);
    }
  }

  // ---------- the result is tiled by lengths ----------

  lemma {:induction false} TiledFront(body: seq<byte>, bodies: seq<seq<byte>>)
    ensures Tiled([body] + bodies) == (Be(|body|, 4) + body) + Tiled(bodies)
    decreases |bodies|
  {
    var all := [body] + bodies;
    if bodies == [] {
      var none: seq<seq<byte>> := [];
      assert all == [body] && all[..0] == none;
      assert Tiled(none) == [];
    } else {
      var n := |bodies| - 1;
      assert all[..n + 1] == [body] + bodies[..n] && all[n + 1] == bodies[n];
      TiledFront(body, bodies[..n]);
      Assoc(Be(|body|, 4) + body, Tiled(bodies[..n]), Be(|bodies[n]|, 4) + bodies[n]);
    }
  }

  // Reading it back length by length gives the bodies.
  lemma {:induction false} EmitTiled(bodies: seq<seq<byte>>)
    requires |Tiled(bodies)| < TWO32
    ensures EmitNalus(Tiled(bodies)) == Some(bodies)
    decreases |bodies|
  {
    if bodies != [] {
      var body, rest := bodies[0], bodies[1..];
      assert bodies == [body] + rest;
      TiledFront(body, rest);
      EmitTiled(rest);
      Thirds(Be(|body|, 4), body, Tiled(rest));
      LengthRead(|body|);
      NextFrom(Be(|body|, 4) + body + Tiled(rest), |body|);
    }
  }

  // ---------- scanning ----------

  // Nothing to cut between i and j.
  lemma {:induction false} CutsSkip(b: seq<byte>, i: nat, j: nat)
    requires i <= j && forall p :: i <= p < j ==> !IsCut(b, p)
    ensures Cuts(b, i) == Cuts(b, j)
    decreases j - i
  {
    if i < j {
      if i >= |b| {
        assert Cuts(b, i) == [] == Cuts(b, j);
      } else {
        CutsSkip(b, i + 1, j);
      }
    }
  }

  lemma {:induction false} NoMoreCuts(b: seq<byte>, i: nat)
    requires forall p :: i <= p < |b| ==> !IsCut(b, p)
    ensures Cuts(b, i) == []
  {
    if i < |b| {
      CutsSkip(b, i, |b|);
    }
  }

  // IndexFrom(b, {0, 0, 1}, from)
  method IndexFrom(b: seq<byte>, start: nat) returns (i: int)
    ensures i < 0 ==> forall p: nat :: start <= p ==> !CodeAt(b, p)
    ensures i >= 0 ==> start <= i && CodeAt(b, i) && forall p: nat :: start <= p < i ==> !CodeAt(b, p)
  {
    i := start;
    while i + 3 <= |b|
      invariant start <= i && forall p: nat :: start <= p < i ==> !CodeAt(b, p)
    {
      if b[i] == 0 && b[i + 1] == 0 && b[i + 2] == 1 {
        return;
      }
      i := i + 1;
    }
    i := -1;
  }

  // The buffer in the middle of the scan: finished units, four bytes for the length of the
  // unit that begins at `start` of the canonical input c, and what is left of c.
  function Buffer(done: seq<seq<byte>>, hole: seq<byte>, c: seq<byte>, start: nat): seq<byte>
    requires start <= |c|
  {
    Tiled(done) + (hole + c[start..])
  }

  lemma {:induction false} BufferAt(done: seq<seq<byte>>, hole: seq<byte>, c: seq<byte>, start: nat, q: nat)
    requires start <= |c| && |hole| == 4
    ensures var b, base := Buffer(done, hole, c, start), |Tiled(done)|;
            && |b| == base + 4 + |c| - start
            && (base + 4 <= q < |b| ==> b[q] == c[q - base - 4 + start])
            && (base <= q < base + 4 ==> b[q] == hole[q - base])
  {
  }

  // Codes found in the buffer are codes of the input.
  lemma {:induction false} SameCode(done: seq<seq<byte>>, hole: seq<byte>, c: seq<byte>, start: nat, p: nat)
    requires start <= p && start <= |c| && |hole| == 4
    ensures CodeAt(Buffer(done, hole, c, start), |Tiled(done)| + 4 + p - start) == CodeAt(c, p)
  {
    var q := |Tiled(done)| + 4 + p - start;
    BufferAt(done, hole, c, start, q);
    BufferAt(done, hole, c, start, q + 1);
    BufferAt(done, hole, c, start, q + 2);
  }

  lemma {:induction false} PatchSplit(a: seq<byte>, x: seq<byte>, y: seq<byte>, u: seq<byte>, v: seq<byte>)
    requires |x| == |y|
    ensures Patch(a + (x + (u + v)), |a|, y) == (a + (y + u)) + v
  {
    Replace(a, x, y, u + v);
    Assoc(y, u, v);
    Assoc(a, y + u, v);
  }

  lemma {:induction false} TiledSnoc(done: seq<seq<byte>>, body: seq<byte>)
    ensures Tiled(done + [body]) == Tiled(done) + (Be(|body|, 4) + body)
  {
    SnocTake(done, body);
  }

  // Writing the length closes the unit c[start..end].
  lemma {:induction false} Close(done: seq<seq<byte>>, hole: seq<byte>, c: seq<byte>, start: nat, end: nat)
    requires start <= end <= |c| && |hole| == 4
    ensures var b, body := Buffer(done, hole, c, start), c[start..end];
            Patch(b, |Tiled(done)|, Be(|body|, 4)) == Tiled(done + [body]) + c[end..]
  {
    var body := c[start..end];
    PatchSplit(Tiled(done), hole, Be(|body|, 4), body, c[end..]);
    TiledSnoc(done, body);
    Rejoin(c, start, end);
  }

  lemma {:induction false} Rejoin(c: seq<byte>, i: nat, j: nat)
    requires i <= j <= |c|
    ensures c[i..] == c[i..j] + c[j..]
  {
  }

  // A four-byte code is the hole of the next unit as it stands.
  lemma {:induction false} Open4(units: seq<seq<byte>>, c: seq<byte>, p: nat)
    requires 0 < p && p + 3 <= |c|
    ensures Tiled(units) + c[p - 1..] == Buffer(units, c[p - 1..p + 3], c, p + 3)
  {
    assert c[p - 1..] == c[p - 1..p + 3] + c[p + 3..];
  }

  // A three-byte code becomes one when a zero is inserted behind it.
  lemma {:induction false} Open3(units: seq<seq<byte>>, c: seq<byte>, p: nat, i: nat)
    requires p + 3 <= |c| && i == |Tiled(units)| + 3
    ensures var b := Tiled(units) + c[p..];
            i <= |b| && b[..i] + [0] + b[i..] == Buffer(units, c[p..p + 3] + [0], c, p + 3)
  {
    var b, head := Tiled(units) + c[p..], Tiled(units) + c[p..p + 3];
    assert c[p..] == c[p..p + 3] + c[p + 3..];
    Assoc(Tiled(units), c[p..p + 3], c[p + 3..]);
    Halves(head, c[p + 3..]);
    Assoc(Tiled(units), c[p..p + 3], [0]);
    Assoc(Tiled(units), c[p..p + 3] + [0], c[p + 3..]);
  }

  // ---------- the loop ----------

  // The scan stands at index i of the buffer, which is index k of the input; right after an
  // inserted zero it stands on that zero, one byte in front of k.
  ghost predicate Scanning(b: seq<byte>, startPos: nat, i: nat, done: seq<seq<byte>>, hole: seq<byte>,
                           c: seq<byte>, start: nat, k: nat) {
    && |hole| == 4 && 4 <= start <= |c| && start <= k <= |c|
    && b == Buffer(done, hole, c, start) && startPos == |Tiled(done)|
    && (i == startPos + 4 + k - start || (i == startPos + 3 && k == start > 4))
    && (start > 4 ==> start < |c| && c[start] != 0)
    && (start == 4 ==> hole == c[..4])
    && c[..4] == [0, 0, 0, 1]
  }

  // A code is never found at an inserted zero: an accepted unit follows it.
  lemma {:induction false} NotInHole(b: seq<byte>, startPos: nat, i: nat, done: seq<seq<byte>>, hole: seq<byte>,
                                     c: seq<byte>, start: nat, k: nat, q: nat)
    requires Scanning(b, startPos, i, done, hole, c, start, k) && i <= q && CodeAt(b, q)
    ensures startPos + 4 + k - start <= q
  {
    BufferAt(done, hole, c, start, startPos + 4);
  }

  // Two buffers with the same start codes from `start` on, one `shift` bytes behind the other.
  ghost predicate SameCodes(b: seq<byte>, c: seq<byte>, start: nat, shift: int) {
    0 <= start + shift && forall x: nat :: start <= x ==> CodeAt(c, x) == CodeAt(b, x + shift)
  }

  lemma {:induction false} CodesShift(b: seq<byte>, startPos: nat, i: nat, done: seq<seq<byte>>, hole: seq<byte>,
                                      c: seq<byte>, start: nat, k: nat)
    requires Scanning(b, startPos, i, done, hole, c, start, k)
    ensures SameCodes(b, c, start, startPos + 4 - start) && i <= k + startPos + 4 - start
  {
    var shift := startPos + 4 - start;
    forall x: nat | start <= x
      ensures CodeAt(c, x) == CodeAt(b, x + shift)
    {
      OneCode(b, startPos, i, done, hole, c, start, k, x);
    }
  }

  lemma {:induction false} OneCode(b: seq<byte>, startPos: nat, i: nat, done: seq<seq<byte>>, hole: seq<byte>,
                                   c: seq<byte>, start: nat, k: nat, x: nat)
    requires Scanning(b, startPos, i, done, hole, c, start, k) && start <= x
    ensures CodeAt(c, x) == CodeAt(b, x + (startPos + 4 - start))
  {
    SameCode(done, hole, c, start, x);
  }

  // Nothing to cut from i to j.
  ghost predicate Clear(c: seq<byte>, i: nat, j: nat) {
    forall x: nat :: i <= x < j ==> !IsCut(c, x)
  }

  // Where IndexFrom stops, seen in the input.
  lemma {:induction false} FoundCode(b: seq<byte>, c: seq<byte>, start: nat, shift: int, i: nat, k: nat, p: nat)
    requires SameCodes(b, c, start, shift) && start <= k <= p && i <= k + shift
    requires CodeAt(b, p + shift) && forall q: nat :: i <= q < p + shift ==> !CodeAt(b, q)
    ensures CodeAt(c, p) && Clear(c, k, p)
  {
    forall x: nat | k <= x < p
      ensures !IsCut(c, x)
    {
      assert CodeAt(c, x) == CodeAt(b, x + shift);
    }
  }

  // The byte in front of a code and the one behind it are those of the input.
  lemma {:induction false} Around(b: seq<byte>, startPos: nat, i: nat, done: seq<seq<byte>>, hole: seq<byte>,
                                  c: seq<byte>, start: nat, k: nat, p: nat, q: int)
    requires Scanning(b, startPos, i, done, hole, c, start, k) && k <= p && CodeAt(c, p) && q == startPos + 4 + p - start
    ensures 0 < q && q + 3 <= |b| && |b| - q == |c| - p && b[q - 1] == c[p - 1] && start <= BodyEnd(c, p)
    ensures p + 3 < |c| ==> b[q + 3] == c[p + 3]
  {
    BufferAt(done, hole, c, start, q - 1);
    BufferAt(done, hole, c, start, q + 3);
    assert c[3] == c[..4][3];
  }

  lemma {:induction false} NoCode(b: seq<byte>, c: seq<byte>, start: nat, shift: int, i: nat, k: nat)
    requires SameCodes(b, c, start, shift) && start <= k && i <= k + shift
    requires forall q: nat :: i <= q ==> !CodeAt(b, q)
    ensures Clear(c, k, |c|)
  {
    forall x: nat | k <= x < |c|
      ensures !IsCut(c, x)
    {
      assert CodeAt(c, x) == CodeAt(b, x + shift);
    }
  }

  // A code in front of nothing, or of a unit that is not accepted.
  lemma {:induction false} PassCode(c: seq<byte>, p: nat)
    requires CodeAt(c, p) && !IsCut(c, p)
    ensures Cuts(c, p) == Cuts(c, p + 3)
  {
    CutsSkip(c, p, p + 3);
  }

  lemma {:induction false} TakeCut(c: seq<byte>, p: nat)
    requires IsCut(c, p)
    ensures Cuts(c, p) == [p] + Cuts(c, p + 3)
  {
    CutsSkip(c, p + 1, p + 3);
  }

  lemma {:induction false} OnePiece(done: seq<seq<byte>>, c: seq<byte>, start: nat, p: nat, more: seq<nat>)
    requires 0 < p <= |c| && start <= BodyEnd(c, p)
    ensures done + Pieces(c, start, [p] + more) == (done + [c[start..BodyEnd(c, p)]]) + Pieces(c, p + 3, more)
  {
    assert ([p] + more)[1..] == more;
    Assoc(done, [c[start..BodyEnd(c, p)]], Pieces(c, p + 3, more));
  }

  // binary.BigEndian.PutUint32(b[at:], uint32(v))
  method PutUint32(b: seq<byte>, at: nat, v: nat) returns (r: seq<byte>)
    requires at + 4 <= |b|
    ensures r == Patch(b, at, Be(v, 4))
  {
    BeMod(v, 4);
    Powers();
    r := Patch(b, at, Be(v % TWO32, 4));
  }

  // What the loop does at an accepted unit whose first byte is at index i.
  method Cut(b: seq<byte>, startPos: nat, i: nat, ghost done: seq<seq<byte>>, ghost hole: seq<byte>,
             ghost c: seq<byte>, ghost start: nat, ghost p: nat)
      returns (r: seq<byte>, next: nat, ghost hole': seq<byte>)
    requires |hole| == 4 && start <= |c| && b == Buffer(done, hole, c, start) && startPos == |Tiled(done)|
    requires IsCut(c, p) && 0 < p && start <= BodyEnd(c, p) && i == startPos + 7 + p - start && b[i - 4] == c[p - 1]
    ensures var units := done + [c[start..BodyEnd(c, p)]];
            r == Buffer(units, hole', c, p + 3) && |hole'| == 4 && next == |Tiled(units)|
    ensures i == next + 4 || i == next + 3
  {
    ghost var units := done + [c[start..BodyEnd(c, p)]];
    Close(done, hole, c, start, BodyEnd(c, p));
    UnitsSize(done, c[start..BodyEnd(c, p)]);
    if b[i - 4] != 0 {
      r := PutUint32(b, startPos, i - startPos - 7);
      next := i - 3;
      Open3(units, c, p, i);
      r := r[..i] + [0] + r[i..];
      hole' := c[p..p + 3] + [0];
    } else {
      r := PutUint32(b, startPos, i - startPos - 8);
      next := i - 4;
      Open4(units, c, p);
      hole' := c[p - 1..p + 3];
    }
  }

  lemma {:induction false} UnitsSize(done: seq<seq<byte>>, body: seq<byte>)
    ensures |Tiled(done + [body])| == |Tiled(done)| + 4 + |body|
  {
    TiledSnoc(done, body);
  }

  // The scan, with the units finished so far; all of it ghost but for the three variables.
  datatype Scan = Scan(done: seq<seq<byte>>, hole: seq<byte>, start: nat, k: nat)

  ghost predicate At(s: Scan, c: seq<byte>, b: seq<byte>, startPos: nat, i: nat) {
    Scanning(b, startPos, i, s.done, s.hole, c, s.start, s.k)
  }

  function Outcome(s: Scan, c: seq<byte>): seq<seq<byte>> {
    s.done + Pieces(c, s.start, Cuts(c, s.k))
  }

  predicate Holds(s: Scan, c: seq<byte>, b: seq<byte>, startPos: nat) {
    s.start <= |c| && |s.hole| == 4 && b == Buffer(s.done, s.hole, c, s.start) && startPos == |Tiled(s.done)|
  }

  // One turn: the scan has passed the code at p, and cut there if it had to.
  ghost predicate Moved(s: Scan, s': Scan, c: seq<byte>, p: nat) {
    && CodeAt(c, p) && Clear(c, s.k, p) && 0 < p && s.k <= p && s'.k == p + 3 <= |c|
    && if IsCut(c, p)
       then s.start <= BodyEnd(c, p) && s'.done == s.done + [c[s.start..BodyEnd(c, p)]] && s'.start == p + 3
       else s'.done == s.done && s'.start == s.start
  }

  lemma {:induction false} MovedOutcome(s: Scan, s': Scan, c: seq<byte>, p: nat)
    requires Moved(s, s', c, p)
    ensures Outcome(s', c) == Outcome(s, c)
  {
    CutsSkip(c, s.k, p);
    if IsCut(c, p) {
      TakeCut(c, p);
      OnePiece(s.done, c, s.start, p, Cuts(c, p + 3));
    } else {
      PassCode(c, p);
    }
  }

  lemma {:induction false} PassScan(s: Scan, c: seq<byte>, b: seq<byte>, startPos: nat, i: nat, p: nat)
    requires At(s, c, b, startPos, i) && s.k <= p && p + 3 <= |c|
    ensures At(s.(k := p + 3), c, b, startPos, startPos + 7 + p - s.start)
  {
  }

  lemma {:induction false} ScanHolds(s: Scan, c: seq<byte>, b: seq<byte>, startPos: nat, i: nat)
    requires At(s, c, b, startPos, i)
    ensures Holds(s, c, b, startPos) && startPos + 4 <= |b|
  {
  }

  // No code, or none with anything behind it: nothing more to cut.
  lemma {:induction false} LastCode(c: seq<byte>, k: nat, p: nat)
    requires k <= p && Clear(c, k, p) && (p >= |c| || (CodeAt(c, p) && p + 3 >= |c|))
    ensures Cuts(c, k) == []
  {
    if p >= |c| {
      NoMoreCuts(c, k);
    } else {
      CutsSkip(c, k, p);
      PassCode(c, p);
    }
  }

  lemma {:induction false} ScansOn(s: Scan, c: seq<byte>, b: seq<byte>, startPos: nat, i: nat, p: nat)
    requires IsCut(c, p) && p >= 4 && c[..4] == [0, 0, 0, 1]
    requires Holds(s, c, b, startPos) && s.start == s.k == p + 3 && (i == startPos + 4 || i == startPos + 3)
    ensures At(s, c, b, startPos, i)
  {
  }

  method Accept(b: seq<byte>, startPos: nat, i: nat, ghost c: seq<byte>, ghost s: Scan, ghost p: nat)
      returns (r: seq<byte>, next: nat, ghost s': Scan)
    requires Holds(s, c, b, startPos) && |c| >= 4 && c[..4] == [0, 0, 0, 1]
    requires IsCut(c, p) && 4 <= p && s.start <= BodyEnd(c, p)
    requires i == startPos + 7 + p - s.start < |b| && b[i - 4] == c[p - 1]
    ensures At(s', c, r, next, i) && s'.start == s'.k == p + 3
    ensures s'.done == s.done + [c[s.start..BodyEnd(c, p)]]
  {
    ghost var hole;
    r, next, hole := Cut(b, startPos, i, s.done, s.hole, c, s.start, p);
    s' := Scan(s.done + [c[s.start..BodyEnd(c, p)]], hole, p + 3, p + 3);
    ScansOn(s', c, r, next, i, p);
  }

  // The next start code, seen from both sides; negative if there is none.
  method Find(b: seq<byte>, startPos: nat, i: nat, ghost c: seq<byte>, ghost s: Scan) returns (q: int, ghost p: nat)
    requires At(s, c, b, startPos, i)
    ensures q < 0 ==> Clear(c, s.k, |c|)
    ensures q >= 0 ==>
              && s.k <= p && CodeAt(c, p) && Clear(c, s.k, p) && s.start <= BodyEnd(c, p)
              && 0 < q == startPos + 4 + p - s.start && q + 3 <= |b| && |b| - q == |c| - p
              && b[q - 1] == c[p - 1] && (p + 3 < |c| ==> b[q + 3] == c[p + 3])
  {
    p := 0;
    q := IndexFrom(b, i);
    CodesShift(b, startPos, i, s.done, s.hole, c, s.start, s.k);
    if q < 0 {
      NoCode(b, c, s.start, startPos + 4 - s.start, i, s.k);
      return;
    }
    NotInHole(b, startPos, i, s.done, s.hole, c, s.start, s.k, q);
    p := s.start + q - startPos - 4;
    FoundCode(b, c, s.start, startPos + 4 - s.start, i, s.k, p);
    Around(b, startPos, i, s.done, s.hole, c, s.start, s.k, p, q);
  }

  // One turn of the loop; `more` is false when it breaks off.
  method Turn(b: seq<byte>, startPos: nat, i: nat, ghost c: seq<byte>, ghost s: Scan)
      returns (more: bool, b': seq<byte>, startPos': nat, i': nat, ghost s': Scan, ghost p: nat)
    requires At(s, c, b, startPos, i)
    ensures if more then At(s', c, b', startPos', i') && Moved(s, s', c, p)
            else b' == b && startPos' == startPos && s' == s && Cuts(c, s.k) == []
  {
    more, b', startPos', i', s' := false, b, startPos, i, s;
    var q;
    q, p := Find(b, startPos, i, c, s);
    if q < 0 {
      LastCode(c, s.k, |c|);
      return;
    }
    i' := q + 3;
    if i' >= |b| {
      LastCode(c, s.k, p);
      return;
    }
    more := true;
    if Accepted(b[i']) {
      b', startPos', s' := Accept(b, startPos, i', c, s, p);
    } else {
      PassScan(s, c, b, startPos, i, p);
      s' := s.(k := p + 3);
    }
  }

  // The buffer is copied at each insertion; that the source overwrites the caller's bytes
  // before the first one is not modelled.
  method DecodeAnnexB(input: seq<byte>) returns (b: seq<byte>)
    requires StartsWithCode(input)
    ensures b == Tiled(Bodies(input))
  {
    b := input;
    if b[2] == 1 {
      b := [0] + b;
    }
    ghost var c, s := b, Scan([], b[..4], 4, 4);
    InitialScan(c);
    var startPos: nat, i: nat, more := 0, 4, true;
    while more
      invariant Holds(s, c, b, startPos) && startPos + 4 <= |b|
      invariant if more then At(s, c, b, startPos, i) else Cuts(c, s.k) == []
      invariant Outcome(s, c) == Bodies(input)
      decreases more, |c| - s.k
    {
      ghost var before, p := s, 0;
      more, b, startPos, i, s, p := Turn(b, startPos, i, c, s);
      if more {
        MovedOutcome(before, s, c, p);
        ScanHolds(s, c, b, startPos, i);
      }
    }
    b := Finish(b, startPos, c, s);
  }

  method Finish(b: seq<byte>, startPos: nat, ghost c: seq<byte>, ghost s: Scan) returns (r: seq<byte>)
    requires Holds(s, c, b, startPos) && startPos + 4 <= |b| && Cuts(c, s.k) == []
    ensures r == Tiled(Outcome(s, c))
  {
    FinalClose(s.done, s.hole, c, s.start);
    r := PutUint32(b, startPos, |b| - startPos - 4);
  }

  lemma {:induction false} FinalClose(done: seq<seq<byte>>, hole: seq<byte>, c: seq<byte>, start: nat)
    requires start <= |c| && |hole| == 4
    ensures |Buffer(done, hole, c, start)| - |Tiled(done)| - 4 == |c| - start
    ensures Patch(Buffer(done, hole, c, start), |Tiled(done)|, Be(|c| - start, 4)) == Tiled(done + Pieces(c, start, []))
  {
    Close(done, hole, c, start, |c|);
    assert c[start..|c|] == c[start..] && c[|c|..] == [];
    assert Pieces(c, start, []) == [c[start..]];
    assert Tiled(done + [c[start..]]) + c[|c|..] == Tiled(done + [c[start..]]);
  }

  lemma {:induction false} InitialScan(c: seq<byte>)
    requires |c| >= 4 && c[..4] == [0, 0, 0, 1]
    ensures At(Scan([], c[..4], 4, 4), c, c, 0, 4) && Outcome(Scan([], c[..4], 4, 4), c) == Pieces(c, 4, Cuts(c, 4))
  {
    Split(c, 4);
    var none: seq<seq<byte>> := [];
    assert Tiled(none) == [];
    assert c == Buffer(none, c[..4], c, 4);
  }
}
