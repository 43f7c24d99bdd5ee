// pkg/iso/iso.go: atoms whose sizes are patched in when they end, against trees whose sizes
// are known from the start.
module IsoMovie {
  import opened Wrappers
  import opened Bytes
  import opened Seqs

  // ---------- trees of atoms ----------

  // Raw bytes and atoms, one behind the other.
  datatype Forest =
    | Nil
    | Raw(bytes: seq<byte>, rest: Forest)
    | Atom(name: seq<byte>, body: Forest, rest: Forest)

  // An atom: the size of all of it, the name, the content.
  function Closed(name: seq<byte>, content: seq<byte>): seq<byte> {
    Be(4 + |name| + |content|, 4) + name + content
  }

  function Ser(f: Forest): seq<byte> {
    match f
    case Nil => []
    case Raw(bytes, rest) => bytes + Ser(rest)
    case Atom(name, body, rest) => Closed(name, Ser(body)) + Ser(rest)
  }

  lemma {:induction false} SizeField(n: nat, rest: seq<byte>)
    requires n < TWO32
    ensures U((Be(n, 4) + rest)[..4]) == n
  {
    Halves(Be(n, 4), rest);
    UBe(n, 4);
    Powers();
  }

  // The size field is the exact extent of the atom.
  lemma {:induction false} SizeIsExtent(name: seq<byte>, content: seq<byte>)
    requires |Closed(name, content)| < TWO32
    ensures U(Closed(name, content)[..4]) == |Closed(name, content)|
  {
    var n := 4 + |name| + |content|;
    Assoc(Be(n, 4), name, content);
    SizeField(n, name + content);
  }

  // ---------- runs of calls ----------

  datatype Op = Start(name: seq<byte>) | Put(bytes: seq<byte>) | End

  // An open atom with the content written so far.
  datatype Level = Level(name: seq<byte>, content: seq<byte>)

  // Finished bytes and the open atoms, outermost first.
  datatype State = State(out: seq<byte>, open: seq<Level>)

  function Grow(s: State, bytes: seq<byte>): State {
    var n := |s.open| - 1;
    if n < 0 then s.(out := s.out + bytes)
    else s.(open := s.open[n := Level(s.open[n].name, s.open[n].content + bytes)])
  }

  function Shut(s: State): State
    requires s.open != []
  {
    var n := |s.open| - 1;
    Grow(s.(open := s.open[..n]), Closed(s.open[n].name, s.open[n].content))
  }

  // None: EndAtom without an open atom fails.
  function Step(s: State, op: Op): Option<State> {
    match op
    case Start(name) => Some(s.(open := s.open + [Level(name, [])]))
    case Put(bytes) => Some(Grow(s, bytes))
    case End => if s.open == [] then None else Some(Shut(s))
  }

  function Run(s: State, ops: seq<Op>): Option<State>
    decreases |ops|
  {
    if ops == [] then Some(s)
    else
      var s' := Step(s, ops[0]);
      if s'.None? then None else Run(s'.value, ops[1..])
  }

  lemma {:induction false} RunAppend(s: State, a: seq<Op>, b: seq<Op>)
    requires Run(s, a).Some?
    ensures Run(s, a + b) == Run(Run(s, a).value, b)
    decreases |a|
  {
    if a == [] {
      assert a + b == b;
    } else {
      assert (a + b)[1..] == a[1..] + b;
      RunAppend(Step(s, a[0]).value, a[1..], b);
    }
  }

  // The calls that write a tree.
  function Ops(f: Forest): seq<Op> {
    match f
    case Nil => []
    case Raw(bytes, rest) => [Put(bytes)] + Ops(rest)
    case Atom(name, body, rest) => [Start(name)] + (Ops(body) + ([End] + Ops(rest)))
  }

  lemma {:induction false} GrowTwice(s: State, a: seq<byte>, b: seq<byte>)
    ensures Grow(Grow(s, a), b) == Grow(s, a + b)
  {
    var n := |s.open| - 1;
    if n < 0 {
      Assoc(s.out, a, b);
    } else {
      Assoc(s.open[n].content, a, b);
    }
  }

  lemma {:induction false} GrowNothing(s: State)
    ensures Grow(s, []) == s
  {
    var n := |s.open| - 1;
    if n < 0 {
      assert s.out + [] == s.out;
    } else {
      assert s.open[n].content + [] == s.open[n].content;
    }
  }

  lemma {:induction false} RunCons(s: State, op: Op, ops: seq<Op>)
    ensures Run(s, [op] + ops) == if Step(s, op).None? then None else Run(Step(s, op).value, ops)
  {
    Halves([op], ops);
  }

  // An atom that is begun, filled and closed.
  lemma {:induction false} OpenFillShut(s: State, name: seq<byte>, content: seq<byte>)
    ensures var inside := Grow(s.(open := s.open + [Level(name, [])]), content);
            inside.open != [] && Shut(inside) == Grow(s, Closed(name, content))
  {
    var begun := s.(open := s.open + [Level(name, [])]);
    var inside := Grow(begun, content);
    assert [] + content == content;
    assert inside.open == s.open + [Level(name, content)];
    SnocTake(s.open, Level(name, content));
  }

  // Writing a tree call by call appends its serialization.
  lemma {:induction false} RunTree(s: State, f: Forest)
    ensures Run(s, Ops(f)) == Some(Grow(s, Ser(f)))
    decreases f
  {
    match f
    case Nil =>
      GrowNothing(s);
    case Raw(bytes, rest) =>
      RunCons(s, Put(bytes), Ops(rest));
      RunTree(Grow(s, bytes), rest);
      GrowTwice(s, bytes, Ser(rest));
    case Atom(name, body, rest) =>
      var begun := s.(open := s.open + [Level(name, [])]);
      var inside := Grow(begun, Ser(body));
      RunCons(s, Start(name), Ops(body) + ([End] + Ops(rest)));
      RunTree(begun, body);
      RunAppend(begun, Ops(body), [End] + Ops(rest));
      OpenFillShut(s, name, Ser(body));
      RunCons(inside, End, Ops(rest));
      RunTree(Shut(inside), rest);
      GrowTwice(s, Closed(name, Ser(body)), Ser(rest));
  }

  // ---------- any well-nested run ----------

  // Every EndAtom has its StartAtom, and none of the `depth` outer ones is left open.
  predicate Nested(ops: seq<Op>, depth: nat)
    decreases |ops|
  {
    if ops == [] then depth == 0
    else
      match ops[0]
      case Start(_) => Nested(ops[1..], depth + 1)
      case Put(_) => Nested(ops[1..], depth)
      case End => depth > 0 && Nested(ops[1..], depth - 1)
  }

  // The tree up to the first EndAtom that is not its own, and the calls from there.
  function Parse(ops: seq<Op>): (r: (Forest, seq<Op>))
    ensures |r.1| <= |ops|
    decreases |ops|
  {
    if ops == [] then (Nil, [])
    else
      match ops[0]
      case End => (Nil, ops)
      case Put(bytes) =>
        var (rest, left) := Parse(ops[1..]);
        (Raw(bytes, rest), left)
      case Start(name) =>
        var (body, left) := Parse(ops[1..]);
        if left == [] then (Nil, ops)
        else
          var (rest, left') := Parse(left[1..]);
          (Atom(name, body, rest), left')
  }

  lemma {:induction false} ParseOps(ops: seq<Op>, depth: nat)
    requires Nested(ops, depth)
    ensures var (f, left) := Parse(ops);
            && ops == Ops(f) + left && Nested(left, depth)
            && (if depth == 0 then left == [] else left != [] && left[0].End?)
    decreases |ops|
  {
    if ops != [] {
      match ops[0]
      case End =>
        var none: seq<Op> := [];
        assert none + ops == ops;
      case Put(bytes) =>
        ParseOps(ops[1..], depth);
        var (rest, left) := Parse(ops[1..]);
        assert ops == [ops[0]] + ops[1..];
        Assoc([ops[0]], Ops(rest), left);
      case Start(name) =>
        ParseOps(ops[1..], depth + 1);
        var (body, left) := Parse(ops[1..]);
        ParseOps(left[1..], depth);
        var (rest, left') := Parse(left[1..]);
        assert ops == [ops[0]] + ops[1..] && left == [End] + left[1..];
        Rebuild([ops[0]], Ops(body), [End], Ops(rest), left');
    }
  }

  lemma {:induction false} Rebuild(a: seq<Op>, b: seq<Op>, c: seq<Op>, d: seq<Op>, e: seq<Op>)
    ensures a + (b + (c + (d + e))) == (a + (b + (c + d))) + e
  {
  }

  // Any well-nested run of StartAtom, writes and EndAtom appends the serialization of a tree:
  // every size field is the exact extent of its atom.
  lemma {:induction false} WellNestedRun(s: State, ops: seq<Op>)
    requires Nested(ops, 0)
    ensures Run(s, ops) == Some(Grow(s, Ser(Parse(ops).0)))
  {
    ParseOps(ops, 0);
    var f := Parse(ops).0;
    assert Ops(f) + [] == Ops(f);
    RunTree(s, f);
  }

  // ---------- the buffer ----------

  // The bytes of a state: open atoms have a size of zero.
  function Layout(out: seq<byte>, open: seq<Level>): seq<byte> {
    if open == [] then out
    else
      var n := |open| - 1;
      Layout(out, open[..n]) + (([0, 0, 0, 0] + open[n].name) + open[n].content)
  }

  // Where the open atoms start.
  function Starts(out: seq<byte>, open: seq<Level>): (r: seq<nat>)
    ensures |r| == |open|
  {
    if open == [] then []
    else
      var n := |open| - 1;
      Starts(out, open[..n]) + [|Layout(out, open[..n])|]
  }

  lemma {:induction false} LayoutGrow(s: State, bytes: seq<byte>)
    ensures Layout(s.out, s.open) + bytes == Layout(Grow(s, bytes).out, Grow(s, bytes).open)
    ensures Starts(Grow(s, bytes).out, Grow(s, bytes).open) == Starts(s.out, s.open)
  {
    var n := |s.open| - 1;
    if n >= 0 {
      var top := s.open[n];
      var grown := s.open[n := Level(top.name, top.content + bytes)];
      assert grown[..n] == s.open[..n];
      var head: seq<byte> := [0, 0, 0, 0] + top.name;
      Assoc(Layout(s.out, s.open[..n]), head + top.content, bytes);
      Assoc(head, top.content, bytes);
    }
  }

  // The buffer and the stack of starts that stand for a state.
  ghost predicate Mirrors(b: seq<byte>, start: seq<nat>, s: State) {
    b == Layout(s.out, s.open) && start == Starts(s.out, s.open)
  }

  lemma {:induction false} PatchSize(before: seq<byte>, name: seq<byte>, content: seq<byte>)
    ensures var b := before + (([0, 0, 0, 0] + name) + content);
            Patch(b, |before|, Be(|b| - |before|, 4)) == before + Closed(name, content)
  {
    var hole: seq<byte> := [0, 0, 0, 0];
    Assoc(hole, name, content);
    Replace(before, hole, Be(4 + |name| + |content|, 4), name + content);
    Assoc(Be(4 + |name| + |content|, 4), name, content);
  }

  lemma {:induction false} MirrorsGrow(b: seq<byte>, start: seq<nat>, s: State, bytes: seq<byte>)
    requires Mirrors(b, start, s)
    ensures Mirrors(b + bytes, start, Grow(s, bytes))
  {
    LayoutGrow(s, bytes);
  }

  // The innermost open atom is the end of the buffer.
  lemma {:induction false} MirrorsTop(b: seq<byte>, start: seq<nat>, s: State) returns (before: seq<byte>)
    requires Mirrors(b, start, s) && s.open != []
    ensures var n := |s.open| - 1;
            && b == before + (([0, 0, 0, 0] + s.open[n].name) + s.open[n].content)
            && |start| == n + 1 && start[n] == |before|
            && Mirrors(before, start[..n], s.(open := s.open[..n]))
  {
    var open := s.open[..|s.open| - 1];
    before := Layout(s.out, open);
    SnocTake(Starts(s.out, open), |before|);
  }

  // EndAtom's patch and pop, seen on the state: the innermost open atom is closed.
  lemma {:induction false} ShutMirrors(b: seq<byte>, start: seq<nat>, s: State)
    requires Mirrors(b, start, s) && s.open != []
    ensures |start| > 0 && start[|start| - 1] + 4 <= |b|
    ensures var i := start[|start| - 1];
            Mirrors(Patch(b, i, Be((|b| - i) % TWO32, 4)), start[..|start| - 1], Shut(s))
  {
    var n := |s.open| - 1;
    var before := MirrorsTop(b, start, s);
    BeMod(|b| - start[n], 4);
    Powers();
    PatchSize(before, s.open[n].name, s.open[n].content);
    MirrorsGrow(before, start[..n], s.(open := s.open[..n]), Closed(s.open[n].name, s.open[n].content));
  }

  class Movie {
    var b: seq<byte>
    var start: seq<nat>
    ghost var state: State

    ghost predicate Valid()
      reads this
    {
      Mirrors(b, start, state)
    }

    constructor ()
      ensures Valid() && state == State([], [])
    {
      b, start, state := [], [], State([], []);
    }

    method StartAtom(name: seq<byte>)
      requires Valid()
      modifies this
      ensures Valid() && Some(state) == Step(old(state), Start(name)) && |b| == |old(b)| + 4 + |name|
    {
      start := start + [|b|];
      SnocTake(state.open, Level(name, []));
      Assoc(b, [0, 0, 0, 0], name);
      var none: seq<byte> := [];
      assert ([0, 0, 0, 0] + name) + none == [0, 0, 0, 0] + name;
      b := b + [0, 0, 0, 0];
      b := b + name;
      state := state.(open := state.open + [Level(name, [])]);
    }

    method EndAtom()
      requires Valid() && state.open != []
      modifies this
      ensures Valid() && Some(state) == Step(old(state), End) && |b| == |old(b)|
    {
      var n := |start| - 1;
      ghost var s := state;
      ShutMirrors(b, start, s);
      var i := start[n];
      b := Patch(b, i, Be((|b| - i) % TWO32, 4));
      start := start[..n];
      state := Shut(s);
    }

    // Write, WriteBytes, WriteString, Skip and the fixed-width writers
    method Write(bytes: seq<byte>)
      requires Valid()
      modifies this
      ensures Valid() && state == Grow(old(state), bytes) && b == old(b) + bytes
    {
      LayoutGrow(state, bytes);
      b := b + bytes;
      state := Grow(state, bytes);
    }
  }

  method Apply(m: Movie, op: Op) returns (ok: bool)
    requires m.Valid()
    modifies m
    ensures m.Valid() && Step(old(m.state), op) == if ok then Some(m.state) else None
  {
    ok := true;
    match op {
      case Start(name) =>
        m.StartAtom(name);
      case Put(bytes) =>
        m.Write(bytes);
      case End =>
        if |m.start| == 0 {
          return false;
        }
        m.EndAtom();
    }
  }

  // A whole run on the object; false when an EndAtom had nothing to end.
  method Perform(m: Movie, ops: seq<Op>) returns (ok: bool)
    requires m.Valid()
    modifies m
    ensures m.Valid() && Run(old(m.state), ops) == if ok then Some(m.state) else None
  {
    ok := true;
    var k := 0;
    assert ops[0..] == ops;
    while k < |ops|
      invariant 0 <= k <= |ops| && m.Valid() && Run(old(m.state), ops) == Run(m.state, ops[k..])
      decreases |ops| - k
    {
      assert ops[k..][0] == ops[k] && ops[k..][1..] == ops[k + 1..];
      ok := Apply(m, ops[k]);
      if !ok {
        return;
      }
      k := k + 1;
    }
  }
}
