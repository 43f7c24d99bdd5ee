// The receiver and sender graph of pkg/core: nodes that own a list of children and point
// back at their parent, rewired in place.
module Nodes {

  class Node {
    const codec: nat
    var childs: seq<Node>
    var parent: Node?

    constructor (codec: nat)
      ensures this.codec == codec && childs == [] && parent == null
    {
      this.codec := codec;
      childs, parent := [], null;
    }

    method AppendChild(child: Node)
      modifies this`childs, child`parent
      ensures childs == old(childs) + [child] && child.parent == this
    {
      childs := childs + [child];
      child.parent := this;
    }

    method RemoveChild(child: Node)
      modifies this`childs
      ensures childs == Without(old(childs), child)
    {
      var i := 0;
      while i < |childs|
        invariant 0 <= i <= |childs| && childs == old(childs)
        invariant child !in childs[..i]
      {
        if childs[i] == child {
          WithoutAt(childs, child, i);
          childs := childs[..i] + childs[i + 1..];
          return;
        }
        i := i + 1;
      }
      WithoutAbsent(childs, child);
    }
  }

  // The list without the first occurrence of x.
  function Without(s: seq<Node>, x: Node): seq<Node> {
    if s == [] then [] else if s[0] == x then s[1..] else [s[0]] + Without(s[1..], x)
  }

  lemma {:induction false} WithoutAt(s: seq<Node>, x: Node, i: nat)
    requires i < |s| && s[i] == x && x !in s[..i]
    ensures Without(s, x) == s[..i] + s[i + 1..]
  {
    if i > 0 {
      assert s[0] in s[..i];
      assert s[1..][..i - 1] == s[..i][1..];
      WithoutAt(s[1..], x, i - 1);
      assert s[1..][i..] == s[i + 1..];
    }
  }

  lemma {:induction false} WithoutAbsent(s: seq<Node>, x: Node)
    requires x !in s
    ensures Without(s, x) == s
  {
    if s != [] {
      WithoutAbsent(s[1..], x);
    }
  }

  // Removal takes away exactly one occurrence.
  lemma {:induction false} WithoutCounts(s: seq<Node>, x: Node)
    ensures multiset(Without(s, x)) == multiset(s) - multiset{x}
  {
    if s != [] {
      assert s == [s[0]] + s[1..];
      WithoutCounts(s[1..], x);
    }
  }

  // Removing a child undoes the append that made it one.
  lemma {:induction false} WithoutUndoesAppend(s: seq<Node>, x: Node)
    requires x !in s
    ensures Without(s + [x], x) == s
  {
    assert (s + [x])[..|s|] == s;
    WithoutAt(s + [x], x, |s|);
  }

  // Overwriting one list of children with another keeps them all only if it was empty.
  lemma OverwriteConserves(dst: seq<Node>, src: seq<Node>)
    ensures multiset(src) == multiset(dst) + multiset(src) <==> dst == []
  {
    if dst != [] {
      assert multiset(dst)[dst[0]] > 0;
      assert (multiset(dst) + multiset(src))[dst[0]] > multiset(src)[dst[0]];
    }
  }

  // Every child of src now hangs under dst, in the same order. Whatever dst had is dropped:
  // two nodes keep all their children between them exactly when dst had none.
  method MoveNode(dst: Node, src: Node)
    modifies dst`childs, src`childs, (set c | c in src.childs)`parent
    ensures dst.childs == old(src.childs)
    ensures src != dst ==> src.childs == []
    ensures src != dst ==>
              (multiset(dst.childs) + multiset(src.childs) == old(multiset(dst.childs) + multiset(src.childs))
               <==> old(dst.childs) == [])
    ensures forall c :: c in old(src.childs) ==> c.parent == dst
  {
    OverwriteConserves(dst.childs, src.childs);
    var childs := src.childs;
    src.childs := [];
    dst.childs := childs;
    var i := 0;
    while i < |childs|
      invariant 0 <= i <= |childs|
      invariant dst.childs == childs == old(src.childs)
      invariant src != dst ==> src.childs == []
      invariant forall k :: 0 <= k < i ==> childs[k].parent == dst
      modifies (set c | c in childs)`parent
    {
      childs[i].parent := dst;
      i := i + 1;
    }
  }
}
