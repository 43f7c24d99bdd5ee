// Slices of concatenations, and concatenations of many.
module Seqs {

  lemma Assoc<T>(a: seq<T>, b: seq<T>, c: seq<T>)
    ensures (a + b) + c == a + (b + c)
  {
  }

  lemma Halves<T>(a: seq<T>, b: seq<T>)
    ensures (a + b)[..|a|] == a
    ensures (a + b)[|a|..] == b
  {
  }

  lemma Thirds<T>(a: seq<T>, b: seq<T>, c: seq<T>)
    ensures (a + b + c)[..|a|] == a
    ensures (a + b + c)[|a|..|a| + |b|] == b
    ensures (a + b + c)[|a| + |b|..] == c
  {
  }

  lemma Split<T>(s: seq<T>, i: nat)
    requires i <= |s|
    ensures s[..i] + s[i..] == s
  {
  }

  lemma DropDrop<T>(s: seq<T>, i: nat, j: nat)
    requires i + j <= |s|
    ensures s[i..][j..] == s[i + j..]
  {
  }

  lemma SliceSlice<T>(s: seq<T>, p: nat, q: nat, i: nat, j: nat)
    requires p <= q <= |s| && i <= j <= q - p
    ensures s[p..q][i..j] == s[p + i..p + j]
  {
    forall k | 0 <= k < j - i
      ensures s[p..q][i..j][k] == s[p + i..p + j][k]
    {
      assert s[p..q][i + k] == s[p + i + k];
    }
  }

  lemma {:induction false} SliceAt<T>(s: seq<T>, i: nat, j: nat, k: nat)
    requires i <= j <= |s| && k < j - i
    ensures s[i..j][k] == s[i + k]
  {
  }

  lemma {:induction false} Glue<T>(a: seq<T>, b: seq<T>, c: seq<T>, x: T)
    requires b == c + [x]
    ensures a + b == (a + c) + [x]
  {
    Assoc(a, c, [x]);
  }

  // Replacing the middle of a + (x + c) by something as long.
  lemma Replace<T>(a: seq<T>, x: seq<T>, y: seq<T>, c: seq<T>)
    requires |x| == |y|
    ensures (a + (x + c))[..|a|] + y + (a + (x + c))[|a| + |y|..] == a + (y + c)
  {
    Assoc(a, x, c);
    Halves(a + x, c);
    Halves(a, x + c);
    Assoc(a, y, c);
  }

  lemma SnocTake<T>(s: seq<T>, x: T)
    ensures (s + [x])[..|s|] == s && (s + [x])[|s|] == x
  {
  }

  lemma TakeLast<T>(s: seq<T>)
    requires s != []
    ensures s[..|s| - 1] + [s[|s| - 1]] == s
  {
  }

  // ---------- concatenation of many ----------

  function Flat<T>(parts: seq<seq<T>>): seq<T> {
    if parts == [] then [] else Flat(parts[..|parts| - 1]) + parts[|parts| - 1]
  }

  lemma {:induction false} FlatSnoc<T>(parts: seq<seq<T>>, last: seq<T>)
    ensures Flat(parts + [last]) == Flat(parts) + last
  {
    SnocTake(parts, last);
  }

  lemma {:induction false} FlatOne<T>(part: seq<T>)
    ensures Flat([part]) == part
  {
    var none: seq<seq<T>>, nothing: seq<T> := [], [];
    assert none + [part] == [part];
    FlatSnoc(none, part);
    assert nothing + part == part;
  }

  lemma {:induction false} FlatAppend<T>(a: seq<seq<T>>, b: seq<seq<T>>)
    ensures Flat(a + b) == Flat(a) + Flat(b)
    decreases |b|
  {
    if b == [] {
      assert a + b == a;
    } else {
      var n := |b| - 1;
      assert (a + b)[..|a| + n] == a + b[..n] && (a + b)[|a| + n] == b[n];
      FlatAppend(a, b[..n]);
      Assoc(Flat(a), Flat(b[..n]), b[n]);
    }
  }

  lemma {:induction false} FlatFront<T>(first: seq<T>, parts: seq<seq<T>>)
    ensures Flat([first] + parts) == first + Flat(parts)
  {
    FlatAppend([first], parts);
    FlatOne(first);
  }
}
