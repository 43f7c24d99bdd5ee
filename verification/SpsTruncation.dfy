// DecodeSPS on input that is cut off, and on input with bits behind the parameter set.
module SpsTruncation {
  import opened Wrappers
  import opened Bits
  import opened SpsSyntax
  import opened SpsLocality

  // A parse that succeeds ends inside its input.
  lemma EndsInside(s: seq<bit>)
    requires DecodeSPS(s).Some?
    ensures !End(s).eof && End(s).at <= |s|
  {
  }

  // Whatever follows a parameter set, it reads the same.
  lemma RestIsIgnored(s: seq<bit>, t: seq<bit>)
    requires s <= t && DecodeSPS(s).Some?
    ensures DecodeSPS(t) == DecodeSPS(s) && End(t) == End(s)
  {
    EndsInside(s);
    forall i: nat | i < End(s).at
      ensures SameAt(s, t, i)
    {
      assert s[i] == t[i];
    }
    SameParse(s, t);
  }

  // Input that stops before the parse ends is nil, wherever it stops.
  lemma TruncatedIsNil(s: seq<bit>, n: nat)
    requires n <= |s| && n < End(s).at
    ensures DecodeSPS(s[..n]).None?
  {
    if DecodeSPS(s[..n]).Some? {
      EndsInside(s[..n]);
      RestIsIgnored(s[..n], s);
    }
  }

  // Input that stops behind it is not.
  lemma EnoughIsEnough(s: seq<bit>, n: nat)
    requires DecodeSPS(s).Some? && End(s).at <= n <= |s|
    ensures DecodeSPS(s[..n]) == DecodeSPS(s)
  {
    EndsInside(s);
    forall i: nat | i < End(s).at
      ensures SameAt(s, s[..n], i)
    {
      assert s[..n][i] == s[i];
    }
    SameParse(s, s[..n]);
  }

  // So the bits up to the end of the parse are needed, and they suffice.
  lemma DecodesExactly(s: seq<bit>, n: nat)
    requires DecodeSPS(s).Some? && n <= |s|
    ensures DecodeSPS(s[..n]) == if n < End(s).at then None else DecodeSPS(s)
  {
    if n < End(s).at {
      TruncatedIsNil(s, n);
    } else {
      EnoughIsEnough(s, n);
    }
  }
}
