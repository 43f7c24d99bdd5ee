// H.265 NAL unit headers and the RTP payloader of pkg/h265/payloader.go, without
// aggregation and without DONL (section 4.4.3 of RFC 7798).
module H265Nal {
  import opened Wrappers
  import opened Bytes
  import opened Avcc
  import opened Seqs

  const FU: nat := 49

  // (b >> 1) & 0x3F
  function NalType(b: byte): (t: nat)
    ensures t < 64
  {
    b / 2 % 64
  }

  // (b & 0x81) | (t << 1)
  function WithType(b: byte, t: nat): byte
    requires t < 64
  {
    b / 128 * 128 + b % 2 + 2 * t
  }

  // A fragmentation unit carries the header of its NAL unit: the type moves to the FU header.
  lemma HeaderSurvives(b: byte)
    ensures NalType(WithType(b, FU)) == FU
    ensures WithType(WithType(b, FU), NalType(b)) == b
  {
    var f, t, l := b / 128, NalType(b), b % 2;
    assert b == 128 * f + 2 * t + l && t < 64;
    var w := WithType(b, FU);
    assert w == 128 * f + 98 + l && w / 2 == 64 * f + 49;
  }

  predicate IsFU(data: seq<byte>)
    requires |data| >= 3
  {
    NalType(data[0]) == FU
  }

  // ---------- the payloader ----------

  function Flag(first: bool, last: bool): (flag: nat)
    ensures flag in {0, 64, 128}
  {
    if first then 128 else if last then 64 else 0
  }

  function Fragment(h0: byte, h1: byte, flag: nat, chunk: seq<byte>): (f: seq<byte>)
    requires flag in {0, 64, 128}
    ensures |f| == 3 + |chunk|
  {
    [WithType(h0, FU), h1, NalType(h0) + flag] + chunk
  }

  lemma FragmentFacts(h0: byte, h1: byte, flag: nat, chunk: seq<byte>)
    requires flag in {0, 64, 128}
    ensures var f := Fragment(h0, h1, flag, chunk);
            && IsFU(f) && f[2] / 64 == flag / 64 && f[3..] == chunk
            && WithType(f[0], f[2] % 64) == h0 && f[1] == h1 && f[2] % 64 == NalType(h0)
  {
    HeaderSurvives(h0);
  }

  // The fragments of `data`, the body of a NAL unit with header h0, h1.
  function Fragments(h0: byte, h1: byte, data: seq<byte>, max: nat, first: bool): seq<seq<byte>>
    requires max > 0
    decreases |data|
  {
    if data == [] then []
    else
      var n := if |data| > max then max else |data|;
      [Fragment(h0, h1, Flag(first, n == |data|), data[..n])]
        + Fragments(h0, h1, data[n..], max, false)
  }

  function PayNal(mtu: nat, nal: seq<byte>): seq<seq<byte>> {
    if nal == [] then []
    else if |nal| <= mtu then [nal]
    else if mtu <= 3 then []
    else Fragments(nal[0], nal[1], nal[2..], mtu - 3, true)
  }

  // An mtu below 3 makes the size of a fragment negative: writing its header panics, and so
  // does reading the header of a NAL unit of one byte. One of two bytes has nothing to send.
  predicate Fails(mtu: nat, nal: seq<byte>) {
    mtu < 3 && |nal| > mtu && |nal| != 0 && |nal| != 2
  }

  predicate NoneFails(mtu: nat, nals: seq<seq<byte>>) {
    forall k :: 0 <= k < |nals| ==> !Fails(mtu, nals[k])
  }

  function PayAll(mtu: nat, nals: seq<seq<byte>>): seq<seq<byte>> {
    if nals == [] then [] else PayAll(mtu, nals[..|nals| - 1]) + PayNal(mtu, nals[|nals| - 1])
  }

  // None is a panic.
  function Paid(mtu: nat, payload: seq<byte>): Option<seq<seq<byte>>> {
    var nals := EmitNalus(payload);
    if nals.None? || !NoneFails(mtu, nals.value) then None else Some(PayAll(mtu, nals.value))
  }

  lemma FailedPaid(mtu: nat, payload: seq<byte>, done: seq<seq<byte>>, nal: seq<byte>, rest: seq<byte>)
    requires Walked(payload, done + [nal], rest) && Fails(mtu, nal)
    ensures Paid(mtu, payload).None?
  {
    if EmitNalus(payload).Some? {
      assert EmitNalus(payload).value[|done|] == nal;
    }
  }

  lemma {:induction false} FragmentsNext(payloads: seq<seq<byte>>, h0: byte, h1: byte, data: seq<byte>, max: nat, first: bool)
    requires max > 0 && data != []
    ensures var n := if |data| > max then max else |data|;
            payloads + Fragments(h0, h1, data, max, first)
            == (payloads + [Fragment(h0, h1, Flag(first, n == |data|), data[..n])])
               + Fragments(h0, h1, data[n..], max, false)
  {
    var n := if |data| > max then max else |data|;
    Assoc(payloads, [Fragment(h0, h1, Flag(first, n == |data|), data[..n])], Fragments(h0, h1, data[n..], max, false));
  }

  // The inner loop: one NAL unit that does not fit.
  method FragmentNal(mtu: nat, nal: seq<byte>) returns (r: Option<seq<seq<byte>>>)
    requires |nal| > mtu
    ensures r == if Fails(mtu, nal) then None else Some(PayNal(mtu, nal))
  {
    var payloads: seq<seq<byte>>, max: int := [], mtu - 3;
    if |nal| < 2 {
      return None;
    }
    var data: seq<byte>, full := nal[2..], |nal| - 2;
    if max == 0 || |data| == 0 {
      return Some([]);
    }
    if max < 0 {
      return None;
    }
    while |data| > 0
      invariant |data| <= full
      invariant payloads + Fragments(nal[0], nal[1], data, max, |data| == full)
             == Fragments(nal[0], nal[1], nal[2..], max, true)
      decreases |data|
    {
      var current := |data|;
      if current > max {
        current := max;
      }
      var header := NalType(nal[0]) + Flag(|data| == full, |data| == current);
      var out: seq<byte> := [WithType(nal[0], FU), nal[1], header] + data[..current];
      FragmentsNext(payloads, nal[0], nal[1], data, max, |data| == full);
      payloads := payloads + [out];
      data := data[current..];
    }
    assert payloads + [] == payloads;
    r := Some(payloads);
  }

  // Payload walks the AVCC stream and emits each NAL unit at once; None is a panic.
  method Payload(mtu: nat, payload: seq<byte>) returns (r: Option<seq<seq<byte>>>)
    ensures r == Paid(mtu, payload)
  {
    var nals: seq<byte>, payloads: seq<seq<byte>> := payload, [];
    ghost var done: seq<seq<byte>> := [];
    WalkStart(payload);
    while true
      invariant payloads == PayAll(mtu, done) && NoneFails(mtu, done) && Walked(payload, done, nals)
      decreases |nals|
    {
      var n := |nals| % TWO32;
      if n < 4 {
        break;
      }
      var end := (4 + U(nals[..4])) % TWO32;
      if n < end {
        break;
      }
      if end < 4 {
        WalkEnd(payload, done, nals);
        return None;
      }
      var nal := nals[4..end];
      WalkMore(payload, done, nals);
      assert (done + [nal])[..|done|] == done;
      if 0 < |nal| <= mtu {
        payloads := payloads + [nal];
      } else if |nal| > mtu {
        var fragments := FragmentNal(mtu, nal);
        if fragments.None? {
          FailedPaid(mtu, payload, done, nal, nals[end..]);
          return None;
        }
        payloads := payloads + fragments.value;
      }
      done := done + [nal];
      nals := nals[end..];
    }
    WalkEnd(payload, done, nals);
    r := Some(payloads);
  }
}
