// The H.264 RTP payloader of pkg/h264/payloader.go on AVCC input (sections 5.7.1 and 5.8 of
// RFC 6184).
module H264Pay {
  import opened Wrappers
  import opened Bytes
  import opened Seqs
  import opened Avcc

  const FU_A: nat := 28

  function NalType(b: byte): (t: nat)
    ensures t < 32
  {
    b % 32
  }

  // b & 0x60
  function RefIdc(b: byte): (r: nat)
    ensures r <= 96 && r % 32 == 0
  {
    b / 32 % 4 * 32
  }

  // Access unit delimiters and filler data are not sent.
  predicate Skipped(nal: seq<byte>) {
    nal == [] || NalType(nal[0]) == 9 || NalType(nal[0]) == 12
  }

  predicate Parameter(nal: seq<byte>) {
    nal != [] && (NalType(nal[0]) == 7 || NalType(nal[0]) == 8)
  }

  // ---------- STAP-A ----------

  // Units behind lengths of two bytes, cut to 16 bits.
  function Units(nals: seq<seq<byte>>): seq<byte> {
    if nals == [] then []
    else Units(nals[..|nals| - 1]) + (Be(|nals[|nals| - 1]|, 2) + nals[|nals| - 1])
  }

  function StapA(nals: seq<seq<byte>>): (b: seq<byte>)
    ensures b != []
  {
    [0x78] + Units(nals)
  }

  // The field stapANalu: nil, or the packet that collects parameter sets.
  function Collected(held: seq<seq<byte>>): Option<seq<byte>> {
    if held == [] then None else Some(StapA(held))
  }

  // ---------- FU-A ----------

  function Flag(first: bool, last: bool): (flag: nat)
    ensures flag in {0, 64, 128}
  {
    if first then 128 else if last then 64 else 0
  }

  function Fragment(header: byte, flag: nat, chunk: seq<byte>): (f: seq<byte>)
    requires flag in {0, 64, 128}
    ensures |f| == 2 + |chunk|
  {
    [FU_A + RefIdc(header), NalType(header) + flag] + chunk
  }

  function Fragments(header: byte, data: seq<byte>, max: nat, first: bool): seq<seq<byte>>
    requires max > 0
    decreases |data|
  {
    if data == [] then []
    else
      var n := if |data| > max then max else |data|;
      [Fragment(header, Flag(first, n == |data|), data[..n])] + Fragments(header, data[n..], max, false)
  }

  // ---------- one NAL unit ----------

  function Flushed(mtu: nat, held: seq<seq<byte>>): seq<seq<byte>> {
    if held != [] && |StapA(held)| <= mtu then [StapA(held)] else []
  }

  function Sent(mtu: nat, nal: seq<byte>): seq<seq<byte>>
    requires nal != []
  {
    if |nal| <= mtu then [nal] else if mtu <= 2 then [] else Fragments(nal[0], nal[1..], mtu - 2, true)
  }

  function Payloads(mtu: nat, held: seq<seq<byte>>, nal: seq<byte>): seq<seq<byte>> {
    if Skipped(nal) || Parameter(nal) then [] else Flushed(mtu, held) + Sent(mtu, nal)
  }

  function HeldAfter(held: seq<seq<byte>>, nal: seq<byte>): seq<seq<byte>> {
    if Skipped(nal) then held else if Parameter(nal) then held + [nal] else []
  }

  // ---------- runs: NAL units with the mtu of their call ----------

  datatype Item = Item(mtu: nat, nal: seq<byte>)

  function Items(mtu: nat, nals: seq<seq<byte>>): (r: seq<Item>)
    ensures |r| == |nals|
  {
    seq(|nals|, k requires 0 <= k < |nals| => Item(mtu, nals[k]))
  }

  function Pay(held: seq<seq<byte>>, items: seq<Item>): seq<seq<byte>>
    decreases |items|
  {
    if items == [] then []
    else Payloads(items[0].mtu, held, items[0].nal) + Pay(HeldAfter(held, items[0].nal), items[1..])
  }

  function HeldAtEnd(held: seq<seq<byte>>, items: seq<Item>): seq<seq<byte>>
    decreases |items|
  {
    if items == [] then held else HeldAtEnd(HeldAfter(held, items[0].nal), items[1..])
  }

  lemma {:induction false} PayAppend(held: seq<seq<byte>>, a: seq<Item>, b: seq<Item>)
    ensures Pay(held, a + b) == Pay(held, a) + Pay(HeldAtEnd(held, a), b)
    ensures HeldAtEnd(held, a + b) == HeldAtEnd(HeldAtEnd(held, a), b)
    decreases |a|
  {
    if a == [] {
      assert a + b == b;
    } else {
      var held' := HeldAfter(held, a[0].nal);
      assert (a + b)[1..] == a[1..] + b;
      PayAppend(held', a[1..], b);
      Assoc(Payloads(a[0].mtu, held, a[0].nal), Pay(held', a[1..]), Pay(HeldAtEnd(held', a[1..]), b));
    }
  }

  // ---------- the payloader ----------

  class Payloader {
    var stapANalu: Option<seq<byte>>
    ghost var held: seq<seq<byte>>

    ghost predicate Valid()
      reads this
    {
      stapANalu == Collected(held)
    }

    constructor ()
      ensures Valid() && held == []
    {
      stapANalu, held := None, [];
    }

    method FragmentNal(mtu: nat, nalu: seq<byte>) returns (payloads: seq<seq<byte>>)
      requires nalu != [] && |nalu| > mtu
      ensures payloads == Sent(mtu, nalu)
    {
      payloads := [];
      var max: int := mtu - 2;
      var index, remaining := 1, |nalu| - 1;
      if (if max < remaining then max else remaining) <= 0 {
        return;
      }
      while remaining > 0
        invariant 1 <= index <= |nalu| && index + remaining == |nalu|
        invariant payloads + Fragments(nalu[0], nalu[index..], max, remaining == |nalu| - 1)
               == Fragments(nalu[0], nalu[1..], max, true)
      {
        var current := if max < remaining then max else remaining;
        var flag := if remaining == |nalu| - 1 then 128 else if remaining - current == 0 then 64 else 0;
        var chunk: seq<byte> := nalu[index..index + current];
        var out: seq<byte> := [FU_A + RefIdc(nalu[0]), NalType(nalu[0]) + flag] + chunk;
        ghost var data := nalu[index..];
        assert data[..current] == chunk && data[current..] == nalu[index + current..];
        ghost var rest := Fragments(nalu[0], data[current..], max, false);
        assert payloads + ([out] + rest) == (payloads + [out]) + rest;
        payloads := payloads + [out];
        remaining := remaining - current;
        index := index + current;
      }
      assert nalu[index..] == [] && payloads + [] == payloads;
    }

    // The callback of Payload.
    method Emit(mtu: nat, nalu: seq<byte>) returns (payloads: seq<seq<byte>>)
      requires Valid()
      modifies this
      ensures Valid() && held == HeldAfter(old(held), nalu) && payloads == Payloads(mtu, old(held), nalu)
    {
      payloads := [];
      if |nalu| == 0 {
        return;
      }
      var naluType := NalType(nalu[0]);
      if naluType == 9 || naluType == 12 {
        return;
      }
      if naluType == 7 || naluType == 8 {
        var stap: seq<byte> := if stapANalu.None? then [0x78] else stapANalu.value;
        Collect(held, nalu, stap);
        stap := stap + Be(|nalu|, 2);
        stap := stap + nalu;
        stapANalu, held := Some(stap), held + [nalu];
        return;
      }
      if stapANalu.Some? {
        if |stapANalu.value| <= mtu {
          payloads := payloads + [stapANalu.value];
        }
        stapANalu := None;
      }
      held := [];
      if |nalu| <= mtu {
        payloads := payloads + [nalu];
        return;
      }
      var fragments := FragmentNal(mtu, nalu);
      payloads := payloads + fragments;
    }

    // None is a panic in EmitNalus.
    method Payload(mtu: nat, payload: seq<byte>) returns (r: Option<seq<seq<byte>>>)
      requires Valid()
      modifies this
      ensures Valid()
      ensures var nals := EmitNalus(payload);
              if nals.None? then r == None
              else
                && r == Some(Pay(old(held), Items(mtu, nals.value)))
                && held == HeldAtEnd(old(held), Items(mtu, nals.value))
    {
      var nals: seq<byte>, payloads: seq<seq<byte>> := payload, [];
      ghost var done: seq<seq<byte>> := [];
      WalkStart(payload);
      assert Items(mtu, done) == [];
      while true
        invariant Valid() && Walked(payload, done, nals)
        invariant payloads == Pay(old(held), Items(mtu, done)) && held == HeldAtEnd(old(held), Items(mtu, done))
        decreases |nals|
      {
        var n := |nals| % TWO32;
        if n < 4 {
          break;
        }
        var end := (4 + U(nals[..4])) % TWO32;
        if n < end {
          break;
        }
        if end < 4 {
          WalkEnd(payload, done, nals);
          return None;
        }
        var nalu := nals[4..end];
        WalkMore(payload, done, nals);
        OneMore(old(held), mtu, done, nalu);
        var more := Emit(mtu, nalu);
        payloads := payloads + more;
        done := done + [nalu];
        nals := nals[end..];
      }
      WalkEnd(payload, done, nals);
      r := Some(payloads);
    }
  }

  lemma {:induction false} Collect(held: seq<seq<byte>>, nal: seq<byte>, stap: seq<byte>)
    requires stap == if held == [] then [0x78] else StapA(held)
    ensures stap + Be(|nal|, 2) + nal == StapA(held + [nal])
  {
    var head: seq<byte>, unit := [0x78], Be(|nal|, 2) + nal;
    assert stap == head + Units(held);
    SnocTake(held, nal);
    Assoc(stap, Be(|nal|, 2), nal);
    Assoc(head, Units(held), unit);
  }

  lemma {:induction false} OneMore(held: seq<seq<byte>>, mtu: nat, done: seq<seq<byte>>, nal: seq<byte>)
    ensures var before := HeldAtEnd(held, Items(mtu, done));
            && Pay(held, Items(mtu, done + [nal])) == Pay(held, Items(mtu, done)) + Payloads(mtu, before, nal)
            && HeldAtEnd(held, Items(mtu, done + [nal])) == HeldAfter(before, nal)
  {
    var one := [Item(mtu, nal)];
    assert Items(mtu, done + [nal]) == Items(mtu, done) + one;
    PayAppend(held, Items(mtu, done), one);
    LastItem(HeldAtEnd(held, Items(mtu, done)), mtu, nal);
  }

  lemma {:induction false} LastItem(held: seq<seq<byte>>, mtu: nat, nal: seq<byte>)
    ensures Pay(held, [Item(mtu, nal)]) == Payloads(mtu, held, nal)
    ensures HeldAtEnd(held, [Item(mtu, nal)]) == HeldAfter(held, nal)
  {
    var none: seq<Item> := [];
    assert [Item(mtu, nal)][1..] == none;
    assert Pay(HeldAfter(held, nal), none) == [];
  }
}
