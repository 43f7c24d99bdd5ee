// What a receiver takes out of the H.264 payloads: a reference depacketizer after sections
// 5.6 to 5.8 of RFC 6184, and what it recovers from any run of Payload calls.
module H264RoundTrip {
  import opened Bytes
  import opened Seqs
  import opened H264Pay

  // The NAL units of an aggregation packet without its header.
  function Split16(b: seq<byte>): seq<seq<byte>>
    decreases |b|
  {
    if |b| < 2 then []
    else
      var n := U(b[..2]);
      if 2 + n > |b| then [] else [b[2..2 + n]] + Split16(b[2 + n..])
  }

  // `nal` is the fragmented NAL unit as far as it has arrived.
  function Depack(payloads: seq<seq<byte>>, nal: seq<byte>): seq<seq<byte>>
    decreases |payloads|
  {
    if payloads == [] then []
    else
      var p, rest := payloads[0], payloads[1..];
      if p == [] then Depack(rest, [])
      else if p[0] % 32 == 24 then Split16(p[1..]) + Depack(rest, [])
      else if p[0] % 32 == 28 && |p| > 1 then
        var header: byte := p[0] / 32 * 32 + p[1] % 32;
        var nal' := (if p[1] / 128 == 1 then [header] else nal) + p[2..];
        if p[1] / 64 % 2 == 1 then [nal'] + Depack(rest, []) else Depack(rest, nal')
      else [p] + Depack(rest, [])
  }

  // The NAL units this is about: forbidden_zero_bit is 0 and the type is not one that RTP uses.
  predicate Plain(nal: seq<byte>) {
    nal != [] ==> nal[0] < 128 && nal[0] % 32 < 24
  }

  predicate ItemsOk(items: seq<Item>) {
    forall k :: 0 <= k < |items| ==> 3 <= items[k].mtu < TWO16 && Plain(items[k].nal)
  }

  // ---------- what should arrive ----------

  // Access unit delimiters (9), filler data (12) and empty units are not sent.
  predicate Dropped(nal: seq<byte>) {
    nal == [] || nal[0] % 32 == 9 || nal[0] % 32 == 12
  }

  // Sequence (7) and picture (8) parameter sets wait for the next other unit.
  predicate Waits(nal: seq<byte>) {
    nal != [] && (nal[0] % 32 == 7 || nal[0] % 32 == 8)
  }

  function Waiting(held: seq<seq<byte>>, nal: seq<byte>): seq<seq<byte>> {
    if Dropped(nal) then held else if Waits(nal) then held + [nal] else []
  }

  // Their aggregation packet: a header, and each behind a length of two bytes.
  function StapSize(held: seq<seq<byte>>): nat {
    if held == [] then 1 else StapSize(held[..|held| - 1]) + 2 + |held[|held| - 1]|
  }

  // Parameter sets are lost if they do not fit the mtu of the unit they wait for.
  function Arriving(held: seq<seq<byte>>, items: seq<Item>): seq<seq<byte>>
    decreases |items|
  {
    if items == [] then []
    else
      var item := items[0];
      (if Dropped(item.nal) || Waits(item.nal) then []
       else (if StapSize(held) <= item.mtu then held else []) + [item.nal])
      + Arriving(Waiting(held, item.nal), items[1..])
  }

  // Everything but delimiters, filler and empty units.
  function Wanted(items: seq<Item>): seq<seq<byte>> {
    if items == [] then []
    else (if Dropped(items[0].nal) then [] else [items[0].nal]) + Wanted(items[1..])
  }

  // Every aggregation packet fits the mtu of the call that sends it.
  predicate AllFit(held: seq<seq<byte>>, items: seq<Item>)
    decreases |items|
  {
    items == [] ||
    (var item := items[0];
     && (Dropped(item.nal) || Waits(item.nal) || held == [] || StapSize(held) <= item.mtu)
     && AllFit(Waiting(held, item.nal), items[1..]))
  }

  lemma Sorted(held: seq<seq<byte>>, nal: seq<byte>)
    ensures Dropped(nal) <==> Skipped(nal)
    ensures Waits(nal) <==> Parameter(nal)
    ensures Waiting(held, nal) == HeldAfter(held, nal)
  {
  }

  lemma {:induction false} StapSizes(held: seq<seq<byte>>)
    ensures StapSize(held) == |StapA(held)|
  {
    if held != [] {
      StapSizes(held[..|held| - 1]);
    }
  }

  // ---------- aggregation packets ----------

  lemma {:induction false} UnitsFront(nal: seq<byte>, nals: seq<seq<byte>>)
    ensures Units([nal] + nals) == (Be(|nal|, 2) + nal) + Units(nals)
    decreases |nals|
  {
    var all := [nal] + nals;
    if nals == [] {
      var none: seq<seq<byte>> := [];
      assert all == [nal] && all[..0] == none;
      assert Units(none) == [];
    } else {
      var n := |nals| - 1;
      assert all[..n + 1] == [nal] + nals[..n] && all[n + 1] == nals[n];
      UnitsFront(nal, nals[..n]);
      Assoc(Be(|nal|, 2) + nal, Units(nals[..n]), Be(|nals[n]|, 2) + nals[n]);
    }
  }

  lemma {:induction false} SizeRead(n: nat)
    requires n < TWO16
    ensures U(Be(n, 2)) == n
  {
    UBe(n, 2);
    Powers();
  }

  lemma {:induction false} SplitOne(nal: seq<byte>, rest: seq<byte>)
    requires |nal| < TWO16
    ensures Split16((Be(|nal|, 2) + nal) + rest) == [nal] + Split16(rest)
  {
    Thirds(Be(|nal|, 2), nal, rest);
    SizeRead(|nal|);
  }

  // Splitting inverts collecting.
  lemma {:induction false} SplitUnits(nals: seq<seq<byte>>)
    requires |Units(nals)| < TWO16
    ensures Split16(Units(nals)) == nals
    decreases |nals|
  {
    if nals != [] {
      var nal, rest := nals[0], nals[1..];
      assert nals == [nal] + rest;
      UnitsFront(nal, rest);
      SplitUnits(rest);
      SplitOne(nal, Units(rest));
    }
  }

  lemma {:induction false} DepackStap(held: seq<seq<byte>>, rest: seq<seq<byte>>)
    requires |StapA(held)| <= TWO16
    ensures Depack([StapA(held)] + rest, []) == held + Depack(rest, [])
  {
    var p := StapA(held);
    var head: seq<byte> := [0x78];
    Halves(head, Units(held));
    SplitUnits(held);
    Halves([p], rest);
    assert p[0] == 0x78;
  }

  // ---------- fragments ----------

  lemma {:induction false} HeaderParts(b: byte)
    requires b < 128
    ensures var i: nat := FU_A + RefIdc(b);
            NalType(i) == FU_A && i / 32 * 32 + NalType(b) == b
  {
  }

  lemma {:induction false} FlagParts(t: nat, flag: nat)
    requires t < 32 && flag in {0, 64, 128}
    ensures (t + flag) % 32 == t && (t + flag) / 128 == flag / 128 && (t + flag) / 64 % 2 == flag / 64 % 2
  {
  }

  lemma {:induction false} DepackFragment(b: byte, flag: nat, chunk: seq<byte>, rest: seq<seq<byte>>, nal: seq<byte>)
    requires b < 128 && flag in {0, 64, 128}
    ensures var nal' := (if flag == 128 then [b] else nal) + chunk;
            Depack([Fragment(b, flag, chunk)] + rest, nal)
            == if flag == 64 then [nal'] + Depack(rest, []) else Depack(rest, nal')
  {
    var p := Fragment(b, flag, chunk);
    HeaderParts(b);
    FlagParts(NalType(b), flag);
    assert p[0] == FU_A + RefIdc(b) && p[1] == NalType(b) + flag && p[2..] == chunk;
    Halves([p], rest);
  }

  // The fragments behind the first one.
  lemma {:induction false} DepackTail(b: byte, data: seq<byte>, max: nat, rest: seq<seq<byte>>, nal: seq<byte>)
    requires b < 128 && max > 0 && data != []
    ensures Depack(Fragments(b, data, max, false) + rest, nal) == [nal + data] + Depack(rest, [])
    decreases |data|
  {
    var n := if |data| > max then max else |data|;
    var chunk, more := data[..n], data[n..];
    var flag, fs := Flag(false, n == |data|), Fragments(b, more, max, false);
    Assoc([Fragment(b, flag, chunk)], fs, rest);
    DepackFragment(b, flag, chunk, fs + rest, nal);
    Split(data, n);
    if n == |data| {
      assert fs + rest == rest && chunk == data;
    } else {
      DepackTail(b, more, max, rest, nal + chunk);
      Assoc(nal, chunk, more);
    }
  }

  lemma {:induction false} DepackSent(mtu: nat, nal: seq<byte>, rest: seq<seq<byte>>)
    requires mtu >= 3 && nal != [] && Plain(nal)
    ensures Depack(Sent(mtu, nal) + rest, []) == [nal] + Depack(rest, [])
  {
    if |nal| <= mtu {
      Halves([nal], rest);
    } else {
      var b, data, max := nal[0], nal[1..], mtu - 2;
      var fs := Fragments(b, data[max..], max, false);
      assert Sent(mtu, nal) == [Fragment(b, 128, data[..max])] + fs;
      Assoc([Fragment(b, 128, data[..max])], fs, rest);
      DepackFragment(b, 128, data[..max], fs + rest, []);
      DepackTail(b, data[max..], max, rest, [b] + data[..max]);
      Split(data, max);
      Assoc([b], data[..max], data[max..]);
      assert [b] + data == nal;
    }
  }

  // ---------- runs ----------

  lemma {:induction false} DepackPayloads(mtu: nat, held: seq<seq<byte>>, nal: seq<byte>, rest: seq<seq<byte>>)
    requires 3 <= mtu < TWO16 && Plain(nal) && !Skipped(nal) && !Parameter(nal)
    ensures Depack(Payloads(mtu, held, nal) + rest, [])
         == ((if |StapA(held)| <= mtu then held else []) + [nal]) + Depack(rest, [])
  {
    var first, sent := Flushed(mtu, held), Sent(mtu, nal);
    Assoc(first, sent, rest);
    DepackSent(mtu, nal, rest);
    if first == [] {
      assert first + (sent + rest) == sent + rest;
      if held == [] {
        assert held + [nal] == [nal];
      }
    } else {
      DepackStap(held, sent + rest);
      Assoc(held, [nal], Depack(rest, []));
    }
  }

  // A receiver recovers, from any run of Payload calls, exactly the units that Arriving lists.
  lemma {:induction false} DepackPay(held: seq<seq<byte>>, items: seq<Item>)
    requires ItemsOk(items)
    ensures Depack(Pay(held, items), []) == Arriving(held, items)
    decreases |items|
  {
    if items != [] {
      var item := items[0];
      var held' := HeldAfter(held, item.nal);
      Sorted(held, item.nal);
      StapSizes(held);
      DepackPay(held', items[1..]);
      var more := Pay(held', items[1..]);
      if Skipped(item.nal) || Parameter(item.nal) {
        var none: seq<seq<byte>> := [];
        assert none + more == more;
        assert none + Depack(more, []) == Depack(more, []);
      } else {
        DepackPayloads(item.mtu, held, item.nal, more);
      }
    }
  }

  // Nothing is lost exactly when every aggregation packet fits: then what arrives and what
  // the payloader still holds are the units that were put in, in order.
  lemma {:induction false} Conservation(held: seq<seq<byte>>, items: seq<Item>)
    ensures |Arriving(held, items) + HeldAtEnd(held, items)| <= |held + Wanted(items)|
    ensures Arriving(held, items) + HeldAtEnd(held, items) == held + Wanted(items) <==> AllFit(held, items)
    decreases |items|
  {
    if items == [] {
      assert Arriving(held, items) + held == held && held + Wanted(items) == held;
    } else {
      var nal := items[0].nal;
      var held' := HeldAfter(held, nal);
      Sorted(held, nal);
      Conservation(held', items[1..]);
      var later, end, wanted := Arriving(held', items[1..]), HeldAtEnd(held', items[1..]), Wanted(items[1..]);
      if Dropped(nal) {
        assert Arriving(held, items) == later && Wanted(items) == wanted;
      } else if Waits(nal) {
        assert Arriving(held, items) == later;
        Assoc(held, [nal], wanted);
      } else {
        KeptOrLost(held, nal, StapSize(held) <= items[0].mtu, later, end, wanted);
      }
    }
  }

  // The same of what a receiver recovers.
  lemma {:induction false} RecoveredExactly(held: seq<seq<byte>>, items: seq<Item>)
    requires ItemsOk(items)
    ensures Depack(Pay(held, items), []) + HeldAtEnd(held, items) == held + Wanted(items) <==> AllFit(held, items)
  {
    DepackPay(held, items);
    Conservation(held, items);
  }

  // A parameter set that nearly fills the mtu does not get through.
  lemma {:induction false} LargeSetIsLost(mtu: nat, sps: seq<byte>, nal: seq<byte>)
    requires Waits(sps) && |sps| + 3 > mtu && !Waits(nal) && !Dropped(nal)
    ensures !AllFit([], Items(mtu, [sps, nal]))
  {
    var items := Items(mtu, [sps, nal]);
    assert !Dropped(sps);
    assert Waiting([], sps) == [sps] && items[1..][0] == Item(mtu, nal);
    assert StapSize([sps]) == StapSize([sps][..0]) + 2 + |sps|;
  }

  lemma {:induction false} KeptOrLost(
      held: seq<seq<byte>>, nal: seq<byte>, fits: bool, later: seq<seq<byte>>, end: seq<seq<byte>>, wanted: seq<seq<byte>>)
    requires |later + end| <= |[] + wanted|
    ensures var out := (if fits then held else []) + [nal];
            && |(out + later) + end| <= |held + ([nal] + wanted)|
            && ((out + later) + end == held + ([nal] + wanted) <==> (fits || held == []) && later + end == [] + wanted)
  {
    var out := (if fits then held else []) + [nal];
    assert [] + wanted == wanted;
    Assoc(out, later, end);
    Assoc(held, [nal], wanted);
    if fits || held == [] {
      assert out == held + [nal];
      Halves(out, later + end);
      Halves(out, wanted);
    }
  }

  // ---------- sizes and fragment flags ----------

  predicate Bounded(payloads: seq<seq<byte>>, mtu: nat) {
    forall k :: 0 <= k < |payloads| ==> 0 < |payloads[k]| <= mtu
  }

  lemma {:induction false} FragmentsBounded(header: byte, data: seq<byte>, max: nat, first: bool)
    requires max > 0
    ensures Bounded(Fragments(header, data, max, first), max + 2)
    decreases |data|
  {
    if data != [] {
      var n := if |data| > max then max else |data|;
      FragmentsBounded(header, data[n..], max, false);
    }
  }

  // No payload is empty or longer than the mtu of its call.
  lemma {:induction false} PayloadsBounded(mtu: nat, held: seq<seq<byte>>, nal: seq<byte>)
    ensures Bounded(Payloads(mtu, held, nal), mtu)
  {
    if !Skipped(nal) && |nal| > mtu > 2 {
      FragmentsBounded(nal[0], nal[1..], mtu - 2, true);
    }
  }

  lemma {:induction false} RunBounded(mtu: nat, held: seq<seq<byte>>, nals: seq<seq<byte>>)
    ensures Bounded(Pay(held, Items(mtu, nals)), mtu)
    decreases |nals|
  {
    if nals != [] {
      PayloadsBounded(mtu, held, nals[0]);
      RunBounded(mtu, HeldAfter(held, nals[0]), nals[1..]);
      assert Items(mtu, nals)[1..] == Items(mtu, nals[1..]);
    }
  }

  predicate Starts(p: seq<byte>)
    requires |p| >= 2
  {
    p[1] / 128 == 1
  }

  predicate Ends(p: seq<byte>)
    requires |p| >= 2
  {
    p[1] / 64 % 2 == 1
  }

  lemma {:induction false} FragmentFlags(header: byte, flag: nat, chunk: seq<byte>)
    requires flag in {0, 64, 128}
    ensures var f := Fragment(header, flag, chunk); Starts(f) == (flag == 128) && Ends(f) == (flag == 64)
  {
    FlagParts(NalType(header), flag);
  }

  lemma {:induction false} TailFlags(header: byte, data: seq<byte>, max: nat, k: nat)
    requires max > 0 && k < |Fragments(header, data, max, false)|
    ensures var fs := Fragments(header, data, max, false);
            |fs[k]| >= 2 && !Starts(fs[k]) && Ends(fs[k]) == (k == |fs| - 1)
    decreases k
  {
    var n := if |data| > max then max else |data|;
    FragmentFlags(header, Flag(false, n == |data|), data[..n]);
    if k > 0 {
      TailFlags(header, data[n..], max, k - 1);
    } else if n < |data| {
      assert Fragments(header, data[n..], max, false) != [];
    }
  }

  lemma {:induction false} FragmentsFill(header: byte, data: seq<byte>, max: nat, first: bool, k: nat)
    requires max > 0 && k + 1 < |Fragments(header, data, max, first)|
    ensures |Fragments(header, data, max, first)[k]| == max + 2
    decreases |data|
  {
    if k > 0 {
      FragmentsFill(header, data[if |data| > max then max else |data|..], max, false, k - 1);
    }
  }

  // A fragmented unit makes at least two fragments; the first alone starts, the last alone
  // ends, and every one but the last fills the mtu.
  lemma {:induction false} OneStartOneEnd(mtu: nat, nal: seq<byte>, k: nat)
    requires 3 <= mtu < |nal| && k < |Sent(mtu, nal)|
    ensures var fs := Sent(mtu, nal);
            |fs| >= 2 && |fs[k]| >= 2 && Starts(fs[k]) == (k == 0) && Ends(fs[k]) == (k == |fs| - 1)
            && (k + 1 < |fs| ==> |fs[k]| == mtu)
  {
    if k + 1 < |Sent(mtu, nal)| {
      FragmentsFill(nal[0], nal[1..], mtu - 2, true, k);
    }
    var data, max := nal[1..], mtu - 2;
    assert Fragments(nal[0], data[max..], max, false) != [];
    FragmentFlags(nal[0], 128, data[..max]);
    if k > 0 {
      TailFlags(nal[0], data[max..], max, k - 1);
    }
  }

  lemma {:induction false} OneLess(x: nat, max: nat)
    requires max > 0 && x >= max
    ensures (x + max - 1) / max == (x - max + max - 1) / max + 1
  {
    var v := x - 1;
    Euclid(x + max - 1, max, v / max + 1, v % max);
  }

  lemma {:induction false} FragmentsCount(header: byte, data: seq<byte>, max: nat, first: bool)
    requires max > 0
    ensures |Fragments(header, data, max, first)| == (|data| + max - 1) / max
    decreases |data|
  {
    if data == [] {
      Euclid(max - 1, max, 0, max - 1);
    } else if |data| > max {
      FragmentsCount(header, data[max..], max, false);
      OneLess(|data|, max);
    } else {
      Euclid(|data| + max - 1, max, 1, |data| - 1);
    }
  }

  // A unit that fits goes alone; another one is sent in the fewest fragments that can hold it
  // behind its first byte, two bytes of each being headers.
  lemma {:induction false} SentCount(mtu: nat, nal: seq<byte>)
    requires mtu >= 3 && nal != []
    ensures if |nal| <= mtu then Sent(mtu, nal) == [nal] else |Sent(mtu, nal)| == (|nal| - 1 + mtu - 3) / (mtu - 2)
  {
    if |nal| > mtu {
      FragmentsCount(nal[0], nal[1..], mtu - 2, true);
    }
  }
}
