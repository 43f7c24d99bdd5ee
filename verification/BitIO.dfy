// The bit reader and writer of pkg/bits, proved against reading and writing bit strings.
module BitIO {
  import opened Bytes
  import opened Seqs
  import opened Bits

  // ---------- bytes as bits ----------

  // The k low bits of x are zero.
  predicate LowClear(x: nat, k: nat) {
    x == Shr(x, k) * Pow2(k)
  }

  lemma {:induction false} SetBitSum(x: nat, y: nat, p: nat, b: bit)
    requires x == y * (2 * p)
    ensures x + b * p == (2 * y + b) * p
  {
  }

  lemma {:induction false} SetBitBound(y: nat, k: nat)
    requires k < 8 && y < Pow2(7 - k)
    ensures y * Pow2(k + 1) + Pow2(k + 1) <= 256
  {
    Pow32();
    MulMono(y + 1, Pow2(7 - k), Pow2(k + 1));
    MulNext(y, Pow2(k + 1));
    PowAdd(7 - k, k + 1);
  }

  lemma {:induction false} SetBitValue(x: byte, k: nat, b: bit)
    requires k < 8 && LowClear(x, k + 1)
    ensures x + b * Pow2(k) == (2 * Shr(x, k + 1) + b) * Pow2(k)
    ensures x + b * Pow2(k) < 256
  {
    var y := Shr(x, k + 1);
    SetBitSum(x, y, Pow2(k), b);
    Pow32();
    ShrSmall(x, k + 1, 8);
    SetBitBound(y, k);
  }

  lemma ToBitsSnoc(y: nat, b: bit, n: nat)
    ensures ToBits(2 * y + b, n + 1) == ToBits(y, n) + [b]
  {
    assert (2 * y + b) / 2 == y && (2 * y + b) % 2 == b;
  }

  // Setting bit k of a byte whose bits k..0 are clear.
  lemma SetBit(x: byte, k: nat, b: bit)
    requires k < 8 && LowClear(x, k + 1)
    ensures x + b * Pow2(k) < 256 && LowClear(x + b * Pow2(k), k)
    ensures ToBits(x + b * Pow2(k), 8)[..8 - k] == ToBits(x, 8)[..7 - k] + [b]
  {
    var y, z := Shr(x, k + 1), x + b * Pow2(k);
    SetBitValue(x, k, b);
    ShrMul(2 * y + b, k);
    calc {
      ToBits(z, 8)[..8 - k];
      { TopBits(z, 8, k); }
      ToBits(2 * y + b, 8 - k);
      { ToBitsSnoc(y, b, 7 - k); }
      ToBits(y, 7 - k) + [b];
      { TopBits(x, 8, k + 1); }
      ToBits(x, 8)[..7 - k] + [b];
    }
  }

  lemma MulMono(a: nat, b: nat, c: nat)
    requires a <= b
    ensures a * c <= b * c
  {
  }

  lemma MulNext(a: nat, c: nat)
    ensures (a + 1) * c == a * c + c
  {
  }

  // Bits read at a byte boundary are the bytes there.
  lemma {:induction false} AlignedBits(s: seq<bit>, at: nat, eof: bool, b: byte)
    requires at + 8 <= |s| && s[at..at + 8] == ToBits(b, 8)
    ensures Take(s, Cursor(at, eof), 8) == (b as nat, Cursor(at + 8, eof))
  {
    TakeBits(s, Cursor(at, eof), 8, ToBits(b, 8));
    ByteBits(b);
  }

  lemma {:induction false} AlignedByte(buf: seq<byte>, pos: nat, eof: bool)
    requires pos < |buf|
    ensures Take(BitsOf(buf), Cursor(8 * pos, eof), 8) == (buf[pos] as nat, Cursor(8 * pos + 8, eof))
  {
    ByteSlice(buf, pos);
    AlignedBits(BitsOf(buf), 8 * pos, eof, buf[pos]);
  }

  lemma ByteBits(b: byte)
    ensures FromBits(ToBits(b, 8)) == b
  {
    FromToBits(b, 8);
    Pow32();
    Euclid(b, Pow2(8), 0, b);
  }

  // (b >> k) & 1 is the bit that lies k places above the end of byte i.
  lemma ShiftedBit(buf: seq<byte>, i: nat, k: nat)
    requires i < |buf| && k < 8
    ensures Shr(buf[i], k) % 2 == BitsOf(buf)[8 * i + 7 - k]
  {
    BitsOfAt(buf, i, 7 - k);
    ToBitsAt(buf[i], 8, 7 - k);
  }

  lemma TakeTwo(s: seq<bit>, c: Cursor, n: nat)
    requires n == 8 || n == 16
    ensures var (high, c1) := Take(s, c, n);
            var (low, c2) := Take(s, c1, n);
            Take(s, c, 2 * n) == (high * (if n == 8 then 256 else TWO16) + low, c2)
  {
    Pow32();
    SkipSkip(s, c, n, n);
  }

  lemma TakeThree(s: seq<bit>, c: Cursor)
    ensures var (high, c1) := Take(s, c, 8);
            var (middle, c2) := Take(s, c1, 8);
            var (low, c3) := Take(s, c2, 8);
            Take(s, c, 24) == ((high * 256 + middle) * 256 + low, c3)
  {
    Pow32();
    TakeTwo(s, c, 8);
    SkipSkip(s, c, 16, 8);
  }

  lemma AddMod(x: nat, y: nat, m: nat)
    requires m > 0
    ensures (x % m + y) % m == (x + y) % m
  {
    var q := x / m;
    assert x + y == q * m + (x % m + y);
    AddMultiple(q, m, x % m + y);
  }

  lemma AddMultiple(q: nat, m: nat, r: nat)
    requires m > 0
    ensures (q * m + r) % m == r % m
  {
    var k := r / m;
    assert q * m + r == (q + k) * m + r % m;
    Euclid(q * m + r, m, q + k, r % m);
  }

  // One more bit of the value, in the arithmetic of the result's type: x is that bit in place.
  lemma ReadStep(s: seq<bit>, c: Cursor, i: nat, res: nat, x: nat, limit: nat)
    requires limit > 0 && x == BitAt(s, c) * Pow2(i)
    ensures ((res + x) % limit + Value(s, Next(s, c), i)) % limit == (res + Value(s, c, i + 1)) % limit
  {
    AddMod(res + x, Value(s, Next(s, c), i), limit);
  }

  lemma ValueFits(s: seq<bit>, c: Cursor, n: nat, width: nat)
    requires n <= width
    ensures Value(s, c, n) % Pow2(width) == Value(s, c, n)
  {
    ValueBound(s, c, n);
    PowMono(n, width);
    Small(Value(s, c, n), Pow2(width));
  }

  // ---------- the reader ----------

  class Reader {
    const buf: seq<byte>
    var EOF: bool
    var cur: byte
    var bits: nat
    var pos: nat
    ghost var past: bool  // cur is the zero read past the end

    ghost predicate Valid()
      reads this
    {
      && pos <= |buf| && bits < 8
      && (bits > 0 && !past ==> pos > 0 && cur == buf[pos - 1])
      && (bits > 0 && past ==> pos == |buf| && cur == 0 && EOF)
    }

    ghost function View(): Cursor
      reads this
    {
      Cursor(if bits > 0 && !past && 8 * pos >= bits then 8 * pos - bits else 8 * pos, EOF)
    }

    constructor (b: seq<byte>)
      ensures Valid() && buf == b && View() == Cursor(0, false)
    {
      buf := b;
      EOF, cur, bits, pos, past := false, 0, 0, 0, false;
    }

    method ReadBit() returns (r: bit)
      requires Valid()
      modifies this
      ensures Valid()
      ensures r == BitAt(BitsOf(buf), old(View())) && View() == Bits.Next(BitsOf(buf), old(View()))
      ensures old(View()).at < 8 * |buf| ==> !past
    {
      if bits == 0 {
        if pos >= |buf| {
          EOF, past := true, true;
          cur := 0;
        } else {
          cur, past := buf[pos], false;
          pos := pos + 1;
        }
        bits := 7;
      } else {
        bits := bits - 1;
      }
      if past {
        ShrMul(0, bits);
      } else {
        ShiftedBit(buf, pos - 1, bits);
      }
      r := Shr(cur, bits) % 2;
    }

    // ReadBits8, ReadBits16, ReadBits and ReadBits64, by the width of their result: higher
    // bits are shifted out of it.
    method ReadBits(n: nat, width: nat) returns (res: nat)
      requires Valid() && n < 256 && width in {8, 16, 32, 64}
      modifies this
      ensures Valid() && View() == Skip(BitsOf(buf), old(View()), n)
      ensures res == Value(BitsOf(buf), old(View()), n) % Pow2(width)
      ensures n <= width ==> res == Value(BitsOf(buf), old(View()), n)
    {
      res := 0;
      ghost var s, limit := BitsOf(buf), Pow2(width);
      var i := n;
      while i > 0
        invariant 0 <= i <= n && Valid() && res < limit
        invariant (res + Value(s, View(), i)) % limit == Value(s, old(View()), n) % limit
        invariant Skip(s, View(), i) == Skip(s, old(View()), n)
      {
        i := i - 1;
        ghost var c := View();
        var b := ReadBit();
        var x := b * Pow2(i);
        ReadStep(s, c, i, res, x, limit);
        res := (res + x) % Pow2(width);
      }
      Small(res, limit);
      if n <= width {
        ValueFits(s, old(View()), n, width);
      }
    }

    method ReadByte() returns (res: nat)
      requires Valid()
      modifies this
      ensures Valid() && (res, View()) == Take(BitsOf(buf), old(View()), 8)
    {
      if bits != 0 {
        res := ReadBits(8, 8);
        return;
      }
      if pos >= |buf| {
        TakePastEnd(BitsOf(buf), View(), 8);
        EOF := true;
        return 0;
      }
      AlignedByte(buf, pos, EOF);
      res := buf[pos];
      pos := pos + 1;
    }

    method ReadUint16() returns (res: nat)
      requires Valid()
      modifies this
      ensures Valid() && (res, View()) == Take(BitsOf(buf), old(View()), 16)
    {
      if bits != 0 {
        res := ReadBits(16, 16);
        return;
      }
      TakeTwo(BitsOf(buf), View(), 8);
      var high := ReadByte();
      var low := ReadByte();
      res := high * 256 + low;
    }

    method ReadUint24() returns (res: nat)
      requires Valid()
      modifies this
      ensures Valid() && (res, View()) == Take(BitsOf(buf), old(View()), 24)
    {
      if bits != 0 {
        res := ReadBits(24, 32);
        return;
      }
      TakeThree(BitsOf(buf), View());
      var high := ReadByte();
      var middle := ReadByte();
      var low := ReadByte();
      res := (high * 256 + middle) * 256 + low;
    }

    method ReadUint32() returns (res: nat)
      requires Valid()
      modifies this
      ensures Valid() && (res, View()) == Take(BitsOf(buf), old(View()), 32)
    {
      if bits != 0 {
        res := ReadBits(32, 32);
        return;
      }
      TakeTwo(BitsOf(buf), View(), 16);
      var high := ReadUint16();
      var low := ReadUint16();
      res := high * TWO16 + low;
    }

    method ReadUEGolomb() returns (res: nat)
      requires Valid()
      modifies this
      ensures Valid() && (res, View()) == UE(BitsOf(buf), old(View()))
    {
      ghost var s := BitsOf(buf);
      var size := 0;
      while size < 32
        invariant 0 <= size <= 32 && Valid()
        invariant Prefix(s, View(), size) == Prefix(s, old(View()), 0)
        decreases 32 - size
      {
        var b := ReadBit();
        if b != 0 || EOF {
          break;
        }
        size := size + 1;
      }
      assert Prefix(s, old(View()), 0) == (size, View());
      res := ReadBits(size, 32);
      res := (res + Pow2(size) % TWO32 + TWO32 - 1) % TWO32;
    }

    method ReadSEGolomb() returns (res: int)
      requires Valid()
      modifies this
      ensures Valid() && (res, View()) == SE(BitsOf(buf), old(View()))
    {
      var b := ReadUEGolomb();
      res := if b % 2 == 0 then -(b / 2) else ((b + 1) % TWO32) / 2;
    }

    // The byte and the bit that ReadBit took last.
    method Pos() returns (at: int, bit: nat)
      requires Valid()
      ensures at == pos - 1 && bit == bits
    {
      return pos - 1, bits;
    }
  }

  // ---------- the writer ----------

  class Writer {
    var buf: seq<byte>
    var bits: nat

    ghost predicate Valid()
      reads this
    {
      bits < 8 && (bits > 0 ==> buf != [] && LowClear(buf[|buf| - 1], bits))
    }

    ghost function Written(): seq<bit>
      requires Valid()
      reads this
    {
      BitsOf(buf)[..8 * |buf| - bits]
    }

    constructor ()
      ensures Valid() && buf == [] && Written() == []
    {
      buf, bits := [], 0;
    }

    method WriteBit(b: bit)
      requires Valid()
      modifies this
      ensures Valid() && Written() == old(Written()) + [b]
    {
      if bits == 0 {
        LastByte(buf, 0, 8);
        ShrMul(0, 8);
        buf := buf + [0];
        bits := 7;
      } else {
        bits := bits - 1;
        TakeLast(buf);
      }
      SetLast(b);
    }

    // *w.byte |= b << w.bits
    method SetLast(b: bit)
      requires buf != [] && bits < 8 && LowClear(buf[|buf| - 1], bits + 1)
      modifies `buf
      ensures Valid() && Written() == old(BitsOf(buf)[..8 * |buf| - bits - 1]) + [b]
    {
      ghost var head := buf[..|buf| - 1];
      var last: byte := buf[|buf| - 1];
      TakeLast(buf);
      SetBit(last, bits, b);
      var filled: byte := last + b * Pow2(bits);
      AppendBit(head, last, filled, bits, b);
      SnocTake(head, filled);
      buf := buf[..|buf| - 1] + [filled];
    }

    // WriteBits8, WriteBits16 and WriteBits.
    method WriteBits(v: nat, n: nat)
      requires Valid() && n < 256
      modifies this
      ensures Valid() && Written() == old(Written()) + ToBits(v, n)
    {
      var i := n;
      assert old(Written()) + [] == old(Written());
      while i > 0
        invariant 0 <= i <= n && Valid()
        invariant Written() == old(Written()) + ToBits(Shr(v, i), n - i)
      {
        i := i - 1;
        ShiftStep(v, n, i, old(Written()));
        WriteBit(Shr(v, i) % 2);
      }
    }

    // Off a byte boundary the byte is written twice: as bits, and again behind them.
    method WriteByte(b: byte)
      requires Valid()
      modifies this
      ensures bits == old(bits) && 8 * |buf| >= bits
      ensures bits == 0 ==> Valid() && Written() == old(Written()) + ToBits(b, 8)
      ensures bits > 0 ==> |buf| >= 2 && buf[|buf| - 1] == b
                           && BitsOf(buf)[..8 * (|buf| - 1) - bits] == old(Written()) + ToBits(b, 8)
      ensures BitsOf(buf)[..8 * |buf| - bits] == old(Written()) + ToBits(b, 8) <==> old(bits) == 0
    {
      if bits == 0 {
        WriteBytes([b]);
        return;
      }
      WriteBits(b, 8);
      SnocTake(buf, b);
      buf := buf + [b];
    }

    // On a byte boundary.
    method WriteBytes(bytes: seq<byte>)
      requires Valid() && bits == 0
      modifies this
      ensures Valid() && bits == 0 && Written() == old(Written()) + BitsOf(bytes)
    {
      BitsOfAppend(buf, bytes);
      buf := buf + bytes;
    }
  }

  // All but the last n bits, with the last byte taken apart.
  lemma LastByte(head: seq<byte>, last: byte, n: nat)
    requires n <= 8
    ensures |head + [last]| == |head| + 1
    ensures BitsOf(head + [last])[..8 * |head| + 8 - n] == BitsOf(head) + ToBits(last, 8)[..8 - n]
    ensures n == 8 ==> BitsOf(head + [last])[..8 * |head|] == BitsOf(head)
  {
    SnocTake(head, last);
  }

  // The written bits grow by one when the last byte does.
  lemma {:induction false} AppendBit(head: seq<byte>, last: byte, x: byte, k: nat, b: bit)
    requires k < 8 && ToBits(x, 8)[..8 - k] == ToBits(last, 8)[..7 - k] + [b]
    ensures BitsOf(head + [x])[..8 * |head| + 8 - k] == BitsOf(head + [last])[..8 * |head| + 7 - k] + [b]
  {
    LastByte(head, x, k);
    LastByte(head, last, k + 1);
    Glue(BitsOf(head), ToBits(x, 8)[..8 - k], ToBits(last, 8)[..7 - k], b);
  }

  lemma ShiftStep(v: nat, n: nat, i: nat, before: seq<bit>)
    requires i < n
    ensures before + ToBits(Shr(v, i), n - i)
         == (before + ToBits(Shr(v, i + 1), n - i - 1)) + [Shr(v, i) % 2]
  {
    var high, low := ToBits(Shr(v, i + 1), n - i - 1), [Shr(v, i) % 2];
    calc {
      before + ToBits(Shr(v, i), n - i);
      { ShrSucc(v, i); }
      before + (high + low);
      { Assoc(before, high, low); }
      (before + high) + low;
    }
  }

  // ---------- fields written and read back ----------

  datatype Field = Field(value: nat, width: nat)

  function Written(fields: seq<Field>): seq<bit> {
    if fields == [] then [] else Written(fields[..|fields| - 1]) + ToBits(fields[|fields| - 1].value, fields[|fields| - 1].width)
  }

  // Writes a list of fields with WriteBits.
  method WriteFields(fields: seq<Field>) returns (w: Writer)
    requires forall k :: 0 <= k < |fields| ==> fields[k].width < 256
    ensures fresh(w) && w.Valid() && w.Written() == Written(fields)
  {
    w := new Writer();
    var k := 0;
    while k < |fields|
      invariant 0 <= k <= |fields| && fresh(w) && w.Valid() && w.Written() == Written(fields[..k])
    {
      w.WriteBits(fields[k].value, fields[k].width);
      assert Written(fields[..k + 1]) == Written(fields[..k]) + ToBits(fields[k].value, fields[k].width) by {
        assert fields[..k + 1][..k] == fields[..k];
      }
      k := k + 1;
    }
    assert fields[..k] == fields;
  }

  // Reading back the widths of a written list gives each value modulo 2^width, whatever
  // padding or other data follows, and EOF stays false.
  lemma {:induction false} ReadsBack(s: seq<bit>, fields: seq<Field>, k: nat)
    requires Written(fields) <= s && k < |fields|
    ensures |Written(fields[..k])| <= |s|
    ensures Take(s, Cursor(|Written(fields[..k])|, false), fields[k].width)
         == (fields[k].value % Pow2(fields[k].width), Cursor(|Written(fields[..k + 1])|, false))
  {
    WrittenPrefix(fields, k);
    WrittenPrefix(fields, k + 1);
    var at, w, v := |Written(fields[..k])|, fields[k].width, fields[k].value;
    assert fields[..k + 1][..k] == fields[..k];
    assert Written(fields[..k + 1]) == Written(fields[..k]) + ToBits(v, w);
    assert s[at..at + w] == ToBits(v, w) by {
      assert s[..at + w] == Written(fields[..k + 1]);
      assert s[..at + w][at..] == s[at..at + w];
    }
    TakeWithin(s, Cursor(at, false), w);
    FromToBits(v, w);
  }

  lemma {:induction false} WrittenPrefix(fields: seq<Field>, k: nat)
    requires k <= |fields|
    ensures Written(fields[..k]) <= Written(fields)
    decreases |fields| - k
  {
    if k == |fields| {
      assert fields[..k] == fields;
    } else {
      WrittenPrefix(fields, k + 1);
      assert fields[..k + 1][..k] == fields[..k];
    }
  }

  // A uint64 field read back as one loses nothing, however wide it was written.
  lemma FieldFits(v: nat, p: nat, limit: nat)
    requires p > 0 && v < limit
    ensures v % p % limit == v % p
  {
    Euclid(v % p, limit, 0, v % p);
  }

  // The two ends together: the reader returns what the writer was given.
  method WriteThenRead(fields: seq<Field>) returns (values: seq<nat>, eof: bool)
    requires forall k :: 0 <= k < |fields| ==> fields[k].width < 256 && fields[k].value < Pow2(64)
    ensures |values| == |fields| && !eof
    ensures forall k :: 0 <= k < |fields| ==> values[k] == fields[k].value % Pow2(fields[k].width)
  {
    var w := WriteFields(fields);
    var r := new Reader(w.buf);
    values := [];
    var k := 0;
    assert Written(fields[..0]) == [];
    while k < |fields|
      invariant 0 <= k <= |fields| && |values| == k && r.Valid()
      invariant Written(fields) <= BitsOf(r.buf) && r.View() == Cursor(|Written(fields[..k])|, false)
      invariant forall j :: 0 <= j < k ==> values[j] == fields[j].value % Pow2(fields[j].width)
    {
      ReadsBack(BitsOf(r.buf), fields, k);
      var v := r.ReadBits(fields[k].width, 64);
      FieldFits(fields[k].value, Pow2(fields[k].width), Pow2(64));
      values := values + [v];
      k := k + 1;
    }
    eof := r.EOF;
  }
}
