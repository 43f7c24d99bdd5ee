// The probing reader of pkg/core/readbuffer.go, as a cursor over the stream it wraps.
module ReadBuffers {
  import opened Bytes
  import opened Seqs

  const DISABLE: int := 0
  const DRAIN_AND_CLEAR: int := -1

  // The wrapped reader: any number of bytes at a time, at least one or an error.
  class Source {
    const data: seq<byte>
    var at: nat

    ghost predicate Valid()
      reads this
    {
      at <= |data|
    }

    constructor (d: seq<byte>)
      ensures Valid() && data == d && at == 0
    {
      data := d;
      at := 0;
    }

    method Read(max: nat) returns (p: seq<byte>, err: bool)
      requires Valid()
      modifies this
      ensures Valid() && |p| <= max && at == old(at) + |p| && p == data[old(at)..at]
      ensures max > 0 && p == [] ==> err
    {
      var n: nat :| n <= max && at + n <= |data|;
      err := *;
      if max > 0 && n == 0 {
        err := true;
      }
      p := data[at..at + n];
      at := at + n;
    }
  }

  // ---------- the reader as a tape ----------

  // mark: where buffering began, and where a rewind goes; at: where the next read begins;
  // end: how far the source has been read; size: BufferSize.
  datatype Tape = Tape(mark: int, at: int, end: int, size: int)

  datatype Whence = Start | Current | End

  // The place a seek aims at, counted from the mark.
  function Target(t: Tape, offset: int, whence: Whence): int {
    match whence
    case Start => offset
    case Current => t.at - t.mark + offset
    case End => t.end - t.mark + offset
  }

  // What a call did, with the number of bytes it got.
  datatype Event =
    | Reading(max: nat, n: nat)
    | Peeking(n: nat)
    | PeekFailed(wanted: nat, got: nat)
    | Buffering(size: int)
    | Resetting
    | Seeking(to: int)

  predicate TapeOk(t: Tape) {
    0 <= t.mark <= t.at <= t.end && (t.size == DISABLE ==> t.mark == t.end)
  }

  // n bytes further on, from the buffer or the source.
  function Further(t: Tape, n: nat): Tape {
    t.(at := t.at + n, end := if t.at + n > t.end then t.at + n else t.end)
  }

  // The read goes to the source with nothing kept.
  predicate Unbuffered(t: Tape) {
    t.size == DISABLE || (t.size < 0 && t.at == t.end)
  }

  function After(t: Tape, e: Event): Tape {
    match e
    case Reading(_, n) => if Unbuffered(t) then Tape(t.at + n, t.at + n, t.at + n, DISABLE) else Further(t, n)
    case Peeking(n) => Further(t, n).(at := t.mark, size := DRAIN_AND_CLEAR)
    case PeekFailed(wanted, got) => Further(t, got).(size := wanted)
    case Buffering(size) => t.(size := size)
    case Resetting => t.(at := t.mark, size := DRAIN_AND_CLEAR)
    case Seeking(to) =>
      if to < 0 then t.(mark := t.end, at := t.end)
      else t.(at := if t.mark + to >= t.end then t.end else t.mark + to)
  }

  // The event can happen here, on a stream of len bytes, without losing any.
  predicate Possible(len: nat, t: Tape, e: Event) {
    && After(t, e).end <= len
    && match e
       case Reading(max, n) =>
         && n <= max
         && (!Unbuffered(t) && t.at < t.end ==> n == if max < t.end - t.at then max else t.end - t.at)
         && (t.size > 0 && t.at == t.end && n > 0 ==> t.end - t.mark + n <= t.size)
       case Peeking(_) => true
       case PeekFailed(wanted, got) => got < wanted
       case Buffering(size) => size == DISABLE ==> t.mark == t.end
       case Resetting => true
       case Seeking(_) => true
  }

  lemma {:induction false} StaysOk(len: nat, t: Tape, e: Event)
    requires TapeOk(t) && Possible(len, t, e)
    ensures TapeOk(After(t, e))
  {
  }

  // A peek that got some of its bytes, or all of them and went back.
  lemma {:induction false} PeekEnds(len: nat, t: Tape, n: nat, got: nat)
    requires got <= n && Further(t, got).end <= len
    ensures Further(t, got).at == t.at + got
    ensures got < n ==> Possible(len, t, PeekFailed(n, got)) && After(t, PeekFailed(n, got)) == Further(t, got).(size := n)
    ensures got == n ==> Possible(len, t, Peeking(n)) && After(t, Peeking(n)) == After(Further(t, got), Resetting)
  {
  }

  function AfterAll(t: Tape, es: seq<Event>): Tape
    decreases |es|
  {
    if es == [] then t else After(AfterAll(t, es[..|es| - 1]), es[|es| - 1])
  }

  predicate AllPossible(len: nat, t: Tape, es: seq<Event>)
    decreases |es|
  {
    es == [] || (AllPossible(len, t, es[..|es| - 1]) && Possible(len, AfterAll(t, es[..|es| - 1]), es[|es| - 1]))
  }

  lemma {:induction false} RunStaysOk(len: nat, t: Tape, es: seq<Event>)
    requires TapeOk(t) && t.end <= len && AllPossible(len, t, es)
    ensures TapeOk(AfterAll(t, es)) && AfterAll(t, es).end <= len
    decreases |es|
  {
    if es != [] {
      RunStaysOk(len, t, es[..|es| - 1]);
      StaysOk(len, AfterAll(t, es[..|es| - 1]), es[|es| - 1]);
    }
  }

  lemma {:induction false} AfterMore(len: nat, t: Tape, es: seq<Event>, fs: seq<Event>)
    ensures AfterAll(t, es + fs) == AfterAll(AfterAll(t, es), fs)
    ensures AllPossible(len, t, es + fs) <==> AllPossible(len, t, es) && AllPossible(len, AfterAll(t, es), fs)
    decreases |fs|
  {
    if fs == [] {
      assert es + fs == es;
    } else {
      var n := |fs| - 1;
      AfterMore(len, t, es, fs[..n]);
      assert (es + fs)[..|es + fs| - 1] == es + fs[..n];
    }
  }

  // ---------- answers ----------

  // The bytes a call hands out.
  function Answer(data: seq<byte>, t: Tape, e: Event): seq<byte>
    requires TapeOk(t) && Possible(|data|, t, e)
  {
    match e
    case Reading(_, n) => data[t.at..t.at + n]
    case Peeking(n) => data[t.at..t.at + n]
    case _ => []
  }

  function Answers(data: seq<byte>, t: Tape, es: seq<Event>): (r: seq<seq<byte>>)
    requires TapeOk(t) && t.end <= |data| && AllPossible(|data|, t, es)
    ensures |r| == |es|
    decreases |es|
  {
    if es == [] then []
    else
      var front := es[..|es| - 1];
      RunStaysOk(|data|, t, front);
      Answers(data, t, front) + [Answer(data, AfterAll(t, front), es[|es| - 1])]
  }

  // What the reads among the calls hand out, one after another.
  function ReadOut(es: seq<Event>, answers: seq<seq<byte>>): seq<byte>
    requires |es| == |answers|
    decreases |es|
  {
    if es == [] then []
    else
      var n := |es| - 1;
      ReadOut(es[..n], answers[..n]) + if es[n].Reading? then answers[n] else []
  }

  lemma {:induction false} OneMore(data: seq<byte>, t: Tape, es: seq<Event>, e: Event)
    requires TapeOk(t) && t.end <= |data| && AllPossible(|data|, t, es) && Possible(|data|, AfterAll(t, es), e)
    ensures TapeOk(AfterAll(t, es)) && AllPossible(|data|, t, es + [e])
    ensures AfterAll(t, es + [e]) == After(AfterAll(t, es), e)
    ensures Answers(data, t, es + [e]) == Answers(data, t, es) + [Answer(data, AfterAll(t, es), e)]
  {
    RunStaysOk(|data|, t, es);
    assert (es + [e])[..|es + [e]| - 1] == es;
  }

  lemma {:induction false} AnswersMore(data: seq<byte>, t: Tape, es: seq<Event>, fs: seq<Event>)
    requires TapeOk(t) && t.end <= |data| && AllPossible(|data|, t, es) && AllPossible(|data|, AfterAll(t, es), fs)
    ensures AllPossible(|data|, t, es + fs) && TapeOk(AfterAll(t, es)) && AfterAll(t, es).end <= |data|
    ensures Answers(data, t, es + fs) == Answers(data, t, es) + Answers(data, AfterAll(t, es), fs)
    decreases |fs|
  {
    AfterMore(|data|, t, es, fs);
    RunStaysOk(|data|, t, es);
    if fs == [] {
      assert es + fs == es;
    } else {
      var front, e := fs[..|fs| - 1], fs[|fs| - 1];
      TakeLast(fs);
      AfterMore(|data|, t, es, front);
      AnswersMore(data, t, es, front);
      AnswersOneMore(data, t, es, front, e);
    }
  }

  lemma {:induction false} AnswersOneMore(data: seq<byte>, t: Tape, es: seq<Event>, front: seq<Event>, e: Event)
    requires TapeOk(t) && t.end <= |data| && AllPossible(|data|, t, es)
    requires TapeOk(AfterAll(t, es)) && AfterAll(t, es).end <= |data| && AllPossible(|data|, AfterAll(t, es), front)
    requires AllPossible(|data|, t, es + front) && Possible(|data|, AfterAll(AfterAll(t, es), front), e)
    requires Answers(data, t, es + front) == Answers(data, t, es) + Answers(data, AfterAll(t, es), front)
    ensures AllPossible(|data|, t, es + (front + [e])) && AllPossible(|data|, AfterAll(t, es), front + [e])
    ensures Answers(data, t, es + (front + [e])) == Answers(data, t, es) + Answers(data, AfterAll(t, es), front + [e])
  {
    var from := AfterAll(t, es);
    AfterMore(|data|, t, es, front);
    RunStaysOk(|data|, from, front);
    OneMore(data, t, es + front, e);
    OneMore(data, from, front, e);
    Assoc(es, front, [e]);
    Assoc(Answers(data, t, es), Answers(data, from, front), [Answer(data, AfterAll(from, front), e)]);
  }

  // Every call that is not a read leaves the reader where it is: switching the buffer, a peek
  // or a reset at the mark, a seek to the place itself.
  predicate AllGoOn(t: Tape, es: seq<Event>)
    decreases |es|
  {
    es == [] ||
    var before := AfterAll(t, es[..|es| - 1]);
    AllGoOn(t, es[..|es| - 1]) && (es[|es| - 1].Reading? || After(before, es[|es| - 1]).at == before.at)
  }

  // Reads hand out the stream in order, whatever comes from the buffer or the source.
  lemma {:induction false} ReadsInOrder(data: seq<byte>, t: Tape, es: seq<Event>)
    requires TapeOk(t) && t.end <= |data| && AllPossible(|data|, t, es) && AllGoOn(t, es)
    ensures t.at <= AfterAll(t, es).at <= |data| && ReadOut(es, Answers(data, t, es)) == data[t.at..AfterAll(t, es).at]
    decreases |es|
  {
    RunStaysOk(|data|, t, es);
    if es != [] {
      var front := es[..|es| - 1];
      RunStaysOk(|data|, t, front);
      ReadsInOrder(data, t, front);
      SnocTake(Answers(data, t, front), Answer(data, AfterAll(t, front), es[|es| - 1]));
      Grown(data, t.at, AfterAll(t, front).at, AfterAll(t, es).at);
    }
  }

  // ---------- where a rewind goes ----------

  // Nothing moves the mark but a read that keeps nothing and a seek before the buffer.
  predicate Keeps(t: Tape, e: Event) {
    !(e.Reading? && Unbuffered(t)) && !(e.Seeking? && e.to < 0)
  }

  predicate AllKeep(t: Tape, es: seq<Event>)
    decreases |es|
  {
    es == [] || (AllKeep(t, es[..|es| - 1]) && Keeps(AfterAll(t, es[..|es| - 1]), es[|es| - 1]))
  }

  lemma {:induction false} MarkStays(t: Tape, es: seq<Event>)
    requires AllKeep(t, es)
    ensures AfterAll(t, es).mark == t.mark
    decreases |es|
  {
    if es != [] {
      MarkStays(t, es[..|es| - 1]);
    }
  }

  // Whatever was read, peeked, switched, sought and reset before, in any order: as long as the
  // mark was kept, the reads after a reset hand out the stream from where buffering began, across
  // the switch to unbuffered reading.
  lemma {:induction false} ResetReplays(data: seq<byte>, t: Tape, probe: seq<Event>, more: seq<Event>)
    requires TapeOk(t) && t.end <= |data| && AllPossible(|data|, t, probe + [Resetting] + more)
    requires AllKeep(t, probe) && AllGoOn(AfterAll(t, probe + [Resetting]), more)
    ensures var end := AfterAll(t, probe + [Resetting] + more).at;
            && t.mark <= end <= |data|
            && ReadOut(more, Answers(data, t, probe + [Resetting] + more)[|probe| + 1..]) == data[t.mark..end]
  {
    var reset := probe + [Resetting];
    AfterMore(|data|, t, reset, more);
    ResetRewinds(|data|, t, probe);
    AnswersMore(data, t, reset, more);
    Halves(Answers(data, t, reset), Answers(data, AfterAll(t, reset), more));
    ReadsInOrder(data, AfterAll(t, reset), more);
  }

  lemma {:induction false} ResetRewinds(len: nat, t: Tape, probe: seq<Event>)
    requires TapeOk(t) && t.end <= len && AllPossible(len, t, probe + [Resetting]) && AllKeep(t, probe)
    ensures var reset := AfterAll(t, probe + [Resetting]);
            TapeOk(reset) && reset.end <= len && reset.at == reset.mark == t.mark
  {
    AfterMore(len, t, probe, [Resetting]);
    RunStaysOk(len, t, probe + [Resetting]);
    MarkStays(t, probe);
    assert (probe + [Resetting])[..|probe + [Resetting]| - 1] == probe;
  }

  // Where reading goes on after each call that moves the reader, whatever was read before.
  lemma {:induction false} RewindsExactly(data: seq<byte>, t: Tape, e: Event, more: seq<Event>)
    requires TapeOk(t) && t.end <= |data| && Possible(|data|, t, e) && (e.Resetting? || e.Peeking? || e.Seeking?)
    requires AllPossible(|data|, After(t, e), more) && AllGoOn(After(t, e), more)
    ensures TapeOk(After(t, e)) && After(t, e).end <= |data|
    ensures var start := if !e.Seeking? then t.mark
                         else if 0 <= e.to < t.end - t.mark then t.mark + e.to else t.end;
            var end := AfterAll(After(t, e), more).at;
            start <= end <= |data| && ReadOut(more, Answers(data, After(t, e), more)) == data[start..end]
    ensures e.Peeking? ==> t.at + e.n <= |data| && Answer(data, t, e) == data[t.at..t.at + e.n]
  {
    StaysOk(|data|, t, e);
    ReadsInOrder(data, After(t, e), more);
  }

  class ReadBuffer {
    const source: Source
    var bufferSize: int
    var buf: seq<byte>
    var pos: nat

    // Bytes are missing: an overflow dropped them, or the buffer was switched off with bytes in it.
    ghost var lost: bool

    // The buffer is what the source has just delivered.
    ghost predicate Tail()
      reads this, source
    {
      source.Valid() && pos <= |buf| <= source.at && buf == source.data[source.at - |buf|..source.at]
    }

    ghost predicate Valid()
      reads this, source
    {
      source.Valid() && (!lost ==> Tail() && (bufferSize == DISABLE ==> buf == []))
    }

    ghost function Now(): Tape
      reads this, source
    {
      Tape(source.at - |buf|, source.at - |buf| + pos, source.at, bufferSize)
    }

    // The tape has gone on by this event.
    twostate predicate Did(e: Event)
      reads this, source
    {
      && TapeOk(old(Now())) && Possible(|source.data|, old(Now()), e) && Now() == After(old(Now()), e)
    }

    constructor (s: Source)
      requires s.Valid()
      ensures Valid() && !lost && source == s && Now() == Tape(s.at, s.at, s.at, DISABLE)
    {
      source := s;
      bufferSize, buf, pos, lost := DISABLE, [], 0, false;
    }

    // Hands out the stream from where the reader is. Bytes are lost exactly if the source gives
    // more than the buffer may hold, and that is reported.
    method Read(max: nat) returns (p: seq<byte>, err: bool)
      requires Valid()
      modifies this, source
      ensures Valid() && |p| <= max && (max > 0 && p == [] ==> err)
      ensures source.at <= old(source.at) + max
      ensures lost <==> old(lost) || (old(bufferSize) > 0 && old(pos) == |old(buf)| && source.at > old(source.at)
                                      && |old(buf)| + source.at - old(source.at) > old(bufferSize))
      ensures bufferSize == old(bufferSize) || (old(bufferSize) < 0 && bufferSize == DISABLE)
      ensures lost && !old(lost) ==> err && p == []
      ensures !lost ==> Did(Reading(max, |p|)) && p == Answer(source.data, old(Now()), Reading(max, |p|))
    {
      if bufferSize == DISABLE {
        p, err := source.Read(max);
        return;
      }
      if pos < |buf| {
        p := ReadBuffered(max);
        return p, false;
      }
      if bufferSize < 0 {
        bufferSize := DISABLE;
        buf, pos := [], 0;
        p, err := source.Read(max);
        return;
      }
      p, err := ReadAndKeep(max);
    }

    method ReadBuffered(max: nat) returns (p: seq<byte>)
      requires Valid() && bufferSize != DISABLE && pos < |buf|
      modifies `pos
      ensures Valid() && |p| <= max && (max > 0 ==> p != [])
      ensures !lost ==> Did(Reading(max, |p|)) && p == Answer(source.data, old(Now()), Reading(max, |p|))
    {
      var n := if max < |buf| - pos then max else |buf| - pos;
      p := buf[pos..pos + n];
      if !lost {
        SliceSlice(source.data, source.at - |buf|, source.at, pos, pos + n);
      }
      pos := pos + n;
    }

    method ReadAndKeep(max: nat) returns (p: seq<byte>, err: bool)
      requires Valid() && bufferSize > 0 && pos >= |buf|
      modifies this, source
      ensures Valid() && |p| <= max && (max > 0 && p == [] ==> err) && bufferSize == old(bufferSize)
      ensures source.at <= old(source.at) + max
      ensures lost <==> old(lost) || (source.at > old(source.at) && |old(buf)| + source.at - old(source.at) > bufferSize)
      ensures lost && !old(lost) ==> err && p == []
      ensures !lost ==> Did(Reading(max, |p|)) && p == Answer(source.data, old(Now()), Reading(max, |p|))
    {
      p, err := source.Read(max);
      if |buf| + |p| > bufferSize {
        lost := lost || p != [];
        return [], true;
      }
      ghost var start := source.at - |p| - |buf|;
      if !lost {
        Grown(source.data, start, source.at - |p|, source.at);
      }
      buf := buf + p;
      pos := pos + |p|;
    }

    method Reset()
      requires source.Valid() && (!lost ==> Tail())
      modifies this
      ensures Valid() && lost == old(lost) && Now() == After(old(Now()), Resetting)
    {
      bufferSize := DRAIN_AND_CLEAR;
      pos := 0;
    }

    // The field is public: switching it off over a filled buffer takes the bytes out of the stream.
    method SetBufferSize(size: int)
      requires Valid()
      modifies this
      ensures Valid() && lost == (old(lost) || (size == DISABLE && buf != []))
      ensures !lost ==> Did(Buffering(size))
    {
      lost := lost || (size == DISABLE && buf != []);
      bufferSize := size;
    }

    method Seek(offset: int, whence: Whence) returns (at: int)
      requires Valid()
      modifies this
      ensures Valid() && lost == old(lost) && at == pos
      ensures !lost ==> Did(Seeking(Target(old(Now()), offset, whence)))
    {
      var to := match whence
        case Start => offset
        case Current => pos + offset
        case End => |buf| + offset;
      if to < 0 {
        buf, pos := [], 0;
      } else if to >= |buf| {
        pos := |buf|;
      } else {
        pos := to;
      }
      at := pos;
    }

    // Reads until there are n bytes, or an error.
    method ReadFull(n: nat) returns (b: seq<byte>)
      requires source.Valid() && bufferSize == n && (n > 0 ==> Valid()) && (!lost ==> Tail())
      modifies this, source
      ensures source.Valid() && |b| <= n && (old(lost) ==> lost) && (n > 0 ==> Valid())
      ensures !lost ==> Tail() && Now() == Further(old(Now()), |b|) && Got(source.data, b, old(Now()).at)
      ensures old(pos) == 0 && !old(lost) ==> !lost
      ensures lost && !old(lost) ==> |b| < n
    {
      var err := false;
      b := [];
      while |b| < n && !err
        invariant source.Valid() && |b| <= n && (old(lost) ==> lost) && bufferSize == n && (n > 0 ==> Valid())
        invariant !lost ==> Tail() && Now() == Further(old(Now()), |b|) && Got(source.data, b, old(Now()).at)
        invariant old(pos) == 0 && !old(lost) ==> !lost
        invariant lost && !old(lost) ==> err && |b| < n
        decreases n - |b|, !err
      {
        var p;
        p, err := ReadOn(n - |b|, b, old(Now()));
        b := b + p;
      }
    }

    // One read on the way to n bytes, from tape t on.
    method ReadOn(max: nat, ghost b: seq<byte>, ghost t: Tape) returns (p: seq<byte>, err: bool)
      requires Valid() && bufferSize == |b| + max > 0
      requires !lost ==> TapeOk(t) && Now() == Further(t, |b|) && Got(source.data, b, t.at)
      modifies this, source
      ensures Valid() && |p| <= max && (max > 0 && p == [] ==> err) && bufferSize == old(bufferSize)
      ensures old(lost) ==> lost
      ensures lost && !old(lost) ==> err && p == [] && t.at != t.mark
      ensures !lost ==> Now() == Further(t, |b| + |p|) && Got(source.data, b + p, t.at)
    {
      ghost var c := Now().at;
      p, err := Read(max);
      if !lost {
        Grown(source.data, t.at, c, c + |p|);
      }
    }

    // Looks ahead and goes back to the mark. From the mark it cannot overflow.
    method Peek(n: nat) returns (b: seq<byte>, err: bool)
      requires Valid()
      modifies this, source
      ensures Valid() && (old(lost) ==> lost) && (old(pos) == 0 && !old(lost) ==> !lost)
      ensures lost && !old(lost) ==> err
      ensures !lost && !err ==> Did(Peeking(n)) && b == Answer(source.data, old(Now()), Peeking(n))
      ensures !lost && err ==> b == [] && Now().at >= old(Now()).at && Did(PeekFailed(n, Now().at - old(Now()).at))
    {
      bufferSize := n;
      b := ReadFull(n);
      if !lost {
        PeekEnds(|source.data|, old(Now()), n, |b|);
      }
      if |b| < n {
        return [], true;
      }
      err := false;
      Reset();
    }
  }

  // These are the bytes from here on.
  predicate Got(data: seq<byte>, b: seq<byte>, at: int) {
    0 <= at && at + |b| <= |data| && b == data[at..at + |b|]
  }

  lemma {:induction false} Grown(data: seq<byte>, i: int, j: int, k: int)
    requires 0 <= i <= j <= k <= |data|
    ensures data[i..j] + data[j..k] == data[i..k]
  {
  }

  // ---------- runs of calls ----------

  datatype Op =
    | Read(max: nat)
    | Peek(n: nat)
    | SetBufferSize(size: int)
    | Reset
    | Seek(offset: int, whence: Whence)

  // The event is what this call can have done.
  predicate Of(e: Event, op: Op) {
    match op
    case Read(max) => e.Reading? && e.max == max
    case Peek(n) => e == Peeking(n) || (e.PeekFailed? && e.wanted == n)
    case SetBufferSize(size) => e == Buffering(size)
    case Reset => e == Resetting
    case Seek(offset, whence) => e.Seeking? && (whence.Start? ==> e.to == offset)
  }

  predicate AllOf(es: seq<Event>, ops: seq<Op>) {
    |es| == |ops| && forall k :: 0 <= k < |es| ==> Of(es[k], ops[k])
  }

  // The state of a reader that began as tape t, after these events.
  ghost predicate Follows(r: ReadBuffer, t: Tape, es: seq<Event>, answers: seq<seq<byte>>)
    reads r, r.source
  {
    && TapeOk(t) && t.end <= |r.source.data| && AllPossible(|r.source.data|, t, es)
    && r.Now() == AfterAll(t, es) && answers == Answers(r.source.data, t, es)
  }

  method Do(r: ReadBuffer, op: Op) returns (answer: seq<byte>, ghost e: Event)
    requires r.Valid()
    modifies r, r.source
    ensures r.Valid() && (old(r.lost) ==> r.lost) && Of(e, op)
    ensures !r.lost ==> r.Did(e) && answer == Answer(r.source.data, old(r.Now()), e)
  {
    ghost var t := r.Now();
    answer, e := [], Resetting;
    match op
    case Read(max) =>
      var err;
      answer, err := r.Read(max);
      e := Reading(max, |answer|);
    case Peek(n) =>
      var err;
      answer, err := r.Peek(n);
      e := if err then PeekFailed(n, if r.Now().at >= t.at then r.Now().at - t.at else 0) else Peeking(n);
    case SetBufferSize(size) =>
      r.SetBufferSize(size);
      e := Buffering(size);
    case Reset =>
      r.Reset();
    case Seek(offset, whence) =>
      var _ := r.Seek(offset, whence);
      e := Seeking(Target(t, offset, whence));
  }

  // Any calls in any order, on a reader in any state: as long as no bytes were lost it has gone
  // on as the tape does, and answered what the tape says.
  method Run(r: ReadBuffer, ops: seq<Op>) returns (answers: seq<seq<byte>>, ghost es: seq<Event>)
    requires r.Valid()
    modifies r, r.source
    ensures r.Valid() && (old(r.lost) ==> r.lost) && AllOf(es, ops) && |answers| == |ops|
    ensures !r.lost ==> Follows(r, old(r.Now()), es, answers)
  {
    answers, es := [], [];
    var k := 0;
    ghost var t := r.Now();
    while k < |ops|
      invariant 0 <= k <= |ops| && r.Valid() && (old(r.lost) ==> r.lost) && AllOf(es, ops[..k]) && |answers| == k
      invariant !r.lost ==> Follows(r, t, es, answers)
    {
      answers, es := DoNext(r, t, ops, k, answers, es);
      k := k + 1;
    }
    assert ops[..k] == ops;
  }

  method DoNext(r: ReadBuffer, ghost t: Tape, ops: seq<Op>, k: nat, answers: seq<seq<byte>>, ghost es: seq<Event>)
    returns (answers': seq<seq<byte>>, ghost es': seq<Event>)
    requires k < |ops| && r.Valid() && AllOf(es, ops[..k]) && (!r.lost ==> Follows(r, t, es, answers))
    modifies r, r.source
    ensures r.Valid() && (old(r.lost) ==> r.lost) && AllOf(es', ops[..k + 1]) && |answers'| == |answers| + 1
    ensures !r.lost ==> Follows(r, t, es', answers')
  {
    var answer;
    ghost var e;
    answer, e := Do(r, ops[k]);
    if !r.lost {
      OneMore(r.source.data, t, es, e);
    }
    answers', es' := answers + [answer], es + [e];
  }

  // ---------- probing ----------

  // Buffering is on after these calls.
  predicate IsOn(on: bool, ops: seq<Op>)
    decreases |ops|
  {
    if ops == [] then on
    else
      var before := IsOn(on, ops[..|ops| - 1]);
      match ops[|ops| - 1]
      case Read(_) => before
      case Seek(_, _) => before
      case Peek(_) => false
      case SetBufferSize(size) => size > 0
      case Reset => false
  }

  // A caller that keeps the mark: it reads with buffering on, and seeks from the start only.
  predicate Careful(on: bool, ops: seq<Op>) {
    forall k :: 0 <= k < |ops| ==>
      match ops[k]
      case Read(_) => IsOn(on, ops[..k])
      case Seek(offset, whence) => whence.Start? && offset >= 0
      case _ => true
  }

  lemma {:induction false} CarefulKeeps(t: Tape, ops: seq<Op>, es: seq<Event>)
    requires AllOf(es, ops) && Careful(t.size > 0, ops)
    ensures AllKeep(t, es) && (IsOn(t.size > 0, ops) ==> AfterAll(t, es).size > 0)
    decreases |ops|
  {
    if ops != [] {
      var n := |ops| - 1;
      CarefulFront(t.size > 0, ops);
      CarefulKeeps(t, ops[..n], es[..n]);
      assert Of(es[n], ops[n]);
    }
  }

  lemma {:induction false} CarefulFront(on: bool, ops: seq<Op>)
    requires Careful(on, ops) && ops != []
    ensures Careful(on, ops[..|ops| - 1])
  {
    var n := |ops| - 1;
    forall k | 0 <= k < n
      ensures ops[..n][k] == ops[k] && ops[..n][..k] == ops[..k]
    {
    }
  }

  // Any careful calls, on a buffer with anything in it, and a reset: unless bytes were lost the
  // reader is back where buffering began.
  method Probe(r: ReadBuffer, ops: seq<Op>)
    requires r.Valid() && Careful(r.bufferSize > 0, ops)
    modifies r, r.source
    ensures r.Valid() && r.bufferSize == DRAIN_AND_CLEAR && (old(r.lost) ==> r.lost)
    ensures !r.lost ==> r.Now().at == r.Now().mark == old(r.Now().mark)
  {
    ghost var t := r.Now();
    var _, es := Run(r, ops);
    CarefulKeeps(t, ops, es);
    MarkStays(t, es);
    r.Reset();
  }

  lemma {:induction false} PlainGoesOn(t: Tape, es: seq<Event>)
    requires forall k :: 0 <= k < |es| ==> es[k].Reading? || es[k].Buffering?
    ensures AllGoOn(t, es)
    decreases |es|
  {
    if es != [] {
      PlainGoesOn(t, es[..|es| - 1]);
    }
  }

  // Any peeks from there, and then reads with buffering switched on or off, hand out the stream
  // in order.
  method Replay(r: ReadBuffer, peeks: seq<nat>, ops: seq<Op>) returns (out: seq<byte>)
    requires r.Valid() && (r.pos == 0 || peeks == [])
    requires forall k :: 0 <= k < |ops| ==> ops[k].Read? || ops[k].SetBufferSize?
    modifies r, r.source
    ensures r.Valid() && (old(r.lost) ==> r.lost)
    ensures var start := old(r.Now()).at; !r.lost ==> Got(r.source.data, out, start)
  {
    var k := 0;
    while k < |peeks|
      invariant 0 <= k <= |peeks| && r.Valid() && (old(r.lost) ==> r.lost)
      invariant !r.lost ==> (r.pos == 0 || k == |peeks|) && r.Now().at == old(r.Now()).at
    {
      var _, failed := r.Peek(peeks[k]);
      if failed {
        return [];
      }
      k := k + 1;
    }
    ghost var t := r.Now();
    var answers;
    ghost var es;
    answers, es := Run(r, ops);
    out := Join(ops, answers, es);
    forall k | 0 <= k < |es|
      ensures es[k].Reading? || es[k].Buffering?
    {
      assert Of(es[k], ops[k]);
    }
    PlainGoesOn(t, es);
    if !r.lost {
      ReadsInOrder(r.source.data, t, es);
    }
  }

  // What the client of the reads has in hand.
  method Join(ops: seq<Op>, answers: seq<seq<byte>>, ghost es: seq<Event>) returns (out: seq<byte>)
    requires AllOf(es, ops) && |answers| == |ops|
    ensures out == ReadOut(es, answers)
  {
    out := [];
    var k := 0;
    while k < |ops|
      invariant 0 <= k <= |ops| && out == ReadOut(es[..k], answers[..k])
    {
      assert Of(es[k], ops[k]);
      assert es[..k + 1][..k] == es[..k] && answers[..k + 1][..k] == answers[..k];
      if ops[k].Read? {
        out := out + answers[k];
      }
      k := k + 1;
    }
    assert es[..k] == es && answers[..k] == answers;
  }
}
