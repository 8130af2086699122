/** Little-endian integers of a fixed width. */
module LittleEndian {
  import opened RingBuffer

  function Pow256(n: nat): nat { if n == 0 then 1 else 256 * Pow256(n - 1) }

  function Encode(n: nat, width: nat): (s: seq<byte>)
    ensures |s| == width
  {
    if width == 0 then [] else [n % 256] + Encode(n / 256, width - 1)
  }

  function Decode(s: seq<byte>): nat {
    if s == [] then 0 else s[0] + 256 * Decode(s[1..])
  }

  /** The byte at `k` counts for 256 to the power of `k`: the least significant one comes first. */
  lemma {:induction false} EncodeAt(n: nat, width: nat, k: nat)
    requires k < width
    ensures Pow256(k) > 0 && Encode(n, width)[k] == n / Pow256(k) % 256
    decreases width
  {
    if k > 0 {
      EncodeAt(n / 256, width - 1, k - 1);
      DivTwice(n, Pow256(k - 1));
    }
  }

  lemma DivTwice(n: nat, b: nat)
    requires b > 0
    ensures n / 256 / b == n / (256 * b)
  {
    var q := n / 256 / b;
    var r := n / 256 % b;
    assert n / 256 == b * q + r;
    assert n == 256 * (b * q + r) + n % 256;
    assert 256 * (b * q) == (256 * b) * q;
    assert 0 <= 256 * r + n % 256 < 256 * b;
    DivIs(n, 256 * b, q, 256 * r + n % 256);
  }

  lemma DivIs(n: nat, d: nat, q: nat, r: nat)
    requires d > 0 && n == d * q + r && r < d
    ensures n / d == q
  {
    var x, y := n / d, n % d;
    assert n == d * x + y && d * q - d * x == d * (q - x) == y - r;
    if x < q { Grows(d, q - x); }
    if x > q { Grows(d, x - q); }
  }

  lemma Grows(d: nat, k: nat)
    requires k > 0
    ensures d * k >= d
  {
  }

  lemma {:induction false} DecodeEncode(n: nat, width: nat)
    requires n < Pow256(width)
    ensures Decode(Encode(n, width)) == n
    decreases width
  {
    if width > 0 {
      assert Encode(n, width)[1..] == Encode(n / 256, width - 1);
      DecodeEncode(n / 256, width - 1);
    }
  }

  lemma {:induction false} EncodeDecode(s: seq<byte>)
    ensures Decode(s) < Pow256(|s|) && Encode(Decode(s), |s|) == s
  {
    if s != [] {
      EncodeDecode(s[1..]);
      var d := Decode(s[1..]);
      assert (s[0] + 256 * d) % 256 == s[0] && (s[0] + 256 * d) / 256 == d;
      assert s == [s[0]] + s[1..];
    }
  }
}

/** The pipe: a ring buffer with one reader and one writer, and one closed flag. */
module Pipes {
  import opened Basics
  import opened RingBuffer

  /** What one locked region of `pipe_write` ends in. */
  datatype WriteStatus = Broken | WriteBlocked | Written

  /** What one locked region of `pipe_read` ends in. */
  datatype ReadStatus = EndOfFile | ReadBlocked | Filled

  class Pipe {
    const ring: Ring
    var otherClosed: bool
    ghost var pushed: seq<byte>
    ghost var popped: seq<byte>

    /** Bytes read, then bytes buffered, are the bytes written. */
    ghost predicate Valid()
      reads this, ring, ring.data
    {
      ring.Valid() && popped + ring.Contents() == pushed
    }

    constructor (capacity: nat)
      requires capacity > 0
      ensures Valid() && fresh(ring) && fresh(ring.data) && !otherClosed && pushed == [] && popped == []
    {
      ring := new Ring(capacity);
      otherClosed := false;
      pushed, popped := [], [];
    }

    /**
      A locked region of `pipe_write`, on entry or after a wait: `buf` is what is
      left to write, and the first `n` bytes of it go in.
     */
    method Write(buf: seq<byte>) returns (n: nat, status: WriteStatus)
      requires Valid()
      modifies this, ring, ring.data
      ensures Valid() && otherClosed == old(otherClosed) && popped == old(popped)
      ensures n <= |buf| && pushed == old(pushed) + buf[..n]
      ensures status.Broken? <==> otherClosed
      ensures n == if otherClosed then 0 else Min(|buf|, ring.data.Length - old(ring.size))
      ensures !status.Broken? ==> (status.Written? <==> n == |buf|)
    {
      hide Queue, Place;
      if otherClosed { return 0, Broken; }
      n := ring.PushBack(buf);
      pushed := pushed + buf[..n];
      return n, if n < |buf| then WriteBlocked else Written;
    }

    /** A locked region of `pipe_read`: `want` bytes are still to be read. */
    method Read(want: nat) returns (data: seq<byte>, status: ReadStatus)
      requires Valid()
      modifies this, ring
      ensures Valid() && otherClosed == old(otherClosed) && pushed == old(pushed)
      ensures popped == old(popped) + data && |data| == Min(want, old(ring.size))
      ensures status.Filled? <==> |data| == want
      ensures !status.Filled? ==> ring.Contents() == []
      ensures status.EndOfFile? <==> |data| < want && otherClosed
    {
      hide Queue, Place;
      data := ring.PopFront(want);
      popped := popped + data;
      if |data| < want {
        if otherClosed && ring.size == 0 { return data, EndOfFile; }
        return data, ReadBlocked;
      }
      return data, Filled;
    }

    /** `pipe_close_one_end`: the second close frees the pipe. */
    method CloseOneEnd() returns (freed: bool)
      requires Valid()
      modifies this`otherClosed
      ensures Valid() && otherClosed && freed == old(otherClosed)
    {
      if !otherClosed {
        otherClosed := true;
        return false;
      }
      return true;
    }
  }
}

/** Messages over a pipe: a size, then that many bytes. */
module IpcMessages {
  import opened Basics
  import opened RingBuffer
  import opened LittleEndian
  import opened Pipes

  type Message = seq<byte>

  /** The size of a `size_t`. */
  const WORD: nat := 8

  function Frame(m: Message): seq<byte> { Encode(|m|, WORD) + m }

  function Frames(ms: seq<Message>): seq<byte> {
    if ms == [] then [] else Frame(ms[0]) + Frames(ms[1..])
  }

  ghost predicate Sendable(ms: seq<Message>) {
    forall k :: 0 <= k < |ms| ==> |ms[k]| < Pow256(WORD)
  }

  lemma {:induction false} FramesAppend(ms: seq<Message>, m: Message)
    ensures Frames(ms + [m]) == Frames(ms) + Frame(m)
  {
    if ms == [] {
      assert [m][1..] == [];
    } else {
      assert (ms + [m])[1..] == ms[1..] + [m];
      FramesAppend(ms[1..], m);
    }
  }

  /** Frames are self-delimiting: equal streams start with equal messages. */
  lemma FirstFrame(a: Message, x: seq<byte>, b: Message, y: seq<byte>)
    requires |a| < Pow256(WORD) && |b| < Pow256(WORD)
    requires Frame(a) + x <= Frame(b) + y
    ensures a == b && x <= y
  {
    var s, t := Frame(a) + x, Frame(b) + y;
    assert s[..WORD] == Encode(|a|, WORD) && t[..WORD] == Encode(|b|, WORD);
    assert s[..WORD] == t[..WORD];
    DecodeEncode(|a|, WORD);
    DecodeEncode(|b|, WORD);
    assert s[WORD..WORD + |a|] == a && t[WORD..WORD + |a|] == b;
    assert s[WORD + |a|..] == x && t[WORD + |a|..] == y;
  }

  /** A prefix of a stream of frames decodes to a prefix of the messages. */
  lemma {:induction false} PrefixOfFrames(a: seq<Message>, b: seq<Message>)
    requires Sendable(a) && Sendable(b) && Frames(a) <= Frames(b)
    ensures a <= b
  {
    if a != [] {
      assert b != [];
      FirstFrame(a[0], Frames(a[1..]), b[0], Frames(b[1..]));
      PrefixOfFrames(a[1..], b[1..]);
      assert a == [a[0]] + a[1..] && b == [b[0]] + b[1..];
    }
  }

  /** The writing thread: outside `ipc_write_msg`, or with bytes of the size or of the data to go. */
  datatype Writer = WIdle | WSize(rest: seq<byte>, m: Message) | WData(rest: seq<byte>)

  /** The reading thread: outside `ipc_read_msg`, or with part of the size or of the data read. */
  datatype Reader = RIdle | RSize(got: seq<byte>) | RData(size: nat, got: seq<byte>)

  function ToWrite(w: Writer): seq<byte> {
    match w
    case WIdle => []
    case WSize(rest, m) => rest + m
    case WData(rest) => rest
  }

  lemma Regrouped(x: seq<byte>, y: seq<byte>, z: seq<byte>)
    ensures x + (y + z) == x + y + z
  {
  }

  /** The writing thread once `n` more bytes went into the pipe. */
  function AfterWrite(w: Writer, n: nat): Writer
    requires !w.WIdle? && n <= |w.rest|
  {
    if n < |w.rest| then w.(rest := w.rest[n..])
    else if w.WSize? then WData(w.m)
    else WIdle
  }

  lemma WriterAdvances(w: Writer, n: nat)
    requires !w.WIdle? && n <= |w.rest|
    ensures ToWrite(w) == w.rest[..n] + ToWrite(AfterWrite(w, n))
  {
  }

  function ReadSoFar(r: Reader): seq<byte> {
    match r
    case RIdle => []
    case RSize(got) => got
    case RData(size, got) => Encode(size, WORD) + got
  }

  predicate ReaderOk(r: Reader) {
    match r
    case RIdle => true
    case RSize(got) => |got| < WORD
    case RData(size, got) => size < Pow256(WORD) && |got| <= size
  }

  /** How many bytes the reading thread still asks for. */
  function Wanted(r: Reader): nat
    requires !r.RIdle? && ReaderOk(r)
  {
    if r.RSize? then WORD - |r.got| else r.size - |r.got|
  }

  /** The reading thread once it read `data`. */
  function AfterRead(r: Reader, data: seq<byte>): Reader
    requires !r.RIdle? && ReaderOk(r)
  {
    if |data| < Wanted(r) then r.(got := r.got + data)
    else if r.RSize? then RData(Decode(r.got + data), [])
    else RIdle
  }

  /** The message completed by reading `data`. */
  function MessageFrom(r: Reader, data: seq<byte>): seq<Message>
    requires !r.RIdle? && ReaderOk(r)
  {
    if r.RData? && |data| >= Wanted(r) then [r.got + data] else []
  }

  lemma ReaderAdvances(r: Reader, data: seq<byte>, received: seq<Message>)
    requires !r.RIdle? && ReaderOk(r) && |data| <= Wanted(r) && Sendable(received)
    ensures ReaderOk(AfterRead(r, data)) && Sendable(received + MessageFrom(r, data))
    ensures Frames(received + MessageFrom(r, data)) + ReadSoFar(AfterRead(r, data)) ==
            Frames(received) + ReadSoFar(r) + data
    ensures r == RSize([]) && data == [] ==> AfterRead(r, data) == r
  {
    hide Encode, Decode, Frames, Pow256;
    var got := r.got + data;
    if |data| < Wanted(r) {
      assert received + [] == received;
    } else if r.RSize? {
      EncodeDecode(got);
      assert received + [] == received;
    } else {
      FramesAppend(received, got);
    }
  }

  lemma IdleReader()
    ensures ReaderOk(RIdle) && ReadSoFar(RIdle) == []
  {
  }

  lemma ReaderStarts(r: Reader)
    requires ReadSoFar(r) == [] && !r.RData?
    ensures r.RSize? ==> r == RSize([])
  {
  }

  lemma Cancel(x: seq<byte>, y: seq<byte>, z: seq<byte>)
    requires x + y <= x + z
    ensures y <= z
  {
    assert y == (x + y)[|x|..] && z == (x + z)[|x|..];
  }

  function WriterStage(w: Writer): nat { if w.WIdle? then 0 else if w.WData? then 1 else 2 }

  function ReaderStage(r: Reader): nat { if r.RIdle? then 0 else if r.RData? then 1 else 2 }

  /** A reader inside the frame of `m` that wants more has not read all of it. */
  lemma PartOfFrame(r: Reader, m: Message)
    requires !r.RIdle? && ReaderOk(r) && |m| < Pow256(WORD) && ReadSoFar(r) <= Frame(m)
    ensures Wanted(r) > 0 ==> |ReadSoFar(r)| < |Frame(m)|
  {
    if r.RData? {
      assert Encode(r.size, WORD) == Frame(m)[..WORD] == Encode(|m|, WORD);
      DecodeEncode(r.size, WORD);
      DecodeEncode(|m|, WORD);
    }
  }

  /** A step of the writing thread, of the reading thread, or a close of either end. */
  datatype Step = Send(m: Message) | WriterStep | Receive | ReaderStep | CloseWriter | CloseReader

  /**
    Two threads on one pipe.  Each step is one locked region; `failed` records a
    write that returned -EPIPE, `ended` a read that returned less than asked.
   */
  class Channel {
    const pipe: Pipe
    var writer: Writer
    var reader: Reader
    var writerOpen: bool
    var readerOpen: bool
    var failed: bool
    var ended: bool
    var received: seq<Message>
    ghost var sent: seq<Message>
    ghost var unsent: seq<byte>

    ghost predicate Valid()
      reads this, pipe, pipe.ring, pipe.ring.data
    {
      && pipe.Valid() && Sendable(sent) && Sendable(received) && ReaderOk(reader)
      && (!writerOpen || !readerOpen ==> pipe.otherClosed)
      && pipe.pushed + unsent == Frames(sent)
      && (if failed then pipe.otherClosed else unsent == ToWrite(writer))
      && (if ended then
            pipe.otherClosed && pipe.ring.Contents() == [] && ReadSoFar(reader) == [] && !reader.RData? &&
                Frames(received) <= pipe.popped
          else
            pipe.popped == Frames(received) + ReadSoFar(reader))
    }

    constructor (capacity: nat)
      requires capacity > 0
      ensures Valid() && fresh(pipe) && fresh(pipe.ring) && fresh(pipe.ring.data) && sent == [] && received == []
    {
      pipe := new Pipe(capacity);
      writer, reader := WIdle, RIdle;
      writerOpen, readerOpen, failed, ended := true, true, false, false;
      received, sent, unsent := [], [], [];
    }

    /** Messages arrive in order, unchanged, and none is made up. */
    lemma ReceivedIsPrefix()
      requires Valid()
      ensures received <= sent
    {
      assert Frames(received) <= pipe.popped <= pipe.pushed <= Frames(sent);
      PrefixOfFrames(received, sent);
    }

    /** Nothing in flight means everything arrived. */
    lemma QuietMeansDelivered()
      requires Valid() && !failed && !ended && writer == WIdle && reader == RIdle && pipe.ring.size == 0
      ensures received == sent
    {
      assert Frames(received) == pipe.popped == pipe.pushed == Frames(sent);
      PrefixOfFrames(received, sent);
      PrefixOfFrames(sent, received);
    }

    /** `ipc_write_msg` is called. */
    method StartSend(m: Message)
      requires Valid() && writer == WIdle && |m| < Pow256(WORD)
      modifies this
      ensures Valid() && sent == old(sent) + [m] && writer == WSize(Encode(|m|, WORD), m)
      ensures ReaderSame() && failed == old(failed) && writerOpen == old(writerOpen) && pipe.pushed == old(pipe.pushed)
    {
      hide Queue, Place, Frames, Encode, Pow256;
      FramesAppend(sent, m);
      sent := sent + [m];
      unsent := unsent + Frame(m);
      writer := WSize(Encode(|m|, WORD), m);
    }

    /** What one locked region did for the writing thread: it wrote what fits, or failed for good. */
    twostate predicate WroteOn()
      reads this, pipe, pipe.ring
      requires !old(writer).WIdle? && old(pipe.ring.size) <= pipe.ring.data.Length
    {
      if pipe.otherClosed then
        writer == WIdle && failed && pipe.pushed == old(pipe.pushed)
      else
        var n := Min(|old(writer).rest|, pipe.ring.data.Length - old(pipe.ring.size));
        && writer == AfterWrite(old(writer), n) && failed == old(failed)
        && pipe.pushed == old(pipe.pushed) + old(writer).rest[..n]
    }

    /** What one locked region did for the reading thread: it read what is there, or met the end. */
    twostate predicate ReadOn(data: seq<byte>)
      reads this, pipe, pipe.ring
      requires !old(reader).RIdle? && ReaderOk(old(reader))
    {
      && |data| == Min(Wanted(old(reader)), old(pipe.ring.size)) && pipe.popped == old(pipe.popped) + data
      && if |data| < Wanted(old(reader)) && pipe.otherClosed then
           reader == RIdle && ended && received == old(received)
         else
           && reader == AfterRead(old(reader), data) && ended == old(ended)
           && received == old(received) + MessageFrom(old(reader), data)
    }

    /** The writing thread's side: what the reading thread does not touch. */
    twostate predicate WriterSame()
      reads this, pipe
    {
      && writer == old(writer) && writerOpen == old(writerOpen) && failed == old(failed) && sent == old(sent)
      && pipe.pushed == old(pipe.pushed)
    }

    /** The reading thread's side: what the writing thread does not touch. */
    twostate predicate ReaderSame()
      reads this, pipe
    {
      && reader == old(reader) && readerOpen == old(readerOpen) && ended == old(ended) && received == old(received)
      && pipe.popped == old(pipe.popped)
    }

    /** The writing thread runs until it blocks or its call of write returns. */
    method ContinueSend()
      requires Valid() && !writer.WIdle?
      modifies this, pipe, pipe.ring, pipe.ring.data
      ensures Valid() && sent == old(sent) && pipe.otherClosed == old(pipe.otherClosed) && writerOpen == old(writerOpen)
      ensures WroteOn() && ReaderSame()
    {
      hide Queue, Place, Frames, Sendable, ReaderOk, ReadSoFar, ToWrite, AfterWrite;
      var buf := writer.rest;
      var n, status := pipe.Write(buf);
      if status.Broken? {
        failed := true;
        writer := WIdle;
        return;
      }
      var next := AfterWrite(writer, n);
      WriterAdvances(writer, n);
      Regrouped(old(pipe.pushed), buf[..n], ToWrite(next));
      unsent := ToWrite(next);
      writer := next;
    }

    /** The reading thread runs until it blocks or its call of read returns. */
    method ContinueReceive() returns (data: seq<byte>)
      requires Valid() && !reader.RIdle?
      modifies this, pipe, pipe.ring
      ensures Valid() && pipe.otherClosed == old(pipe.otherClosed) && readerOpen == old(readerOpen)
      ensures ReadOn(data) && WriterSame()
    {
      hide Queue, Place, Frames, ReaderOk, ReadSoFar, Sendable, AfterRead, MessageFrom;
      var want := Wanted(reader);
      var status;
      data, status := pipe.Read(want);
      if status.EndOfFile? {
        IdleReader();
        ended := true;
        reader := RIdle;
        return;
      }
      ReaderAdvances(reader, data, received);
      if ended { ReaderStarts(reader); }
      received := received + MessageFrom(reader, data);
      reader := AfterRead(reader, data);
    }

    /** `ipc_read_msg` is called. */
    method StartReceive()
      requires Valid() && reader == RIdle
      modifies this
      ensures Valid() && reader == RSize([]) && received == old(received) && readerOpen == old(readerOpen) &&
              ended == old(ended)
      ensures WriterSame()
    {
      hide Queue, Place, Frames;
      reader := RSize([]);
    }

    /** Either end is closed while its thread is outside a call. */
    method Close(writing: bool)
      requires Valid() && (if writing then writerOpen && writer.WIdle? else readerOpen && reader.RIdle?)
      modifies this, pipe
      ensures Valid() && pipe.otherClosed
      ensures if writing then !writerOpen && sent == old(sent) && ReaderSame()
              else !readerOpen && WriterSame() && received == old(received)
    {
      hide Queue, Place, Frames, Encode, Decode, Pow256;
      var _ := pipe.CloseOneEnd();
      if writing { writerOpen := false; } else { readerOpen := false; }
    }

    /** Whether a step can be taken. */
    predicate Enabled(step: Step)
      reads this
    {
      match step
      case Send(m) => writerOpen && writer.WIdle? && |m| < Pow256(WORD)
      case WriterStep => writerOpen && !writer.WIdle?
      case Receive => readerOpen && reader.RIdle?
      case ReaderStep => readerOpen && !reader.RIdle?
      case CloseWriter => writerOpen && writer.WIdle?
      case CloseReader => readerOpen && reader.RIdle?
    }

    /** One step of a run; a step that is not enabled does nothing. */
    method Perform(step: Step) returns (data: seq<byte>)
      requires Valid()
      modifies this, pipe, pipe.ring, pipe.ring.data
      ensures Valid() && old(received) <= received
      ensures !old(Enabled(step)) ==> WriterSame() && ReaderSame()
      ensures old(Enabled(step)) ==>
                match step
                case Send(m) => sent == old(sent) + [m] && writer == WSize(Encode(|m|, WORD), m) && ReaderSame()
                case WriterStep => WroteOn() && sent == old(sent) && ReaderSame()
                case Receive => reader == RSize([]) && WriterSame() && received == old(received)
                case ReaderStep => ReadOn(data) && WriterSame()
                case CloseWriter => !writerOpen && pipe.otherClosed && ReaderSame() && sent == old(sent)
                case CloseReader => !readerOpen && pipe.otherClosed && WriterSame() && received == old(received)
    {
      hide Queue, Place, Frames, Encode, Decode, AfterWrite, AfterRead, MessageFrom;
      data := [];
      if !Enabled(step) { return; }
      match step
      case Send(m) => StartSend(m);
      case WriterStep => ContinueSend();
      case Receive => StartReceive();
      case ReaderStep => data := ContinueReceive();
      case CloseWriter => Close(true);
      case CloseReader => Close(false);
    }

    /** Under every interleaving, what was received is a prefix of what was sent. */
    method Run(steps: seq<Step>)
      requires Valid()
      modifies this, pipe, pipe.ring, pipe.ring.data
      ensures Valid() && old(received) <= received <= sent
    {
      ReceivedIsPrefix();
      for k := 0 to |steps|
        invariant Valid() && old(received) <= received
      {
        var _ := Perform(steps[k]);
      }
      ReceivedIsPrefix();
    }

    // -------------------------------------------------------------- delivery

    /** One message is on its way: everything before it has arrived. */
    ghost predicate OnTheWay(before: seq<Message>, m: Message)
      reads this, pipe, pipe.ring, pipe.ring.data
    {
      && Valid() && !failed && !ended && !pipe.otherClosed && sent == before + [m]
      && |received| == (if reader.RIdle? then |sent| else |before|)
    }

    /** Bytes and calls that are still to be finished, on both sides. */
    ghost function Remaining(): int
      reads this, pipe, pipe.ring, pipe.ring.data
      requires Valid()
    {
      |unsent| + WriterStage(writer) + |Frames(sent)| - |pipe.popped| + ReaderStage(reader)
    }

    lemma WhatIsLeft(before: seq<Message>, m: Message)
      requires OnTheWay(before, m)
      ensures received == if reader.RIdle? then sent else before
      ensures |Frames(sent)| == |pipe.popped| + pipe.ring.size + |unsent|
      ensures reader.RIdle? ==> pipe.ring.size == 0 && unsent == []
      ensures !reader.RIdle? && Wanted(reader) > 0 ==> pipe.ring.size + |unsent| > 0
    {
      ReceivedIsPrefix();
      assert |Frames(sent)| == |pipe.pushed + unsent|;
      if !reader.RIdle? {
        assert received == before && sent[|before|] == m;
        FramesAppend(before, m);
        assert pipe.popped <= pipe.pushed <= Frames(sent);
        Cancel(Frames(before), ReadSoFar(reader), Frame(m));
        PartOfFrame(reader, m);
      }
    }

    /**
      A message sent over an open pipe arrives, whatever its length and the
      capacity of the pipe: two threads that take turns never get stuck.
     */
    method Deliver(m: Message)
      requires Valid() && writer == WIdle && reader == RIdle && received == sent
      requires !failed && !ended && !pipe.otherClosed && |m| < Pow256(WORD)
      modifies this, pipe, pipe.ring, pipe.ring.data
      ensures Valid() && received == old(received) + [m] && sent == received
      ensures writer == WIdle && reader == RIdle && pipe.ring.size == 0
      ensures !failed && !ended && !pipe.otherClosed
    {
      hide Queue, Place, Frames, Encode, Decode, Pow256;
      ghost var before := sent;
      StartReceive();
      StartSend(m);
      while !writer.WIdle? || !reader.RIdle?
        invariant OnTheWay(before, m)
        decreases Remaining()
      {
        Turn(before, m);
      }
      WhatIsLeft(before, m);
    }

    /** Each thread that is inside a call runs once. */
    method Turn(ghost before: seq<Message>, ghost m: Message)
      requires OnTheWay(before, m) && (!writer.WIdle? || !reader.RIdle?)
      modifies this, pipe, pipe.ring, pipe.ring.data
      ensures OnTheWay(before, m) && Remaining() < old(Remaining())
    {
      hide Queue, Place, Frames, Encode, Decode, Pow256;
      WhatIsLeft(before, m);
      if !writer.WIdle? { ContinueSend(); }
      WhatIsLeft(before, m);
      if !reader.RIdle? { var _ := ContinueReceive(); }
    }
  }
}
