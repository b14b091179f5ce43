/** The push-mode reader: `readFile` hands an opened input stream to a
    `ReadFileHandler`; when Flutter listens, `onListen` drains the stream in
    `bufferSize` chunks into the event sink and ends with one terminal event. */
module ReadHandler {
  import opened Replies

  /** `readFile` reads this many bytes at a time when the caller names no buffer size. */
  const DefaultBufferSize := 4 * 1024 * 1024

  /** The name of the event channel `readFile` registers for `session`. */
  function ChannelName(session: string): string
  {
    "saf_stream/readFile/" + session
  }

  /** Two sessions never share an event channel. */
  lemma ChannelNameInjective(s1: string, s2: string)
    requires ChannelName(s1) == ChannelName(s2)
    ensures s1 == s2
  {
    var n := |"saf_stream/readFile/"|;
    assert s1 == ChannelName(s1)[n..];
    assert s2 == ChannelName(s2)[n..];
  }

  /** The buffer size `readFile` uses, given the optional argument. */
  function BufferSizeOrDefault(arg: Option<int>): int
  {
    if arg.Some? then arg.value else DefaultBufferSize
  }

  /** An event pushed to Flutter: `sink.success(chunk)`, `sink.endOfStream()`
      or `sink.error(code, message, null)`. */
  datatype Event = Chunk(bytes: seq<byte>) | EndOfStream | StreamError(code: string, message: Message)

  /** What `InputStream.read(buffer)` does: some bytes, -1 at end of data, or an exception. */
  datatype ReadResult = Count(n: nat) | EndOfData | Threw(fault: Fault)

  /** An input stream opened by the provider on a document holding `data`.
      If `faultAt` is within the data, reading fails at that offset with
      `faultDetail`; before it the bytes come as usual. */
  class InStream {
    const data: seq<byte>
    const faultAt: Option<nat>
    const faultDetail: string
    var pos: nat
    var closed: bool

    /** Reading stops at the fault or at the end of data. */
    function Limit(): nat
    {
      if Faults() then faultAt.value else |data|
    }

    predicate Faults()
    {
      faultAt.Some? && faultAt.value <= |data|
    }

    ghost predicate Valid()
      reads this
    {
      pos <= Limit()
    }

    /** The bytes a drain from here on can deliver. */
    ghost function Remaining(): seq<byte>
      reads this
      requires Valid()
    {
      if closed then [] else data[pos..Limit()]
    }

    /** The event a drain from here on ends with. */
    ghost function Terminal(): Event
      reads this
    {
      if closed then StreamError(ReadFileError, Thrown(StreamClosed))
      else if Faults() then StreamError(ReadFileError, Thrown(ProviderFault(faultDetail)))
      else EndOfStream
    }

    constructor (data: seq<byte>, faultAt: Option<nat>, faultDetail: string)
      ensures this.data == data && this.faultAt == faultAt && this.faultDetail == faultDetail
      ensures pos == 0 && !closed && Valid()
    {
      this.data, this.faultAt, this.faultDetail := data, faultAt, faultDetail;
      pos, closed := 0, false;
    }

    /** `read(buffer)`: at least one and at most `buffer.Length` bytes while
        any remain (how many is the provider's choice), -1 at the end, an
        exception on a closed stream or at the fault. */
    method Read(buffer: array<byte>) returns (r: ReadResult)
      requires Valid() && 0 < buffer.Length
      modifies this`pos, buffer
      ensures Valid()
      ensures old(closed) ==> r == Threw(StreamClosed) && pos == old(pos)
      ensures !closed && old(pos) < Limit() ==>
        r.Count? && 0 < r.n <= buffer.Length && pos == old(pos) + r.n && buffer[..r.n] == data[old(pos)..pos]
      ensures !closed && old(pos) == Limit() ==>
        pos == old(pos) && r == if Faults() then Threw(ProviderFault(faultDetail)) else EndOfData
    {
      if closed {
        r := Threw(StreamClosed);
      } else if pos < Limit() {
        var n: nat :| 0 < n <= buffer.Length && n <= Limit() - pos;
        forall i | 0 <= i < n {
          buffer[i] := data[pos + i];
        }
        pos := pos + n;
        r := Count(n);
      } else if Faults() {
        r := Threw(ProviderFault(faultDetail));
      } else {
        r := EndOfData;
      }
    }

    /** `close()`; closing twice does nothing. */
    method Close()
      modifies this`closed
      ensures closed
    {
      closed := true;
    }
  }

  /** The Flutter event sink: the events delivered so far, in order. */
  class EventSink {
    var events: seq<Event>

    constructor ()
      ensures events == []
    {
      events := [];
    }

    method Success(chunk: seq<byte>)
      modifies this
      ensures events == old(events) + [Chunk(chunk)]
    {
      events := events + [Chunk(chunk)];
    }

    method EndOfStream()
      modifies this
      ensures events == old(events) + [Event.EndOfStream]
    {
      events := events + [Event.EndOfStream];
    }

    method Error(code: string, message: Message)
      modifies this
      ensures events == old(events) + [StreamError(code, message)]
    {
      events := events + [StreamError(code, message)];
    }
  }

  /** Every event is a non-empty chunk of at most `bufferSize` bytes. */
  ghost predicate Chunked(evs: seq<Event>, bufferSize: int)
  {
    forall i :: 0 <= i < |evs| ==> evs[i].Chunk? && 0 < |evs[i].bytes| <= bufferSize
  }

  /** The bytes carried by the chunk events of `evs`, in order. */
  function Payload(evs: seq<Event>): seq<byte>
  {
    if evs == [] then []
    else Payload(evs[..|evs| - 1]) + (if evs[|evs| - 1].Chunk? then evs[|evs| - 1].bytes else [])
  }

  /** `evs` is a drain of `bytes` ending in `terminal`: chunks whose
      concatenation is `bytes`, then `terminal` and nothing after it. */
  ghost predicate DrainOf(evs: seq<Event>, bytes: seq<byte>, terminal: Event, bufferSize: int)
  {
    && |evs| > 0
    && Chunked(evs[..|evs| - 1], bufferSize)
    && Payload(evs[..|evs| - 1]) == bytes
    && evs[|evs| - 1] == terminal
  }

  /** Appending an event adds its bytes to the payload. */
  lemma PayloadSnoc(evs: seq<Event>, e: Event)
    ensures Payload(evs + [e]) == Payload(evs) + (if e.Chunk? then e.bytes else [])
  {
    assert (evs + [e])[..|evs|] == evs;
  }

  /** Appending a non-empty chunk of at most `bufferSize` bytes keeps the events chunked. */
  lemma ChunkedSnoc(evs: seq<Event>, e: Event, bufferSize: int)
    requires Chunked(evs, bufferSize) && e.Chunk? && 0 < |e.bytes| <= bufferSize
    ensures Chunked(evs + [e], bufferSize)
  {
  }

  lemma SliceJoin(s: seq<byte>, i: nat, j: nat, k: nat)
    requires i <= j <= k <= |s|
    ensures s[i..j] + s[j..k] == s[i..k]
  {
  }

  /** `after` is `before` followed by a drain of `bytes` ending in `terminal`. */
  ghost predicate DrainAppended(before: seq<Event>, after: seq<Event>, bytes: seq<byte>, terminal: Event, bufferSize: int)
  {
    |before| <= |after| && after[..|before|] == before && DrainOf(after[|before|..], bytes, terminal, bufferSize)
  }

  /** Chunks carrying `bytes`, then `terminal`, make a drain of `bytes`. */
  lemma DrainOfSnoc(before: seq<Event>, chunks: seq<Event>, terminal: Event, bytes: seq<byte>, bufferSize: int)
    requires Chunked(chunks, bufferSize) && Payload(chunks) == bytes
    ensures DrainAppended(before, before + chunks + [terminal], bytes, terminal, bufferSize)
  {
    var after := before + chunks + [terminal];
    assert after[..|before|] == before;
    assert after[|before|..] == chunks + [terminal];
    assert (chunks + [terminal])[..|chunks|] == chunks;
  }

  /** `ReadFileHandler`: the stream handler of one `readFile` event channel. */
  class ReadFileHandler {
    const inStream: InStream
    const bufferSize: int
    var eventSink: EventSink?

    constructor (inStream: InStream, bufferSize: int)
      ensures this.inStream == inStream && this.bufferSize == bufferSize && eventSink == null
    {
      this.inStream, this.bufferSize := inStream, bufferSize;
      eventSink := null;
    }

    /** `onListen`: remember the sink, then drain the stream into it. A
        negative buffer size fails the allocation before the stream is
        touched; otherwise the stream is closed at the end whatever happens.
        The loop writes to the sink it was given, not to `eventSink`. */
    method OnListen(sink: EventSink)
      requires inStream.Valid()
      requires bufferSize != 0  // a zero-length buffer reads 0 bytes forever
      modifies this`eventSink, sink, inStream`pos, inStream`closed
      ensures eventSink == sink
      // the stream stays usable: Flutter may listen again after onCancel
      ensures inStream.Valid()
      ensures bufferSize < 0 ==>
        && sink.events == old(sink.events) + [StreamError(ReadFileError, Thrown(NegativeArraySize(bufferSize)))]
        && inStream.pos == old(inStream.pos) && inStream.closed == old(inStream.closed)
      ensures bufferSize > 0 ==>
        && DrainAppended(old(sink.events), sink.events, old(inStream.Remaining()), old(inStream.Terminal()), bufferSize)
        && inStream.closed
    {
      eventSink := sink;
      if bufferSize < 0 {
        sink.Error(ReadFileError, Thrown(NegativeArraySize(bufferSize)));
        return;
      }
      var buffer := new byte[bufferSize];
      ghost var remaining, terminal := inStream.Remaining(), inStream.Terminal();
      ghost var chunks;
      var rc;
      rc, chunks := Pump(sink, buffer);
      if rc.Threw? {
        inStream.Close();
        sink.Error(ReadFileError, Thrown(rc.fault));
      } else {
        sink.EndOfStream();
        inStream.Close();
      }
      assert sink.events == old(sink.events) + chunks + [terminal];
      DrainOfSnoc(old(sink.events), chunks, terminal, remaining, bufferSize);
    }

    /** The `while (rc != -1)` loop of `onListen`: read into `buffer` and
        emit a copy of what was read until a read gives -1 or throws. Gives
        the last read's result and the chunks emitted. */
    method Pump(sink: EventSink, buffer: array<byte>) returns (rc: ReadResult, ghost chunks: seq<Event>)
      requires inStream.Valid() && 0 < buffer.Length
      modifies sink, inStream`pos, buffer
      ensures inStream.Valid() && inStream.closed == old(inStream.closed)
      ensures sink.events == old(sink.events) + chunks
      ensures Chunked(chunks, buffer.Length) && Payload(chunks) == old(inStream.Remaining())
      ensures !rc.Count?
      ensures (if rc.EndOfData? then Event.EndOfStream else StreamError(ReadFileError, Thrown(rc.fault))) == old(inStream.Terminal())
    {
      ghost var data, from, remaining, terminal := inStream.data, inStream.pos, inStream.Remaining(), inStream.Terminal();
      chunks := [];
      rc := inStream.Read(buffer);
      ghost var mark := from;  // where the bytes not yet emitted start
      while rc.Count?
        invariant inStream.Valid() && inStream.closed == old(inStream.closed)
        invariant sink.events == old(sink.events) + chunks
        invariant Chunked(chunks, buffer.Length)
        invariant from <= mark <= |data| && Payload(chunks) == data[from..mark]
        invariant rc.Count? ==>
          && !inStream.closed && 0 < rc.n <= buffer.Length && mark + rc.n == inStream.pos
          && buffer[..rc.n] == data[mark..inStream.pos]
        invariant !rc.Count? ==> mark == inStream.pos
        invariant !rc.Count? ==> Payload(chunks) == remaining
        invariant !rc.Count? ==>
          (if rc.EndOfData? then Event.EndOfStream else StreamError(ReadFileError, Thrown(rc.fault))) == terminal
        decreases inStream.Limit() - mark
      {
        var chunk := buffer[..rc.n];
        sink.Success(chunk);
        PayloadSnoc(chunks, Chunk(chunk));
        SliceJoin(data, from, mark, inStream.pos);
        ChunkedSnoc(chunks, Chunk(chunk), buffer.Length);
        chunks := chunks + [Chunk(chunk)];
        mark := inStream.pos;
        rc := inStream.Read(buffer);
      }
    }

    /** `onCancel`: forget the sink. A drain already running keeps going. */
    method OnCancel()
      modifies this`eventSink
      ensures eventSink == null
    {
      eventSink := null;
    }
  }

  /** A drain has exactly one event that is not a chunk: its last. */
  lemma DrainEndsOnce(evs: seq<Event>, bytes: seq<byte>, terminal: Event, bufferSize: int)
    requires DrainOf(evs, bytes, terminal, bufferSize) && !terminal.Chunk?
    ensures forall i :: 0 <= i < |evs| ==> (!evs[i].Chunk? <==> i == |evs| - 1)
  {
  }

  /** Chunks of at most `bufferSize` bytes, none empty: a payload of L bytes
      takes at least ceil(L / bufferSize) and at most L chunks. */
  lemma {:induction false} ChunkCountBounds(evs: seq<Event>, bufferSize: int)
    requires Chunked(evs, bufferSize)
    ensures |evs| <= |Payload(evs)| <= |evs| * bufferSize
  {
    if evs != [] {
      var init := evs[..|evs| - 1];
      assert Chunked(init, bufferSize) by {
        forall i | 0 <= i < |init| ensures init[i].Chunk? && 0 < |init[i].bytes| <= bufferSize {
          assert init[i] == evs[i];
        }
      }
      ChunkCountBounds(init, bufferSize);
      PayloadSnoc(init, evs[|evs| - 1]);
      assert init + [evs[|evs| - 1]] == evs;
      MulStep(|init|, bufferSize);
    }
  }

  /** The payload of two event sequences in a row is the payloads in a row. */
  lemma {:induction false} PayloadConcat(a: seq<Event>, b: seq<Event>)
    ensures Payload(a + b) == Payload(a) + Payload(b)
    decreases |b|
  {
    if b == [] {
      assert a + b == a;
    } else {
      var init := b[..|b| - 1];
      assert (a + b)[..|a + b| - 1] == a + init;
      assert (a + b)[|a + b| - 1] == b[|b| - 1];
      PayloadConcat(a, init);
    }
  }

  /** The chunks a drain emits when every read fills the buffer, or takes
      what is left: each read returns as many bytes as it may. */
  function FullReads(bytes: seq<byte>, bufferSize: int): seq<Event>
    requires bufferSize > 0
    decreases |bytes|
  {
    if bytes == [] then []
    else if |bytes| <= bufferSize then [Chunk(bytes)]
    else [Chunk(bytes[..bufferSize])] + FullReads(bytes[bufferSize..], bufferSize)
  }

  /** Reads that always fill the buffer cut the bytes into chunks, none
      empty and none over the buffer, which carry the bytes in order. */
  lemma {:induction false} FullReadsChunking(bytes: seq<byte>, bufferSize: int)
    requires bufferSize > 0
    ensures Chunked(FullReads(bytes, bufferSize), bufferSize)
    ensures Payload(FullReads(bytes, bufferSize)) == bytes
    decreases |bytes|
  {
    var evs := FullReads(bytes, bufferSize);
    if bytes == [] {
    } else if |bytes| <= bufferSize {
      assert evs == [] + [Chunk(bytes)];
      PayloadSnoc([], Chunk(bytes));
    } else {
      var head, rest := Chunk(bytes[..bufferSize]), FullReads(bytes[bufferSize..], bufferSize);
      assert evs == [head] + rest;
      FullReadsChunking(bytes[bufferSize..], bufferSize);
      ChunkedCons(head, rest, bufferSize);
      PayloadCons(head, rest);
      SliceJoin(bytes, 0, bufferSize, |bytes|);
      assert bytes[0..bufferSize] == bytes[..bufferSize] && bytes[0..|bytes|] == bytes;
    }
  }

  /** ... and there are ceil(L / bufferSize) of them for L bytes: none for
      none, else k with (k - 1) * bufferSize < L <= k * bufferSize. */
  lemma {:induction false} FullReadsCount(bytes: seq<byte>, bufferSize: int)
    requires bufferSize > 0
    ensures bytes == [] <==> FullReads(bytes, bufferSize) == []
    ensures bytes != [] ==>
      (|FullReads(bytes, bufferSize)| - 1) * bufferSize < |bytes| <= |FullReads(bytes, bufferSize)| * bufferSize
    decreases |bytes|
  {
    if |bytes| > bufferSize {
      var k := |FullReads(bytes[bufferSize..], bufferSize)|;
      assert |FullReads(bytes, bufferSize)| == k + 1;
      FullReadsCount(bytes[bufferSize..], bufferSize);
      MulStep(k, bufferSize);
    }
  }

  /** Conversely, chunks that carry `bytes` with every chunk but the last
      full are exactly the chunks `FullReads` gives: a full-read drain is
      determined by its bytes and the buffer size. */
  lemma {:induction false} FullChunksAreFullReads(evs: seq<Event>, bytes: seq<byte>, bufferSize: int)
    requires bufferSize > 0 && Chunked(evs, bufferSize) && Payload(evs) == bytes
    requires forall i :: 0 <= i < |evs| - 1 ==> |evs[i].bytes| == bufferSize
    ensures evs == FullReads(bytes, bufferSize)
    decreases |evs|
  {
    if evs != [] {
      var e, rest := evs[0], evs[1..];
      assert evs == [e] + rest;
      PayloadCons(e, rest);
      assert Chunked(rest, bufferSize) by {
        forall i | 0 <= i < |rest| ensures rest[i].Chunk? && 0 < |rest[i].bytes| <= bufferSize {
          assert rest[i] == evs[i + 1];
        }
      }
      if rest == [] {
        assert Payload(rest) == [];
        assert e == Chunk(bytes);
      } else {
        assert |e.bytes| == bufferSize;
        ChunkCountBounds(rest, bufferSize);
        assert bytes[..bufferSize] == e.bytes && bytes[bufferSize..] == Payload(rest);
        forall i | 0 <= i < |rest| - 1 ensures |rest[i].bytes| == bufferSize {
          assert rest[i] == evs[i + 1];
        }
        FullChunksAreFullReads(rest, bytes[bufferSize..], bufferSize);
      }
    }
  }

  /** A drain whose reads all filled the buffer, but the last, emits exactly
      `FullReads` of the bytes and then its terminal event. */
  lemma FullDrainIsFullReads(evs: seq<Event>, bytes: seq<byte>, terminal: Event, bufferSize: int)
    requires bufferSize > 0 && DrainOf(evs, bytes, terminal, bufferSize)
    requires forall i :: 0 <= i < |evs| - 2 ==> |evs[i].bytes| == bufferSize
    ensures evs == FullReads(bytes, bufferSize) + [terminal]
  {
    var chunks := evs[..|evs| - 1];
    assert forall i :: 0 <= i < |chunks| - 1 ==> chunks[i] == evs[i];
    FullChunksAreFullReads(chunks, bytes, bufferSize);
    assert evs == chunks + [terminal];
  }

  lemma MulStep(k: int, n: int)
    ensures (k + 1) * n == k * n + n && k * n == (k - 1) * n + n
  {
  }

  /** A chunk in front of chunks adds its bytes in front of their payload. */
  lemma PayloadCons(e: Event, evs: seq<Event>)
    requires e.Chunk?
    ensures Payload([e] + evs) == e.bytes + Payload(evs)
  {
    PayloadSnoc([], e);
    assert [] + [e] == [e];
    PayloadConcat([e], evs);
  }

  /** Putting a non-empty chunk of at most `bufferSize` bytes in front keeps the events chunked. */
  lemma ChunkedCons(e: Event, evs: seq<Event>, bufferSize: int)
    requires Chunked(evs, bufferSize) && e.Chunk? && 0 < |e.bytes| <= bufferSize
    ensures Chunked([e] + evs, bufferSize)
  {
    forall i | 0 <= i < |[e] + evs| ensures ([e] + evs)[i].Chunk? && 0 < |([e] + evs)[i].bytes| <= bufferSize {
      if i > 0 { assert ([e] + evs)[i] == evs[i - 1]; }
    }
  }
}
