/** The write-session table `writeStreams`: session id to the output stream
    opened by `startWriteStream`, fed by `writeChunk` and closed by
    `endWriteStream`. The functions here give the reply and the table after
    one call; the plugin's methods are proved against them. */
module WriteSessions {
  import opened Replies
  import opened Documents

  /** An output stream as the plugin observes it: the bytes written through
      it, in order, and whether it has been closed. */
  datatype Stream = Stream(bytes: seq<byte>, closed: bool)

  /** `writeStreams`. */
  type Table = map<string, Stream>

  /** What `startWriteStream` answers: the resolved file's uri and name. */
  datatype FileInfo = FileInfo(uri: string, fileName: string)

  /** The table after a call, and the call's reply. */
  datatype Step<T> = Step(table: Table, reply: Reply<T>)

  /** The stream a fresh `openOutputStream` gives: nothing written, open. */
  const NewStream := Stream([], false)

  /** `startWriteStream`: resolve the directory, create or reuse the file,
      and register the new stream under `session`. `dir` is None when the
      tree uri names no directory. */
  function StartWrite(t: Table, dir: Option<Directory>, fileName: string, mime: string,
                      session: string, overwrite: bool, p: Provider): (r: Step<FileInfo>)
    // success registers a new, empty, open stream, replacing any earlier one, and nothing else
    ensures r.reply.Success? ==> r.table == t[session := NewStream]
    // the reply names the file _createFile resolved
    ensures r.reply.Success? <==> dir.Some? && CreateFile(dir.value, fileName, mime, overwrite, p).Opened?
    ensures r.reply.Success? ==>
      var f := CreateFile(dir.value, fileName, mime, overwrite, p).file;
      r.reply.value == FileInfo(f.uri, f.name)
    // every failure leaves the table alone and carries its cause
    ensures r.reply.Error? ==> r.table == t && r.reply.code == StartWriteStreamError
    // no directory: "Directory not found"; otherwise the message _createFile failed with
    ensures dir.None? ==> r.reply == Error(StartWriteStreamError, Text(DirectoryNotFound))
    ensures dir.Some? && CreateFile(dir.value, fileName, mime, overwrite, p).Failed? ==>
      r.reply == Error(StartWriteStreamError, CreateFile(dir.value, fileName, mime, overwrite, p).message)
  {
    if dir.None? then Step(t, Error(StartWriteStreamError, Text(DirectoryNotFound)))
    else match CreateFile(dir.value, fileName, mime, overwrite, p)
      case Failed(m) => Step(t, Error(StartWriteStreamError, m))
      case Opened(f, _) => Step(t[session := NewStream], Success(FileInfo(f.uri, f.name)))
  }

  /** `writeChunk`: append `data` to the session's stream. `fault` is the
      failure the provider reports for this write, if any. */
  function WriteChunk(t: Table, session: string, data: seq<byte>, fault: Option<string>): (r: Step<()>)
    // an unknown session is a protocol error: nothing is written
    ensures session !in t ==> r == Step(t, Error(WriteChunkError, Text(StreamNotFound)))
    // a known session keeps its entry, whatever happens; no other session changes
    ensures r.table.Keys == t.Keys
    ensures forall s :: s in t && s != session ==> r.table[s] == t[s]
    // the write succeeds exactly on an open stream the provider does not fail
    ensures session in t ==> (r.reply.Success? <==> !t[session].closed && fault.None?)
    ensures r.reply.Success? ==> r.table[session] == Stream(t[session].bytes + data, false)
    // a failed write is an I/O error, distinct from "Stream not found", and writes nothing
    ensures session in t && r.reply.Error? ==> r.table == t && r.reply.code == WriteFileChunkError
    ensures session in t && t[session].closed ==> r.reply == Error(WriteFileChunkError, Thrown(StreamClosed))
    // a provider failure is passed on with its message
    ensures session in t && !t[session].closed && fault.Some? ==>
      r.reply == Error(WriteFileChunkError, Thrown(ProviderFault(fault.value)))
  {
    if session !in t then Step(t, Error(WriteChunkError, Text(StreamNotFound)))
    else if t[session].closed then Step(t, Error(WriteFileChunkError, Thrown(StreamClosed)))
    else if fault.Some? then Step(t, Error(WriteFileChunkError, Thrown(ProviderFault(fault.value))))
    else Step(t[session := Stream(t[session].bytes + data, false)], Success(()))
  }

  /** `endWriteStream`: close the session's stream. The entry stays in the
      table. Closing a closed stream does nothing and succeeds, as for any
      Java `Closeable`. `fault` is the failure the provider reports when it
      closes a stream still open. */
  function EndWrite(t: Table, session: string, fault: Option<string>): (r: Step<()>)
    ensures session !in t ==> r == Step(t, Error(EndWriteStreamError, Text(StreamNotFound)))
    // the session is never removed, and no other session changes
    ensures r.table.Keys == t.Keys
    ensures forall s :: s in t && s != session ==> r.table[s] == t[s]
    // a close fails only when the provider fails to close a stream still open
    ensures session in t ==> (r.reply.Success? <==> t[session].closed || fault.None?)
    // a successful close keeps every byte written and marks the stream closed
    ensures r.reply.Success? ==> r.table[session] == Stream(t[session].bytes, true)
    ensures session in t && t[session].closed ==> r == Step(t, Success(()))
    ensures session in t && r.reply.Error? ==> r.table == t && r.reply.code == CloseWriteStreamError
    ensures session in t && !t[session].closed && fault.Some? ==>
      r.reply == Error(CloseWriteStreamError, Thrown(ProviderFault(fault.value)))
  {
    if session !in t then Step(t, Error(EndWriteStreamError, Text(StreamNotFound)))
    else if t[session].closed then Step(t, Success(()))
    else if fault.Some? then Step(t, Error(CloseWriteStreamError, Thrown(ProviderFault(fault.value))))
    else Step(t[session := t[session].(closed := true)], Success(()))
  }

  /** The bytes of `chunks`, one after the other. */
  function Concat(chunks: seq<seq<byte>>): seq<byte>
  {
    if chunks == [] then [] else chunks[0] + Concat(chunks[1..])
  }

  /** `writeChunk` called with `chunks`, in order, on one session, the
      provider failing none of them: the final table and every reply. */
  function WriteAll(t: Table, session: string, chunks: seq<seq<byte>>): Step<seq<Reply<()>>>
  {
    if chunks == [] then Step(t, Success([]))
    else
      var first := WriteChunk(t, session, chunks[0], None);
      var rest := WriteAll(first.table, session, chunks[1..]);
      Step(rest.table, if rest.reply.Success? then Success([first.reply] + rest.reply.value) else rest.reply)
  }

  /** Serialized writes on an open stream land in submission order, each
      succeeds, and no other session changes. */
  lemma {:induction false} WriteAllAppends(t: Table, session: string, chunks: seq<seq<byte>>)
    requires session in t && !t[session].closed
    ensures WriteAll(t, session, chunks).reply.Success?
    ensures forall i :: 0 <= i < |WriteAll(t, session, chunks).reply.value| ==>
              WriteAll(t, session, chunks).reply.value[i] == Success(())
    ensures |WriteAll(t, session, chunks).reply.value| == |chunks|
    ensures WriteAll(t, session, chunks).table == t[session := Stream(t[session].bytes + Concat(chunks), false)]
  {
    if chunks == [] {
      assert t[session].bytes + Concat(chunks) == t[session].bytes;
      assert t[session := Stream(t[session].bytes, false)] == t;
    } else {
      var first := WriteChunk(t, session, chunks[0], None);
      assert first.table == t[session := Stream(t[session].bytes + chunks[0], false)];
      WriteAllAppends(first.table, session, chunks[1..]);
      assert t[session].bytes + chunks[0] + Concat(chunks[1..]) == t[session].bytes + Concat(chunks);
    }
  }

  /** Chunks written, in order, to a fresh stream and then `endWriteStream`
      leave it closed, holding exactly the concatenation of the chunks. */
  lemma WriteAllThenEnd(t: Table, session: string, chunks: seq<seq<byte>>)
    requires session in t && t[session] == NewStream
    ensures EndWrite(WriteAll(t, session, chunks).table, session, None)
         == Step(t[session := Stream(Concat(chunks), true)], Success(()))
  {
    WriteAllAppends(t, session, chunks);
    assert t[session].bytes + Concat(chunks) == Concat(chunks);
    var written := WriteAll(t, session, chunks).table;
    assert written == t[session := Stream(Concat(chunks), false)];
    UpdateTwice(t, session, Stream(Concat(chunks), false), Stream(Concat(chunks), true));
  }

  /** A session started successfully, fed `chunks` and then ended leaves a
      closed stream holding exactly the concatenation of the chunks, and
      every other session as it was before the start. */
  lemma StartWriteEnd(t: Table, dir: Option<Directory>, fileName: string, mime: string,
                      session: string, overwrite: bool, p: Provider, chunks: seq<seq<byte>>)
    requires StartWrite(t, dir, fileName, mime, session, overwrite, p).reply.Success?
    ensures
      var started := StartWrite(t, dir, fileName, mime, session, overwrite, p).table;
      var ended := EndWrite(WriteAll(started, session, chunks).table, session, None);
      ended == Step(t[session := Stream(Concat(chunks), true)], Success(()))
  {
    var started := StartWrite(t, dir, fileName, mime, session, overwrite, p).table;
    assert started == t[session := NewStream];
    WriteAllThenEnd(started, session, chunks);
    UpdateTwice(t, session, NewStream, Stream(Concat(chunks), true));
  }

  /** A second update of the same session hides the first. */
  lemma UpdateTwice(t: Table, session: string, first: Stream, second: Stream)
    ensures t[session := first][session := second] == t[session := second]
  {
  }

  /** `endWriteStream` keeps the entry: a later `writeChunk` on the same
      session finds the closed stream and fails with the write error, not
      with "Stream not found". */
  lemma EndThenWriteFails(t: Table, session: string, data: seq<byte>, fault: Option<string>)
    requires session in t
    ensures
      var ended := EndWrite(t, session, None);
      session in ended.table && ended.table[session].closed &&
      WriteChunk(ended.table, session, data, fault) == Step(ended.table, Error(WriteFileChunkError, Thrown(StreamClosed)))
  {
  }
}
