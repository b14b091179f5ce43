/** `SafStreamPlugin`: the method-call handler. Only the branches that keep
    state or decide something are here: `readFile`, `startWriteStream`,
    `writeChunk` and `endWriteStream`. Calls are taken one at a time, each
    with its reply, in the order the Flutter side makes them. */
module Plugin {
  import opened Replies
  import opened Documents
  import opened WriteSessions
  import opened ReadHandler

  class SafStreamPlugin {
    /** `writeStreams`: the open write sessions. */
    var writeStreams: Table

    constructor ()
      ensures writeStreams == map[]
    {
      writeStreams := map[];
    }

    /** `readFile`. `stream` is what `openInputStream` gave for the file
        uri: a stream, null, or the exception it threw. On success a handler
        for the stream is registered on the session's event channel and the
        channel name is the reply; the drain starts only when Flutter listens
        (`ReadFileHandler.OnListen`). */
    method ReadFile(stream: Opening<InStream>, session: string, bufferSize: Option<int>)
      returns (reply: Reply<string>, handler: ReadFileHandler?)
      ensures stream.NullStream? ==> reply == Error(ReadFileError, Text(StreamCreationFailed)) && handler == null
      ensures stream.OpenFailed? ==>
        reply == Error(ReadFileError, Thrown(ProviderFault(stream.detail))) && handler == null
      ensures stream.Open? ==>
        && reply == Success(ChannelName(session))
        && handler != null && fresh(handler) && handler.eventSink == null
        && handler.inStream == stream.stream
        && handler.bufferSize == (if bufferSize.Some? then bufferSize.value else DefaultBufferSize)
    {
      var size := BufferSizeOrDefault(bufferSize);
      match stream
      case NullStream =>
        reply, handler := Error(ReadFileError, Text(StreamCreationFailed)), null;
      case OpenFailed(detail) =>
        reply, handler := Error(ReadFileError, Thrown(ProviderFault(detail))), null;
      case Open(inStream) =>
        handler := new ReadFileHandler(inStream, size);
        reply := Success(ChannelName(session));
    }

    /** `startWriteStream`. `dir` is None when the tree uri names no directory. */
    method StartWriteStream(dir: Option<Directory>, fileName: string, mime: string,
                            session: string, overwrite: bool, p: Provider)
      returns (reply: Reply<FileInfo>)
      modifies this
      ensures Step(writeStreams, reply) == StartWrite(old(writeStreams), dir, fileName, mime, session, overwrite, p)
    {
      if dir.None? {
        reply := Error(StartWriteStreamError, Text(DirectoryNotFound));
        return;
      }
      var created := CreateFile(dir.value, fileName, mime, overwrite, p);
      if created.Failed? {
        reply := Error(StartWriteStreamError, created.message);
        return;
      }
      writeStreams := writeStreams[session := NewStream];
      reply := Success(FileInfo(created.file.uri, created.file.name));
    }

    /** `writeChunk`. `fault` is the provider's failure of this write, if any. */
    method WriteChunk(session: string, data: seq<byte>, fault: Option<string>) returns (reply: Reply<()>)
      modifies this
      ensures Step(writeStreams, reply) == WriteSessions.WriteChunk(old(writeStreams), session, data, fault)
    {
      if session !in writeStreams {
        reply := Error(WriteChunkError, Text(StreamNotFound));
        return;
      }
      var outStream := writeStreams[session];
      if outStream.closed {
        reply := Error(WriteFileChunkError, Thrown(StreamClosed));
      } else if fault.Some? {
        reply := Error(WriteFileChunkError, Thrown(ProviderFault(fault.value)));
      } else {
        writeStreams := writeStreams[session := outStream.(bytes := outStream.bytes + data)];
        reply := Success(());
      }
    }

    /** `endWriteStream`: closes the session's stream and leaves it in
        `writeStreams`. `fault` is the provider's failure of the close, if any. */
    method EndWriteStream(session: string, fault: Option<string>) returns (reply: Reply<()>)
      modifies this
      ensures Step(writeStreams, reply) == EndWrite(old(writeStreams), session, fault)
    {
      if session !in writeStreams {
        reply := Error(EndWriteStreamError, Text(StreamNotFound));
        return;
      }
      var outStream := writeStreams[session];
      if outStream.closed {
        reply := Success(());
      } else if fault.Some? {
        reply := Error(CloseWriteStreamError, Thrown(ProviderFault(fault.value)));
      } else {
        writeStreams := writeStreams[session := outStream.(closed := true)];
        reply := Success(());
      }
    }
  }
}
