# saf_stream: session-keyed chunked streaming, in Dafny

A model of the logic inside `SafStreamPlugin.kt`, the Android side of the
`saf_stream` Flutter plugin. The plugin bridges Flutter and the Storage
Access Framework (SAF). Three pieces are modelled:

* **The write-session table** `writeStreams`. It maps a client-chosen
  session id to an output stream. `startWriteStream` registers a stream,
  `writeChunk` appends to it and `endWriteStream` closes it. An unknown
  session is answered with "Stream not found". `endWriteStream` never
  removes the entry, so a write after the end reaches the closed stream.
  That write fails with `WriteFileChunkError`, not "Stream not found", so
  a closed session is not indistinguishable from an absent one.
* **The push-mode drain** in `ReadFileHandler.onListen`. It reads up to
  `bufferSize` bytes at a time and emits a copy of each read. After the
  chunks come exactly one `endOfStream`, or exactly one `error` if a read
  throws. `onCancel` only forgets the sink; a drain already running carries
  on with the sink it captured, and the model keeps that.
* **The overwrite-or-create decision** of `_createFile`, over an abstract
  directory (display name to document) and an abstract provider.

Modules:

* `Replies` (replies.dfy): bytes, replies, error codes and messages.
* `Documents` (documents.dfy): `CreateFile`.
* `WriteSessions` (write_sessions.dfy): one function per call on the table
  (`StartWrite`, `WriteChunk`, `EndWrite`), giving the new table and the
  reply, and the lemmas about sequences of calls.
* `ReadHandler` (read_handler.dfy): the input stream, the event sink, the
  `ReadFileHandler` class with its drain loop, and lemmas about chunkings.
* `Plugin` (plugin.dfy): the `SafStreamPlugin` class. Its `writeStreams`
  field is a `map` that its methods update in place, each method proved
  against the matching `WriteSessions` function.

Foreign calls are parameters:

* `DocumentFile.fromTreeUri` is an `Option<Directory>`.
* `createFile` and `openOutputStream` are the functions of a `Provider`
  value.
* What `openInputStream` and `openOutputStream` give is an `Opening`: a
  stream, null, or the exception the provider threw.
* A write or a close the provider fails is an `Option<string>`.

An `InStream` read returns any count from 1 up to what remains and fits the
buffer; the provider chooses it. A provider I/O failure is a fault at a fixed
offset of the stream.

## Model

| member | source | states |
|---|---|---|
| `Documents.CreateFile` | android/src/main/kotlin/com/fluttercavalry/saf_stream/SafStreamPlugin.kt:227-242 | With overwrite, an existing file of that name is reused and `createFile` is not consulted; otherwise the file is what `createFile` gives. The mode is "wt" exactly when overwriting. "File creation failed" happens exactly when no file is found or created. Once there is a file, opening it decides the result: an open stream gives that file, null gives "Stream creation failed", and a thrown exception gives its message. |
| `WriteSessions.StartWrite` | android/src/main/kotlin/com/fluttercavalry/saf_stream/SafStreamPlugin.kt:146-168 | Succeeds exactly when the directory exists and `_createFile` opens a file. It then maps the session to a new empty open stream, replacing any earlier entry, and answers that file's uri and name. A missing directory answers "Directory not found", and a `_createFile` failure answers the message it failed with (its own text or the provider's exception). Both are coded `StartWriteStream` and leave the table unchanged. |
| `WriteSessions.WriteChunk` | android/src/main/kotlin/com/fluttercavalry/saf_stream/SafStreamPlugin.kt:170-193 | Unknown session: `WriteChunk`/"Stream not found" with the table unchanged. Known session: succeeds exactly when the stream is open and the provider does not fail, and then appends exactly `data`. A failure is `WriteFileChunkError` and writes nothing: a closed stream gives a stream-closed fault, and a provider failure is passed on with its message. The keys never change and no other session changes. |
| `WriteSessions.EndWrite` | android/src/main/kotlin/com/fluttercavalry/saf_stream/SafStreamPlugin.kt:195-217 | Unknown session: `EndWriteStream`/"Stream not found". Known session: the stream is closed with its bytes kept, and the entry stays. Closing an already closed stream succeeds and changes nothing. A failed close of an open stream is `CloseWriteStreamError` with the provider's message and changes nothing. No other session changes. |
| `WriteSessions.WriteAllAppends` | android/src/main/kotlin/com/fluttercavalry/saf_stream/SafStreamPlugin.kt:176-184 | Serialized writes b1..bn on an open stream all succeed. The stream then holds its old bytes followed by b1 ++ ... ++ bn, and no other session changes. |
| `WriteSessions.WriteAllThenEnd` | android/src/main/kotlin/com/fluttercavalry/saf_stream/SafStreamPlugin.kt:184-208 | On a fresh stream, writes b1..bn and then `endWriteStream` succeed and leave the stream closed, holding exactly b1 ++ ... ++ bn. |
| `WriteSessions.StartWriteEnd` | android/src/main/kotlin/com/fluttercavalry/saf_stream/SafStreamPlugin.kt:157-208 | A successful start, then writes b1..bn, then an end leave the table as before the start, except that the session holds a closed stream with exactly b1 ++ ... ++ bn. |
| `WriteSessions.EndThenWriteFails` | android/src/main/kotlin/com/fluttercavalry/saf_stream/SafStreamPlugin.kt:176-208 | After an end, the session is still registered and closed, and a write on it fails with `WriteFileChunkError` (stream closed), not "Stream not found". |
| `ReadHandler.ChannelNameInjective` | android/src/main/kotlin/com/fluttercavalry/saf_stream/SafStreamPlugin.kt:52 | Two sessions get the same event channel name "saf_stream/readFile/" + session only if they are the same session. |
| `ReadHandler.InStream.Read` | android/src/main/kotlin/com/fluttercavalry/saf_stream/SafStreamPlugin.kt:257-261 | `read(buffer)`: while bytes remain, 1 to `buffer.Length` of them, copied into the buffer in order. At the end it gives -1, or an exception at a fault. A closed stream always throws. |
| `ReadHandler.ReadFileHandler.constructor` | android/src/main/kotlin/com/fluttercavalry/saf_stream/SafStreamPlugin.kt:245-249 | The handler keeps the stream and the buffer size and has no sink yet. |
| `ReadHandler.ReadFileHandler.OnListen` | android/src/main/kotlin/com/fluttercavalry/saf_stream/SafStreamPlugin.kt:251-269 | The sink is recorded. A negative buffer size emits one `ReadFileError` and leaves the stream untouched. Otherwise it appends a drain and closes the stream: non-empty chunks of at most `bufferSize` bytes whose concatenation is the stream's remaining bytes, then one terminal event. The terminal is `endOfStream`, or a `ReadFileError` error if the stream was closed or hit its fault. The stream stays valid afterwards, so a second listen (after `onCancel`) drains the closed stream into one `ReadFileError`. |
| `ReadHandler.ReadFileHandler.Pump` | android/src/main/kotlin/com/fluttercavalry/saf_stream/SafStreamPlugin.kt:255-262 | The `while (rc != -1)` loop emits a copy of each read, chunked by the buffer length. It stops only on -1 or an exception. The emitted bytes are everything up to the end or the fault, and the last read's outcome selects the terminal event. |
| `ReadHandler.ReadFileHandler.OnCancel` | android/src/main/kotlin/com/fluttercavalry/saf_stream/SafStreamPlugin.kt:271-273 | Only forgets the sink. |
| `ReadHandler.DrainEndsOnce` | android/src/main/kotlin/com/fluttercavalry/saf_stream/SafStreamPlugin.kt:258-266 | In a drain, the only event that is not a chunk is the last one: exactly one terminal event. |
| `ReadHandler.ChunkCountBounds` | android/src/main/kotlin/com/fluttercavalry/saf_stream/SafStreamPlugin.kt:255-261 | k chunks of 1 to `bufferSize` bytes carry between k and k * `bufferSize` bytes, so L bytes take at least ceil(L / `bufferSize`) and at most L chunks. |
| `ReadHandler.PayloadConcat` | android/src/main/kotlin/com/fluttercavalry/saf_stream/SafStreamPlugin.kt:258-261 | The bytes of two runs of chunk events in a row are the bytes of each run, in order. |
| `ReadHandler.FullReadsChunking` | android/src/main/kotlin/com/fluttercavalry/saf_stream/SafStreamPlugin.kt:255-262 | If every read fills the buffer or takes what is left, the chunks are non-empty, at most `bufferSize` bytes each, and carry the bytes in order. |
| `ReadHandler.FullReadsCount` | android/src/main/kotlin/com/fluttercavalry/saf_stream/SafStreamPlugin.kt:255-262 | With such reads, L bytes give exactly ceil(L / `bufferSize`) chunks, none when L = 0. |
| `ReadHandler.FullChunksAreFullReads` | android/src/main/kotlin/com/fluttercavalry/saf_stream/SafStreamPlugin.kt:255-262 | Conversely, non-empty chunks of at most `bufferSize` bytes that carry the bytes, every one but the last full, are exactly the `FullReads` chunking: that chunking is the only one full reads can give. |
| `ReadHandler.FullDrainIsFullReads` | android/src/main/kotlin/com/fluttercavalry/saf_stream/SafStreamPlugin.kt:255-266 | A drain (as `OnListen` emits) whose reads all fill the buffer, except the last, is exactly the `FullReads` chunks followed by the terminal event. |
| `Plugin.SafStreamPlugin.constructor` | android/src/main/kotlin/com/fluttercavalry/saf_stream/SafStreamPlugin.kt:31 | The plugin starts with no write sessions. |
| `Plugin.SafStreamPlugin.ReadFile` | android/src/main/kotlin/com/fluttercavalry/saf_stream/SafStreamPlugin.kt:42-59 | A null stream gives `ReadFileError`/"Stream creation failed", and an exception from `openInputStream` gives `ReadFileError` with its message; no handler is made in either case. Otherwise a new handler holds the stream, with buffer size the argument or 4 * 1024 * 1024 by default, and the reply is the channel name "saf_stream/readFile/" + session. |
| `Plugin.SafStreamPlugin.StartWriteStream` | android/src/main/kotlin/com/fluttercavalry/saf_stream/SafStreamPlugin.kt:146-168 | The table and the reply after the call are what `StartWrite` gives for the table before it. |
| `Plugin.SafStreamPlugin.WriteChunk` | android/src/main/kotlin/com/fluttercavalry/saf_stream/SafStreamPlugin.kt:170-193 | The table and the reply after the call are what `WriteSessions.WriteChunk` gives for the table before it. |
| `Plugin.SafStreamPlugin.EndWriteStream` | android/src/main/kotlin/com/fluttercavalry/saf_stream/SafStreamPlugin.kt:195-217 | The table and the reply after the call are what `EndWrite` gives for the table before it. |

## Left out

- `copyToLocalFile`, `readFileSync`, `pasteLocalFile` and `writeFileSync` (SafStreamPlugin.kt:61-144) are left out. They are one-shot copy, read and write plumbing with no decision beyond `_createFile`, which is modelled.
- Engine attach and detach, `MethodChannel`/`EventChannel` registration, `Uri` parsing and `DocumentFile` are left out. They are foreign APIs and appear only as parameters or as the returned handler.
- Coroutines and the IO/Main thread handoff are left out. Calls are taken one at a time, and each asynchronous reply or event is delivered in launch order.
- Missing call arguments are left out. The code relies on the Dart side to supply them (`!!`); the model takes them as given.
- Output streams are values held in the table, not shared objects, so aliasing is not modelled. A second `startWriteStream` with the same session leaves the earlier stream open and unreachable in the source; the model simply drops it.
- `WriteSessions.WriteChunk`: a write the provider fails appends nothing in the model. The platform may already have written part of the data.
- `WriteSessions.EndWrite`: a close the provider fails leaves the stream open in the model. What a failed close leaves behind is up to the platform.
- `ReadHandler.InStream.Close` never fails. If the platform's close threw after a complete drain, `use` would rethrow and the source would emit `endOfStream` followed by `error`.
- `ReadHandler.ReadFileHandler.OnListen` requires `bufferSize != 0`. With a zero-length buffer, `read` returns 0 forever and the source's loop never ends. Negative sizes are modelled. Kotlin's 32-bit `Int` range and out-of-memory for huge buffers are not.
- Platform exception messages are abstract `Fault` values (`ProviderFault` carries the detail), not the platform's text.
- After `onCancel`, Flutter drops events sent to the old sink. That is Flutter's behaviour, not the plugin's, so `EventSink` records every event.
- Provider policy is left out: renaming on a name collision, permissions, and uri resolution.
