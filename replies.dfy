/** Values that cross the "saf_stream" method channel: bytes, the reply a
    method call resolves with, and the causes of failure the plugin reports. */
module Replies {

  /** One byte of file content. */
  newtype byte = x: int | 0 <= x < 256

  datatype Option<T> = None | Some(value: T)

  /** Why a platform stream operation threw. */
  datatype Fault =
    | StreamClosed                  // read or write on a stream that is already closed
    | NegativeArraySize(size: int)  // a byte buffer allocated with a negative length
    | ProviderFault(detail: string) // any other I/O failure of the content provider

  /** What opening a stream through the content resolver gives: the stream,
      null, or an exception (such as a file not found) with its message. */
  datatype Opening<T> = Open(stream: T) | NullStream | OpenFailed(detail: string)

  /** The message part of an error reply: a literal written by the plugin, or
      the message of the exception some platform call threw. */
  datatype Message = Text(text: string) | Thrown(fault: Fault)

  /** What a method call resolves with: `result.success(value)` or
      `result.error(code, message, null)`. */
  datatype Reply<T> = Success(value: T) | Error(code: string, message: Message)

  // Error codes the plugin replies with.
  const ReadFileError := "ReadFileError"
  const StartWriteStreamError := "StartWriteStream"
  const WriteChunkError := "WriteChunk"
  const WriteFileChunkError := "WriteFileChunkError"
  const EndWriteStreamError := "EndWriteStream"
  const CloseWriteStreamError := "CloseWriteStreamError"

  // Messages the plugin writes itself.
  const DirectoryNotFound := "Directory not found"
  const FileCreationFailed := "File creation failed"
  const StreamCreationFailed := "Stream creation failed"
  const StreamNotFound := "Stream not found"
}
