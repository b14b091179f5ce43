/** The overwrite-or-create decision the plugin takes before it opens a file
    for writing (`_createFile`), over an abstract directory and provider. */
module Documents {
  import opened Replies

  /** A document as the provider describes it. */
  datatype DocFile = DocFile(uri: string, name: string)

  /** The children of a directory, by display name: what `findFile` searches. */
  type Directory = map<string, DocFile>

  /** The mode an output stream is opened in: "w" (the default of
      `openOutputStream(uri)`) or "wt" (write, truncating what was there). */
  datatype OpenMode = Write | WriteTruncate

  /** The two provider calls `_createFile` makes. `createFile(mime, name)`
      answers the new document or None (null); `openOutputStream(uri, mode)`
      answers an open stream, null, or the exception it threw. How the
      provider names a new file (it may rename on a collision) is its own
      business. */
  datatype Provider = Provider(
    createFile: (string, string) -> Option<DocFile>,
    openOutputStream: (string, OpenMode) -> Opening<()>)

  /** A file resolved and opened for writing, or the message of the exception thrown. */
  datatype Created = Opened(file: DocFile, mode: OpenMode) | Failed(message: Message)

  /** `dir.findFile(name)`. */
  function FindFile(dir: Directory, name: string): Option<DocFile>
  {
    if name in dir then Some(dir[name]) else None
  }

  /** The file `_createFile` settles on before opening it: with `overwrite`,
      `findFile` and else `createFile`; without it, `createFile`. */
  function ResolveFile(dir: Directory, fileName: string, mime: string, overwrite: bool, p: Provider): Option<DocFile>
  {
    var cur := if overwrite then FindFile(dir, fileName) else None;
    if cur.Some? then cur else p.createFile(mime, fileName)
  }

  /** `_createFile(dir, fileName, mime, overwrite)`. With `overwrite` an
      existing child of that name is reused and opened truncating; otherwise,
      and when there is none, the provider is asked to create the file. */
  function CreateFile(dir: Directory, fileName: string, mime: string, overwrite: bool, p: Provider): (r: Created)
    // the open mode depends on the flag alone
    ensures r.Opened? ==> r.mode == (if overwrite then WriteTruncate else Write)
    // overwrite reuses the existing file: createFile is not consulted
    ensures r.Opened? && overwrite && fileName in dir ==> r.file == dir[fileName]
    ensures overwrite && fileName in dir ==> r != Failed(Text(FileCreationFailed))
    // otherwise the file is whatever the provider created
    ensures r.Opened? && !(overwrite && fileName in dir) ==> p.createFile(mime, fileName) == Some(r.file)
    // no file to open: "File creation failed", exactly then
    ensures r == Failed(Text(FileCreationFailed)) <==> !(overwrite && fileName in dir) && p.createFile(mime, fileName).None?
    // a file to open: the outcome of opening it decides the result
    ensures
      var f := ResolveFile(dir, fileName, mime, overwrite, p);
      f.Some? ==>
        match p.openOutputStream(f.value.uri, if overwrite then WriteTruncate else Write)
        case Open(_) => r.Opened? && r.file == f.value
        case NullStream => r == Failed(Text(StreamCreationFailed))
        case OpenFailed(d) => r == Failed(Thrown(ProviderFault(d)))
  {
    var mode := if overwrite then WriteTruncate else Write;
    var newFile := ResolveFile(dir, fileName, mime, overwrite, p);
    if newFile.None? then Failed(Text(FileCreationFailed))
    else match p.openOutputStream(newFile.value.uri, mode)
      case Open(_) => Opened(newFile.value, mode)
      case NullStream => Failed(Text(StreamCreationFailed))
      case OpenFailed(d) => Failed(Thrown(ProviderFault(d)))
  }
}
