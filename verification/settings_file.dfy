/** The settings file as an abstract state, the Qt open modes over it, and the shape of an operation's result. */
module SettingsFile {
  import opened JsonValue
  import opened SettingsLock

  /** What a reader of the settings path finds there. `Corrupt`: the file exists but its text is empty or not valid JSON. */
  datatype FileState = Missing | Corrupt | Doc(doc: Document)
  {
    predicate Exists() { !Missing? }
  }

  datatype Option<T> = None | Some(value: T)

  /** Python exceptions that escape an operation to its caller. */
  datatype PyException = JSONDecodeError | SystemExit

  /** A call that either returns a value or lets an exception escape. */
  datatype Outcome<R> = Return(value: R) | Raise(exception: PyException)

  /** One operation's effect: what it hands back, the file afterwards, and the lock calls it made. */
  datatype Call<R> = Call(ret: R, after: FileState, locks: seq<LockOp>)

  /** The `(bool, value)` pair the getters return. */
  datatype Lookup = Lookup(found: bool, value: Json)

  const NotFound: Lookup := Lookup(false, Blank)

  /** `QFile.open` with `ExistingOnly`: never succeeds on a missing file; otherwise `ok` says whether the OS let it open. */
  predicate OpensExisting(s: FileState, ok: bool)
  {
    s.Exists() && ok
  }

  /** `QFile.open` with `NewOnly`: never succeeds on an existing file, so it can never truncate one. */
  predicate OpensNew(s: FileState, ok: bool)
  {
    s.Missing? && ok
  }

  /** Writing a document in place, without staging: an interrupted write leaves truncated, unparsable text. */
  function WrittenInPlace(d: Document, completes: bool): (s: FileState)
    ensures s.Exists()
    ensures s.Doc? <==> completes
    ensures s.Doc? ==> s.doc == d
  {
    if completes then Doc(d) else Corrupt
  }
}
