/** `set_settings_arg` of the current package: read, replace one existing value, write through a staging file. */
module SettingsArgSetter {
  import opened JsonValue
  import opened SettingsLock
  import opened SettingsFile

  /** The environment's answers to the three I/O steps of one set: the read-only open, the staging open, the commit. */
  datatype SetIo = SetIo(readOpens: bool, stagingOpens: bool, commits: bool)

  /** `read_settings`: the whole document, or `None` when the file does not open or does not parse. */
  function ReadSettings(s: FileState, opens: bool): (c: Call<Option<Document>>)
    ensures c.ret.Some? <==> OpensExisting(s, opens) && s.Doc?
    ensures c.ret.Some? ==> c.ret.value == s.doc
    ensures c.after == s
    ensures Balanced(c.locks) && |c.locks| == 2 && c.locks[0] == LockForRead   // shared, taken once
  {
    var ret :=
      if !OpensExisting(s, opens) then None
      else if s.Corrupt? then None                 // JSONDecodeError is caught
      else Some(s.doc);
    Call(ret, s, [LockForRead, Unlock])
  }

  /**
   * `write_settings`: stream the document into a `QSaveFile` and commit it.
   * The result reports only whether the staging file opened; the commit's own verdict is dropped.
   */
  function WriteSettings(s: FileState, d: Document, stagingOpens: bool, commits: bool): (c: Call<bool>)
    ensures c.ret <==> stagingOpens
    // no partial writes: the target holds either its old content or the whole new document
    ensures c.after == s || c.after == Doc(d)
    ensures !c.ret ==> c.after == s
    ensures c.ret && commits ==> c.after == Doc(d)
    // an uncommitted staging file never reaches the target
    ensures !commits ==> c.after == s
    ensures Balanced(c.locks) && |c.locks| == 2 && c.locks[0] == LockForWrite   // exclusive, taken once
  {
    // a cancelled QSaveFile ignores the later commit(); an uncommitted one never touches the target
    var after := if stagingOpens && commits then Doc(d) else s;
    Call(stagingOpens, after, [LockForWrite, Unlock])
  }

  /** `set_settings_arg`: replaces the value of an existing key; it never adds a key. */
  function SetSettingsArg(s: FileState, key: string, value: Json, io: SetIo): (c: Call<bool>)
    // success needs a readable document that already has the key, and an open staging file
    ensures c.ret <==> io.readOpens && s.Doc? && key in s.doc && io.stagingOpens
    // an unknown key or an unreadable file: failure and no change
    ensures !(s.Doc? && key in s.doc) ==> !c.ret && c.after == s
    ensures !c.ret ==> c.after == s
    // the only possible change is the one value, and only once the commit goes through
    ensures c.after == s || (s.Doc? && key in s.doc && c.after == Doc(s.doc[key := value]))
    ensures c.ret && io.commits ==> c.after == Doc(s.doc[key := value])
    // an uncommitted write is never seen
    ensures !io.commits ==> c.after == s
    // the read and write phases each take and release the lock; the write phase runs only for a known key
    ensures Balanced(c.locks)
    ensures io.readOpens && s.Doc? && key in s.doc ==> c.locks == [LockForRead, Unlock, LockForWrite, Unlock]
    ensures !(io.readOpens && s.Doc? && key in s.doc) ==> c.locks == [LockForRead, Unlock]
  {
    var read := ReadSettings(s, io.readOpens);
    if read.ret.None? then Call(false, s, read.locks)
    else if key !in read.ret.value then Call(false, s, read.locks)   // KeyError: logged, no write
    else
      var w := WriteSettings(s, read.ret.value[key := value], io.stagingOpens, io.commits);
      BalancedAppend(read.locks, w.locks);
      Call(w.ret, w.after, read.locks + w.locks)
  }

  /** Closed key set and "nothing else changes": after any set, the keys are the same and only `key` may hold a new value. */
  lemma SetChangesOnlyKey(s: FileState, key: string, value: Json, io: SetIo)
    requires s.Doc?
    ensures SetSettingsArg(s, key, value, io).after.Doc?
    ensures SetSettingsArg(s, key, value, io).after.doc.Keys == s.doc.Keys
    ensures forall k :: k in s.doc && k != key ==> SetSettingsArg(s, key, value, io).after.doc[k] == s.doc[k]
  {
  }
}
