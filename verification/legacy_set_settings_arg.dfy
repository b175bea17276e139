/** The older `set_settings_arg`: an existence check, an in-place write, and different failure semantics. */
module LegacySetter {
  import opened JsonValue
  import opened SettingsLock
  import opened SettingsFile

  /** The environment's answers to one legacy set: the read open, the in-place write open, and whether the write ran to the end. */
  datatype LegacySetIo = LegacySetIo(readOpens: bool, writeOpens: bool, completes: bool)

  /** The older `read_settings`: a parsed but empty document counts as failure, and a decode error escapes. */
  function LegacyReadSettings(s: FileState, opens: bool): (c: Call<Outcome<Option<Document>>>)
    ensures c.ret.Raise? <==> OpensExisting(s, opens) && s.Corrupt?
    ensures c.ret.Raise? ==> c.ret.exception == JSONDecodeError
    ensures c.ret.Return? && c.ret.value.Some? <==> OpensExisting(s, opens) && s.Doc? && |s.doc| > 0
    ensures c.ret.Return? && c.ret.value.Some? ==> c.ret.value.value == s.doc
    ensures c.after == s
    // the unlock sits after the unguarded decode, so it is skipped exactly when the decode raises
    ensures Balanced(c.locks) <==> c.ret.Return?
    ensures c.ret.Return? ==> c.locks == [LockForRead, Unlock]
    ensures c.ret.Raise? ==> c.locks == [LockForRead] && Held(c.locks) == 1
  {
    if !OpensExisting(s, opens) then Call(Return(None), s, [LockForRead, Unlock])
    else if s.Corrupt? then Call(Raise(JSONDecodeError), s, [LockForRead])
    else if |s.doc| > 0 then Call(Return(Some(s.doc)), s, [LockForRead, Unlock])
    else Call(Return(None), s, [LockForRead, Unlock])   // `{}` is falsy: "is empty"
  }

  /** The older `write_settings`: truncates and rewrites the target itself; there is no staging file. */
  function LegacyWriteSettings(s: FileState, d: Document, opens: bool, completes: bool): (c: Call<bool>)
    ensures c.ret <==> OpensExisting(s, opens)
    ensures !c.ret ==> c.after == s
    ensures c.ret && completes ==> c.after == Doc(d)
    // an interrupted in-place write leaves the file unreadable
    ensures c.ret && !completes ==> c.after == Corrupt
    ensures c.locks == [LockForWrite, Unlock]
  {
    var ok := OpensExisting(s, opens);
    Call(ok, if ok then WrittenInPlace(d, completes) else s, [LockForWrite, Unlock])
  }

  /** The older `set_settings_arg`. */
  function LegacySetSettingsArg(s: FileState, key: string, value: Json, io: LegacySetIo): (c: Call<Outcome<bool>>)
    // a missing file: false, with no read, no write and no lock
    ensures s.Missing? ==> c == Call(Return(false), Missing, [])
    ensures c.ret.Raise? <==> s.Corrupt? && io.readOpens
    ensures c.ret.Raise? ==> c.ret.exception == JSONDecodeError && c.locks == [LockForRead]
    // a present key: the result is the in-place write's
    ensures s.Doc? && key in s.doc && io.readOpens ==> c.ret == Return(io.writeOpens)
    // quirk: a readable document without the key still reports success, and nothing is written
    ensures s.Doc? && |s.doc| > 0 && key !in s.doc && io.readOpens ==> c.ret == Return(true) && c.after == s
    ensures c.ret == Return(true) ==> s.Doc? && |s.doc| > 0 && io.readOpens
    // the only change replaces the one value, in full or (interrupted) not at all readably
    ensures c.after == s || (s.Doc? && key in s.doc && c.after == WrittenInPlace(s.doc[key := value], io.completes))
    // a present key is written in place when the open succeeds, and left alone when it fails
    ensures s.Doc? && key in s.doc && io.readOpens ==>
              c.after == (if io.writeOpens then WrittenInPlace(s.doc[key := value], io.completes) else s)
    // whatever does not report success leaves the file as it was
    ensures c.ret != Return(true) ==> c.after == s
    ensures c.ret.Return? ==> Balanced(c.locks)
    ensures s.Exists() ==> |c.locks| >= 1 && c.locks[0] == LockForRead
    ensures s.Exists() && !io.readOpens ==> c.locks == [LockForRead, Unlock]
    ensures s.Doc? && key !in s.doc && io.readOpens ==> c.locks == [LockForRead, Unlock]
    ensures s.Doc? && key in s.doc && io.readOpens ==> c.locks == [LockForRead, Unlock, LockForWrite, Unlock]
  {
    if !s.Exists() then Call(Return(false), s, [])
    else
      var read := LegacyReadSettings(s, io.readOpens);
      if read.ret.Raise? then Call(Raise(read.ret.exception), s, read.locks)
      else if read.ret.value.Some? && key in read.ret.value.value then
        var w := LegacyWriteSettings(s, read.ret.value.value[key := value], io.writeOpens, io.completes);
        BalancedAppend(read.locks, w.locks);
        Call(Return(w.ret), w.after, read.locks + w.locks)
      else Call(Return(read.ret.value.Some?), s, read.locks)   // "Key ... does not exist", result kept
  }

  /** A legacy set that hits an unparsable file raises while still holding the read lock. */
  lemma CorruptFileLeaksReadLock(key: string, value: Json, io: LegacySetIo)
    requires io.readOpens
    ensures var c := LegacySetSettingsArg(Corrupt, key, value, io);
            c.ret == Raise(JSONDecodeError) && c.locks == [LockForRead] && !Balanced(c.locks) && Held(c.locks) == 1
  {
  }
}
