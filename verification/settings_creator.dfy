/** `create_settings` of the current package: write the default template once, and exit the process if that fails. */
module SettingsCreator {
  import opened JsonValue
  import opened SettingsLock
  import opened SettingsFile

  /**
   * Creates the settings file from `template` (the `SETTINGS` table) unless it already exists.
   * `opens` is the environment's answer to the `NewOnly` open; `completes` says whether the text was written out in full.
   */
  function CreateSettings(s: FileState, template: Document, opens: bool, completes: bool): (c: Call<Outcome<()>>)
    // an existing file is left alone, untouched and unlocked
    ensures s.Exists() ==> c == Call(Return(()), s, [])
    // the fatal path changes nothing: no partial or silent success
    ensures c.ret.Raise? <==> s.Missing? && !opens
    ensures c.ret.Raise? ==> c.ret.exception == SystemExit && c.after == Missing
    // the one change: a missing file becomes the template
    ensures c.after != s ==> s.Missing? && c.ret.Return? && c.after.Exists()
    ensures s.Missing? && c.ret.Return? && completes ==> c.after == Doc(template)
    // an interrupted creation leaves truncated, unparsable text, never some other document
    ensures s.Missing? && c.ret.Return? && !completes ==> c.after == Corrupt
    // a missing file is created under the exclusive lock, released on every path
    ensures s.Missing? ==> c.locks == [LockForWrite, Unlock]
  {
    if s.Exists() then Call(Return(()), s, [])
    else if OpensNew(s, opens) then Call(Return(()), WrittenInPlace(template, completes), [LockForWrite, Unlock])
    else Call(Raise(SystemExit), s, [LockForWrite, Unlock])   // `finally` still unlocks before the exit propagates
  }

  /** Idempotence: once a create has returned, a second one, under any environment, changes nothing. */
  lemma CreateTwiceIsCreateOnce(s: FileState, template: Document, opens: bool, completes: bool, opens2: bool, completes2: bool)
    requires CreateSettings(s, template, opens, completes).ret.Return?
    ensures var first := CreateSettings(s, template, opens, completes).after;
            CreateSettings(first, template, opens2, completes2) == Call(Return(()), first, [])
  {
  }

  /** Under the same environment, two creates leave what one leaves, whichever path the first took. */
  lemma CreateIdempotent(s: FileState, template: Document, opens: bool, completes: bool)
    ensures var once := CreateSettings(s, template, opens, completes);
            CreateSettings(once.after, template, opens, completes).after == once.after
  {
  }
}
