/** `get_settings_arg` of the current package: a read-locked lookup that answers `(False, "")` on every failure path. */
module SettingsArgGetter {
  import opened JsonValue
  import opened SettingsLock
  import opened SettingsFile

  /** Looks `key` up in the settings file; `opens` says whether the read-only open is granted. */
  function GetSettingsArg(s: FileState, key: string, opens: bool): (c: Call<Lookup>)
    // found exactly when the file opens, parses and holds the key
    ensures c.ret.found <==> OpensExisting(s, opens) && s.Doc? && key in s.doc
    ensures c.ret.found ==> c.ret.value == s.doc[key]
    // every failure path hands back the empty string
    ensures !c.ret.found ==> c.ret.value == Blank
    // opened read-only: the file is never created nor changed
    ensures c.after == s
    ensures Balanced(c.locks) && |c.locks| == 2 && c.locks[0] == LockForRead   // shared, taken once
  {
    var ret :=
      if !OpensExisting(s, opens) then NotFound   // open failure, including a missing file
      else if s.Corrupt? then NotFound            // JSONDecodeError
      else if key !in s.doc then NotFound         // KeyError
      else Lookup(true, s.doc[key]);
    Call(ret, s, [LockForRead, Unlock])
  }

  /** A missing file reads as not found, and reading it does not create it. */
  lemma MissingFileReadsBlank(key: string, opens: bool)
    ensures GetSettingsArg(Missing, key, opens).ret == Lookup(false, Str(""))
    ensures GetSettingsArg(Missing, key, opens).after == Missing
  {
  }

  /** Reads do not interfere: repeated gets against an unchanged file answer identically. */
  lemma RepeatedGetsAgree(s: FileState, key: string, opens: bool)
    ensures GetSettingsArg(GetSettingsArg(s, key, opens).after, key, opens) == GetSettingsArg(s, key, opens)
  {
  }
}
