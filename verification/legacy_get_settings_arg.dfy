/** The older `get_settings_arg`: no lock, an unguarded decode, and a falsy value reads as "not found". */
module LegacyGetter {
  import opened JsonValue
  import opened SettingsFile

  /** Looks `key` up with `dict.get(key, "")` and keeps the answer only when it is truthy. */
  function LegacyGetSettingsArg(s: FileState, key: string, opens: bool): (c: Call<Outcome<Lookup>>)
    // unparsable text is not caught: the decode error reaches the caller
    ensures c.ret.Raise? <==> OpensExisting(s, opens) && s.Corrupt?
    ensures c.ret.Raise? ==> c.ret.exception == JSONDecodeError
    // found exactly when the key is there with a truthy value
    ensures c.ret.Return? && c.ret.value.found <==> OpensExisting(s, opens) && s.Doc? && key in s.doc && Truthy(s.doc[key])
    ensures c.ret.Return? && c.ret.value.found ==> c.ret.value.value == s.doc[key]
    ensures c.ret.Return? && !c.ret.value.found ==> c.ret.value.value == Blank
    // never modifies the file, and takes no lock at all
    ensures c.after == s && c.locks == []
  {
    var ret :=
      if !s.Exists() then Return(NotFound)             // "is not existed"
      else if !opens then Return(NotFound)             // open failure
      else if s.Corrupt? then Raise(JSONDecodeError)
      else
        var v := if key in s.doc then s.doc[key] else Blank;
        if Truthy(v) then Return(Lookup(true, v)) else Return(NotFound);
    Call(ret, s, [])
  }

  /** A present key whose value is falsy, such as the template's `""`, is reported as missing. */
  lemma FalsyValueReadsAsMissing(d: Document, key: string)
    requires key in d && !Truthy(d[key])
    ensures LegacyGetSettingsArg(Doc(d), key, true).ret == Return(Lookup(false, Str("")))
  {
  }
}
