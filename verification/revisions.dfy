/** Where the two revisions of the settings store agree and where they part ways. */
module Revisions {
  import opened JsonValue
  import opened SettingsFile
  import opened SettingsArgGetter
  import opened SettingsArgSetter
  import opened SettingsCreator
  import opened LegacyGetter
  import opened LegacySetter
  import opened LegacyCreator

  /** On a readable file and a truthy value, both getters give the same answer. */
  lemma GettersAgreeOnTruthyValues(s: FileState, key: string, opens: bool)
    requires s.Doc? && key in s.doc && Truthy(s.doc[key])
    ensures LegacyGetSettingsArg(s, key, opens).ret == Return(GetSettingsArg(s, key, opens).ret)
  {
  }

  /** On a readable file the getters differ only for falsy values, which the current one reports as found. */
  lemma GettersDifferOnlyOnFalsyValues(s: FileState, key: string, opens: bool)
    requires s.Doc?
    ensures LegacyGetSettingsArg(s, key, opens).ret != Return(GetSettingsArg(s, key, opens).ret)
        <==> opens && key in s.doc && !Truthy(s.doc[key])
  {
  }

  /** Setting a key the file lacks: the current setter fails, the older one reports success; neither writes. */
  lemma SettersDisagreeOnUnknownKey(d: Document, key: string, value: Json)
    requires |d| > 0 && key !in d
    ensures !SetSettingsArg(Doc(d), key, value, SetIo(true, true, true)).ret
    ensures LegacySetSettingsArg(Doc(d), key, value, LegacySetIo(true, true, true)).ret == Return(true)
    ensures SetSettingsArg(Doc(d), key, value, SetIo(true, true, true)).after == Doc(d)
    ensures LegacySetSettingsArg(Doc(d), key, value, LegacySetIo(true, true, true)).after == Doc(d)
  {
  }

  /** An interrupted write: staging keeps the old document readable, the in-place write leaves it unreadable. */
  lemma OnlyStagingSurvivesInterruptedWrite(d: Document, key: string, value: Json)
    requires key in d
    ensures SetSettingsArg(Doc(d), key, value, SetIo(true, true, false)).after == Doc(d)
    ensures LegacySetSettingsArg(Doc(d), key, value, LegacySetIo(true, true, false)).after == Corrupt
  {
  }

  /** When both succeed in full, both setters store the same document. */
  lemma SettersAgreeOnSuccess(d: Document, key: string, value: Json)
    requires key in d
    ensures SetSettingsArg(Doc(d), key, value, SetIo(true, true, true)).ret
    ensures SetSettingsArg(Doc(d), key, value, SetIo(true, true, true)).after == Doc(d[key := value])
    ensures LegacySetSettingsArg(Doc(d), key, value, LegacySetIo(true, true, true)).ret == Return(true)
    ensures LegacySetSettingsArg(Doc(d), key, value, LegacySetIo(true, true, true)).after == Doc(d[key := value])
  {
  }

  /** Creation with the older defaults as template: both revisions create the same file, but only the current one treats failure as fatal. */
  lemma CreatorsAgreeExceptOnFailure(opens: bool, completes: bool)
    ensures CreateSettings(Missing, LegacyDefaults, opens, completes).after == LegacyCreateSettings(Missing, opens, completes).after
    ensures CreateSettings(Missing, LegacyDefaults, opens, completes).ret.Raise? <==> !opens
  {
  }
}
