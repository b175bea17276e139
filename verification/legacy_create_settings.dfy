/** The older `create_settings`: a hard-coded default document and a failure that is only logged. */
module LegacyCreator {
  import opened JsonValue
  import opened SettingsFile

  /** The hard-coded default document `{"PREVIEW": ""}`. */
  const LegacyDefaults: Document := map["PREVIEW" := Str("")]

  /** Creates the settings file with the defaults unless it exists; a failed open leaves it absent and returns normally. */
  function LegacyCreateSettings(s: FileState, opens: bool, completes: bool): (c: Call<()>)
    ensures s.Exists() ==> c.after == s
    ensures c.after != s ==> s.Missing? && opens
    ensures s.Missing? && opens && completes ==> c.after == Doc(map["PREVIEW" := Str("")])
    ensures s.Missing? && opens && !completes ==> c.after == Corrupt
    // not fatal: an open failure keeps the file absent
    ensures s.Missing? && !opens ==> c.after == Missing
    ensures c.locks == []
  {
    var after :=
      if s.Exists() then s
      else if OpensNew(s, opens) then WrittenInPlace(LegacyDefaults, completes)
      else s;                                   // "Fail to open": logged only
    Call((), after, [])
  }

  /** Under the same environment, two creates leave what one leaves. */
  lemma LegacyCreateIdempotent(s: FileState, opens: bool, completes: bool)
    ensures var once := LegacyCreateSettings(s, opens, completes).after;
            LegacyCreateSettings(once, opens, completes).after == once
  {
  }

  /** Because the failure is not fatal, a later create may still succeed: a second call is a no-op only once the file exists. */
  lemma LegacyCreateRetriesAfterFailure(completes: bool)
    ensures LegacyCreateSettings(Missing, false, completes).after == Missing
    ensures LegacyCreateSettings(LegacyCreateSettings(Missing, false, completes).after, true, true).after == Doc(LegacyDefaults)
  {
  }
}
