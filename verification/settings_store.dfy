/** The current package's store as its callers see it: any sequence of get, set and create calls on one settings file. */
module SettingsStore {
  import opened JsonValue
  import opened SettingsLock
  import opened SettingsFile
  import opened SettingsArgGetter
  import opened SettingsArgSetter
  import opened SettingsCreator

  /** One call into the store, with the environment's answers to its I/O. */
  datatype Op =
    | Get(key: string, opens: bool)
    | Set(key: string, value: Json, io: SetIo)
    | Create(opens: bool, completes: bool)

  datatype Reply = Got(lookup: Lookup) | Stored(ok: bool) | Created

  /** The replies given, the file left behind, every lock call made, and whether the process exited. */
  datatype Session = Session(replies: seq<Reply>, final: FileState, locks: seq<LockOp>, exited: bool)

  /** One call; an escaping `SystemExit` ends the process. */
  function Apply(s: FileState, template: Document, op: Op): (c: Call<Outcome<Reply>>)
    ensures Balanced(c.locks)
    ensures c.ret.Raise? ==> op.Create? && c.after == s
    ensures op.Get? ==> c.after == s
  {
    match op
    case Get(k, o) =>
      var g := GetSettingsArg(s, k, o);
      Call(Return(Got(g.ret)), g.after, g.locks)
    case Set(k, v, io) =>
      var w := SetSettingsArg(s, k, v, io);
      Call(Return(Stored(w.ret)), w.after, w.locks)
    case Create(o, done) =>
      var cr := CreateSettings(s, template, o, done);
      Call(if cr.ret.Raise? then Raise(cr.ret.exception) else Return(Created), cr.after, cr.locks)
  }

  /** Runs the calls in order until they are used up or one exits the process. */
  function Run(s: FileState, template: Document, ops: seq<Op>): (r: Session)
    decreases |ops|
    // every path through every call releases what it acquires
    ensures Balanced(r.locks)
    ensures |r.replies| <= |ops|
    ensures !r.exited ==> |r.replies| == |ops|
  {
    if |ops| == 0 then Session([], s, [], false)
    else
      var c := Apply(s, template, ops[0]);
      if c.ret.Raise? then Session([], c.after, c.locks, true)
      else
        var rest := Run(c.after, template, ops[1..]);
        BalancedAppend(c.locks, rest.locks);
        Session([c.ret.value] + rest.replies, rest.final, c.locks + rest.locks, rest.exited)
  }

  predicate NoCreates(ops: seq<Op>)
  {
    forall i :: 0 <= i < |ops| ==> !ops[i].Create?
  }

  /** Only a failed create exits the process: gets and sets always run to the end. */
  lemma {:induction false} RunWithoutCreateNeverExits(s: FileState, template: Document, ops: seq<Op>)
    requires NoCreates(ops)
    ensures !Run(s, template, ops).exited
    ensures |Run(s, template, ops).replies| == |ops|
    decreases |ops|
  {
    if |ops| > 0 {
      assert NoCreates(ops[1..]) by {
        forall i | 0 <= i < |ops[1..]| ensures !ops[1..][i].Create? {
          assert ops[1..][i] == ops[i + 1];
        }
      }
      RunWithoutCreateNeverExits(Apply(s, template, ops[0]).after, template, ops[1..]);
    }
  }

  /** The key set is whatever creation wrote: the file is absent, unreadable after an interrupted creation, or has exactly the template's keys. */
  ghost predicate KeysClosed(template: Document, s: FileState)
  {
    s.Missing? || s.Corrupt? || (s.Doc? && s.doc.Keys == template.Keys)
  }

  /** No sequence of calls ever introduces a key the template did not have. */
  lemma {:induction false} RunKeepsKeysClosed(s: FileState, template: Document, ops: seq<Op>)
    requires KeysClosed(template, s)
    ensures KeysClosed(template, Run(s, template, ops).final)
    decreases |ops|
  {
    if |ops| > 0 {
      var c := Apply(s, template, ops[0]);
      if c.ret.Return? {
        if ops[0].Set? && s.Doc? {
          SetChangesOnlyKey(s, ops[0].key, ops[0].value, ops[0].io);
        }
        assert KeysClosed(template, c.after);
        RunKeepsKeysClosed(c.after, template, ops[1..]);
      }
    }
  }

  /**
   * Once the file holds a document, it always holds one with the same keys: sets go through the staging file,
   * so none leaves it half-written, and creation never touches an existing file.
   */
  lemma {:induction false} RunFromDocumentKeepsDocument(s: FileState, template: Document, ops: seq<Op>)
    requires s.Doc?
    ensures Run(s, template, ops).final.Doc?
    ensures Run(s, template, ops).final.doc.Keys == s.doc.Keys
    ensures !Run(s, template, ops).exited
    decreases |ops|
  {
    if |ops| > 0 {
      var c := Apply(s, template, ops[0]);
      if ops[0].Set? {
        SetChangesOnlyKey(s, ops[0].key, ops[0].value, ops[0].io);
      }
      RunFromDocumentKeepsDocument(c.after, template, ops[1..]);
    }
  }

  predicate AllGets(ops: seq<Op>)
  {
    forall i :: 0 <= i < |ops| ==> ops[i].Get?
  }

  /** Readers never write and never see each other: any run of gets leaves the file as it was, and each answers as it would alone. */
  lemma {:induction false} GetsOnlyRead(s: FileState, template: Document, ops: seq<Op>)
    requires AllGets(ops)
    ensures Run(s, template, ops).final == s
    ensures |Run(s, template, ops).replies| == |ops|
    ensures forall i :: 0 <= i < |ops| ==>
              Run(s, template, ops).replies[i] == Got(GetSettingsArg(s, ops[i].key, ops[i].opens).ret)
    decreases |ops|
  {
    if |ops| > 0 {
      var rest := Run(s, template, ops[1..]);
      assert AllGets(ops[1..]) by {
        forall i | 0 <= i < |ops[1..]| ensures ops[1..][i].Get? {
          assert ops[1..][i] == ops[i + 1];
        }
      }
      GetsOnlyRead(s, template, ops[1..]);
      var r := Run(s, template, ops);
      assert r.replies == [Got(GetSettingsArg(s, ops[0].key, ops[0].opens).ret)] + rest.replies;
      forall i | 0 < i < |ops|
        ensures r.replies[i] == Got(GetSettingsArg(s, ops[i].key, ops[i].opens).ret)
      {
        assert r.replies[i] == rest.replies[i - 1];
        assert ops[1..][i - 1] == ops[i];
      }
    }
  }

  /** Round trip: a set that reports success and whose commit goes through is seen by the next get. */
  lemma SetThenGet(s: FileState, key: string, value: Json, io: SetIo, opens: bool)
    requires SetSettingsArg(s, key, value, io).ret && io.commits && opens
    ensures GetSettingsArg(SetSettingsArg(s, key, value, io).after, key, opens).ret == Lookup(true, value)
  {
  }

  /** A set whose write is interrupted is invisible: every later get answers as before the set. */
  lemma InterruptedSetIsInvisible(s: FileState, key: string, value: Json, io: SetIo, k: string, opens: bool)
    requires !io.commits
    ensures GetSettingsArg(SetSettingsArg(s, key, value, io).after, k, opens) == GetSettingsArg(s, k, opens)
  {
  }

  /** The result is decided before the commit: an uncommitted write still reports success and leaves the old value. */
  lemma SuccessReportedWithoutCommit(d: Document, key: string, value: Json)
    requires key in d && d[key] != value
    ensures SetSettingsArg(Doc(d), key, value, SetIo(true, true, false)).ret
    ensures GetSettingsArg(SetSettingsArg(Doc(d), key, value, SetIo(true, true, false)).after, key, true).ret == Lookup(true, d[key])
  {
  }

  /**
   * The walk-through of the store's life: create `{"PREVIEW": ""}`, read it, set it, read it back,
   * and refuse an unknown key without touching the file.
   */
  lemma Walkthrough()
    ensures var ok := SetIo(true, true, true);
            var template := map["PREVIEW" := Str("")];
            var p0 := CreateSettings(Missing, template, true, true);
            var p1 := SetSettingsArg(p0.after, "PREVIEW", Str("abc/def.jpg"), ok);
            var p2 := SetSettingsArg(p1.after, "MISSING", Str("x"), ok);
            && p0.after == Doc(template)
            && GetSettingsArg(p0.after, "PREVIEW", true).ret == Lookup(true, Str(""))
            && p1.ret
            && GetSettingsArg(p1.after, "PREVIEW", true).ret == Lookup(true, Str("abc/def.jpg"))
            && !p2.ret && p2.after == p1.after
  {
  }
}
