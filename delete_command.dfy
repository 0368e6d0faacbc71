/** `istioctl delete`: a best-effort sweep. Every name on the command line (or every
    document of the -f input) is attempted in order; a failed Delete is recorded and the
    sweep goes on, and the failures come back together as one aggregated error. */
module DeleteCommand {
  import opened Wrappers
  import opened PilotModel
  import opened ConfigStore
  import opened Terminal
  import opened Istioctl

  function DeletedLine(shown: string, key: string): string
  {
    "Deleted config: " + shown + " " + key
  }

  /** The progress of a sweep: the store, what was printed, the failures so far (the key
      that could not be deleted, with the store's error), and whether the command panicked. */
  datatype Sweep = Sweep(state: StoreState, out: seq<string>, failures: seq<(string, string)>, panicked: bool)

  /** One attempt: Delete `key` of type `typ`; report a success with `shown` and the key,
      record a failure under the key. */
  function DeleteOne(b: Backend, s: Sweep, typ: string, shown: string, key: string): Sweep
  {
    var (st1, err) := DeleteStep(b, s.state, typ, key);
    match err
    case Some(e) => Sweep(st1, s.out, s.failures + [(key, e)], s.panicked)
    case None => Sweep(st1, s.out + [DeletedLine(shown, key)], s.failures, s.panicked)
  }

  /** One object a sweep deletes: its type, its key, and the type as the report line shows
      it (the token as typed on the command line, or the document's own type). */
  datatype Target = Target(typ: string, key: string, shown: string)

  /** The objects named on the command line, all of the resolved type. */
  function NameTargets(typ: string, token: string, names: seq<string>): seq<Target>
  {
    seq(|names|, i requires 0 <= i < |names| => Target(typ, names[i], token))
  }

  /** A sweep that attempts every target in order, whatever happened to the ones before. */
  function DeleteTargets(b: Backend, st: StoreState, ts: seq<Target>): Sweep
    decreases |ts|
  {
    if |ts| == 0 then Sweep(st, [], [], false)
    else
      var t := ts[|ts| - 1];
      DeleteOne(b, DeleteTargets(b, st, ts[..|ts| - 1]), t.typ, t.shown, t.key)
  }

  /** The key a document is deleted under: its own key when it has one; otherwise the key
      of its parsed spec, or the empty key when the spec does not parse. None stands for the
      panic of asking the zero schema for a key, on a type the store does not know. */
  function RecordKey(registry: seq<string>, b: Backend, c: RawConfig): Option<string>
  {
    if c.key != "" then Some(c.key)
    else
      match ParseSpec(registry, b.schemas, c)
      case Err(_) => Some(c.key)
      case Ok(msg) => KeyFor(b, c.typ, msg)
  }

  /** One document of the -f input, deleted under its own (unresolved) type. */
  function DeleteRecord(registry: seq<string>, b: Backend, s: Sweep, c: RawConfig): Sweep
  {
    match RecordKey(registry, b, c)
    case None => s.(panicked := true)
    case Some(key) => DeleteOne(b, s, c.typ, c.typ, key)
  }

  /** The loop over the documents of the -f input; a panic ends it. */
  function DeleteRecords(registry: seq<string>, b: Backend, st: StoreState, varr: seq<RawConfig>): Sweep
    decreases |varr|
  {
    if |varr| == 0 then Sweep(st, [], [], false)
    else
      var s := DeleteRecords(registry, b, st, varr[..|varr| - 1]);
      if s.panicked then s else DeleteRecord(registry, b, s, varr[|varr| - 1])
  }

  /** The command's result: a panic, success when nothing failed, or every failure at once. */
  function Finish(s: Sweep): Run
  {
    Run(s.state, s.out, false,
        if s.panicked then Panicked
        else if |s.failures| == 0 then Success
        else Failure(Aggregate(s.failures)))
  }

  /** deleteCmd's RunE. `file` is the -f flag ("" when absent) and `input` what reading and
      decoding it gave. */
  function DeleteRun(registry: seq<string>, b: Backend, st: StoreState, args: seq<string>, file: string,
                     input: Result<seq<RawConfig>, string>): Run
  {
    if file == "" then
      if |args| < 2 then Run(st, [], true, Failure(MissingTypeAndName))
      else
        match ResolveType(b.descriptor, args[0])
        case Err(e) => Run(st, [], false, Failure(e))
        case Ok(typ) => Finish(DeleteTargets(b, st, NameTargets(typ, args[0], args[1..])))
    else if |args| != 0 then Run(st, [], true, Failure(FileTakesNoArguments))
    else
      match input
      case Err(e) => Run(st, [], false, Failure(ReadFailed(e)))
      case Ok(varr) =>
        if |varr| == 0 then Run(st, [], false, Failure(NothingTo("delete")))
        else Finish(DeleteRecords(registry, b, st, varr))
  }

  /** deleteCmd's RunE over the store and the terminal. */
  method Delete(registry: seq<string>, store: Store, console: Console, args: seq<string>, usage: string,
                file: string, input: Result<seq<RawConfig>, string>) returns (outcome: Outcome)
    modifies store, console
    ensures var r := DeleteRun(registry, store.backend, old(store.State()), args, file, input);
      && store.State() == r.state && outcome == r.outcome
      && console.stdout == old(console.stdout) + r.out
      && console.stderr == old(console.stderr) + (if r.usage then [usage] else [])
  {
    var failures: seq<(string, string)>;
    var panicked := false;
    if file == "" {
      if |args| < 2 {
        console.PrintUsage(usage);
        return Failure(MissingTypeAndName);
      }
      var resolved := ResolveType(store.backend.descriptor, args[0]);
      if resolved.Err? {
        return Failure(resolved.error);
      }
      failures := DeleteByName(store, console, resolved.value, args[0], args[1..]);
    } else {
      if |args| != 0 {
        console.PrintUsage(usage);
        return Failure(FileTakesNoArguments);
      }
      if input.Err? {
        return Failure(ReadFailed(input.error));
      }
      var varr := input.value;
      if |varr| == 0 {
        return Failure(NothingTo("delete"));
      }
      failures, panicked := DeleteByFile(registry, store, console, varr);
    }
    if panicked {
      outcome := Panicked;
    } else if |failures| == 0 {
      outcome := Success;
    } else {
      outcome := Failure(Aggregate(failures));
    }
  }

  /** The loop over the names, collecting the failures. */
  method DeleteByName(store: Store, console: Console, typ: string, token: string, names: seq<string>)
    returns (failures: seq<(string, string)>)
    modifies store, console
    ensures var s := DeleteTargets(store.backend, old(store.State()), NameTargets(typ, token, names));
      && store.State() == s.state && failures == s.failures && !s.panicked
      && console.stdout == old(console.stdout) + s.out
      && console.stderr == old(console.stderr)
  {
    ghost var st0 := store.State();
    ghost var ts := NameTargets(typ, token, names);
    failures := [];
    for i := 0 to |names|
      invariant var s := DeleteTargets(store.backend, st0, ts[..i]);
        && store.State() == s.state && failures == s.failures && !s.panicked
        && console.stdout == old(console.stdout) + s.out
        && console.stderr == old(console.stderr)
    {
      ghost var s := DeleteTargets(store.backend, st0, ts[..i]);
      DeleteTargetsExtend(store.backend, st0, ts, i);
      assert ts[i] == Target(typ, names[i], token);
      DeleteOneVerdict(store.backend, s, typ, token, names[i]);
      var err := store.Delete(typ, names[i]);
      if err.Some? {
        failures := failures + [(names[i], err.value)];
      } else {
        console.Println(DeletedLine(token, names[i]));
        Appended(old(console.stdout), s.out, [DeletedLine(token, names[i])]);
      }
    }
    assert ts[..|names|] == ts;
  }

  /** The loop over the documents of the -f input, collecting the failures; it stops at a
      panic. */
  method DeleteByFile(registry: seq<string>, store: Store, console: Console, varr: seq<RawConfig>)
    returns (failures: seq<(string, string)>, panicked: bool)
    modifies store, console
    ensures var s := DeleteRecords(registry, store.backend, old(store.State()), varr);
      && store.State() == s.state && failures == s.failures && panicked == s.panicked
      && console.stdout == old(console.stdout) + s.out
      && console.stderr == old(console.stderr)
  {
    ghost var st0 := store.State();
    failures, panicked := [], false;
    for i := 0 to |varr|
      invariant var s := DeleteRecords(registry, store.backend, st0, varr[..i]);
        && store.State() == s.state && failures == s.failures && !s.panicked && !panicked
        && console.stdout == old(console.stdout) + s.out
        && console.stderr == old(console.stderr)
    {
      ghost var s := DeleteRecords(registry, store.backend, st0, varr[..i]);
      DeleteRecordsExtend(registry, store.backend, st0, varr, i);
      var key := RecordKey(registry, store.backend, varr[i]);
      if key.None? {
        panicked := true;
        DeleteRecordsStopped(registry, store.backend, st0, varr, i + 1);
        return;
      }
      DeleteOneVerdict(store.backend, s, varr[i].typ, varr[i].typ, key.value);
      var err := store.Delete(varr[i].typ, key.value);
      if err.Some? {
        failures := failures + [(key.value, err.value)];
      } else {
        console.Println(DeletedLine(varr[i].typ, key.value));
        Appended(old(console.stdout), s.out, [DeletedLine(varr[i].typ, key.value)]);
      }
    }
    assert varr[..|varr|] == varr;
  }

  /** The sweep over one more target. */
  lemma DeleteTargetsExtend(b: Backend, st: StoreState, ts: seq<Target>, i: nat)
    requires i < |ts|
    ensures DeleteTargets(b, st, ts[..i + 1])
      == DeleteOne(b, DeleteTargets(b, st, ts[..i]), ts[i].typ, ts[i].shown, ts[i].key)
  {
    assert ts[..i + 1][..i] == ts[..i];
  }

  /** The sweep over one more document. */
  lemma DeleteRecordsExtend(registry: seq<string>, b: Backend, st: StoreState, varr: seq<RawConfig>, i: nat)
    requires i < |varr|
    ensures var s := DeleteRecords(registry, b, st, varr[..i]);
      DeleteRecords(registry, b, st, varr[..i + 1]) == if s.panicked then s else DeleteRecord(registry, b, s, varr[i])
  {
    assert varr[..i + 1][..i] == varr[..i];
  }

  /** Once the sweep over the documents has panicked, the documents after it change nothing. */
  lemma {:induction false} DeleteRecordsStopped(registry: seq<string>, b: Backend, st: StoreState, varr: seq<RawConfig>, k: nat)
    requires k <= |varr| && DeleteRecords(registry, b, st, varr[..k]).panicked
    ensures DeleteRecords(registry, b, st, varr) == DeleteRecords(registry, b, st, varr[..k])
    decreases |varr| - k
  {
    if k < |varr| {
      assert varr[..k + 1][..k] == varr[..k];
      DeleteRecordsStopped(registry, b, st, varr, k + 1);
    } else {
      assert varr[..k] == varr;
    }
  }

  /** The store's verdict on each target's Delete, by the position of that call in the log. */
  function Verdicts(b: Backend, st: StoreState, ts: seq<Target>): seq<Option<string>>
  {
    seq(|ts|, i requires 0 <= i < |ts| => b.fault(|st.log| + i, DeleteCall(ts[i].typ, ts[i].key)))
  }

  /** The targets whose verdict is an error: the key with that error, in order. */
  function Rejected(ts: seq<Target>, verdicts: seq<Option<string>>): seq<(string, string)>
    requires |ts| == |verdicts|
  {
    if |ts| == 0 then []
    else
      var n := |ts| - 1;
      Rejected(ts[..n], verdicts[..n]) + (if verdicts[n].Some? then [(ts[n].key, verdicts[n].value)] else [])
  }

  /** The report lines of the targets whose verdict is a success, in order. */
  function Accepted(ts: seq<Target>, verdicts: seq<Option<string>>): seq<string>
    requires |ts| == |verdicts|
  {
    if |ts| == 0 then []
    else
      var n := |ts| - 1;
      Accepted(ts[..n], verdicts[..n]) + (if verdicts[n].None? then [DeletedLine(ts[n].shown, ts[n].key)] else [])
  }

  /** The calls a sweep over `ts` makes: one Delete per target, in order. */
  function DeleteCalls(ts: seq<Target>): seq<Call>
  {
    seq(|ts|, i requires 0 <= i < |ts| => DeleteCall(ts[i].typ, ts[i].key))
  }

  /** One attempt, in terms of the store's verdict on it. */
  lemma DeleteOneVerdict(b: Backend, s: Sweep, typ: string, shown: string, key: string)
    ensures var s1 := DeleteOne(b, s, typ, shown, key);
      var verdict := b.fault(|s.state.log|, DeleteCall(typ, key));
      && s1.state.log == s.state.log + [DeleteCall(typ, key)]
      && s1.panicked == s.panicked
      && s1.failures == s.failures + (if verdict.Some? then [(key, verdict.value)] else [])
      && s1.out == s.out + (if verdict.None? then [DeletedLine(shown, key)] else [])
  {
  }

  /** Every target is attempted, in order, whatever happened to the ones before it, and the
      sweep never panics. */
  lemma {:induction false} DeleteTargetsLog(b: Backend, st: StoreState, ts: seq<Target>)
    ensures var s := DeleteTargets(b, st, ts);
      s.state.log == st.log + DeleteCalls(ts) && !s.panicked
    decreases |ts|
  {
    if |ts| > 0 {
      var n := |ts| - 1;
      DeleteTargetsLog(b, st, ts[..n]);
      DeleteOneVerdict(b, DeleteTargets(b, st, ts[..n]), ts[n].typ, ts[n].shown, ts[n].key);
      assert DeleteCalls(ts) == DeleteCalls(ts[..n]) + [DeleteCall(ts[n].typ, ts[n].key)];
    }
  }

  /** The failures are exactly the targets the store refused, and the report lines exactly
      the ones it accepted, so each target ends up in one of the two. */
  lemma {:induction false} DeleteTargetsAttemptsAll(b: Backend, st: StoreState, ts: seq<Target>)
    ensures var s := DeleteTargets(b, st, ts);
      var verdicts := Verdicts(b, st, ts);
      && s.failures == Rejected(ts, verdicts)
      && s.out == Accepted(ts, verdicts)
      && |s.out| + |s.failures| == |ts|
    decreases |ts|
  {
    if |ts| > 0 {
      var n := |ts| - 1;
      DeleteTargetsAttemptsAll(b, st, ts[..n]);
      var s := DeleteTargets(b, st, ts[..n]);
      DeleteTargetsLog(b, st, ts[..n]);
      DeleteOneVerdict(b, s, ts[n].typ, ts[n].shown, ts[n].key);
      var verdicts := Verdicts(b, st, ts);
      assert verdicts[..n] == Verdicts(b, st, ts[..n]);
      assert |s.state.log| == |st.log| + n;
      assert verdicts[n] == b.fault(|s.state.log|, DeleteCall(ts[n].typ, ts[n].key));
    }
  }

  /** The object `c` is the one some target the store accepted names. */
  ghost predicate Removed(ts: seq<Target>, verdicts: seq<Option<string>>, c: Config)
    requires |ts| == |verdicts|
  {
    exists i :: 0 <= i < |ts| && verdicts[i].None? && ts[i].typ == c.typ && ts[i].key == c.key
  }

  /** After the sweep, an object is stored exactly when it was stored before and no target
      the store accepted to delete names its type and key. */
  lemma {:induction false} DeleteTargetsRemoves(b: Backend, st: StoreState, ts: seq<Target>)
    ensures var s := DeleteTargets(b, st, ts);
      var verdicts := Verdicts(b, st, ts);
      forall c :: c in s.state.records <==> c in st.records && !Removed(ts, verdicts, c)
    decreases |ts|
  {
    if |ts| > 0 {
      DeleteTargetsRemoves(b, st, ts[..|ts| - 1]);
      RemovesLast(b, st, ts);
    }
  }

  /** What DeleteTargetsRemoves states, as a property of a run of targets. */
  ghost predicate RemovesAccepted(b: Backend, st: StoreState, ts: seq<Target>)
  {
    var s := DeleteTargets(b, st, ts);
    var verdicts := Verdicts(b, st, ts);
    forall c :: c in s.state.records <==> c in st.records && !Removed(ts, verdicts, c)
  }

  /** One round of the induction behind DeleteTargetsRemoves. */
  lemma RemovesLast(b: Backend, st: StoreState, ts: seq<Target>)
    requires |ts| > 0 && RemovesAccepted(b, st, ts[..|ts| - 1])
    ensures RemovesAccepted(b, st, ts)
  {
    var n := |ts| - 1;
    var verdicts := Verdicts(b, st, ts);
    var s := DeleteTargets(b, st, ts[..n]);
    DeleteTargetsLog(b, st, ts[..n]);
    VerdictsPrefix(b, st, ts, n);
    DeleteOneRecords(b, s, ts[n].typ, ts[n].shown, ts[n].key);
    assert verdicts[n] == b.fault(|s.state.log|, DeleteCall(ts[n].typ, ts[n].key));
    forall c: Config
      ensures Removed(ts, verdicts, c) <==>
        Removed(ts[..n], verdicts[..n], c) || (verdicts[n].None? && ts[n].typ == c.typ && ts[n].key == c.key)
    {
      RemovedLast(ts, verdicts, c);
    }
  }

  /** The verdicts on the first n targets do not depend on the targets after them. */
  lemma VerdictsPrefix(b: Backend, st: StoreState, ts: seq<Target>, n: nat)
    requires n <= |ts|
    ensures Verdicts(b, st, ts)[..n] == Verdicts(b, st, ts[..n])
  {
  }

  /** One deletion removes the object under that type and key exactly when the store
      accepts it. */
  lemma DeleteOneRecords(b: Backend, s: Sweep, typ: string, shown: string, key: string)
    ensures var s1 := DeleteOne(b, s, typ, shown, key);
      var verdict := b.fault(|s.state.log|, DeleteCall(typ, key));
      forall c :: c in s1.state.records <==>
        c in s.state.records && !(verdict.None? && c.typ == typ && c.key == key)
  {
  }

  /** An object is removed by a run of targets exactly when it is removed by all but the
      last, or the last names it and the store accepted it. */
  lemma RemovedLast(ts: seq<Target>, verdicts: seq<Option<string>>, c: Config)
    requires |ts| == |verdicts| > 0
    ensures var n := |ts| - 1;
      Removed(ts, verdicts, c) <==>
        Removed(ts[..n], verdicts[..n], c) || (verdicts[n].None? && ts[n].typ == c.typ && ts[n].key == c.key)
  {
    var n := |ts| - 1;
    if Removed(ts, verdicts, c) {
      var i :| 0 <= i < |ts| && verdicts[i].None? && ts[i].typ == c.typ && ts[i].key == c.key;
      if i < n {
        assert ts[..n][i] == ts[i] && verdicts[..n][i] == verdicts[i];
      }
    }
    if Removed(ts[..n], verdicts[..n], c) {
      var i :| 0 <= i < n && verdicts[..n][i].None? && ts[..n][i].typ == c.typ && ts[..n][i].key == c.key;
      assert verdicts[i] == verdicts[..n][i] && ts[i] == ts[..n][i];
    }
  }

  /** The result of a delete by name: success exactly when the store accepted every name;
      otherwise one aggregated error listing every refused name with its error, in order;
      one "Deleted config" line for every accepted name, in order. */
  lemma DeleteByNameOutcome(registry: seq<string>, b: Backend, st: StoreState, args: seq<string>,
                            input: Result<seq<RawConfig>, string>)
    requires |args| >= 2 && ResolveType(b.descriptor, args[0]).Ok?
    ensures var ts := NameTargets(ResolveType(b.descriptor, args[0]).value, args[0], args[1..]);
      var verdicts := Verdicts(b, st, ts);
      var r := DeleteRun(registry, b, st, args, "", input);
      && !r.usage
      && r.state.log == st.log + DeleteCalls(ts)
      && r.out == Accepted(ts, verdicts)
      && (r.outcome == Success <==> forall i :: 0 <= i < |verdicts| ==> verdicts[i].None?)
      && (r.outcome != Success ==> r.outcome == Failure(Aggregate(Rejected(ts, verdicts))))
      && |r.out| + |Rejected(ts, verdicts)| == |args| - 1
  {
    var ts := NameTargets(ResolveType(b.descriptor, args[0]).value, args[0], args[1..]);
    DeleteTargetsLog(b, st, ts);
    DeleteTargetsAttemptsAll(b, st, ts);
    RejectedEmpty(ts, Verdicts(b, st, ts));
  }

  /** No failure is collected exactly when every verdict is a success. */
  lemma {:induction false} RejectedEmpty(ts: seq<Target>, verdicts: seq<Option<string>>)
    requires |ts| == |verdicts|
    ensures |Rejected(ts, verdicts)| == 0 <==> forall i :: 0 <= i < |verdicts| ==> verdicts[i].None?
    decreases |ts|
  {
    if |ts| > 0 {
      var n := |ts| - 1;
      RejectedEmpty(ts[..n], verdicts[..n]);
      if forall i :: 0 <= i < n ==> verdicts[..n][i].None? {
        assert forall i :: 0 <= i < n ==> verdicts[i].None? by {
          forall i | 0 <= i < n ensures verdicts[i].None? { assert verdicts[..n][i] == verdicts[i]; }
        }
      }
    }
  }

  /** The key cases for a document of the -f input: a given key is used as is; a missing
      one is computed from the parsed spec, is empty when the spec does not parse, and
      panics when the type is unknown to the store. */
  lemma RecordKeyCases(registry: seq<string>, b: Backend, c: RawConfig)
    ensures c.key != "" ==> RecordKey(registry, b, c) == Some(c.key)
    ensures c.key == "" && ParseSpec(registry, b.schemas, c).Err? ==> RecordKey(registry, b, c) == Some("")
    ensures c.key == "" && ParseSpec(registry, b.schemas, c).Ok? ==>
      (RecordKey(registry, b, c).None? <==> c.typ !in b.descriptor)
      && (c.typ in b.descriptor ==> RecordKey(registry, b, c) == Some(b.schemas.key(ParseSpec(registry, b.schemas, c).value)))
  {
  }

  /** The number of documents before the first one whose key panics (all of them when none
      does). */
  function FirstPanic(registry: seq<string>, b: Backend, varr: seq<RawConfig>): (k: nat)
    ensures k <= |varr|
    ensures forall i :: 0 <= i < k ==> RecordKey(registry, b, varr[i]).Some?
    ensures k < |varr| ==> RecordKey(registry, b, varr[k]).None?
    decreases |varr|
  {
    if |varr| == 0 then 0
    else if RecordKey(registry, b, varr[0]).None? then 0
    else 1 + FirstPanic(registry, b, varr[1..])
  }

  /** The targets of the documents before the first panic, in order: each document's own
      type and key, the type also being what its report line shows. */
  function RecordTargets(registry: seq<string>, b: Backend, varr: seq<RawConfig>, k: nat): seq<Target>
    requires k <= |varr| && forall i :: 0 <= i < k ==> RecordKey(registry, b, varr[i]).Some?
  {
    seq(k, i requires 0 <= i < k => Target(varr[i].typ, RecordKey(registry, b, varr[i]).value, varr[i].typ))
  }

  /** The sweep over the -f input is the sweep over the targets of the documents before the
      first one whose key panics, marked as panicked when there is such a document: it attempts
      those documents in order, under each one's type and key, and a panic ends the command. */
  lemma {:induction false} DeleteRecordsAttempts(registry: seq<string>, b: Backend, st: StoreState, varr: seq<RawConfig>)
    ensures var k := FirstPanic(registry, b, varr);
      DeleteRecords(registry, b, st, varr)
        == DeleteTargets(b, st, RecordTargets(registry, b, varr, k)).(panicked := k < |varr|)
    decreases |varr|
  {
    if |varr| > 0 {
      DeleteRecordsAttempts(registry, b, st, varr[..|varr| - 1]);
      RecordsAttemptedLast(registry, b, st, varr);
    }
  }

  /** What DeleteRecordsAttempts states, as a property of an input. */
  ghost predicate RecordsAttempted(registry: seq<string>, b: Backend, st: StoreState, varr: seq<RawConfig>)
  {
    var k := FirstPanic(registry, b, varr);
    DeleteRecords(registry, b, st, varr)
      == DeleteTargets(b, st, RecordTargets(registry, b, varr, k)).(panicked := k < |varr|)
  }

  /** One round of the induction behind DeleteRecordsAttempts: from all but the last
      document to the whole input. */
  lemma RecordsAttemptedLast(registry: seq<string>, b: Backend, st: StoreState, varr: seq<RawConfig>)
    requires |varr| > 0 && RecordsAttempted(registry, b, st, varr[..|varr| - 1])
    ensures RecordsAttempted(registry, b, st, varr)
  {
    var n := |varr| - 1;
    var pre := varr[..n];
    FirstPanicPrefix(registry, b, varr);
    var kp := FirstPanic(registry, b, pre);
    if kp < n {
      RecordTargetsPrefix(registry, b, varr, pre, kp);
    } else {
      RecordTargetsPrefix(registry, b, varr, pre, n);
      DeleteTargetsLog(b, st, RecordTargets(registry, b, pre, n));
      match RecordKey(registry, b, varr[n])
      case None =>
      case Some(key) =>
        var ts := RecordTargets(registry, b, varr, |varr|);
        assert ts[..n] == RecordTargets(registry, b, varr, n);
        assert ts[n] == Target(varr[n].typ, key, varr[n].typ);
    }
  }

  /** The targets before the k-th document depend only on the documents before it. */
  lemma RecordTargetsPrefix(registry: seq<string>, b: Backend, varr: seq<RawConfig>, pre: seq<RawConfig>, k: nat)
    requires 0 < |varr| && pre == varr[..|varr| - 1] && k <= |pre|
    requires forall i :: 0 <= i < k ==> RecordKey(registry, b, varr[i]).Some?
    ensures forall i :: 0 <= i < k ==> RecordKey(registry, b, pre[i]).Some?
    ensures RecordTargets(registry, b, pre, k) == RecordTargets(registry, b, varr, k)
  {
  }

  /** The result of delete -f on a non-empty input: the store sees one Delete per document
      before the first one whose key panics, under each document's type and key; one
      "Deleted config" line is printed for every Delete it accepted, in order; the objects
      those Deletes named are gone and nothing else changes. The command panics exactly when
      some document's key does; otherwise it succeeds exactly when the store accepted every
      Delete, and fails with one aggregated error listing every refused key with its error,
      in order. */
  lemma DeleteByFileOutcome(registry: seq<string>, b: Backend, st: StoreState, file: string, varr: seq<RawConfig>)
    requires file != "" && |varr| > 0
    ensures var k := FirstPanic(registry, b, varr);
      var ts := RecordTargets(registry, b, varr, k);
      var verdicts := Verdicts(b, st, ts);
      var r := DeleteRun(registry, b, st, [], file, Ok(varr));
      && !r.usage
      && r.state.log == st.log + DeleteCalls(ts)
      && r.out == Accepted(ts, verdicts)
      && (forall c :: c in r.state.records <==> c in st.records && !Removed(ts, verdicts, c))
      && (r.outcome == Panicked <==> k < |varr|)
      && (k == |varr| ==> (r.outcome == Success <==> forall i :: 0 <= i < |verdicts| ==> verdicts[i].None?))
      && (k == |varr| && r.outcome != Success ==> r.outcome == Failure(Aggregate(Rejected(ts, verdicts))))
  {
    var k := FirstPanic(registry, b, varr);
    var ts := RecordTargets(registry, b, varr, k);
    DeleteRecordsAttempts(registry, b, st, varr);
    DeleteTargetsLog(b, st, ts);
    DeleteTargetsAttemptsAll(b, st, ts);
    DeleteTargetsRemoves(b, st, ts);
    RejectedEmpty(ts, Verdicts(b, st, ts));
  }

  /** FirstPanic on the whole input against its value on all but the last document. */
  lemma FirstPanicPrefix(registry: seq<string>, b: Backend, varr: seq<RawConfig>)
    requires |varr| > 0
    ensures var n := |varr| - 1;
      var kp := FirstPanic(registry, b, varr[..n]);
      && (kp < n ==> FirstPanic(registry, b, varr) == kp)
      && (kp == n ==> FirstPanic(registry, b, varr) == (if RecordKey(registry, b, varr[n]).Some? then |varr| else n))
  {
    var n := |varr| - 1;
    var pre := varr[..n];
    var kp := FirstPanic(registry, b, pre);
    assert forall i :: 0 <= i < kp ==> RecordKey(registry, b, varr[i]).Some? by {
      forall i | 0 <= i < kp ensures RecordKey(registry, b, varr[i]).Some? { assert pre[i] == varr[i]; }
    }
    if kp < n {
      assert pre[kp] == varr[kp];
      FirstPanicIs(registry, b, varr, kp);
    } else if RecordKey(registry, b, varr[n]).Some? {
      FirstPanicIs(registry, b, varr, |varr|);
    } else {
      FirstPanicIs(registry, b, varr, n);
    }
  }

  /** FirstPanic is the only count with its two properties. */
  lemma FirstPanicIs(registry: seq<string>, b: Backend, varr: seq<RawConfig>, k: nat)
    requires k <= |varr| && forall i :: 0 <= i < k ==> RecordKey(registry, b, varr[i]).Some?
    requires k < |varr| ==> RecordKey(registry, b, varr[k]).None?
    ensures FirstPanic(registry, b, varr) == k
  {
    var f := FirstPanic(registry, b, varr);
    assert f < k ==> Keyed(registry, b, varr, f);
    assert f > k ==> Keyed(registry, b, varr, k);
  }

  /** The document at position i exists and has a key. */
  ghost predicate Keyed(registry: seq<string>, b: Backend, varr: seq<RawConfig>, i: int)
  {
    0 <= i < |varr| && RecordKey(registry, b, varr[i]).Some?
  }

  /** The refusals of the command line: without the -f flag, fewer than a type and a name
      print the usage; a type that does not resolve fails without the usage; with the flag,
      any argument prints the usage; an unreadable or empty input fails. None of them calls
      the store. */
  lemma DeleteRefusals(registry: seq<string>, b: Backend, st: StoreState, args: seq<string>, file: string,
                       input: Result<seq<RawConfig>, string>)
    ensures file == "" && |args| < 2 ==>
      DeleteRun(registry, b, st, args, file, input) == Run(st, [], true, Failure(MissingTypeAndName))
    ensures file == "" && |args| >= 2 && ResolveType(b.descriptor, args[0]).Err? ==>
      DeleteRun(registry, b, st, args, file, input) == Run(st, [], false, Failure(ResolveType(b.descriptor, args[0]).error))
    ensures file != "" && |args| != 0 ==>
      DeleteRun(registry, b, st, args, file, input) == Run(st, [], true, Failure(FileTakesNoArguments))
    ensures file != "" && |args| == 0 && input.Err? ==>
      DeleteRun(registry, b, st, args, file, input) == Run(st, [], false, Failure(ReadFailed(input.error)))
    ensures file != "" && |args| == 0 && input == Ok([]) ==>
      DeleteRun(registry, b, st, args, file, input) == Run(st, [], false, Failure(NothingTo("delete")))
  {
  }
}
