/** `istioctl create` and `istioctl replace`: fail-fast batches over the input documents.
    Each document is parsed and written in input order; the first error ends the command
    and no later document reaches the store. Replace fills in a missing revision from a
    point lookup before it writes. */
module CreateReplace {
  import opened Wrappers
  import opened PilotModel
  import opened ConfigStore
  import opened Terminal
  import opened Istioctl

  datatype Verb = CreateVerb | ReplaceVerb

  function VerbName(v: Verb): string
  {
    match v
    case CreateVerb => "create"
    case ReplaceVerb => "replace"
  }

  function CreatedLine(typ: string, key: string, revision: string): string
  {
    "Created config " + typ + " " + key + " at revision " + revision
  }

  function UpdatedLine(typ: string, key: string, revision: string): string
  {
    "Updated config " + typ + " " + key + " to revision " + revision
  }

  /** The revision a Get reports: the stored one, or "" when nothing was found. */
  function RevisionOf(found: Option<Config>): string
  {
    if found.Some? then found.value.revision else ""
  }

  function Failed(st: StoreState, e: Error): Run
  {
    Run(st, [], false, Failure(e))
  }

  /** A run with `lines` printed before its own output. */
  function Prefixed(lines: seq<string>, r: Run): Run
  {
    r.(out := lines + r.out)
  }

  /** One document of create: parse it, Post it, report the key and the new revision. */
  function CreateStep(registry: seq<string>, b: Backend, st: StoreState, c: RawConfig): Run
  {
    match ParseSpec(registry, b.schemas, c)
    case Err(e) => Failed(st, BadSpec(e))
    case Ok(msg) =>
      var (st1, posted) := PostStep(b, st, msg);
      match posted
      case Err(e) => Failed(st1, StoreFailed(e))
      case Ok(rev) =>
        match KeyFor(b, c.typ, msg)
        case None => Run(st1, [], false, Panicked)
        case Some(key) => Run(st1, [CreatedLine(c.typ, key, rev)], false, Success)
  }

  /** One document of replace: parse it; when it names no revision, take the revision of
      the stored object with its key (or "" when there is none); Put; report. */
  function ReplaceStep(registry: seq<string>, b: Backend, st: StoreState, c: RawConfig): Run
  {
    match ParseSpec(registry, b.schemas, c)
    case Err(e) => Failed(st, BadSpec(e))
    case Ok(msg) =>
      if c.revision != "" then PutAndReport(b, st, c, msg)
      else match KeyFor(b, c.typ, msg)
        case None => Run(st, [], false, Panicked)
        case Some(key) =>
          var (st1, found) := GetStep(b, st, c.typ, key);
          PutAndReport(b, st1, c.(revision := RevisionOf(found)), msg)
  }

  function PutAndReport(b: Backend, st: StoreState, c: RawConfig, msg: Message): Run
  {
    var (st1, put) := PutStep(b, st, msg, c.revision);
    match put
    case Err(e) => Failed(st1, StoreFailed(e))
    case Ok(rev) =>
      match KeyFor(b, c.typ, msg)
      case None => Run(st1, [], false, Panicked)
      case Some(key) => Run(st1, [UpdatedLine(c.typ, key, rev)], false, Success)
  }

  function Step(v: Verb, registry: seq<string>, b: Backend, st: StoreState, c: RawConfig): Run
  {
    match v
    case CreateVerb => CreateStep(registry, b, st, c)
    case ReplaceVerb => ReplaceStep(registry, b, st, c)
  }

  /** The loop over the documents: stop at the first document that does not succeed. */
  function FailFast(v: Verb, registry: seq<string>, b: Backend, st: StoreState, batch: seq<RawConfig>): Run
    decreases |batch|
  {
    if |batch| == 0 then Run(st, [], false, Success)
    else
      var first := Step(v, registry, b, st, batch[0]);
      if !first.outcome.Success? then first
      else Prefixed(first.out, FailFast(v, registry, b, first.state, batch[1..]))
  }

  /** The whole command: no positional argument, readable and non-empty input, then the loop.
      `input` is what reading and decoding the -f file (or standard input) gave. */
  function Command(v: Verb, registry: seq<string>, b: Backend, st: StoreState, args: seq<string>,
                   input: Result<seq<RawConfig>, string>): Run
  {
    if |args| != 0 then Run(st, [], true, Failure(TakesNoArguments(VerbName(v))))
    else match input
      case Err(e) => Failed(st, ReadFailed(e))
      case Ok(batch) =>
        if |batch| == 0 then Failed(st, NothingTo(VerbName(v)))
        else FailFast(v, registry, b, st, batch)
  }

  lemma PrefixedNothing(r: Run)
    ensures Prefixed([], r) == r
  {
    assert [] + r.out == r.out;
  }

  lemma PrefixedTwice(p: seq<string>, q: seq<string>, r: Run)
    ensures Prefixed(p, Prefixed(q, r)) == Prefixed(p + q, r)
  {
    assert p + (q + r.out) == (p + q) + r.out;
  }

  lemma FailFastUnfold(v: Verb, registry: seq<string>, b: Backend, st: StoreState, batch: seq<RawConfig>, i: nat)
    requires i < |batch|
    ensures var first := Step(v, registry, b, st, batch[i]);
      FailFast(v, registry, b, st, batch[i..])
        == if !first.outcome.Success? then first
           else Prefixed(first.out, FailFast(v, registry, b, first.state, batch[i + 1..]))
  {
    assert batch[i..][0] == batch[i];
    assert batch[i..][1..] == batch[i + 1..];
  }

  /** postCmd's RunE. */
  method Create(registry: seq<string>, store: Store, console: Console, args: seq<string>, usage: string,
                input: Result<seq<RawConfig>, string>) returns (outcome: Outcome)
    modifies store, console
    ensures var r := Command(CreateVerb, registry, store.backend, old(store.State()), args, input);
      && store.State() == r.state && outcome == r.outcome
      && console.stdout == old(console.stdout) + r.out
      && console.stderr == old(console.stderr) + (if r.usage then [usage] else [])
  {
    outcome := Execute(CreateVerb, registry, store, console, args, usage, input);
  }

  /** putCmd's RunE. */
  method Replace(registry: seq<string>, store: Store, console: Console, args: seq<string>, usage: string,
                 input: Result<seq<RawConfig>, string>) returns (outcome: Outcome)
    modifies store, console
    ensures var r := Command(ReplaceVerb, registry, store.backend, old(store.State()), args, input);
      && store.State() == r.state && outcome == r.outcome
      && console.stdout == old(console.stdout) + r.out
      && console.stderr == old(console.stderr) + (if r.usage then [usage] else [])
  {
    outcome := Execute(ReplaceVerb, registry, store, console, args, usage, input);
  }

  /** The shape the two RunE bodies share: argument and input checks, then the loop. */
  method Execute(v: Verb, registry: seq<string>, store: Store, console: Console, args: seq<string>, usage: string,
                 input: Result<seq<RawConfig>, string>) returns (outcome: Outcome)
    modifies store, console
    ensures var r := Command(v, registry, store.backend, old(store.State()), args, input);
      && store.State() == r.state && outcome == r.outcome
      && console.stdout == old(console.stdout) + r.out
      && console.stderr == old(console.stderr) + (if r.usage then [usage] else [])
  {
    if |args| != 0 {
      console.PrintUsage(usage);
      return Failure(TakesNoArguments(VerbName(v)));
    }
    if input.Err? {
      return Failure(ReadFailed(input.error));
    }
    var varr := input.value;
    if |varr| == 0 {
      return Failure(NothingTo(VerbName(v)));
    }
    outcome := Batch(v, registry, store, console, varr);
    FailFastCount(v, registry, store.backend, old(store.State()), varr);
  }

  /** The loop over the documents, returning at the first document that fails. */
  method Batch(v: Verb, registry: seq<string>, store: Store, console: Console, varr: seq<RawConfig>)
    returns (outcome: Outcome)
    modifies store, console
    ensures var r := FailFast(v, registry, store.backend, old(store.State()), varr);
      && store.State() == r.state && outcome == r.outcome
      && console.stdout == old(console.stdout) + r.out
      && console.stderr == old(console.stderr)
  {
    ghost var st0 := store.State();
    ghost var printed: seq<string> := [];
    assert varr[0..] == varr;
    for i := 0 to |varr|
      invariant console.stdout == old(console.stdout) + printed
      invariant console.stderr == old(console.stderr)
      invariant FailFast(v, registry, store.backend, st0, varr)
        == Prefixed(printed, FailFast(v, registry, store.backend, store.State(), varr[i..]))
    {
      var done;
      ghost var lines;
      outcome, done, lines := BatchRound(v, registry, store, console, varr, i, st0, printed);
      Appended(old(console.stdout), printed, lines);
      printed := printed + lines;
      if done {
        return;
      }
    }
    return Success;
  }

  /** One round of the loop: the i-th document, then either the end of the command or the
      loop's invariant for the next round. */
  method BatchRound(v: Verb, registry: seq<string>, store: Store, console: Console, varr: seq<RawConfig>, i: nat,
                    ghost st0: StoreState, ghost printed: seq<string>)
    returns (outcome: Outcome, done: bool, ghost lines: seq<string>)
    requires i < |varr|
    requires FailFast(v, registry, store.backend, st0, varr)
      == Prefixed(printed, FailFast(v, registry, store.backend, store.State(), varr[i..]))
    modifies store, console
    ensures console.stdout == old(console.stdout) + lines
    ensures console.stderr == old(console.stderr)
    ensures done == !outcome.Success?
    ensures done ==> (var r := FailFast(v, registry, store.backend, st0, varr);
      store.State() == r.state && outcome == r.outcome && printed + lines == r.out)
    ensures !done ==>
      (FailFast(v, registry, store.backend, st0, varr)
         == Prefixed(printed + lines, FailFast(v, registry, store.backend, store.State(), varr[i + 1..])))
  {
    ghost var st := store.State();
    ghost var r := Step(v, registry, store.backend, st, varr[i]);
    FailFastUnfold(v, registry, store.backend, st, varr, i);
    outcome := Document(v, registry, store, console, varr[i]);
    done := !outcome.Success?;
    lines := r.out;
    if !done {
      PrefixedTwice(printed, r.out, FailFast(v, registry, store.backend, r.state, varr[i + 1..]));
    }
  }

  /** The body of the loop: one document. */
  method Document(v: Verb, registry: seq<string>, store: Store, console: Console, config: RawConfig)
    returns (outcome: Outcome)
    modifies store, console
    ensures var r := Step(v, registry, store.backend, old(store.State()), config);
      && store.State() == r.state && outcome == r.outcome
      && console.stdout == old(console.stdout) + r.out
      && console.stderr == old(console.stderr)
  {
    match v
    case CreateVerb => outcome := CreateDocument(registry, store, console, config);
    case ReplaceVerb => outcome := ReplaceDocument(registry, store, console, config);
  }

  /** The body of postCmd's loop. */
  method CreateDocument(registry: seq<string>, store: Store, console: Console, config: RawConfig)
    returns (outcome: Outcome)
    modifies store, console
    ensures var r := CreateStep(registry, store.backend, old(store.State()), config);
      && store.State() == r.state && outcome == r.outcome
      && console.stdout == old(console.stdout) + r.out
      && console.stderr == old(console.stderr)
  {
    var spec := ParseSpec(registry, store.backend.schemas, config);
    if spec.Err? {
      return Failure(BadSpec(spec.error));
    }
    var rev := store.Post(spec.value);
    if rev.Err? {
      return Failure(StoreFailed(rev.error));
    }
    var key := KeyFor(store.backend, config.typ, spec.value);
    if key.None? {
      return Panicked;
    }
    console.Println(CreatedLine(config.typ, key.value, rev.value));
    return Success;
  }

  /** The body of putCmd's loop; `config` is the loop's copy, whose revision it fills in. */
  method ReplaceDocument(registry: seq<string>, store: Store, console: Console, config: RawConfig)
    returns (outcome: Outcome)
    modifies store, console
    ensures var r := ReplaceStep(registry, store.backend, old(store.State()), config);
      && store.State() == r.state && outcome == r.outcome
      && console.stdout == old(console.stdout) + r.out
      && console.stderr == old(console.stderr)
  {
    var config := config;
    var spec := ParseSpec(registry, store.backend.schemas, config);
    if spec.Err? {
      return Failure(BadSpec(spec.error));
    }
    if config.revision == "" {
      var key := KeyFor(store.backend, config.typ, spec.value);
      if key.None? {
        return Panicked;
      }
      var found := store.Get(config.typ, key.value);
      config := config.(revision := RevisionOf(found));
    }
    var newRev := store.Put(spec.value, config.revision);
    if newRev.Err? {
      return Failure(StoreFailed(newRev.error));
    }
    var key := KeyFor(store.backend, config.typ, spec.value);
    if key.None? {
      return Panicked;
    }
    console.Println(UpdatedLine(config.typ, key.value, newRev.value));
    return Success;
  }

  /** Each document prints one line when it succeeds and none when it does not. */
  lemma StepReport(v: Verb, registry: seq<string>, b: Backend, st: StoreState, c: RawConfig)
    ensures var r := Step(v, registry, b, st, c);
      !r.usage && |r.out| == (if r.outcome.Success? then 1 else 0)
  {
  }

  /** The loop never prints the usage text, prints one line per document that succeeded,
      and succeeds exactly when every document did. */
  lemma {:induction false} FailFastCount(v: Verb, registry: seq<string>, b: Backend, st: StoreState, batch: seq<RawConfig>)
    ensures var r := FailFast(v, registry, b, st, batch);
      && !r.usage
      && |r.out| <= |batch|
      && (r.outcome.Success? <==> |r.out| == |batch|)
    decreases |batch|
  {
    if |batch| > 0 {
      StepReport(v, registry, b, st, batch[0]);
      var first := Step(v, registry, b, st, batch[0]);
      if first.outcome.Success? {
        FailFastCount(v, registry, b, first.state, batch[1..]);
      }
    }
  }

  /** Before any document is read: positional arguments are refused with the usage text,
      unreadable input and input without documents are refused, and no store call is made. */
  lemma CommandRefusals(v: Verb, registry: seq<string>, b: Backend, st: StoreState, args: seq<string>,
                        input: Result<seq<RawConfig>, string>)
    ensures |args| != 0 ==>
      Command(v, registry, b, st, args, input) == Run(st, [], true, Failure(TakesNoArguments(VerbName(v))))
    ensures |args| == 0 && input.Err? ==>
      Command(v, registry, b, st, args, input) == Run(st, [], false, Failure(ReadFailed(input.error)))
    ensures |args| == 0 && input == Ok([]) ==>
      Command(v, registry, b, st, args, input) == Run(st, [], false, Failure(NothingTo(VerbName(v))))
  {
  }

  /** Once a prefix of the batch has gone through, the rest runs from the state it left. */
  lemma {:induction false} FailFastAppend(v: Verb, registry: seq<string>, b: Backend, st: StoreState,
                                          pre: seq<RawConfig>, rest: seq<RawConfig>)
    requires FailFast(v, registry, b, st, pre).outcome.Success?
    ensures var p := FailFast(v, registry, b, st, pre);
      FailFast(v, registry, b, st, pre + rest) == Prefixed(p.out, FailFast(v, registry, b, p.state, rest))
    decreases |pre|
  {
    if |pre| == 0 {
      assert pre + rest == rest;
      PrefixedNothing(FailFast(v, registry, b, st, rest));
    } else {
      var first := Step(v, registry, b, st, pre[0]);
      assert (pre + rest)[0] == pre[0];
      assert (pre + rest)[1..] == pre[1..] + rest;
      FailFastAppend(v, registry, b, first.state, pre[1..], rest);
      var p' := FailFast(v, registry, b, first.state, pre[1..]);
      PrefixedTwice(first.out, p'.out, FailFast(v, registry, b, p'.state, rest));
    }
  }

  /** Fail-fast: when the documents before `c` went through and `c` fails, the command ends
      with `c`'s failure, and no document after it reaches the store or the output. */
  lemma FailFastStops(v: Verb, registry: seq<string>, b: Backend, st: StoreState,
                      pre: seq<RawConfig>, c: RawConfig, post: seq<RawConfig>)
    requires FailFast(v, registry, b, st, pre).outcome.Success?
    requires !Step(v, registry, b, FailFast(v, registry, b, st, pre).state, c).outcome.Success?
    ensures var p := FailFast(v, registry, b, st, pre);
      FailFast(v, registry, b, st, pre + [c] + post) == Prefixed(p.out, Step(v, registry, b, p.state, c))
  {
    assert pre + [c] + post == pre + ([c] + post);
    FailFastAppend(v, registry, b, st, pre, [c] + post);
    assert ([c] + post)[0] == c;
  }

  /** Create, document by document: an unparsable document makes no store call; a parsed one
      makes exactly one Post of its message, and fails exactly when that Post does, with the
      Post's error; success prints its type, its key and the revision that Post assigned.
      Create never panics: the key is computed only after a successful Post, and the store
      refuses a Post whose type its descriptor lacks (WriteFault), so the type is known by
      then. */
  lemma CreateStepCalls(registry: seq<string>, b: Backend, st: StoreState, c: RawConfig)
    ensures var r := CreateStep(registry, b, st, c);
      var p := ParseSpec(registry, b.schemas, c);
      && (p.Err? ==> r == Failed(st, BadSpec(p.error)))
      && (p.Ok? ==> r.state.log == st.log + [PostCall(p.value)])
      && (p.Ok? ==> (r.outcome.Success? <==> WriteFault(b, |st.log|, PostCall(p.value), p.value).None?))
      && (p.Ok? && !r.outcome.Success? ==>
            r.out == [] && r.outcome == Failure(StoreFailed(WriteFault(b, |st.log|, PostCall(p.value), p.value).value)))
      && (r.outcome.Success? ==>
            p.Ok? && r.out == [CreatedLine(c.typ, b.schemas.key(p.value), b.revision(|st.log|))])
  {
  }

  /** The calls a run of the loop adds to the store's log. */
  function NewCalls(st: StoreState, r: Run): seq<Call>
    requires st.log <= r.state.log
  {
    r.state.log[|st.log|..]
  }

  /** The loop only appends to the store's log. */
  lemma {:induction false} FailFastKeepsLog(v: Verb, registry: seq<string>, b: Backend, st: StoreState, batch: seq<RawConfig>)
    ensures st.log <= FailFast(v, registry, b, st, batch).state.log
    decreases |batch|
  {
    if |batch| > 0 {
      var first := Step(v, registry, b, st, batch[0]);
      if first.outcome.Success? {
        FailFastKeepsLog(v, registry, b, first.state, batch[1..]);
      }
    }
  }

  /** The i-th call is the Post of the i-th document's parsed message, for every call. */
  ghost predicate PostsMatch(registry: seq<string>, b: Backend, batch: seq<RawConfig>, calls: seq<Call>)
  {
    && |calls| <= |batch|
    && forall i :: 0 <= i < |calls| ==>
         ParseSpec(registry, b.schemas, batch[i]).Ok?
         && calls[i] == PostCall(ParseSpec(registry, b.schemas, batch[i]).value)
  }

  /** The i-th line reports the i-th document's type and key and the revision of the write
      at log position `base + i`, for every line. */
  ghost predicate ReportsMatch(registry: seq<string>, b: Backend, base: nat, batch: seq<RawConfig>, out: seq<string>)
  {
    && |out| <= |batch|
    && forall i :: 0 <= i < |out| ==>
         ParseSpec(registry, b.schemas, batch[i]).Ok?
         && out[i] == CreatedLine(batch[i].typ, b.schemas.key(ParseSpec(registry, b.schemas, batch[i]).value),
                                  b.revision(base + i))
  }

  lemma PostsMatchCons(registry: seq<string>, b: Backend, batch: seq<RawConfig>, call: Call, rest: seq<Call>)
    requires |batch| > 0 && ParseSpec(registry, b.schemas, batch[0]).Ok?
    requires call == PostCall(ParseSpec(registry, b.schemas, batch[0]).value)
    requires PostsMatch(registry, b, batch[1..], rest)
    ensures PostsMatch(registry, b, batch, [call] + rest)
  {
    var calls := [call] + rest;
    forall i | 0 <= i < |calls|
      ensures ParseSpec(registry, b.schemas, batch[i]).Ok?
      ensures calls[i] == PostCall(ParseSpec(registry, b.schemas, batch[i]).value)
    {
      if i > 0 {
        assert calls[i] == rest[i - 1] && batch[i] == batch[1..][i - 1];
      }
    }
  }

  lemma ReportsMatchCons(registry: seq<string>, b: Backend, base: nat, batch: seq<RawConfig>, line: string, rest: seq<string>)
    requires |batch| > 0 && ParseSpec(registry, b.schemas, batch[0]).Ok?
    requires line == CreatedLine(batch[0].typ, b.schemas.key(ParseSpec(registry, b.schemas, batch[0]).value), b.revision(base))
    requires ReportsMatch(registry, b, base + 1, batch[1..], rest)
    ensures ReportsMatch(registry, b, base, batch, [line] + rest)
  {
    var out := [line] + rest;
    forall i | 0 <= i < |out|
      ensures ParseSpec(registry, b.schemas, batch[i]).Ok?
      ensures out[i] == CreatedLine(batch[i].typ, b.schemas.key(ParseSpec(registry, b.schemas, batch[i]).value),
                                    b.revision(base + i))
    {
      if i > 0 {
        assert out[i] == rest[i - 1] && batch[i] == batch[1..][i - 1];
        assert base + 1 + (i - 1) == base + i;
      }
    }
  }

  /** What a create batch promises about its calls and its output. */
  ghost predicate CreatesInOrder(registry: seq<string>, b: Backend, st: StoreState, batch: seq<RawConfig>)
  {
    var r := FailFast(CreateVerb, registry, b, st, batch);
    && st.log <= r.state.log
    && |r.out| <= |NewCalls(st, r)| <= |r.out| + 1
    && PostsMatch(registry, b, batch, NewCalls(st, r))
    && ReportsMatch(registry, b, |st.log|, batch, r.out)
  }

  /** One round of the induction behind CreatePostsInOrder. */
  lemma CreatesInOrderFirst(registry: seq<string>, b: Backend, st: StoreState, batch: seq<RawConfig>)
    requires |batch| > 0
    requires var first := CreateStep(registry, b, st, batch[0]);
      first.outcome.Success? ==> CreatesInOrder(registry, b, first.state, batch[1..])
    ensures CreatesInOrder(registry, b, st, batch)
  {
    var r := FailFast(CreateVerb, registry, b, st, batch);
    var first := CreateStep(registry, b, st, batch[0]);
    CreateStepCalls(registry, b, st, batch[0]);
    if first.outcome.Success? {
      var rest := FailFast(CreateVerb, registry, b, first.state, batch[1..]);
      var msg := ParseSpec(registry, b.schemas, batch[0]).value;
      assert r.state == rest.state && r.out == first.out + rest.out;
      assert NewCalls(st, r) == [PostCall(msg)] + NewCalls(first.state, rest);
      PostsMatchCons(registry, b, batch, PostCall(msg), NewCalls(first.state, rest));
      assert |first.state.log| == |st.log| + 1;
      ReportsMatchCons(registry, b, |st.log|, batch, first.out[0], rest.out);
      assert first.out == [first.out[0]];
    } else {
      assert r == first;
      if ParseSpec(registry, b.schemas, batch[0]).Ok? {
        assert NewCalls(st, r) == [PostCall(ParseSpec(registry, b.schemas, batch[0]).value)];
      } else {
        assert NewCalls(st, r) == [];
      }
    }
  }

  /** Create over a whole batch, its calls and its output: the store receives one Post per
      document attempted, in input order, at most one beyond the documents reported; the i-th
      output line reports the i-th document's type and key and the revision the store
      assigned to its Post. */
  lemma {:induction false} CreatePostsInOrder(registry: seq<string>, b: Backend, st: StoreState, batch: seq<RawConfig>)
    ensures var r := FailFast(CreateVerb, registry, b, st, batch);
      && st.log <= r.state.log
      && |r.out| <= |NewCalls(st, r)| <= |r.out| + 1
      && PostsMatch(registry, b, batch, NewCalls(st, r))
      && ReportsMatch(registry, b, |st.log|, batch, r.out)
    decreases |batch|
  {
    if |batch| > 0 {
      var first := CreateStep(registry, b, st, batch[0]);
      if first.outcome.Success? {
        CreatePostsInOrder(registry, b, first.state, batch[1..]);
      }
      CreatesInOrderFirst(registry, b, st, batch);
    }
  }

  /** What create's result says about the first document that was not reported: it is
      the one that failed, with a parse error when the store saw no call for it and with the
      error of its Post otherwise. */
  ghost predicate FailsAtFirstUnreported(registry: seq<string>, b: Backend, st: StoreState, batch: seq<RawConfig>)
  {
    var r := FailFast(CreateVerb, registry, b, st, batch);
    && st.log <= r.state.log
    && (!r.outcome.Success? ==>
          var k := |r.out|;
          && k < |batch|
          && (|NewCalls(st, r)| == k ==>
                ParseSpec(registry, b.schemas, batch[k]).Err?
                && r.outcome == Failure(BadSpec(ParseSpec(registry, b.schemas, batch[k]).error)))
          && (|NewCalls(st, r)| != k ==>
                ParseSpec(registry, b.schemas, batch[k]).Ok?
                && var msg := ParseSpec(registry, b.schemas, batch[k]).value;
                   WriteFault(b, |st.log| + k, PostCall(msg), msg).Some?
                   && r.outcome == Failure(StoreFailed(WriteFault(b, |st.log| + k, PostCall(msg), msg).value))))
  }

  /** One round of the induction behind CreateFirstFailure. */
  lemma FailsAtFirstUnreportedFirst(registry: seq<string>, b: Backend, st: StoreState, batch: seq<RawConfig>)
    requires |batch| > 0
    requires var first := CreateStep(registry, b, st, batch[0]);
      first.outcome.Success? ==> FailsAtFirstUnreported(registry, b, first.state, batch[1..])
    ensures FailsAtFirstUnreported(registry, b, st, batch)
  {
    var r := FailFast(CreateVerb, registry, b, st, batch);
    var first := CreateStep(registry, b, st, batch[0]);
    CreateStepCalls(registry, b, st, batch[0]);
    if first.outcome.Success? {
      var rest := FailFast(CreateVerb, registry, b, first.state, batch[1..]);
      assert r.state == rest.state && r.out == first.out + rest.out && r.outcome == rest.outcome;
      if !r.outcome.Success? {
        assert |NewCalls(st, r)| == 1 + |NewCalls(first.state, rest)|;
        assert batch[|r.out|] == batch[1..][|rest.out|];
        assert |first.state.log| + |rest.out| == |st.log| + |r.out|;
      }
    } else {
      assert r == first;
      if ParseSpec(registry, b.schemas, batch[0]).Ok? {
        assert NewCalls(st, r) == [PostCall(ParseSpec(registry, b.schemas, batch[0]).value)];
      } else {
        assert NewCalls(st, r) == [];
      }
    }
  }

  /** Create over a whole batch, its result: success exactly when every document was
      created; otherwise the error of the first document that failed, which is the document
      right after the reported ones — a parse error, when the store saw no call for it, or
      the error its Post got, at its position in the log. */
  lemma {:induction false} CreateFirstFailure(registry: seq<string>, b: Backend, st: StoreState, batch: seq<RawConfig>)
    ensures var r := FailFast(CreateVerb, registry, b, st, batch);
      && (r.outcome.Success? <==> |r.out| == |batch|)
      && FailsAtFirstUnreported(registry, b, st, batch)
    decreases |batch|
  {
    FailFastCount(CreateVerb, registry, b, st, batch);
    if |batch| == 0 {
      assert st.log <= FailFast(CreateVerb, registry, b, st, batch).state.log;
    } else {
      var first := CreateStep(registry, b, st, batch[0]);
      if first.outcome.Success? {
        CreateFirstFailure(registry, b, first.state, batch[1..]);
      }
      FailsAtFirstUnreportedFirst(registry, b, st, batch);
    }
  }

  /** Replace, document by document: a document whose spec does not parse fails with that
      error and makes no call; a document with a revision is Put with that revision and
      no lookup; a document without one first gets exactly one Get by its type and key, and
      the Put that follows carries the revision that Get returned: the stored object's, or ""
      when none is found or the lookup fails. */
  lemma ReplaceStepRevision(registry: seq<string>, b: Backend, st: StoreState, c: RawConfig)
    ensures var p := ParseSpec(registry, b.schemas, c);
      p.Err? ==> ReplaceStep(registry, b, st, c) == Failed(st, BadSpec(p.error))
    ensures ParseSpec(registry, b.schemas, c).Ok? ==>
      var msg := ParseSpec(registry, b.schemas, c).value;
      var r := ReplaceStep(registry, b, st, c);
      && (c.revision != "" ==> r.state.log == st.log + [PutCall(msg, c.revision)])
      && (c.revision == "" && c.typ in b.descriptor ==>
            var key := b.schemas.key(msg);
            var found := GetStep(b, st, c.typ, key).1;
            && r.state.log == st.log + [GetCall(c.typ, key), PutCall(msg, RevisionOf(found))]
            && RevisionOf(found) == (if b.fault(|st.log|, GetCall(c.typ, key)).None? && Lookup(st.records, c.typ, key).Some?
                                     then Lookup(st.records, c.typ, key).value.revision else ""))
      && (c.revision == "" && c.typ !in b.descriptor ==> r == Run(st, [], false, Panicked))
      && (c.revision != "" ==>
            var f := WriteFault(b, |st.log|, PutCall(msg, c.revision), msg);
            && (r.outcome.Success? <==> f.None?)
            && (f.Some? ==> r.outcome == Failure(StoreFailed(f.value)) && r.out == [])
            && (f.None? ==> r.out == [UpdatedLine(c.typ, b.schemas.key(msg), b.revision(|st.log|))]))
  {
  }

  /** One document without a revision, of a type the store knows: a Get then a Put of that
      document, and a report line exactly when the Put succeeded. */
  lemma ReplaceStepLooksUp(registry: seq<string>, b: Backend, st: StoreState, c: RawConfig)
    requires c.revision == "" && ParseSpec(registry, b.schemas, c).Ok? && c.typ in b.descriptor
    ensures var msg := ParseSpec(registry, b.schemas, c).value;
      var r := ReplaceStep(registry, b, st, c);
      && |r.state.log| == |st.log| + 2
      && r.state.log[..|st.log|] == st.log
      && r.state.log[|st.log|] == GetCall(c.typ, b.schemas.key(msg))
      && r.state.log[|st.log| + 1].PutCall? && r.state.log[|st.log| + 1].content == msg
      && |r.out| == (if r.outcome.Success? then 1 else 0)
      && var key := b.schemas.key(msg);
      var f := WriteFault(b, |st.log| + 1, PutCall(msg, RevisionOf(GetStep(b, st, c.typ, key).1)), msg);
      && (r.outcome.Success? <==> f.None?)
      && (f.Some? ==> r.outcome == Failure(StoreFailed(f.value)) && r.out == [])
      && (f.None? ==> r.out == [UpdatedLine(c.typ, key, b.revision(|st.log| + 1))])
  {
    ReplaceStepRevision(registry, b, st, c);
    StepReport(ReplaceVerb, registry, b, st, c);
  }

  /** Indexing past the first part of a concatenation. */
  lemma AppendIndex<T>(pre: seq<T>, rest: seq<T>, j: int)
    requires |pre| <= j < |pre| + |rest|
    ensures (pre + rest)[j] == rest[j - |pre|]
  {
  }

  /** Documents that all lack a revision, parse, and have types the store knows. */
  ghost predicate AllLookedUp(registry: seq<string>, b: Backend, batch: seq<RawConfig>)
  {
    forall i :: 0 <= i < |batch| ==>
      batch[i].revision == "" && ParseSpec(registry, b.schemas, batch[i]).Ok? && batch[i].typ in b.descriptor
  }

  /** The batch form of the lookup rule, counted: for such documents the store sees two calls
      per document attempted, so a successful replace of n documents makes exactly 2n calls. */
  lemma {:induction false} ReplaceCallCount(registry: seq<string>, b: Backend, st: StoreState, batch: seq<RawConfig>)
    requires AllLookedUp(registry, b, batch)
    ensures var r := FailFast(ReplaceVerb, registry, b, st, batch);
      && st.log <= r.state.log
      && |NewCalls(st, r)| == 2 * |r.out| + (if r.outcome.Success? then 0 else 2)
      && |NewCalls(st, r)| <= 2 * |batch|
      && (r.outcome.Success? ==> |NewCalls(st, r)| == 2 * |batch|)
    decreases |batch|
  {
    var r := FailFast(ReplaceVerb, registry, b, st, batch);
    FailFastKeepsLog(ReplaceVerb, registry, b, st, batch);
    FailFastCount(ReplaceVerb, registry, b, st, batch);
    if |batch| > 0 {
      var first := ReplaceStep(registry, b, st, batch[0]);
      ReplaceStepLooksUp(registry, b, st, batch[0]);
      if first.outcome.Success? {
        var rest := FailFast(ReplaceVerb, registry, b, first.state, batch[1..]);
        AllLookedUpTail(registry, b, batch);
        ReplaceCallCount(registry, b, first.state, batch[1..]);
        FailFastKeepsLog(ReplaceVerb, registry, b, first.state, batch[1..]);
        assert |NewCalls(st, r)| == 2 + |NewCalls(first.state, rest)|;
      }
    }
  }

  /** The i-th pair of calls is the Get of the i-th document's key followed by the Put of
      that document, for every complete pair. */
  ghost predicate PairsMatch(registry: seq<string>, b: Backend, batch: seq<RawConfig>, calls: seq<Call>)
    requires AllLookedUp(registry, b, batch)
  {
    forall i :: 0 <= i < |batch| && 2 * i + 1 < |calls| ==>
      var msg := ParseSpec(registry, b.schemas, batch[i]).value;
      && calls[2 * i] == GetCall(batch[i].typ, b.schemas.key(msg))
      && calls[2 * i + 1].PutCall? && calls[2 * i + 1].content == msg
  }

  lemma AllLookedUpTail(registry: seq<string>, b: Backend, batch: seq<RawConfig>)
    requires |batch| > 0 && AllLookedUp(registry, b, batch)
    ensures AllLookedUp(registry, b, batch[1..])
  {
    forall i | 0 <= i < |batch[1..]|
      ensures batch[1..][i].revision == "" && ParseSpec(registry, b.schemas, batch[1..][i]).Ok?
              && batch[1..][i].typ in b.descriptor
    {
      assert batch[1..][i] == batch[i + 1];
    }
  }

  /** A matching first pair in front of matching pairs for the rest of the batch. */
  lemma PairsMatchCons(registry: seq<string>, b: Backend, batch: seq<RawConfig>, pair: seq<Call>, rest: seq<Call>)
    requires |batch| > 0 && AllLookedUp(registry, b, batch) && AllLookedUp(registry, b, batch[1..])
    requires |pair| == 2 && PairsMatch(registry, b, batch[..1], pair)
    requires PairsMatch(registry, b, batch[1..], rest)
    ensures PairsMatch(registry, b, batch, pair + rest)
  {
    var calls := pair + rest;
    forall i | 0 <= i < |batch| && 2 * i + 1 < |calls|
      ensures var msg := ParseSpec(registry, b.schemas, batch[i]).value;
        && calls[2 * i] == GetCall(batch[i].typ, b.schemas.key(msg))
        && calls[2 * i + 1].PutCall? && calls[2 * i + 1].content == msg
    {
      if i == 0 {
        assert batch[..1][0] == batch[0];
      } else {
        var j := i - 1;
        assert batch[i] == batch[1..][j];
        var msg := ParseSpec(registry, b.schemas, batch[i]).value;
        assert rest[2 * j] == GetCall(batch[i].typ, b.schemas.key(msg));
        assert rest[2 * j + 1].PutCall? && rest[2 * j + 1].content == msg;
        AppendIndex(pair, rest, 2 * i);
        AppendIndex(pair, rest, 2 * i + 1);
      }
    }
  }

  /** The calls a replace of documents without revisions makes, as a property of a run. */
  ghost predicate LooksUpEach(registry: seq<string>, b: Backend, st: StoreState, batch: seq<RawConfig>)
    requires AllLookedUp(registry, b, batch)
  {
    var r := FailFast(ReplaceVerb, registry, b, st, batch);
    && st.log <= r.state.log
    && |NewCalls(st, r)| <= 2 * |batch|
    && PairsMatch(registry, b, batch, NewCalls(st, r))
  }

  /** One round of the induction behind ReplaceLooksUpEachDocument. */
  lemma ReplaceLooksUpFirst(registry: seq<string>, b: Backend, st: StoreState, batch: seq<RawConfig>)
    requires |batch| > 0 && AllLookedUp(registry, b, batch) && AllLookedUp(registry, b, batch[1..])
    requires var first := ReplaceStep(registry, b, st, batch[0]);
      first.outcome.Success? ==> LooksUpEach(registry, b, first.state, batch[1..])
    ensures LooksUpEach(registry, b, st, batch)
  {
    var r := FailFast(ReplaceVerb, registry, b, st, batch);
    var first := ReplaceStep(registry, b, st, batch[0]);
    var pair := first.state.log[|st.log|..];
    assert |pair| == 2 && PairsMatch(registry, b, batch[..1], pair) && st.log <= first.state.log by {
      ReplaceStepLooksUp(registry, b, st, batch[0]);
      assert batch[..1][0] == batch[0];
    }
    if first.outcome.Success? {
      var rest := FailFast(ReplaceVerb, registry, b, first.state, batch[1..]);
      assert r.state == rest.state;
      assert NewCalls(st, r) == pair + NewCalls(first.state, rest);
      PairsMatchCons(registry, b, batch, pair, NewCalls(first.state, rest));
    } else {
      assert r.state == first.state;
      assert NewCalls(st, r) == pair;
    }
  }

  /** The batch form of the lookup rule, in order: the i-th pair of calls is the Get of the
      i-th document's key followed by the Put of that document. */
  lemma {:induction false} ReplaceLooksUpEachDocument(registry: seq<string>, b: Backend, st: StoreState, batch: seq<RawConfig>)
    requires AllLookedUp(registry, b, batch)
    ensures var r := FailFast(ReplaceVerb, registry, b, st, batch);
      && st.log <= r.state.log
      && |NewCalls(st, r)| <= 2 * |batch|
      && PairsMatch(registry, b, batch, NewCalls(st, r))
    decreases |batch|
  {
    if |batch| > 0 {
      AllLookedUpTail(registry, b, batch);
      var first := ReplaceStep(registry, b, st, batch[0]);
      if first.outcome.Success? {
        ReplaceLooksUpEachDocument(registry, b, first.state, batch[1..]);
      }
      ReplaceLooksUpFirst(registry, b, st, batch);
    }
  }

  /** The run over the first i documents of a batch whose first document went through is
      that document's run followed by the run over the next i - 1 documents. */
  lemma FailFastPrefixAfterFirst(v: Verb, registry: seq<string>, b: Backend, st: StoreState, batch: seq<RawConfig>, i: nat)
    requires 0 < i <= |batch|
    requires Step(v, registry, b, st, batch[0]).outcome.Success?
    ensures var first := Step(v, registry, b, st, batch[0]);
      FailFast(v, registry, b, st, batch[..i])
        == Prefixed(first.out, FailFast(v, registry, b, first.state, batch[1..][..i - 1]))
  {
    assert batch[..i][0] == batch[0];
    assert batch[..i][1..] == batch[1..][..i - 1];
  }

  /** The i-th Put of a replace carries the revision that a Get of the i-th document's key
      returns from the store as the documents before it left it, for every Put made. */
  ghost predicate RevisionsMatch(registry: seq<string>, b: Backend, st: StoreState, batch: seq<RawConfig>, calls: seq<Call>)
    requires AllLookedUp(registry, b, batch)
  {
    forall i :: 0 <= i < |batch| && 2 * i + 1 < |calls| ==>
      var msg := ParseSpec(registry, b.schemas, batch[i]).value;
      var before := FailFast(ReplaceVerb, registry, b, st, batch[..i]).state;
      calls[2 * i + 1] == PutCall(msg, RevisionOf(GetStep(b, before, batch[i].typ, b.schemas.key(msg)).1))
  }

  /** A first Put with the looked-up revision in front of matching Puts for the rest. */
  lemma RevisionsMatchCons(registry: seq<string>, b: Backend, st: StoreState, batch: seq<RawConfig>,
                           pair: seq<Call>, rest: seq<Call>)
    requires |batch| > 0 && AllLookedUp(registry, b, batch) && AllLookedUp(registry, b, batch[1..])
    requires ReplaceStep(registry, b, st, batch[0]).outcome.Success?
    requires var msg := ParseSpec(registry, b.schemas, batch[0]).value;
      |pair| == 2 && pair[1] == PutCall(msg, RevisionOf(GetStep(b, st, batch[0].typ, b.schemas.key(msg)).1))
    requires RevisionsMatch(registry, b, ReplaceStep(registry, b, st, batch[0]).state, batch[1..], rest)
    ensures RevisionsMatch(registry, b, st, batch, pair + rest)
  {
    var first := ReplaceStep(registry, b, st, batch[0]);
    var calls := pair + rest;
    forall i | 0 <= i < |batch| && 2 * i + 1 < |calls|
      ensures var msg := ParseSpec(registry, b.schemas, batch[i]).value;
        var before := FailFast(ReplaceVerb, registry, b, st, batch[..i]).state;
        calls[2 * i + 1] == PutCall(msg, RevisionOf(GetStep(b, before, batch[i].typ, b.schemas.key(msg)).1))
    {
      if i == 0 {
        assert batch[..0] == [];
      } else {
        FailFastPrefixAfterFirst(ReplaceVerb, registry, b, st, batch, i);
        RevisionsMatchShift(registry, b, st, first.state, batch, pair, rest, i);
      }
    }
  }

  /** The i-th Put of the whole batch is the (i-1)-th Put of the rest, when the store before
      the i-th document is the one the rest's run leaves before its (i-1)-th. */
  lemma RevisionsMatchShift(registry: seq<string>, b: Backend, st: StoreState, mid: StoreState,
                            batch: seq<RawConfig>, pair: seq<Call>, rest: seq<Call>, i: nat)
    requires 0 < i < |batch| && |pair| == 2 && 2 * i + 1 < |pair + rest|
    requires AllLookedUp(registry, b, batch) && AllLookedUp(registry, b, batch[1..])
    requires FailFast(ReplaceVerb, registry, b, st, batch[..i]).state
      == FailFast(ReplaceVerb, registry, b, mid, batch[1..][..i - 1]).state
    requires RevisionsMatch(registry, b, mid, batch[1..], rest)
    ensures var msg := ParseSpec(registry, b.schemas, batch[i]).value;
      var before := FailFast(ReplaceVerb, registry, b, st, batch[..i]).state;
      (pair + rest)[2 * i + 1] == PutCall(msg, RevisionOf(GetStep(b, before, batch[i].typ, b.schemas.key(msg)).1))
  {
    var j := i - 1;
    assert batch[i] == batch[1..][j];
    var msg := ParseSpec(registry, b.schemas, batch[i]).value;
    var before := FailFast(ReplaceVerb, registry, b, mid, batch[1..][..j]).state;
    assert rest[2 * j + 1] == PutCall(msg, RevisionOf(GetStep(b, before, batch[i].typ, b.schemas.key(msg)).1));
    AppendIndex(pair, rest, 2 * i + 1);
  }

  /** What a replace of documents without revisions promises about the revisions it sends. */
  ghost predicate PutsFoundRevisions(registry: seq<string>, b: Backend, st: StoreState, batch: seq<RawConfig>)
    requires AllLookedUp(registry, b, batch)
  {
    var r := FailFast(ReplaceVerb, registry, b, st, batch);
    st.log <= r.state.log && RevisionsMatch(registry, b, st, batch, NewCalls(st, r))
  }

  /** One round of the induction behind ReplacePutsFoundRevisions. */
  lemma PutsFoundRevisionsFirst(registry: seq<string>, b: Backend, st: StoreState, batch: seq<RawConfig>)
    requires |batch| > 0 && AllLookedUp(registry, b, batch) && AllLookedUp(registry, b, batch[1..])
    requires var first := ReplaceStep(registry, b, st, batch[0]);
      first.outcome.Success? ==> PutsFoundRevisions(registry, b, first.state, batch[1..])
    ensures PutsFoundRevisions(registry, b, st, batch)
  {
    var r := FailFast(ReplaceVerb, registry, b, st, batch);
    var first := ReplaceStep(registry, b, st, batch[0]);
    var msg := ParseSpec(registry, b.schemas, batch[0]).value;
    var pair := first.state.log[|st.log|..];
    assert |pair| == 2 && st.log <= first.state.log
      && pair[1] == PutCall(msg, RevisionOf(GetStep(b, st, batch[0].typ, b.schemas.key(msg)).1)) by {
      ReplaceStepRevision(registry, b, st, batch[0]);
    }
    if first.outcome.Success? {
      var rest := FailFast(ReplaceVerb, registry, b, first.state, batch[1..]);
      assert r.state == rest.state;
      assert NewCalls(st, r) == pair + NewCalls(first.state, rest);
      RevisionsMatchCons(registry, b, st, batch, pair, NewCalls(first.state, rest));
    } else {
      assert r.state == first.state;
      assert NewCalls(st, r) == pair;
      assert batch[..0] == [];
    }
  }

  /** The batch form of the revision rule: the i-th Put of a replace carries the revision the
      i-th document's Get returned, looked up in the store as the earlier documents left it
      (the stored object's revision, or "" when it is absent or the Get failed). */
  lemma {:induction false} ReplacePutsFoundRevisions(registry: seq<string>, b: Backend, st: StoreState, batch: seq<RawConfig>)
    requires AllLookedUp(registry, b, batch)
    ensures var r := FailFast(ReplaceVerb, registry, b, st, batch);
      && st.log <= r.state.log
      && RevisionsMatch(registry, b, st, batch, NewCalls(st, r))
    decreases |batch|
  {
    if |batch| > 0 {
      AllLookedUpTail(registry, b, batch);
      var first := ReplaceStep(registry, b, st, batch[0]);
      if first.outcome.Success? {
        ReplacePutsFoundRevisions(registry, b, first.state, batch[1..]);
      }
      PutsFoundRevisionsFirst(registry, b, st, batch);
    }
  }
}
