/** `istioctl get <type> [<name>]`: a point lookup by name, or a listing of every object of
    the type, printed in the format the -o flag selects. Get never changes what is stored;
    it makes at most one call on the store. */
module GetCommand {
  import opened Wrappers
  import opened PilotModel
  import opened ConfigStore
  import opened Terminal
  import opened Istioctl
  import opened Output

  const NoResources: string := "No resources found."

  /** The objects a point lookup yields: the found object, keyed afresh by its type's key
      function, or nothing when the store reported it absent. */
  function Fetched(b: Backend, typ: string, found: Option<Config>): seq<Config>
  {
    match found
    case None => []
    case Some(c) => [Config(typ, b.schemas.key(c.content), c.revision, c.content)]
  }

  /** What is printed once the objects are known: a notice for an empty result, whatever
      the format; otherwise the chosen printer's lines, or an error for an unknown format. */
  function Report(schemas: Schemas, configs: seq<Config>, format: string): (seq<string>, Outcome)
  {
    if |configs| == 0 then ([NoResources], Success)
    else if format in Outputters then (Render(Outputters[format], schemas, configs), Success)
    else ([], Failure(UnknownFormat(format)))
  }

  /** getCmd's RunE. */
  function GetRun(b: Backend, st: StoreState, args: seq<string>, format: string): Run
  {
    if |args| < 1 then Run(st, [], true, Failure(MissingType(b.descriptor)))
    else
      match ResolveType(b.descriptor, args[0])
      case Err(e) => Run(st, [], true, Failure(e))
      case Ok(typ) =>
        if |args| > 1 then
          var (st1, found) := GetStep(b, st, typ, args[1]);
          var (out, outcome) := Report(b.schemas, Fetched(b, typ, found), format);
          Run(st1, out, false, outcome)
        else
          var (st1, listed) := ListStep(b, st, typ);
          match listed
          case Err(e) => Run(st1, [], false, Failure(StoreFailed(e)))
          case Ok(configs) =>
            var (out, outcome) := Report(b.schemas, configs, format);
            Run(st1, out, false, outcome)
  }

  /** getCmd's RunE over the store and the terminal. */
  method Get(store: Store, console: Console, args: seq<string>, usage: string, format: string)
    returns (outcome: Outcome)
    modifies store, console
    ensures var r := GetRun(store.backend, old(store.State()), args, format);
      && store.State() == r.state && outcome == r.outcome
      && console.stdout == old(console.stdout) + r.out
      && console.stderr == old(console.stderr) + (if r.usage then [usage] else [])
  {
    if |args| < 1 {
      console.PrintUsage(usage);
      return Failure(MissingType(store.backend.descriptor));
    }
    var resolved := ResolveType(store.backend.descriptor, args[0]);
    if resolved.Err? {
      console.PrintUsage(usage);
      return Failure(resolved.error);
    }
    var typ := resolved.value;
    var configs: seq<Config>;
    if |args| > 1 {
      var found := store.Get(typ, args[1]);
      configs := Fetched(store.backend, typ, found);
    } else {
      var listed := store.List(typ);
      if listed.Err? {
        return Failure(StoreFailed(listed.error));
      }
      configs := listed.value;
    }
    outcome := Show(console, store.backend.schemas, configs, format);
  }

  /** The tail of getCmd's RunE: the empty-result notice, or the printer for the format. */
  method Show(console: Console, schemas: Schemas, configs: seq<Config>, format: string)
    returns (outcome: Outcome)
    modifies console
    ensures var (out, o) := Report(schemas, configs, format);
      && outcome == o
      && console.stdout == old(console.stdout) + out
      && console.stderr == old(console.stderr)
  {
    if |configs| == 0 {
      console.Println(NoResources);
      return Success;
    }
    if format !in Outputters {
      return Failure(UnknownFormat(format));
    }
    match Outputters[format] {
      case Yaml => PrintYamlOutput(console, schemas, configs);
      case Short => PrintShortOutput(console, configs);
    }
    outcome := Success;
  }

  /** The refusals: without a type, or with a token that names no type, get prints its usage,
      fails with the matching error, and leaves the store untouched. */
  lemma GetRefusals(b: Backend, st: StoreState, args: seq<string>, format: string)
    ensures |args| < 1 ==> GetRun(b, st, args, format) == Run(st, [], true, Failure(MissingType(b.descriptor)))
    ensures |args| >= 1 && ResolveType(b.descriptor, args[0]).Err? ==>
      GetRun(b, st, args, format) == Run(st, [], true, Failure(ResolveType(b.descriptor, args[0]).error))
    ensures GetRun(b, st, args, format).usage <==> |args| < 1 || ResolveType(b.descriptor, args[0]).Err?
  {
  }

  /** Get is read-only: the stored objects never change, and the store sees exactly one call
      (a Get for a name, a List otherwise) when the type resolves, and none when it does not. */
  lemma GetCallsStoreOnce(b: Backend, st: StoreState, args: seq<string>, format: string)
    ensures var r := GetRun(b, st, args, format);
      && r.state.records == st.records
      && (|args| < 1 || ResolveType(b.descriptor, args[0]).Err? ==> r.state.log == st.log)
      && (|args| > 1 && ResolveType(b.descriptor, args[0]).Ok? ==>
            r.state.log == st.log + [GetCall(ResolveType(b.descriptor, args[0]).value, args[1])])
      && (|args| == 1 && ResolveType(b.descriptor, args[0]).Ok? ==>
            r.state.log == st.log + [ListCall(ResolveType(b.descriptor, args[0]).value)])
  {
  }

  /** The report's cases: an empty result is a notice and a success whatever the format;
      a non-empty one succeeds exactly when the format is yaml or short, and the short format
      prints one key per object, in order. */
  lemma ReportCases(schemas: Schemas, configs: seq<Config>, format: string)
    ensures var (out, outcome) := Report(schemas, configs, format);
      && (|configs| == 0 ==> out == [NoResources] && outcome == Success)
      && (|configs| > 0 ==> (outcome.Success? <==> format == "yaml" || format == "short"))
      && (|configs| > 0 && !outcome.Success? ==> out == [] && outcome == Failure(UnknownFormat(format)))
      && (|configs| > 0 && format == "short" ==>
            |out| == |configs| && forall i :: 0 <= i < |configs| ==> out[i] == configs[i].key)
      && (|configs| > 0 && format == "yaml" ==> |out| >= 5 * |configs|)
  {
    if |configs| > 0 && format == "yaml" {
      YamlLinesLength(schemas, configs);
    }
  }

  /** A point lookup by name: when the store reports nothing (absent, or the call failed) the
      command prints the notice and succeeds whatever the format; when it finds the object,
      the short format prints that object's key. */
  lemma GetByName(b: Backend, st: StoreState, args: seq<string>, format: string)
    requires |args| > 1 && ResolveType(b.descriptor, args[0]).Ok?
    ensures var typ := ResolveType(b.descriptor, args[0]).value;
      var r := GetRun(b, st, args, format);
      var absent := b.fault(|st.log|, GetCall(typ, args[1])).Some? || Lookup(st.records, typ, args[1]).None?;
      && !r.usage
      && (absent ==> r.out == [NoResources] && r.outcome == Success)
      && (!absent && format == "short" ==>
            r.outcome == Success && r.out == [b.schemas.key(Lookup(st.records, typ, args[1]).value.content)])
      && (!absent ==> (r.outcome.Success? <==> format in Outputters))
  {
    var typ := ResolveType(b.descriptor, args[0]).value;
    var found := GetStep(b, st, typ, args[1]).1;
    ReportCases(b.schemas, Fetched(b, typ, found), format);
  }

  /** The report on the objects of one type among the stored records: the notice when none
      is stored; otherwise success exactly for a known format, and the short format prints the
      key of every one. */
  lemma ReportOfType(schemas: Schemas, records: seq<Config>, typ: string, format: string)
    ensures var (out, outcome) := Report(schemas, OfType(records, typ), format);
      && ((forall c :: c in records ==> c.typ != typ) ==> out == [NoResources] && outcome == Success)
      && ((exists c :: c in records && c.typ == typ) ==> (outcome.Success? <==> format in Outputters))
      && (format == "short" ==> forall c :: c in records && c.typ == typ ==> c.key in out)
  {
    var configs := OfType(records, typ);
    ReportCases(schemas, configs, format);
    if |configs| > 0 {
      assert configs[0] in records && configs[0].typ == typ;
    }
    if exists c :: c in records && c.typ == typ {
      var c :| c in records && c.typ == typ;
      assert c in configs;
    }
    if format == "short" {
      var out := Report(schemas, configs, format).0;
      forall c | c in records && c.typ == typ
        ensures c.key in out
      {
        assert c in configs;
        var i :| 0 <= i < |configs| && configs[i] == c;
        assert out[i] == c.key;
      }
    }
  }

  /** A listing: a failed List is returned as the error with nothing printed; otherwise the
      notice when no object of the type is stored, success exactly for a known format when
      some is, and the short format prints the key of every stored object of that type. */
  lemma GetListing(b: Backend, st: StoreState, args: seq<string>, format: string)
    requires |args| == 1 && ResolveType(b.descriptor, args[0]).Ok?
    ensures var typ := ResolveType(b.descriptor, args[0]).value;
      var r := GetRun(b, st, args, format);
      var fault := b.fault(|st.log|, ListCall(typ));
      && !r.usage
      && (fault.Some? ==> r.out == [] && r.outcome == Failure(StoreFailed(fault.value)))
      && (fault.None? ==>
            && ((forall c :: c in st.records ==> c.typ != typ) ==> r.out == [NoResources] && r.outcome == Success)
            && ((exists c :: c in st.records && c.typ == typ) ==> (r.outcome.Success? <==> format in Outputters))
            && (format == "short" ==> forall c :: c in st.records && c.typ == typ ==> c.key in r.out))
  {
    var typ := ResolveType(b.descriptor, args[0]).value;
    if b.fault(|st.log|, ListCall(typ)).None? {
      var report := Report(b.schemas, OfType(st.records, typ), format);
      assert GetRun(b, st, args, format) == Run(Logged(st, ListCall(typ)), report.0, false, report.1);
      ReportOfType(b.schemas, st.records, typ, format);
    }
  }
}
