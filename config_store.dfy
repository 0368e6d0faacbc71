/** The configuration store the command layer drives (model.ConfigStore, backed in the
    program by a Kubernetes client). Its persistence and transport are not modelled:
    the store is a list of configuration objects plus a log of every call it receives,
    and whether a call fails, and which revision a write assigns, are decided by fixed
    functions of the call's position in the log. Every statement proved over all such
    functions therefore holds for every pattern of failures. */
module ConfigStore {
  import opened Wrappers
  import opened PilotModel

  /** One call received by the store, with its arguments. */
  datatype Call =
    | GetCall(typ: string, key: string)
    | PostCall(content: Message)
    | PutCall(content: Message, revision: string)
    | DeleteCall(typ: string, key: string)
    | ListCall(typ: string)

  /** The fixed behaviour of one store instance:
      - descriptor: the configuration types it recognises (ConfigDescriptor().Types());
      - schemas: the schema behaviour it shares with the client;
      - fault: Some(error) when the call at log position n fails;
      - revision: the revision assigned by a successful write at log position n. */
  datatype Backend = Backend(
    descriptor: seq<string>,
    schemas: Schemas,
    fault: (nat, Call) -> Option<string>,
    revision: nat -> string)

  datatype StoreState = StoreState(records: seq<Config>, log: seq<Call>)

  /** The first stored object with this type and key. */
  function Lookup(records: seq<Config>, typ: string, key: string): (r: Option<Config>)
    ensures r.Some? ==> r.value in records && r.value.typ == typ && r.value.key == key
    ensures r.None? ==> forall c :: c in records ==> !(c.typ == typ && c.key == key)
  {
    if |records| == 0 then None
    else if records[0].typ == typ && records[0].key == key then Some(records[0])
    else Lookup(records[1..], typ, key)
  }

  /** The stored objects other than those with this type and key, in order. */
  function Without(records: seq<Config>, typ: string, key: string): (r: seq<Config>)
    ensures forall c :: c in r <==> c in records && !(c.typ == typ && c.key == key)
  {
    if |records| == 0 then []
    else
      var rest := Without(records[1..], typ, key);
      assert forall c :: c in records <==> c == records[0] || c in records[1..];
      if records[0].typ == typ && records[0].key == key then rest else [records[0]] + rest
  }

  /** The stored objects of one type, in order. */
  function OfType(records: seq<Config>, typ: string): (r: seq<Config>)
    ensures forall c :: c in r <==> c in records && c.typ == typ
  {
    if |records| == 0 then []
    else
      var rest := OfType(records[1..], typ);
      assert forall c :: c in records <==> c == records[0] || c in records[1..];
      if records[0].typ == typ then [records[0]] + rest else rest
  }

  /** The state with one more call recorded. */
  function Logged(st: StoreState, call: Call): StoreState
  {
    st.(log := st.log + [call])
  }

  /** Get(typ, key): the stored object, or None when it is absent or the call fails. */
  function GetStep(b: Backend, st: StoreState, typ: string, key: string): (StoreState, Option<Config>)
  {
    var call := GetCall(typ, key);
    (Logged(st, call), if b.fault(|st.log|, call).Some? then None else Lookup(st.records, typ, key))
  }

  /** Whether a write at log position n fails, and with which error. A message whose type
      is outside the descriptor is always refused as of an unrecognized type, whatever
      `fault` says: this stands for the Kubernetes-backed client, which looks the type up in
      its own table before it sends anything and fails with that error when it is missing
      (the client's code is not part of this model). Otherwise `fault` decides. */
  function WriteFault(b: Backend, n: nat, call: Call, content: Message): Option<string>
  {
    if content.kind !in b.descriptor then Some("unrecognized type " + content.kind)
    else b.fault(n, call)
  }

  /** Post and Put: a write of `content` under its own type and key. The write fails as
      WriteFault says; otherwise it replaces any object with that type and key and returns
      the new revision. */
  function WriteStep(b: Backend, st: StoreState, call: Call, content: Message): (StoreState, Result<string, string>)
  {
    var n := |st.log|;
    match WriteFault(b, n, call, content)
    case Some(e) => (Logged(st, call), Err(e))
    case None =>
      var key := b.schemas.key(content);
      var stored := Config(content.kind, key, b.revision(n), content);
      (AfterWrite(st, call, stored), Ok(b.revision(n)))
  }

  function AfterWrite(st: StoreState, call: Call, stored: Config): StoreState
  {
    StoreState(Without(st.records, stored.typ, stored.key) + [stored], st.log + [call])
  }

  function PostStep(b: Backend, st: StoreState, content: Message): (StoreState, Result<string, string>)
  {
    WriteStep(b, st, PostCall(content), content)
  }

  function PutStep(b: Backend, st: StoreState, content: Message, revision: string): (StoreState, Result<string, string>)
  {
    WriteStep(b, st, PutCall(content, revision), content)
  }

  /** Delete(typ, key): None on success, which removes the object; the error otherwise. */
  function DeleteStep(b: Backend, st: StoreState, typ: string, key: string): (StoreState, Option<string>)
  {
    var call := DeleteCall(typ, key);
    match b.fault(|st.log|, call)
    case Some(e) => (Logged(st, call), Some(e))
    case None => (StoreState(Without(st.records, typ, key), st.log + [call]), None)
  }

  /** List(typ): the stored objects of that type, or the error. */
  function ListStep(b: Backend, st: StoreState, typ: string): (StoreState, Result<seq<Config>, string>)
  {
    var call := ListCall(typ);
    (Logged(st, call), match b.fault(|st.log|, call) case Some(e) => Err(e) case None => Ok(OfType(st.records, typ)))
  }

  /** A successful write can be read back: the object is stored under the message's type
      and key, with the revision the write returned. */
  lemma WriteThenLookup(b: Backend, st: StoreState, call: Call, content: Message)
    requires WriteStep(b, st, call, content).1.Ok?
    ensures var (st', r) := WriteStep(b, st, call, content);
      Lookup(st'.records, content.kind, b.schemas.key(content))
        == Some(Config(content.kind, b.schemas.key(content), r.value, content))
  {
    var (st', r) := WriteStep(b, st, call, content);
    var key := b.schemas.key(content);
    LookupAfterAppend(Without(st.records, content.kind, key), Config(content.kind, key, r.value, content));
  }

  lemma {:induction false} LookupAfterAppend(records: seq<Config>, c: Config)
    requires forall d :: d in records ==> !(d.typ == c.typ && d.key == c.key)
    ensures Lookup(records + [c], c.typ, c.key) == Some(c)
  {
    if |records| > 0 {
      assert (records + [c])[1..] == records[1..] + [c];
      LookupAfterAppend(records[1..], c);
    }
  }

  /** After a successful delete nothing with that type and key is stored. */
  lemma DeleteThenLookup(b: Backend, st: StoreState, typ: string, key: string)
    requires DeleteStep(b, st, typ, key).1.None?
    ensures Lookup(DeleteStep(b, st, typ, key).0.records, typ, key).None?
  {
  }

  /** The store object: the program's configClient. */
  class Store {
    const backend: Backend
    var records: seq<Config>
    var log: seq<Call>

    function State(): StoreState
      reads this
    {
      StoreState(records, log)
    }

    constructor (backend: Backend, records: seq<Config>)
      ensures this.backend == backend && State() == StoreState(records, [])
    {
      this.backend := backend;
      this.records := records;
      this.log := [];
    }

    method Get(typ: string, key: string) returns (found: Option<Config>)
      modifies this
      ensures (State(), found) == GetStep(backend, old(State()), typ, key)
    {
      var call := GetCall(typ, key);
      found := if backend.fault(|log|, call).Some? then None else Lookup(records, typ, key);
      log := log + [call];
    }

    method Post(content: Message) returns (r: Result<string, string>)
      modifies this
      ensures (State(), r) == PostStep(backend, old(State()), content)
    {
      r := Write(PostCall(content), content);
    }

    method Put(content: Message, revision: string) returns (r: Result<string, string>)
      modifies this
      ensures (State(), r) == PutStep(backend, old(State()), content, revision)
    {
      r := Write(PutCall(content, revision), content);
    }

    method Write(call: Call, content: Message) returns (r: Result<string, string>)
      modifies this
      ensures (State(), r) == WriteStep(backend, old(State()), call, content)
    {
      var n := |log|;
      if content.kind !in backend.descriptor {
        r := Err("unrecognized type " + content.kind);
      } else if backend.fault(n, call).Some? {
        r := Err(backend.fault(n, call).value);
      } else {
        var key := backend.schemas.key(content);
        records := Without(records, content.kind, key) + [Config(content.kind, key, backend.revision(n), content)];
        r := Ok(backend.revision(n));
      }
      log := log + [call];
    }

    method Delete(typ: string, key: string) returns (err: Option<string>)
      modifies this
      ensures (State(), err) == DeleteStep(backend, old(State()), typ, key)
    {
      var call := DeleteCall(typ, key);
      err := backend.fault(|log|, call);
      if err.None? {
        records := Without(records, typ, key);
      }
      log := log + [call];
    }

    method List(typ: string) returns (r: Result<seq<Config>, string>)
      modifies this
      ensures (State(), r) == ListStep(backend, old(State()), typ)
    {
      var call := ListCall(typ);
      r := match backend.fault(|log|, call) case Some(e) => Err(e) case None => Ok(OfType(records, typ));
      log := log + [call];
    }
  }
}
