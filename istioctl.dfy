/** The command layer's own vocabulary: input documents, errors and command results, the
    type-name resolution `schema`, the two-phase spec parse `Config.ParseSpec`, and the key
    derivation the commands perform through the client's descriptor. */
module Istioctl {
  import opened Wrappers
  import opened PilotModel
  import opened ConfigStore
  import Text

  /** main.go's Config: one decoded input document. Fields absent from the document are "". */
  datatype RawConfig = RawConfig(typ: string, key: string, revision: string, spec: Value)

  /** Why ParseSpec rejected a document. */
  datatype SpecError =
    | UnknownSpecType(typ: string)   // the type is not one of model.IstioConfigTypes
    | CannotParse(reason: string)    // the spec does not decode into the type's message
    | Invalid(reason: string)        // the type's validation rejected the message

  datatype Error =
    | TakesNoArguments(verb: string)             // create or replace given positional arguments
    | FileTakesNoArguments                       // delete given positional arguments and -f
    | MissingType(types: seq<string>)            // get without a type
    | MissingTypeAndName                         // delete without -f and with fewer than two arguments
    | ReadFailed(reason: string)                 // the input could not be opened or decoded
    | NothingTo(verb: string)                    // the input held no document
    | UnknownType(typ: string, types: seq<string>)
    | BadSpec(cause: SpecError)
    | StoreFailed(reason: string)
    | UnknownFormat(format: string)
    | Aggregate(failures: seq<(string, string)>) // delete: (key, store error) per failed deletion

  /** How a command ends: nil error, a returned error, or a runtime panic. */
  datatype Outcome = Success | Failure(error: Error) | Panicked

  /** Everything a command run leaves behind: the store's state, the lines written to
      standard output, whether the usage text was written to standard error, the outcome. */
  datatype Run = Run(state: StoreState, out: seq<string>, usage: bool, outcome: Outcome)

  /** The message of an error, as the command returns it. The layout of an aggregated
      delete error is the multierror package's and is not reproduced. */
  function ErrorText(e: Error): string
  {
    match e
    case TakesNoArguments(verb) => verb + " takes no arguments"
    case FileTakesNoArguments => "delete takes no arguments when the file option is used"
    case MissingType(types) => "specify the type of resource to get. Types are " + Text.Join(types, ", ")
    case MissingTypeAndName => "provide configuration type and name or -f option"
    case ReadFailed(reason) => reason
    case NothingTo(verb) => "nothing to " + verb
    case UnknownType(typ, types) =>
      "Istio doesn't have configuration type " + typ + ", the types are " + Text.Join(types, ", ")
    case BadSpec(UnknownSpecType(typ)) => "unknown spec type " + typ
    case BadSpec(CannotParse(reason)) => "cannot parse proto message: " + reason
    case BadSpec(Invalid(reason)) => reason
    case StoreFailed(reason) => reason
    case UnknownFormat(format) => "unknown output format " + format + ". Types are yaml|short"
    case Aggregate(failures) => Text.Join(seq(|failures|, i requires 0 <= i < |failures| =>
      "cannot delete " + failures[i].0 + ": " + failures[i].1), "\n")
  }

  /** The plural spellings accepted on the command line, with their singular type names. */
  const SingularForm: map<string, string> :=
    map["route-rules" := "route-rule", "destination-policies" := "destination-policy"]

  function Singular(token: string): string
  {
    if token in SingularForm then SingularForm[token] else token
  }

  /** `schema`: the configuration type a command-line token names, looked up in the client's
      descriptor after the plural aliases are mapped to their singular forms. */
  function ResolveType(descriptor: seq<string>, token: string): (r: Result<string, Error>)
    ensures r.Ok? ==> r.value in descriptor
  {
    var typ := Singular(token);
    if typ in descriptor then Ok(typ) else Err(UnknownType(typ, descriptor))
  }

  /** Config.ParseSpec: resolve the document's type among all Istio configuration types
      (`registry`, without aliases), decode its spec into that type's message, validate it. */
  function ParseSpec(registry: seq<string>, schemas: Schemas, c: RawConfig): (r: Result<Message, SpecError>)
    ensures r.Ok? ==> r.value.kind == c.typ
  {
    if c.typ !in registry then Err(UnknownSpecType(c.typ))
    else match schemas.fromJson(c.typ, c.spec)
      case Err(reason) => Err(CannotParse(reason))
      case Ok(body) =>
        var msg := Message(c.typ, body);
        match schemas.validate(msg)
        case Some(reason) => Err(Invalid(reason))
        case None => Ok(msg)
  }

  /** The key of a parsed message, computed by the schema the client's descriptor holds for
      the type: None when the descriptor lacks the type, where the program asks the empty
      schema value for a key and panics. */
  function KeyFor(b: Backend, typ: string, content: Message): Option<string>
  {
    if typ in b.descriptor then Some(b.schemas.key(content)) else None
  }

  /** The aliases: each plural spelling resolves exactly as its singular type name does, and
      every other token is looked up unchanged. */
  lemma ResolveTypeAliases(descriptor: seq<string>, token: string)
    ensures ResolveType(descriptor, "route-rules") == ResolveType(descriptor, "route-rule")
    ensures ResolveType(descriptor, "destination-policies") == ResolveType(descriptor, "destination-policy")
    ensures token !in {"route-rules", "destination-policies"} ==>
      (ResolveType(descriptor, token).Ok? <==> token in descriptor)
    ensures token !in {"route-rules", "destination-policies"} && token in descriptor ==>
      ResolveType(descriptor, token) == Ok(token)
  {
  }

  /** An unresolvable token yields UnknownType for its singular form, and the message
      names every type of the descriptor. */
  lemma UnknownTypeListsAllTypes(descriptor: seq<string>, token: string)
    requires Singular(token) !in descriptor
    ensures ResolveType(descriptor, token) == Err(UnknownType(Singular(token), descriptor))
    ensures forall k :: 0 <= k < |descriptor| ==>
      Text.Contains(ErrorText(ResolveType(descriptor, token).error), descriptor[k])
  {
    var pre := "Istio doesn't have configuration type " + Singular(token) + ", the types are ";
    forall k | 0 <= k < |descriptor|
      ensures Text.Contains(ErrorText(ResolveType(descriptor, token).error), descriptor[k])
    {
      Text.JoinContainsParts(descriptor, ", ", k);
      Text.ContainsAfter(pre, Text.Join(descriptor, ", "), descriptor[k]);
    }
  }

  /** A document of a type outside the registry is always rejected as of unknown type,
      never as undecodable or invalid; a registered type is never rejected as unknown. */
  lemma ParseSpecUnknownType(registry: seq<string>, schemas: Schemas, c: RawConfig)
    ensures c.typ !in registry <==> ParseSpec(registry, schemas, c) == Err(UnknownSpecType(c.typ))
    ensures ParseSpec(registry, schemas, c).Ok? ==> c.typ in registry
  {
  }
}
