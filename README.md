# istioctl command layer, modelled in Dafny

This project models the command layer of `istioctl`, the command-line client of the Istio
Pilot configuration store (`cmd/istioctl/main.go`). It covers these parts:

- **Type-name resolution (`schema`).** The plural aliases `route-rules` and
  `destination-policies` map to their singular type names. The result is then looked up in
  the client's config descriptor. On failure, the error lists every known type.
- **Config and ParseSpec.** A raw input document has a type, a key, a revision and a spec.
  ParseSpec resolves the type among all Istio config types, decodes the spec into that
  type's message, and validates it.
- **`create` and `replace`.** Both are fail-fast loops over the input documents: the first
  error ends the command, and no later document reaches the store. `replace` fills in a
  missing revision through a Get before its Put.
- **`get`.** It does a point lookup by name, or lists every object of a type. An empty
  result prints `No resources found.` whatever the output format. Otherwise the `yaml` or
  `short` printer is used, and any other format is an error.
- **`delete`.** It is a best-effort sweep, by names on the command line or by the documents
  of a `-f` input. Every item is attempted in order (with `-f`, until a document's key
  panics), and the failures come back together as one aggregated error. With `-f`, a document without a key gets the key of its parsed spec.
- **The two printers.** `printShortOutput` prints one key per object. `printYamlOutput`
  prints a header, the object's YAML with blank lines dropped and two spaces of indent,
  and `---`.

**The store.** The config client is a `Store` class that holds the stored objects and a log
of the calls made on it. Each method is proved equal to a pure step function
(`ConfigStore.GetStep`, `PostStep`, …). What the client decides on its own is given by the
`Backend` value:

- whether a call fails (`fault`, by the call's position in the log);
- the revision a write assigns (`revision`);
- the descriptor's types;
- the per-type key, decode, validate and YAML functions (`Schemas`).

Every lemma quantifies over all such backends, so every pattern of failures is covered.

One failure is fixed rather than left to `fault`. A Post or Put whose message has a type
outside the descriptor always fails with `unrecognized type <type>` (`ConfigStore.WriteFault`).
This stands for the Kubernetes-backed client. It looks the type up in its own table before it
sends anything, and fails with that error when the type is missing. The client's code is not
part of this model, so this is an assumption about it. It has one visible consequence: create
computes a key only after a successful Post, so create never reaches the panic of asking the
empty schema for a key. The Panicked branches of create's step function stay in the model
and are unreachable under this rule.

**Commands.** Each command is a pure function of the store state, the arguments and the
input. It returns the new store state, the lines printed on standard output, whether the
usage text was printed, and the outcome: success, an error, or a panic. The command methods
run over the `Store` and a `Console` (standard output and standard error). Each is proved
to produce exactly what that function says.

**Files.** `wrappers.dfy` (Option, Result), `text.dfy` (join, split, substring search),
`pilot_model.dfy` (config values, messages, schemas), `config_store.dfy`, `terminal.dfy`,
`istioctl.dfy` (errors and their texts, `schema`, ParseSpec), `output.dfy`,
`create_replace.dfy`, `get_command.dfy` and `delete_command.dfy`.

## Model

| member | source | states |
|---|---|---|
| Istioctl.ResolveType | cmd/istioctl/main.go:331-347 | a resolved type is always one the client's descriptor knows |
| Istioctl.ResolveTypeAliases | cmd/istioctl/main.go:332-338 | each plural alias resolves exactly as its singular form; every other token is looked up unchanged and resolves to itself when the descriptor has it |
| Istioctl.UnknownTypeListsAllTypes | cmd/istioctl/main.go:340-344 | an unknown type gives the "Istio doesn't have configuration type" error, and its message contains every type the descriptor lists |
| Istioctl.ParseSpec | cmd/istioctl/main.go:363-380 | a parsed message always has the document's own type |
| Istioctl.ParseSpecUnknownType | cmd/istioctl/main.go:368-371 | ParseSpec fails with "unknown spec type" exactly when the type is not an Istio config type, so every parsed document has a registered type |
| CreateReplace.Create | cmd/istioctl/main.go:87-113 | create leaves the store, standard output, standard error and the outcome exactly as the specification function Command (with CreateStep per document) says |
| CreateReplace.Replace | cmd/istioctl/main.go:122-155 | replace leaves the store, standard output, standard error and the outcome exactly as the specification function Command (with ReplaceStep per document) says |
| CreateReplace.Batch | cmd/istioctl/main.go:99-112 | the loop over the documents, stopping at the first failure, matches the specification function FailFast |
| CreateReplace.CreateDocument | cmd/istioctl/main.go:100-109 | one document of create (parse, Post, report) matches the specification function CreateStep |
| CreateReplace.ReplaceDocument | cmd/istioctl/main.go:135-151 | one document of replace (parse, fill in the revision, Put, report) matches the specification function ReplaceStep |
| CreateReplace.CommandRefusals | cmd/istioctl/main.go:88-98 | positional arguments are refused with the usage text; unreadable input or input without documents is refused; none of these touches the store |
| CreateReplace.StepReport | cmd/istioctl/main.go:109 | one document prints exactly one line when it succeeds and none when it fails |
| CreateReplace.FailFastCount | cmd/istioctl/main.go:99-112 | the loop never prints the usage text, prints one line per successful document, and succeeds exactly when every document did |
| CreateReplace.FailFastAppend | cmd/istioctl/main.go:99-112 | after a prefix of the batch has succeeded, the rest runs from the state that prefix left, behind its output |
| CreateReplace.FailFastStops | cmd/istioctl/main.go:100-108 | when a document fails after the earlier ones succeeded, the command ends with that failure; no later document reaches the store or the output |
| CreateReplace.CreateStepCalls | cmd/istioctl/main.go:100-109 | an unparsable document makes no store call; a parsed one makes exactly one Post of its message and fails exactly when that Post does, with the Post's error; success prints its type, key and the new revision |
| CreateReplace.FailFastKeepsLog | cmd/istioctl/main.go:99-112 | the loop only appends to the store's call log |
| CreateReplace.CreatePostsInOrder | cmd/istioctl/main.go:99-110 | create posts the parsed documents in input order, one Post per document attempted, with at most one Post beyond the reported ones; the i-th output line reports the i-th document's type and key and the revision the store assigned to its Post |
| CreateReplace.CreateFirstFailure | cmd/istioctl/main.go:100-108 | create succeeds exactly when every document was created; otherwise it fails at the first document not reported: with its parse error when no call was made for it, and otherwise with exactly the error its Post got at its position in the log |
| CreateReplace.ReplaceStepRevision | cmd/istioctl/main.go:135-151 | a document whose spec does not parse fails with that error and makes no store call; a given revision is used as is, and the document then succeeds exactly when its Put does, failing with that Put's error and no output, or printing its type, key and the revision the Put got; a missing revision is taken from a Get of the document's type and key, and is empty when the object is absent or the Get fails; a type unknown to the store panics |
| CreateReplace.ReplaceStepLooksUp | cmd/istioctl/main.go:141-151 | a document without a revision makes a Get of its key and then a Put of its message carrying the revision that Get found; it succeeds exactly when that Put does; a failed Put is the document's error with nothing printed, and a successful one prints the type, key and the revision the Put got |
| CreateReplace.ReplaceCallCount | cmd/istioctl/main.go:134-154 | for AllLookedUp documents (no revision, the spec parses, the type is in the store's descriptor), replace makes two calls per document attempted, so a successful replace of n such documents makes exactly 2n calls |
| CreateReplace.ReplaceLooksUpFirst | cmd/istioctl/main.go:134-154 | the first document's Get and Put pair, in front of the calls for the rest, gives the lookup order for the whole batch |
| CreateReplace.ReplaceLooksUpEachDocument | cmd/istioctl/main.go:134-154 | for documents that all lack a revision, parse, and have a type the store's descriptor knows (AllLookedUp): the i-th pair of calls is the Get of the i-th document's key followed by the Put of that document |
| CreateReplace.ReplacePutsFoundRevisions | cmd/istioctl/main.go:134-154 | for AllLookedUp documents, the i-th Put carries the revision the i-th document's Get returns from the store as the earlier documents left it: the stored object's revision, or "" when it is absent or the Get failed |
| GetCommand.Get | cmd/istioctl/main.go:171-219 | get leaves the store, standard output, standard error and the outcome exactly as the specification function GetRun says |
| GetCommand.Show | cmd/istioctl/main.go:202-218 | the tail of get prints the empty-result notice or the chosen printer's lines, or fails for an unknown format |
| GetCommand.GetRefusals | cmd/istioctl/main.go:172-182 | without a type, or with a token naming no type, get prints the usage and fails with the matching error, leaving the store untouched; the usage is printed in exactly these cases |
| GetCommand.GetCallsStoreOnce | cmd/istioctl/main.go:184-200 | get never changes the stored objects; it makes exactly one call (a Get for a name, a List otherwise) when the type resolves, and none when it does not |
| GetCommand.ReportCases | cmd/istioctl/main.go:202-218 | an empty result is the notice and a success whatever the format; a non-empty one succeeds exactly for yaml or short, the short format printing one key per object in order |
| GetCommand.GetByName | cmd/istioctl/main.go:185-193 | an absent object, or a failed Get, gives the notice and success; a found object in the short format prints its key; otherwise success depends only on the format |
| GetCommand.ReportOfType | cmd/istioctl/main.go:196-218 | a listing prints the notice when no object of the type is stored, succeeds exactly for a known format when some is, and in the short format prints the key of every stored object of the type |
| GetCommand.GetListing | cmd/istioctl/main.go:195-218 | a failed List is returned as the error and nothing is printed; otherwise the listing behaves as ReportOfType says for the stored records |
| DeleteCommand.Delete | cmd/istioctl/main.go:232-284 | delete leaves the store, standard output, standard error and the outcome exactly as the specification function DeleteRun says |
| DeleteCommand.DeleteByName | cmd/istioctl/main.go:244-252 | the loop over the names matches the specification function DeleteTargets over NameTargets and never panics |
| DeleteCommand.DeleteByFile | cmd/istioctl/main.go:268-282 | the loop over the documents matches the specification function DeleteRecords, stopping at a panic |
| DeleteCommand.DeleteRecordsStopped | cmd/istioctl/main.go:268-282 | once the sweep over the documents has panicked, the later documents change nothing |
| DeleteCommand.DeleteOneVerdict | cmd/istioctl/main.go:246-251 | one attempt logs one Delete; the store's verdict decides whether a failure is recorded under the key or a "Deleted config" line is printed |
| DeleteCommand.DeleteTargetsLog | cmd/istioctl/main.go:244-282 | both sweeps (the names, and the -f documents before a panic) attempt every target with one Delete, in order, whatever happened to the ones before, and never panic |
| DeleteCommand.DeleteTargetsAttemptsAll | cmd/istioctl/main.go:244-282 | the failures are exactly the targets the store refused, each key with its error, and the output lines exactly the targets it accepted, in order; each target lands in exactly one of the two |
| DeleteCommand.DeleteTargetsRemoves | cmd/istioctl/main.go:244-282 | afterwards an object is stored exactly when it was stored before and no Delete the store accepted named its type and key |
| DeleteCommand.RejectedEmpty | cmd/istioctl/main.go:253 | no failure is collected exactly when the store accepted every name |
| DeleteCommand.DeleteByNameOutcome | cmd/istioctl/main.go:233-253 | a delete by name makes one Delete per name and prints a line for each accepted one, in order; it succeeds exactly when every Delete succeeded, and otherwise returns one aggregated error listing every refused name with its error, in order |
| DeleteCommand.RecordKeyCases | cmd/istioctl/main.go:270-276 | a document's own key is used as is; a missing one is the key of its parsed spec, stays empty when the spec does not parse, and panics when the store does not know the type |
| DeleteCommand.FirstPanic | cmd/istioctl/main.go:268-276 | the number of documents before the first one whose key panics: all before it have a key, and it has none |
| DeleteCommand.DeleteRecordsAttempts | cmd/istioctl/main.go:268-283 | the sweep over the -f documents is the sweep over the targets (own type and key) of the documents before the first one whose key panics, marked panicked exactly when there is such a document |
| DeleteCommand.DeleteByFileOutcome | cmd/istioctl/main.go:254-283 | delete -f on a non-empty input: one Delete per document before the first key panic, under its own type and key; a line per accepted Delete; exactly those objects removed; panics exactly when some key does; otherwise succeeds exactly when every Delete succeeded, else one aggregated error of every refused key with its error, in order |
| DeleteCommand.DeleteRefusals | cmd/istioctl/main.go:234-267 | the refusals: fewer than a type and a name, an unknown type (without the usage), arguments with -f, an unreadable -f input (its read error), or an empty input; none of them touches the store |
| Output.ShortLines | cmd/istioctl/main.go:419-423 | the short listing has one line per object, the object's key, in order |
| Output.PrintShortOutput | cmd/istioctl/main.go:419-423 | the printer appends exactly the short listing to standard output |
| Output.PrintYamlOutput | cmd/istioctl/main.go:426-445 | the printer appends exactly the YAML blocks of the objects, in order, to standard output |
| Output.PrintYamlBlock | cmd/istioctl/main.go:428-443 | one object's block is printed exactly as specified, blank lines of the rendered text skipped |
| Output.YamlBlockShape | cmd/istioctl/main.go:433-443 | a block is the type, key, revision and "spec:" lines, then each non-blank line of the rendered text behind exactly two spaces, in order, then "---" |
| Output.SpecLinesRoundTrip | cmd/istioctl/main.go:437-441 | for rendered text without blank lines, removing the indent and joining the spec lines with newlines gives back the text; when the rendering ends in one newline, it gives back the text without that newline |
| Output.YamlLinesLength | cmd/istioctl/main.go:427-444 | the listing has at least five lines per object, counted over the whole listing |
| Output.YamlLinesAppend | cmd/istioctl/main.go:427-444 | the listing of two runs of objects is the listing of the first followed by that of the second |
| Output.YamlLinesSplit | cmd/istioctl/main.go:427-444 | each object has its own whole block in the listing: the blocks of the objects before it, then its block of at least five lines ending in "---", then the blocks of the objects after it |
| Text.Split | cmd/istioctl/main.go:437 | splitting gives at least one part, no part contains the separator, and joining the parts with it gives back the text |
| Text.SplitJoin | cmd/istioctl/main.go:437 | splitting the join of parts that do not contain the separator gives back the parts |
| Text.SplitTrailingSeparator | cmd/istioctl/main.go:437 | a newline at the end of the text adds exactly one empty piece after the others |
| Text.NonEmpty | cmd/istioctl/main.go:438-441 | no more lines are kept than given; every kept line is a non-empty input line, and every non-empty input line is kept |
| Text.NonEmptyAppend | cmd/istioctl/main.go:438-441 | filtering two runs of lines is filtering each and concatenating, and one line is kept exactly when it is not empty, which fixes the kept lines, their count and their order |
| Text.NonEmptyKeepsFullLines | cmd/istioctl/main.go:438-441 | when no line is empty, nothing is dropped |
| Text.JoinContainsParts | cmd/istioctl/main.go:343 | a joined list contains each of its parts |
| ConfigStore.Store.Get | cmd/istioctl/main.go:186 | the lookup logs one Get and returns the stored object, or nothing when it is absent or the call fails |
| ConfigStore.Store.Post | cmd/istioctl/main.go:105 | the write logs one Post and behaves as the write step says |
| ConfigStore.Store.Put | cmd/istioctl/main.go:146 | the write logs one Put and behaves as the write step says |
| ConfigStore.Store.Delete | cmd/istioctl/main.go:246 | the delete logs one call and removes the object unless the store refuses |
| ConfigStore.Store.List | cmd/istioctl/main.go:196 | the listing logs one call and returns the stored objects of the type, or the store's error |
| ConfigStore.WriteThenLookup | cmd/istioctl/main.go:105 | a successful write can be read back under the message's type and key, with the revision the write returned |
| ConfigStore.DeleteThenLookup | cmd/istioctl/main.go:246 | after a successful delete the object is no longer found |
| ConfigStore.OfType | cmd/istioctl/main.go:196 | a listing holds exactly the stored objects of the type |

## Left out

- Reading the input (`readInputs`, cmd/istioctl/main.go:383-416): opening the file or
  standard input and decoding the YAML stream are I/O. Their result, a list of documents or
  an error, is a parameter of create, replace and delete -f.
- ParseSpec's JSON encoding of the spec cannot fail on the values modelled here. The
  "could not encode Spec" error is therefore not modelled. Decoding and validation are the
  schema's functions, given as parameters.
- The client's per-type key function, YAML rendering and the store's own behaviour are
  external. They are given by the `Backend` parameter: whether a call fails, the revision a
  write assigns, the descriptor. Optimistic concurrency on Put is one of the store's own
  decisions, so it is left to the `fault` parameter.
- ReplaceCallCount: the call count is stated only for AllLookedUp batches. For the other
  documents ReplaceStepRevision gives the calls instead: a document whose spec does not
  parse fails with that error and makes none, one with a revision makes a single Put, and
  one of a type outside the store's descriptor panics before any call.
- ToYAML's error is only logged by the source, so the model keeps the text and drops the
  log line. Logging (`glog`) is left out throughout.
- Output.PrintYamlOutput: YAML rendering uses one key/YAML function set for all types. It
  does not model the zero schema that an unknown type would get. That cannot happen for
  what get prints, because its type has already been resolved.
- The command tree (cobra wiring, `init`, `main`, the `version` command, kubeconfig and the
  persistent pre-run that builds the client) is set-up code. The exact usage text is a
  parameter.
- A panic is an outcome (`Panicked`), not a crash of the process. It models the client
  asking the zero schema value for a key, on a type that the client descriptor lacks.
- The aggregated error is modelled as the list of failures with a newline-joined text. The
  exact layout of the multi-error library's message is not modelled.
