/** The parts of Istio Pilot's configuration model that the command layer consumes.
    Schema behaviour (key derivation, JSON decoding, validation, YAML rendering) lives in
    Pilot's model package; here it is given as functions, fixed once per run. */
module PilotModel {
  import opened Wrappers

  /** An untyped document value, as the YAML-or-JSON decoder produces it. */
  datatype Value =
    | Null
    | Bool(b: bool)
    | Number(n: int)
    | Str(s: string)
    | Sequence(items: seq<Value>)
    | Mapping(fields: map<string, Value>)

  /** A typed configuration message (a protobuf message): the configuration type it
      belongs to and its decoded content. */
  datatype Message = Message(kind: string, body: Value)

  /** model.Config: a configuration object as the store returns it. */
  datatype Config = Config(typ: string, key: string, revision: string, content: Message)

  /** What the registered ProtoSchemas do, each applied to a message of its own type:
      - key: ProtoSchema.Key, the unique key of a message within its type;
      - fromJson: json.Marshal of the spec followed by ProtoSchema.FromJSON for the type;
      - validate: ProtoSchema.Validate, None when the message is valid;
      - toYaml: ProtoSchema.ToYAML, the rendered text and an error that may come with it. */
  datatype Schemas = Schemas(
    key: Message -> string,
    fromJson: (string, Value) -> Result<Value, string>,
    validate: Message -> Option<string>,
    toYaml: Message -> (string, Option<string>))
}
