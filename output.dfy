/** Rendering of query results: the "short" and "yaml" output formats, chosen by name. */
module Output {
  import opened PilotModel
  import opened Terminal
  import Text

  datatype Format = Yaml | Short

  /** The output formats by the name the -o flag gives. */
  const Outputters: map<string, Format> := map["yaml" := Yaml, "short" := Short]

  /** printShortOutput: one line per object, holding its key. */
  function ShortLines(configs: seq<Config>): (lines: seq<string>)
    ensures |lines| == |configs|
    ensures forall i :: 0 <= i < |configs| ==> lines[i] == configs[i].key
  {
    if |configs| == 0 then []
    else ShortLines(configs[..|configs| - 1]) + [configs[|configs| - 1].key]
  }

  /** Lines indented by two spaces. */
  function Indented(lines: seq<string>): (r: seq<string>)
  {
    seq(|lines|, i requires 0 <= i < |lines| => "  " + lines[i])
  }

  /** The spec part of a YAML block: the non-blank lines of the rendered text, indented. */
  function SpecLines(text: string): seq<string>
  {
    Indented(Text.NonEmpty(Text.Split(text, '\n')))
  }

  /** The YAML block printed for one object. */
  function YamlBlock(schemas: Schemas, c: Config): seq<string>
  {
    ["type: " + c.typ, "key: " + c.key, "revision: " + c.revision, "spec:"]
      + SpecLines(schemas.toYaml(c.content).0)
      + ["---"]
  }

  /** printYamlOutput: the YAML blocks of all objects, in order. */
  function YamlLines(schemas: Schemas, configs: seq<Config>): seq<string>
  {
    if |configs| == 0 then []
    else YamlLines(schemas, configs[..|configs| - 1]) + YamlBlock(schemas, configs[|configs| - 1])
  }

  function Render(format: Format, schemas: Schemas, configs: seq<Config>): seq<string>
  {
    match format
    case Yaml => YamlLines(schemas, configs)
    case Short => ShortLines(configs)
  }

  method PrintShortOutput(console: Console, configs: seq<Config>)
    modifies console
    ensures console.stdout == old(console.stdout) + ShortLines(configs)
    ensures console.stderr == old(console.stderr)
  {
    for i := 0 to |configs|
      invariant console.stdout == old(console.stdout) + ShortLines(configs[..i])
      invariant console.stderr == old(console.stderr)
    {
      assert configs[..i + 1][..i] == configs[..i];
      console.Println(configs[i].key);
    }
    assert configs[..|configs|] == configs;
  }

  method PrintYamlOutput(console: Console, schemas: Schemas, configs: seq<Config>)
    modifies console
    ensures console.stdout == old(console.stdout) + YamlLines(schemas, configs)
    ensures console.stderr == old(console.stderr)
  {
    for i := 0 to |configs|
      invariant console.stdout == old(console.stdout) + YamlLines(schemas, configs[..i])
      invariant console.stderr == old(console.stderr)
    {
      ghost var printed := YamlLines(schemas, configs[..i]);
      ghost var block := YamlBlock(schemas, configs[i]);
      PrintYamlBlock(console, schemas, configs[i]);
      YamlLinesExtend(schemas, configs, i);
      Appended(old(console.stdout), printed, block);
    }
    assert configs[..|configs|] == configs;
  }

  lemma YamlLinesExtend(schemas: Schemas, configs: seq<Config>, i: nat)
    requires i < |configs|
    ensures YamlLines(schemas, configs[..i + 1]) == YamlLines(schemas, configs[..i]) + YamlBlock(schemas, configs[i])
  {
    assert configs[..i + 1][..i] == configs[..i];
  }

  /** The body of printYamlOutput's loop: one object's block. */
  method PrintYamlBlock(console: Console, schemas: Schemas, c: Config)
    modifies console
    ensures console.stdout == old(console.stdout) + YamlBlock(schemas, c)
    ensures console.stderr == old(console.stderr)
  {
    var (text, _) := schemas.toYaml(c.content);
    ghost var header := ["type: " + c.typ, "key: " + c.key, "revision: " + c.revision, "spec:"];
    console.Println("type: " + c.typ);
    console.Println("key: " + c.key);
    console.Println("revision: " + c.revision);
    console.Println("spec:");
    assert console.stdout == old(console.stdout) + header;
    PrintSpecLines(console, text);
    Appended(old(console.stdout), header, SpecLines(text));
    console.Println("---");
    Appended(old(console.stdout), header + SpecLines(text), ["---"]);
  }

  /** The inner loop of printYamlOutput: each non-blank line of the text, indented. */
  method PrintSpecLines(console: Console, text: string)
    modifies console
    ensures console.stdout == old(console.stdout) + SpecLines(text)
    ensures console.stderr == old(console.stderr)
  {
    var lines := Text.Split(text, '\n');
    for j := 0 to |lines|
      invariant console.stdout == old(console.stdout) + Indented(Text.NonEmpty(lines[..j]))
      invariant console.stderr == old(console.stderr)
    {
      IndentedNonEmptyExtend(lines, j);
      if lines[j] != "" {
        console.Println("  " + lines[j]);
      }
    }
    assert lines[..|lines|] == lines;
  }

  lemma IndentedNonEmptyExtend(lines: seq<string>, j: nat)
    requires j < |lines|
    ensures Indented(Text.NonEmpty(lines[..j + 1]))
      == Indented(Text.NonEmpty(lines[..j])) + (if lines[j] != "" then ["  " + lines[j]] else [])
  {
    assert lines[..j + 1][..j] == lines[..j];
    var init := Text.NonEmpty(lines[..j]);
    if lines[j] != "" {
      assert Indented(init + [lines[j]]) == Indented(init) + ["  " + lines[j]];
    }
  }

  /** The shape of one YAML block: the header lines, then each non-blank line of the
      rendered text behind exactly two spaces, in order, blank lines dropped, then "---". */
  lemma YamlBlockShape(schemas: Schemas, c: Config)
    ensures var block := YamlBlock(schemas, c);
      var text := schemas.toYaml(c.content).0;
      var segments := Text.NonEmpty(Text.Split(text, '\n'));
      && |block| == 5 + |segments|
      && block[..4] == ["type: " + c.typ, "key: " + c.key, "revision: " + c.revision, "spec:"]
      && block[|block| - 1] == "---"
      && (forall i :: 4 <= i < |block| - 1 ==>
            block[i][..2] == "  " && block[i][2..] == segments[i - 4]
            && block[i][2..] != "" && '\n' !in block[i][2..])
  {
    var text := schemas.toYaml(c.content).0;
    var parts := Text.Split(text, '\n');
    var segments := Text.NonEmpty(parts);
    var header := ["type: " + c.typ, "key: " + c.key, "revision: " + c.revision, "spec:"];
    var spec := Indented(segments);
    var block := YamlBlock(schemas, c);
    assert block == header + spec + ["---"];
    forall i | 4 <= i < |block| - 1
      ensures block[i][..2] == "  " && block[i][2..] == segments[i - 4]
      ensures block[i][2..] != "" && '\n' !in block[i][2..]
    {
      assert block[i] == spec[i - 4] == "  " + segments[i - 4];
      var k :| 0 <= k < |parts| && parts[k] == segments[i - 4];
      assert '\n' !in parts[k];
    }
  }

  /** The spec lines reproduce the rendered text: with their two-space indent removed and
      joined with newlines they give back the text, whenever it has no blank line; a
      rendering that ends in a newline gives back the text without that newline. */
  lemma SpecLinesRoundTrip(text: string)
    requires "" !in Text.Split(text, '\n')
    ensures Text.Join(Unindented(SpecLines(text)), "\n") == text
    ensures Text.Join(Unindented(SpecLines(text + "\n")), "\n") == text
  {
    var parts := Text.Split(text, '\n');
    assert forall i :: 0 <= i < |parts| ==> parts[i] != "" by {
      forall i | 0 <= i < |parts| ensures parts[i] != "" { assert parts[i] in parts; }
    }
    Text.NonEmptyKeepsFullLines(parts);
    var lines := Indented(parts);
    assert Unindented(lines) == parts;
    Text.SplitTrailingSeparator(text, '\n');
    Text.NonEmptyAppend(parts, [""]);
    assert Text.NonEmpty(Text.Split(text + "\n", '\n')) == parts;
  }

  /** Lines with their first two characters removed. */
  function Unindented(lines: seq<string>): seq<string>
  {
    seq(|lines|, i requires 0 <= i < |lines| => if |lines[i]| >= 2 then lines[i][2..] else lines[i])
  }

  /** A YAML listing has at least five lines per object, counted over the whole listing;
      YamlLinesSplit places each object's own block. */
  lemma {:induction false} YamlLinesLength(schemas: Schemas, configs: seq<Config>)
    ensures |YamlLines(schemas, configs)| >= 5 * |configs|
  {
    if |configs| > 0 {
      YamlLinesLength(schemas, configs[..|configs| - 1]);
    }
  }

  /** The listing of two runs of objects is the listing of the first followed by that of the
      second. */
  lemma {:induction false} YamlLinesAppend(schemas: Schemas, xs: seq<Config>, ys: seq<Config>)
    ensures YamlLines(schemas, xs + ys) == YamlLines(schemas, xs) + YamlLines(schemas, ys)
    decreases |ys|
  {
    if |ys| == 0 {
      assert xs + ys == xs;
    } else {
      var n := |ys| - 1;
      var last := YamlBlock(schemas, ys[n]);
      calc {
        YamlLines(schemas, xs + ys);
      == { assert (xs + ys)[..|xs + ys| - 1] == xs + ys[..n] && (xs + ys)[|xs + ys| - 1] == ys[n]; }
        YamlLines(schemas, xs + ys[..n]) + last;
      == { YamlLinesAppend(schemas, xs, ys[..n]); }
        YamlLines(schemas, xs) + YamlLines(schemas, ys[..n]) + last;
      ==
        YamlLines(schemas, xs) + (YamlLines(schemas, ys[..n]) + last);
      }
    }
  }

  /** Each object owns one whole block of the listing: the blocks of the objects before it,
      then its own block (at least five lines, the last one "---"), then the blocks of the
      objects after it. */
  lemma YamlLinesSplit(schemas: Schemas, configs: seq<Config>, i: nat)
    requires i < |configs|
    ensures YamlLines(schemas, configs)
      == YamlLines(schemas, configs[..i]) + YamlBlock(schemas, configs[i]) + YamlLines(schemas, configs[i + 1..])
    ensures |YamlBlock(schemas, configs[i])| >= 5 && YamlBlock(schemas, configs[i])[|YamlBlock(schemas, configs[i])| - 1] == "---"
  {
    assert configs == configs[..i + 1] + configs[i + 1..];
    YamlLinesAppend(schemas, configs[..i + 1], configs[i + 1..]);
    YamlLinesExtend(schemas, configs, i);
  }
}
