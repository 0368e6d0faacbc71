/** The process's standard output and standard error, as the lines written to them. */
module Terminal {

  class Console {
    var stdout: seq<string>
    var stderr: seq<string>

    constructor ()
      ensures stdout == [] && stderr == []
    {
      stdout, stderr := [], [];
    }

    /** One line printed to standard output. */
    method Println(line: string)
      modifies this
      ensures stdout == old(stdout) + [line] && stderr == old(stderr)
    {
      stdout := stdout + [line];
    }

    /** The command's usage text, which the command framework writes to standard error. */
    method PrintUsage(usage: string)
      modifies this
      ensures stderr == old(stderr) + [usage] && stdout == old(stdout)
    {
      stderr := stderr + [usage];
    }
  }

  /** Output written in two steps is the concatenation of both. */
  lemma Appended(before: seq<string>, first: seq<string>, second: seq<string>)
    ensures before + first + second == before + (first + second)
  {
  }
}
