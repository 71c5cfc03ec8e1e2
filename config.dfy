/** The shape of autolint's configuration, of one linter invocation's outcome
    and of the three-level result tree, plus the two kinds of failure the
    orchestrator can meet while reading the configuration. */
module Config {
  import opened OrderedDicts

  type Path = string
  type Glob = string
  type LangName = string
  type LinterName = string

  /** An argv list as handed to the operating system. */
  type Command = seq<string>

  datatype Option<T> = None | Some(value: T)

  /** A failure while reading the configuration. `KeyError` is the raw
      missing-key failure of a dictionary lookup, carrying the key;
      `ConfError` is the configuration error the orchestrator turns it into. */
  datatype Error = KeyError(key: string) | ConfError(message: string)

  datatype Result<T> = Ok(value: T) | Err(error: Error)

  /** One entry of the `langs` section; `includes` holds the `include` key.
      A key absent from the YAML mapping is `None`. */
  datatype LangConf = LangConf(includes: Option<seq<Glob>>, linters: Option<seq<LinterName>>)

  /** One entry of the `linters` section. */
  datatype LinterConf = LinterConf(cmd: Option<string>, flags: Option<seq<string>>, runner: Option<string>)

  /** The whole configuration: the `langs` section is iterated, so its key
      order matters; the `linters` section is only looked up. */
  datatype Configuration = Configuration(
    langs: Option<Dict<LangName, LangConf>>,
    linters: Option<map<LinterName, LinterConf>>)

  /** `(returncode, stdout, stderr)` of one linter process, with the captured
      streams taken as the text they decode to. */
  datatype ProcResult = ProcResult(code: int, stdout: string, stderr: string)

  /** linter output per file, in the order the files were run */
  type FileResults = Dict<Path, ProcResult>
  /** per linter of one language, in configuration order */
  type LangResults = Dict<LinterName, FileResults>
  /** language -> linter -> file -> outcome */
  type Tree = Dict<LangName, LangResults>

  /** Classification: the files of each language that has any. */
  type Classes = Dict<LangName, set<Path>>

  /** Some file of some linter of some language exited with a nonzero code. */
  ghost predicate AnyNonzero(t: Tree)
  {
    exists lang, linter, f ::
      && lang in t.vals
      && linter in t.vals[lang].vals
      && f in t.vals[lang].vals[linter].vals
      && t.vals[lang].vals[linter].vals[f].code != 0
  }

  /** Stands for the process's standard output and standard error: each
      stream is the sequence of writes made to it, in order. */
  class Console {
    var out: seq<string>
    var err: seq<string>

    constructor ()
      ensures out == [] && err == []
    {
      out, err := [], [];
    }

    /** Python's `print(line)`: one write of the line and its terminator. */
    method Print(line: string)
      modifies this
      ensures out == old(out) + [line + "\n"] && err == old(err)
    {
      out := out + [line + "\n"];
    }

    /** `print_all_fx`: the linter's stdout to stdout and its stderr to
        stderr, unformatted; the exit code is ignored. */
    method PrintAllFx(r: ProcResult)
      modifies this
      ensures out == old(out) + [r.stdout] && err == old(err) + [r.stderr]
    {
      out := out + [r.stdout];
      err := err + [r.stderr];
    }
  }
}
