/** `autolint/runners.py`: the registry of runner implementations and the
    per-file runner, which builds each linter command and collects the
    outcome of running it on every file. Starting a process and waiting for
    it is the parameter `exec`. */
module Runners {
  import opened Config
  import opened OrderedDicts
  import opened Strings

  /** The placeholder a command token may hold for the linted file's path. */
  const FilePathMarker: string := "%file_path%"

  /** The runner implementations there are. */
  datatype RunnerKind = ByFileRunner

  /** `Runner._runners`: a `defaultdict` whose factory is `ByFileRunner`.
      Looking up an absent name stores the default under that name. */
  class Registry {
    var runners: map<string, RunnerKind>

    /** Nothing is registered explicitly. */
    constructor ()
      ensures runners == map[]
    {
      runners := map[];
    }

    /** `Runner.new_runner(name)`: the registered runner, or `ByFileRunner`
        for a name nobody registered. */
    method NewRunner(name: string) returns (kind: RunnerKind)
      modifies this
      ensures kind == if name in old(runners) then old(runners)[name] else ByFileRunner
      ensures runners == old(runners)[name := kind]
      ensures runners == WithDefaults(old(runners), {name})
    {
      if name !in runners {
        runners := runners[name := ByFileRunner];
      }
      kind := runners[name];
    }
  }

  /** The registry after looking up every name of `names`: registered names
      keep their runner and the others are stored with the default. */
  ghost function WithDefaults(before: map<string, RunnerKind>, names: set<string>): map<string, RunnerKind>
  {
    map n | n in before.Keys + names :: if n in before then before[n] else ByFileRunner
  }

  /** Looking up nothing changes nothing; looking up two batches in turn is
      looking up their union. */
  lemma WithDefaultsCompose(before: map<string, RunnerKind>, a: set<string>, b: set<string>)
    ensures WithDefaults(before, {}) == before
    ensures WithDefaults(WithDefaults(before, a), b) == WithDefaults(before, a + b)
  {
  }

  /** Some token holds the placeholder. */
  predicate NeedsReplace(cmd: Command)
  {
    exists i :: 0 <= i < |cmd| && Contains(cmd[i], FilePathMarker)
  }

  /** The scan `_execute` does before running anything: `need_replace` is set
      exactly when some token holds the placeholder. */
  method NeedReplace(cmd: Command) returns (need: bool)
    ensures need <==> exists i :: 0 <= i < |cmd| && Contains(cmd[i], FilePathMarker)
  {
    need := false;
    for i := 0 to |cmd|
      invariant !need
      invariant forall k :: 0 <= k < i ==> !Contains(cmd[k], FilePathMarker)
    {
      if Contains(cmd[i], FilePathMarker) {
        need := true;
        break;
      }
    }
  }

  /** The argv for one file: every placeholder in every token replaced by
      the path, or, when the placeholder is not used, the path appended. */
  function CommandFor(cmd: Command, needReplace: bool, f: Path): (c: Command)
    ensures needReplace ==> |c| == |cmd|
    ensures !needReplace ==> |c| == |cmd| + 1 && c[..|cmd|] == cmd && c[|cmd|] == f
  {
    if needReplace then seq(|cmd|, i requires 0 <= i < |cmd| => ReplaceAll(cmd[i], FilePathMarker, f))
    else cmd + [f]
  }

  /** With substitution the command keeps its length and each token is the
      original token with every placeholder replaced; tokens without one are
      untouched. */
  lemma SubstitutedCommand(cmd: Command, f: Path)
    ensures |CommandFor(cmd, true, f)| == |cmd|
    ensures forall i :: 0 <= i < |cmd| ==>
      CommandFor(cmd, true, f)[i] == ReplaceAll(cmd[i], FilePathMarker, f) &&
      (!Contains(cmd[i], FilePathMarker) ==> CommandFor(cmd, true, f)[i] == cmd[i])
  {
    forall i | 0 <= i < |cmd| && !Contains(cmd[i], FilePathMarker)
      ensures CommandFor(cmd, true, f)[i] == cmd[i]
    {
      ReplaceAbsent(cmd[i], FilePathMarker, f);
    }
  }

  /** Without substitution the template is left as it is and the path is the
      last argument. Substituting would have changed nothing, which is why the
      path has to be appended. */
  lemma AppendedCommand(cmd: Command, f: Path)
    requires !NeedsReplace(cmd)
    ensures CommandFor(cmd, false, f)[..|cmd|] == cmd
    ensures CommandFor(cmd, false, f)[|cmd|] == f
    ensures CommandFor(cmd, true, f) == cmd
  {
    SubstitutedCommand(cmd, f);
  }

  /** Whichever policy applies, the linted path reaches the linter: some
      argument contains it. */
  lemma PathReachesLinter(cmd: Command, f: Path)
    ensures exists i :: 0 <= i < |CommandFor(cmd, NeedsReplace(cmd), f)| &&
                        Contains(CommandFor(cmd, NeedsReplace(cmd), f)[i], f)
  {
    var c := CommandFor(cmd, NeedsReplace(cmd), f);
    if NeedsReplace(cmd) {
      var i :| 0 <= i < |cmd| && Contains(cmd[i], FilePathMarker);
      ReplaceInserts(cmd[i], FilePathMarker, f);
      assert c[i] == ReplaceAll(cmd[i], FilePathMarker, f);
    } else {
      assert c[|cmd|] == f && OccursAt(c[|cmd|], f, 0);
    }
  }

  /** The outcome of running the linter on `f`. */
  function Outcome(cmd: Command, f: Path, exec: Command -> ProcResult): ProcResult
  {
    exec(CommandFor(cmd, NeedsReplace(cmd), f))
  }

  /** The writes the callback makes to stdout when it is called once per
      file of `files`, in order. */
  ghost function StreamedOut(cmd: Command, files: seq<Path>, exec: Command -> ProcResult): seq<string>
  {
    if files == [] then []
    else StreamedOut(cmd, files[..|files| - 1], exec) + [Outcome(cmd, files[|files| - 1], exec).stdout]
  }

  /** The writes it makes to stderr, likewise. */
  ghost function StreamedErr(cmd: Command, files: seq<Path>, exec: Command -> ProcResult): seq<string>
  {
    if files == [] then []
    else StreamedErr(cmd, files[..|files| - 1], exec) + [Outcome(cmd, files[|files| - 1], exec).stderr]
  }

  /** One more file, after the writes `out` and `err` made before the run:
      the callback's two writes for it come last. */
  lemma StreamStep(cmd: Command, files: seq<Path>, i: nat, exec: Command -> ProcResult,
                   out: seq<string>, err: seq<string>)
    requires i < |files|
    ensures out + StreamedOut(cmd, files[..i + 1], exec) ==
      (out + StreamedOut(cmd, files[..i], exec)) + [Outcome(cmd, files[i], exec).stdout]
    ensures err + StreamedErr(cmd, files[..i + 1], exec) ==
      (err + StreamedErr(cmd, files[..i], exec)) + [Outcome(cmd, files[i], exec).stderr]
  {
    assert files[..i + 1][..i] == files[..i];
  }

  lemma ResultStep(cmd: Command, files: seq<Path>, i: nat, exec: Command -> ProcResult, ret: FileResults)
    requires i < |files|
    requires ret.keys == FirstOccurrences(files[..i])
    requires forall f :: f in ret.vals ==> ret.vals[f] == Outcome(cmd, f, exec)
    ensures Put(ret, files[i], Outcome(cmd, files[i], exec)).keys == FirstOccurrences(files[..i + 1])
    ensures forall f :: f in Put(ret, files[i], Outcome(cmd, files[i], exec)).vals ==>
      Put(ret, files[i], Outcome(cmd, files[i], exec)).vals[f] == Outcome(cmd, f, exec)
  {
    FirstOccurrencesStep(files, i);
  }

  /** `ByFileRunner._execute`: one process per file, in the order given.
      The result has one entry per distinct file, in order of first
      appearance, holding that file's outcome; the callback, when there is
      one, sees every outcome as it arrives. */
  method Execute(cmd: Command, files: seq<Path>, exec: Command -> ProcResult, cb: Console?)
    returns (ret: FileResults)
    modifies cb
    ensures ret.keys == FirstOccurrences(files)
    ensures forall f :: f in ret.vals ==> ret.vals[f] == Outcome(cmd, f, exec)
    ensures cb != null ==>
      cb.out == old(cb.out) + StreamedOut(cmd, files, exec) &&
      cb.err == old(cb.err) + StreamedErr(cmd, files, exec)
  {
    ret := Empty();
    var needReplace := NeedReplace(cmd);
    for i := 0 to |files|
      invariant ret.keys == FirstOccurrences(files[..i])
      invariant forall f :: f in ret.vals ==> ret.vals[f] == Outcome(cmd, f, exec)
      invariant cb != null ==>
        cb.out == old(cb.out) + StreamedOut(cmd, files[..i], exec) &&
        cb.err == old(cb.err) + StreamedErr(cmd, files[..i], exec)
    {
      var f := files[i];
      var command := CommandFor(cmd, needReplace, f);
      var result := exec(command);
      assert result == Outcome(cmd, f, exec);
      ResultStep(cmd, files, i, exec, ret);
      if cb != null {
        StreamStep(cmd, files, i, exec, old(cb.out), old(cb.err));
        cb.PrintAllFx(result);
      }
      ret := Put(ret, f, result);
    }
    assert files[..|files|] == files;
  }

  /** The configured flags, none when the key is missing. */
  function FlagsOf(conf: LinterConf): seq<string>
  {
    if conf.flags.Some? then conf.flags.value else []
  }

  /** The command template of a linter: its executable, then its flags. */
  function BaseCommand(conf: LinterConf): Command
    requires conf.cmd.Some?
  {
    [conf.cmd.value] + FlagsOf(conf)
  }

  /** The first half of `ByFileRunner.run`: the executable followed by the
      flags in configured order (just the executable when there are none);
      a missing `cmd` is a failed lookup of that key. */
  method BuildCommand(conf: LinterConf) returns (r: Result<Command>)
    ensures r.Err? <==> conf.cmd.None?
    ensures r.Err? ==> r.error == KeyError("cmd")
    ensures r.Ok? ==> |r.value| >= 1 && r.value[0] == conf.cmd.value && r.value[1..] == FlagsOf(conf)
    ensures r.Ok? && conf.flags.None? ==> r.value == [conf.cmd.value]
  {
    if conf.cmd.None? {
      return Err(KeyError("cmd"));
    }
    var cmd := [conf.cmd.value];
    if conf.flags.Some? {
      var flags := conf.flags.value;
      for i := 0 to |flags|
        invariant cmd == [conf.cmd.value] + flags[..i]
      {
        cmd := cmd + [flags[i]];
      }
      assert flags[..|flags|] == flags;
    }
    return Ok(cmd);
  }

  /** The order in which Python happens to iterate a set: each element once,
      in an order the model leaves open. */
  method IterationOrder<T(==)>(s: set<T>) returns (xs: seq<T>)
    ensures Distinct(xs)
    ensures forall x :: x in xs <==> x in s
  {
    xs := [];
    var rest := s;
    while rest != {}
      invariant forall x :: x in xs ==> x !in rest
      invariant forall x :: x in s <==> x in xs || x in rest
      invariant Distinct(xs)
      decreases rest
    {
      var x :| x in rest;
      xs := xs + [x];
      rest := rest - {x};
    }
  }

  /** `ByFileRunner.run` on a set of files. Without `cmd` it fails before
      any process starts; otherwise every file of the set is linted once with
      the linter's command and the result holds exactly those files. */
  method Run(conf: LinterConf, files: set<Path>, exec: Command -> ProcResult, cb: Console?)
    returns (r: Result<FileResults>)
    modifies cb
    ensures r.Err? <==> conf.cmd.None?
    ensures r.Err? ==> r.error == KeyError("cmd") && (cb != null ==> cb.out == old(cb.out) && cb.err == old(cb.err))
    ensures r.Ok? ==> Distinct(r.value.keys) && forall f :: f in r.value.vals <==> f in files
    ensures r.Ok? ==> forall f :: f in r.value.vals ==> r.value.vals[f] == Outcome(BaseCommand(conf), f, exec)
    ensures r.Ok? && cb != null ==>
      cb.out == old(cb.out) + StreamedOut(BaseCommand(conf), r.value.keys, exec) &&
      cb.err == old(cb.err) + StreamedErr(BaseCommand(conf), r.value.keys, exec)
  {
    var cmd := BuildCommand(conf);
    if cmd.Err? {
      return Err(cmd.error);
    }
    assert cmd.value == BaseCommand(conf);
    var order := IterationOrder(files);
    var ret := Execute(cmd.value, order, exec, cb);
    FirstOccurrencesOfDistinct(order);
    return Ok(ret);
  }
}
