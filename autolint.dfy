/** `AutoLint.run_linter`: the whole pipeline from the files found under the
    target to the exit code and the result tree. Finding the files, reading
    the ignore file and the configuration, matching globs and running
    processes are the parameters `allFiles`, `ignore`, `conf`, `matches` and
    `exec`. */
module AutoLint {
  import opened Config
  import opened OrderedDicts
  import opened Ignore
  import opened Classify
  import opened Runners
  import opened Dispatch
  import opened Report

  /** The languages the run dispatches, in configuration order: those that
      claim some file that survived the ignore filter. */
  ghost function Selected(allFiles: set<Path>, ignore: Option<seq<IgnorePattern>>, conf: Configuration,
                          matches: (Path, Glob) -> bool): seq<LangName>
    requires conf.langs.Some?
  {
    NonEmptyLangs(conf.langs.value.keys, conf.langs.value, Kept(allFiles, ignore), matches)
  }

  /** The files of `lang` the run lints. */
  ghost function FilesOf(allFiles: set<Path>, ignore: Option<seq<IgnorePattern>>, conf: Configuration,
                         matches: (Path, Glob) -> bool, lang: LangName): set<Path>
    requires conf.langs.Some? && lang in conf.langs.value.vals
  {
    LangFiles(Kept(allFiles, ignore), IncludesOf(conf.langs.value.vals[lang]), matches)
  }

  /** `run_linter(pretty_print, print_all)`. A configuration error in
      classification or dispatch ends the run; otherwise the code is 1
      exactly when some linter exited nonzero on some file, whichever
      printing mode is chosen, and the tree holds the selected languages,
      their configured linters and each linted file's outcome. The
      callback is passed only in `print_all` mode; the pretty report is
      printed only when `print_all` is off and `pretty_print` on, and the
      silent mode prints nothing. */
  method RunLinter(allFiles: set<Path>, ignore: Option<seq<IgnorePattern>>, conf: Configuration,
                   matches: (Path, Glob) -> bool, exec: Command -> ProcResult,
                   prettyPrint: bool, printAll: bool, reg: Registry, console: Console)
    returns (r: Result<(int, Tree)>)
    modifies reg, console
    ensures conf.langs.None? ==> r == Err(ConfError(ClassifyMessage("langs")))
    ensures conf.langs.Some? && MissingInclude(conf.langs.value) ==> r == Err(ConfError(ClassifyMessage("include")))
    ensures conf.langs.Some? && !MissingInclude(conf.langs.value) ==>
      && (r.Err? <==> LintError(conf, Selected(allFiles, ignore, conf, matches)).Some?)
      && (r.Err? ==> r.error == ConfError(LintError(conf, Selected(allFiles, ignore, conf, matches)).value))
    ensures r.Ok? ==> r.value.0 == if AnyNonzero(r.value.1) then 1 else 0
    ensures r.Ok? ==> r.value.1.keys == Selected(allFiles, ignore, conf, matches)
    ensures r.Ok? ==> forall lang :: lang in r.value.1.vals ==>
      && lang in conf.langs.value.vals
      && r.value.1.vals[lang].keys == FirstOccurrences(LintersOf(conf, lang))
      && forall linter :: linter in r.value.1.vals[lang].vals ==>
           LinterRan(r.value.1.vals[lang].vals[linter], conf, linter, FilesOf(allFiles, ignore, conf, matches, lang), exec)
    ensures !printAll && prettyPrint && r.Ok? ==>
      console.out == old(console.out) + Printed(ReportLines(r.value.1)) && console.err == old(console.err)
    ensures !printAll && (r.Err? || !prettyPrint) ==> console.out == old(console.out) && console.err == old(console.err)
    ensures (conf.langs.None? || MissingInclude(conf.langs.value)) ==> reg.runners == old(reg.runners)
    ensures conf.langs.Some? && !MissingInclude(conf.langs.value) && r.Err? ==>
      exists i :: (FirstFailing(conf, Selected(allFiles, ignore, conf, matches), i) &&
                   StoppedAt(old(reg.runners), reg.runners, conf, Selected(allFiles, ignore, conf, matches), i))
    ensures r.Ok? ==> reg.runners == WithDefaults(old(reg.runners), AllRunnerNames(conf, Selected(allFiles, ignore, conf, matches)))
    ensures Grows(old(reg.runners), reg.runners)
  {
    var kept := RemoveIgnoredFiles(allFiles, ignore);
    assert kept == Kept(allFiles, ignore);
    var classified := ClassifyFiles(kept, conf, matches);
    if classified.Err? {
      return Err(classified.error);
    }
    var classes := classified.value;
    var results := Lint(classes, conf, exec, reg, if printAll then console else null);
    if results.Err? {
      ghost var i :| FirstFailing(conf, classes.keys, i) && StoppedAt(old(reg.runners), reg.runners, conf, classes.keys, i);
      StoppedAtGrows(old(reg.runners), reg.runners, conf, classes.keys, i);
      return Err(results.error);
    }
    WithDefaultsGrows(old(reg.runners), AllRunnerNames(conf, classes.keys));
    var tree := results.value;
    var code := 0;
    if printAll {
      code := PrintAllCode(tree);
    } else if prettyPrint {
      var failed := PrettyPrint(console, tree);
      RowsNonzero(tree);
      TreeFailedPositive(Rows(tree), |tree.keys|);
      code := if failed > 0 then 1 else 0;
    } else {
      code := SilentCode(tree);
    }
    return Ok((code, tree));
  }
}
