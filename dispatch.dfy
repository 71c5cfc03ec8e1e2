/** `AutoLint.__lint`: running every configured linter of every classified
    language and collecting the three-level result tree. Any missing
    configuration key stops the whole run with a configuration error. */
module Dispatch {
  import opened Config
  import opened OrderedDicts
  import opened Runners

  /** The configuration error `__lint` raises for a missing key, while
      working on language `lang`. A missing `linters` key, at either level,
      reads as the language having no linter. */
  function LintMessage(key: string, lang: LangName): string
  {
    if key == "linters" then "Linter not specified for " + lang
    else "Missing \"" + key + "\" at configuration"
  }

  /** The message tells which case it reports, and names the language for
      a missing `linters` key and the key otherwise. */
  lemma LintMessageInjective(key1: string, lang1: LangName, key2: string, lang2: LangName)
    requires LintMessage(key1, lang1) == LintMessage(key2, lang2)
    ensures (key1 == "linters") == (key2 == "linters")
    ensures key1 == "linters" ==> lang1 == lang2
    ensures key1 != "linters" ==> key1 == key2
  {
    var m := LintMessage(key1, lang1);
    var none, missing := "Linter not specified for ", "Missing \"";
    if key1 == "linters" {
      assert m[0] == 'L' && m[|none|..] == lang1;
    } else {
      assert m[0] == 'M' && m[|missing|..|m| - 18] == key1;
    }
    if key2 == "linters" {
      assert m[0] == 'L' && m[|none|..] == lang2;
    } else {
      assert m[0] == 'M' && m[|missing|..|m| - 18] == key2;
    }
  }

  /** The key whose lookup fails for one linter, if any: the `linters`
      section, the linter's entry, or its `cmd`. */
  function LinterMissingKey(conf: Configuration, linter: LinterName): Option<string>
  {
    if conf.linters.None? then Some("linters")
    else if linter !in conf.linters.value then Some(linter)
    else if conf.linters.value[linter].cmd.None? then Some("cmd")
    else None
  }

  /** The first failing lookup over a language's linters, in order. */
  function LintersMissingKey(conf: Configuration, linters: seq<LinterName>): Option<string>
  {
    if linters == [] then None
    else if LinterMissingKey(conf, linters[0]).Some? then LinterMissingKey(conf, linters[0])
    else LintersMissingKey(conf, linters[1..])
  }

  /** The first failing lookup while dispatching one language: its entry
      under `langs`, its `linters` list, then each linter in turn. */
  function LangMissingKey(conf: Configuration, lang: LangName): Option<string>
  {
    if conf.langs.None? then Some("langs")
    else if lang !in conf.langs.value.vals then Some(lang)
    else if conf.langs.value.vals[lang].linters.None? then Some("linters")
    else LintersMissingKey(conf, conf.langs.value.vals[lang].linters.value)
  }

  /** The error a whole dispatch over `langs`, in order, stops with, if any. */
  function LintError(conf: Configuration, langs: seq<LangName>): Option<string>
  {
    if langs == [] then None
    else if LangMissingKey(conf, langs[0]).Some? then Some(LintMessage(LangMissingKey(conf, langs[0]).value, langs[0]))
    else LintError(conf, langs[1..])
  }

  /** The linters configured for a language (none if that is missing). */
  function LintersOf(conf: Configuration, lang: LangName): seq<LinterName>
  {
    if conf.langs.Some? && lang in conf.langs.value.vals && conf.langs.value.vals[lang].linters.Some?
    then conf.langs.value.vals[lang].linters.value
    else []
  }

  /** The runner a linter asks for: its `runner` entry, else its own name. */
  function RunnerName(linter: LinterName, lc: LinterConf): (name: string)
    ensures lc.runner.Some? ==> name == lc.runner.value
    ensures lc.runner.None? ==> name == linter
  {
    if lc.runner.Some? then lc.runner.value else linter
  }

  /** `res` is what running `linter` on `files` gives: exactly those files,
      each with the outcome of the linter's command. */
  ghost predicate LinterRan(res: FileResults, conf: Configuration, linter: LinterName,
                            files: set<Path>, exec: Command -> ProcResult)
  {
    && conf.linters.Some?
    && linter in conf.linters.value
    && conf.linters.value[linter].cmd.Some?
    && (forall f :: f in res.vals <==> f in files)
    && forall f :: f in res.vals ==>
         res.vals[f] == Outcome(BaseCommand(conf.linters.value[linter]), f, exec)
  }

  /** The runner names of the linters in `linters` that have an entry. */
  ghost function RunnerNames(conf: Configuration, linters: seq<LinterName>): set<string>
  {
    set l | l in linters && conf.linters.Some? && l in conf.linters.value :: RunnerName(l, conf.linters.value[l])
  }

  /** One configured linter more asks for one runner name more. */
  lemma RunnerNamesStep(conf: Configuration, linters: seq<LinterName>, j: nat)
    requires j < |linters| && conf.linters.Some? && linters[j] in conf.linters.value
    ensures RunnerNames(conf, linters[..j + 1]) ==
      RunnerNames(conf, linters[..j]) + {RunnerName(linters[j], conf.linters.value[linters[j]])}
  {
    assert linters[..j + 1] == linters[..j] + [linters[j]];
  }

  /** The runner names asked for by every linter of every language in
      `langs`. */
  ghost function AllRunnerNames(conf: Configuration, langs: seq<LangName>): set<string>
  {
    set lang, n | lang in langs && n in RunnerNames(conf, LintersOf(conf, lang)) :: n
  }

  /** One language more adds its own linters' runner names. */
  lemma AllRunnerNamesStep(conf: Configuration, langs: seq<LangName>, i: nat)
    requires i < |langs|
    ensures AllRunnerNames(conf, langs[..i + 1]) ==
      AllRunnerNames(conf, langs[..i]) + RunnerNames(conf, LintersOf(conf, langs[i]))
  {
    assert langs[..i + 1] == langs[..i] + [langs[i]];
  }

  lemma LinterRanPut(m: LangResults, linter: LinterName, res: FileResults, conf: Configuration,
                     files: set<Path>, exec: Command -> ProcResult)
    requires forall l :: l in m.vals ==> LinterRan(m.vals[l], conf, l, files, exec)
    requires LinterRan(res, conf, linter, files, exec)
    ensures forall l :: l in Put(m, linter, res).vals ==> LinterRan(Put(m, linter, res).vals[l], conf, l, files, exec)
  {
  }

  /** The registry only ever gains entries. */
  ghost predicate Grows(before: map<string, RunnerKind>, after: map<string, RunnerKind>)
  {
    forall n :: n in before ==> n in after && after[n] == before[n]
  }

  /** Registering defaults never drops or replaces a runner. */
  lemma WithDefaultsGrows(before: map<string, RunnerKind>, names: set<string>)
    ensures Grows(before, WithDefaults(before, names))
  {
  }

  /** A dispatch of `linters` that stopped early: the registry holds the
      default runners of the linters looked up before it stopped. */
  ghost predicate LookedUpPrefix(before: map<string, RunnerKind>, after: map<string, RunnerKind>,
                                 conf: Configuration, linters: seq<LinterName>)
  {
    exists k :: 0 <= k <= |linters| && after == WithDefaults(before, RunnerNames(conf, linters[..k]))
  }

  lemma LookedUpPrefixAt(before: map<string, RunnerKind>, after: map<string, RunnerKind>,
                         conf: Configuration, linters: seq<LinterName>, k: nat)
    requires k <= |linters| && after == WithDefaults(before, RunnerNames(conf, linters[..k]))
    ensures LookedUpPrefix(before, after, conf, linters)
  {
  }

  /** One linter more looked up: the registry has the default runners of
      the linters up to and including it. */
  lemma LookupStep(before: map<string, RunnerKind>, mid: map<string, RunnerKind>, after: map<string, RunnerKind>,
                   conf: Configuration, linters: seq<LinterName>, j: nat)
    requires j < |linters| && conf.linters.Some? && linters[j] in conf.linters.value
    requires mid == WithDefaults(before, RunnerNames(conf, linters[..j]))
    requires after == WithDefaults(mid, {RunnerName(linters[j], conf.linters.value[linters[j]])})
    ensures after == WithDefaults(before, RunnerNames(conf, linters[..j + 1]))
    ensures LookedUpPrefix(before, after, conf, linters)
  {
    RunnerNamesStep(conf, linters, j);
    WithDefaultsCompose(before, RunnerNames(conf, linters[..j]), {RunnerName(linters[j], conf.linters.value[linters[j]])});
    LookedUpPrefixAt(before, after, conf, linters, j + 1);
  }

  /** The inner loop of `__lint` for one language: fails with the first
      missing key, otherwise has one entry per configured linter, in
      configuration order, each the result of that linter's runner on the
      language's files. Each linter's runner is looked up under its
      `RunnerName`, which registers the default runner for names not yet
      known; a failure leaves the names looked up before it registered. */
  method LintLang(conf: Configuration, lang: LangName, files: set<Path>, exec: Command -> ProcResult,
                  reg: Registry, cb: Console?)
    returns (r: Result<LangResults>)
    modifies reg, cb
    ensures r.Err? <==> LangMissingKey(conf, lang).Some?
    ensures r.Err? ==> r.error == KeyError(LangMissingKey(conf, lang).value)
    ensures r.Ok? ==> r.value.keys == FirstOccurrences(LintersOf(conf, lang))
    ensures r.Ok? ==> forall linter :: linter in r.value.vals ==>
      LinterRan(r.value.vals[linter], conf, linter, files, exec)
    ensures r.Ok? ==> reg.runners == WithDefaults(old(reg.runners), RunnerNames(conf, LintersOf(conf, lang)))
    ensures r.Err? ==> LookedUpPrefix(old(reg.runners), reg.runners, conf, LintersOf(conf, lang))
  {
    WithDefaultsCompose(reg.runners, {}, {});
    if conf.langs.None? {
      LookedUpPrefixAt(old(reg.runners), reg.runners, conf, LintersOf(conf, lang), 0);
      return Err(KeyError("langs"));
    }
    if lang !in conf.langs.value.vals {
      LookedUpPrefixAt(old(reg.runners), reg.runners, conf, LintersOf(conf, lang), 0);
      return Err(KeyError(lang));
    }
    if conf.langs.value.vals[lang].linters.None? {
      LookedUpPrefixAt(old(reg.runners), reg.runners, conf, LintersOf(conf, lang), 0);
      return Err(KeyError("linters"));
    }
    var linters := conf.langs.value.vals[lang].linters.value;
    var m: LangResults := Empty();
    for j := 0 to |linters|
      invariant LintersMissingKey(conf, linters) == LintersMissingKey(conf, linters[j..])
      invariant m.keys == FirstOccurrences(linters[..j])
      invariant forall l :: l in m.vals ==> LinterRan(m.vals[l], conf, l, files, exec)
      invariant reg.runners == WithDefaults(old(reg.runners), RunnerNames(conf, linters[..j]))
    {
      var linter := linters[j];
      assert linters[j..][0] == linter && linters[j..][1..] == linters[j + 1..];
      FirstOccurrencesStep(linters, j);
      if conf.linters.None? {
        LookedUpPrefixAt(old(reg.runners), reg.runners, conf, linters, j);
        return Err(KeyError("linters"));
      }
      if linter !in conf.linters.value {
        LookedUpPrefixAt(old(reg.runners), reg.runners, conf, linters, j);
        return Err(KeyError(linter));
      }
      var lc := conf.linters.value[linter];
      ghost var mid := reg.runners;
      var kind := reg.NewRunner(RunnerName(linter, lc));
      LookupStep(old(reg.runners), mid, reg.runners, conf, linters, j);
      match kind
      case ByFileRunner =>
        var res := Run(lc, files, exec, cb);
        if res.Err? {
          return Err(res.error);
        }
        LinterRanPut(m, linter, res.value, conf, files, exec);
        m := Put(m, linter, res.value);
    }
    assert linters[..|linters|] == linters;
    return Ok(m);
  }

  /** `res` is what `LintLang` gives for `lang` on `files`. */
  ghost predicate LangRan(res: LangResults, conf: Configuration, lang: LangName,
                          files: set<Path>, exec: Command -> ProcResult)
  {
    && res.keys == FirstOccurrences(LintersOf(conf, lang))
    && forall linter :: linter in res.vals ==> LinterRan(res.vals[linter], conf, linter, files, exec)
  }

  /** The tree built so far: every language in it ran as `LintLang`
      promises, on its classified files. */
  ghost predicate Built(t: Tree, conf: Configuration, classes: Classes, exec: Command -> ProcResult)
  {
    forall l :: l in t.vals ==>
      && l in classes.vals
      && LangRan(t.vals[l], conf, l, classes.vals[l], exec)
  }

  /** One language more: the tree keeps the classification's order and
      stays built. */
  lemma BuiltStep(t: Tree, i: nat, res: LangResults, conf: Configuration,
                  classes: Classes, exec: Command -> ProcResult)
    requires i < |classes.keys| && t.keys == classes.keys[..i]
    requires Built(t, conf, classes, exec)
    requires LangRan(res, conf, classes.keys[i], classes.vals[classes.keys[i]], exec)
    ensures Put(t, classes.keys[i], res).keys == classes.keys[..i + 1]
    ensures Built(Put(t, classes.keys[i], res), conf, classes, exec)
  {
    var lang := classes.keys[i];
    assert classes.keys[..i + 1] == classes.keys[..i] + [lang];
    assert lang !in t.keys;
  }

  /** The dispatch error over `langs[i..]`: the first language's, or that of
      the rest. */
  lemma LintErrorStep(conf: Configuration, langs: seq<LangName>, i: nat)
    requires i < |langs|
    ensures LintError(conf, langs[i..]) ==
      if LangMissingKey(conf, langs[i]).Some? then Some(LintMessage(LangMissingKey(conf, langs[i]).value, langs[i]))
      else LintError(conf, langs[i + 1..])
  {
    assert langs[i..][0] == langs[i] && langs[i..][1..] == langs[i + 1..];
  }

  /** `langs[i]` is the first language whose dispatch meets a missing key. */
  predicate FirstFailing(conf: Configuration, langs: seq<LangName>, i: int)
  {
    && 0 <= i < |langs|
    && LangMissingKey(conf, langs[i]).Some?
    && forall j :: 0 <= j < i ==> LangMissingKey(conf, langs[j]).None?
  }

  /** The error a dispatch reports is that of its first failing language,
      and there is one exactly when the dispatch fails. */
  lemma {:induction false} FirstFailingError(conf: Configuration, langs: seq<LangName>, i: int)
    requires FirstFailing(conf, langs, i)
    ensures LintError(conf, langs) == Some(LintMessage(LangMissingKey(conf, langs[i]).value, langs[i]))
    decreases i
  {
    if i > 0 {
      assert LangMissingKey(conf, langs[0]).None?;
      assert FirstFailing(conf, langs[1..], i - 1) by {
        forall j | 0 <= j < i - 1
          ensures LangMissingKey(conf, langs[1..][j]).None?
        {
          assert langs[1..][j] == langs[j + 1];
        }
      }
      FirstFailingError(conf, langs[1..], i - 1);
    }
  }

  /** A dispatch of `langs` that stopped in the middle of `langs[i]`: the
      registry holds the default runners of every linter of the languages
      before it and of the linters of `langs[i]` looked up before it
      stopped. */
  ghost predicate StoppedAt(before: map<string, RunnerKind>, after: map<string, RunnerKind>,
                            conf: Configuration, langs: seq<LangName>, i: int)
  {
    && 0 <= i < |langs|
    && exists k :: 0 <= k <= |LintersOf(conf, langs[i])| &&
         after == WithDefaults(before, AllRunnerNames(conf, langs[..i]) + RunnerNames(conf, LintersOf(conf, langs[i])[..k]))
  }

  /** A stopped dispatch, too, only added runners. */
  lemma StoppedAtGrows(before: map<string, RunnerKind>, after: map<string, RunnerKind>,
                       conf: Configuration, langs: seq<LangName>, i: int)
    requires StoppedAt(before, after, conf, langs, i)
    ensures Grows(before, after)
  {
    var k :| 0 <= k <= |LintersOf(conf, langs[i])| &&
      after == WithDefaults(before, AllRunnerNames(conf, langs[..i]) + RunnerNames(conf, LintersOf(conf, langs[i])[..k]));
    WithDefaultsGrows(before, AllRunnerNames(conf, langs[..i]) + RunnerNames(conf, LintersOf(conf, langs[i])[..k]));
  }

  /** One language more, dispatched in full: its runner names join those
      of the languages before it. */
  lemma RegistryStep(before: map<string, RunnerKind>, mid: map<string, RunnerKind>,
                     after: map<string, RunnerKind>, conf: Configuration, langs: seq<LangName>, i: nat)
    requires i < |langs| && mid == WithDefaults(before, AllRunnerNames(conf, langs[..i]))
    requires after == WithDefaults(mid, RunnerNames(conf, LintersOf(conf, langs[i])))
    ensures after == WithDefaults(before, AllRunnerNames(conf, langs[..i + 1]))
  {
    AllRunnerNamesStep(conf, langs, i);
    WithDefaultsCompose(before, AllRunnerNames(conf, langs[..i]), RunnerNames(conf, LintersOf(conf, langs[i])));
  }

  /** One language more, whose dispatch stopped: the whole dispatch stopped
      there. */
  lemma RegistryStop(before: map<string, RunnerKind>, mid: map<string, RunnerKind>,
                     after: map<string, RunnerKind>, conf: Configuration, langs: seq<LangName>, i: nat)
    requires i < |langs| && mid == WithDefaults(before, AllRunnerNames(conf, langs[..i]))
    requires LookedUpPrefix(mid, after, conf, LintersOf(conf, langs[i]))
    ensures StoppedAt(before, after, conf, langs, i)
  {
    var k :| 0 <= k <= |LintersOf(conf, langs[i])| &&
      after == WithDefaults(mid, RunnerNames(conf, LintersOf(conf, langs[i])[..k]));
    WithDefaultsCompose(before, AllRunnerNames(conf, langs[..i]), RunnerNames(conf, LintersOf(conf, langs[i])[..k]));
  }

  /** `__lint`: fails with the configuration error of the first missing key
      in dispatch order, after dispatching in full every language before the
      one that meets it; otherwise the tree has the classified languages, in
      order, each with its configured linters, and the registry has gained
      the default runner of every runner name they ask for. */
  method Lint(classes: Classes, conf: Configuration, exec: Command -> ProcResult, reg: Registry, cb: Console?)
    returns (r: Result<Tree>)
    modifies reg, cb
    ensures r.Err? <==> LintError(conf, classes.keys).Some?
    ensures r.Err? ==> r.error == ConfError(LintError(conf, classes.keys).value)
    ensures r.Ok? ==> r.value.keys == classes.keys
    ensures r.Ok? ==> Built(r.value, conf, classes, exec)
    ensures r.Ok? ==> reg.runners == WithDefaults(old(reg.runners), AllRunnerNames(conf, classes.keys))
    ensures r.Err? ==>
      exists i :: FirstFailing(conf, classes.keys, i) && StoppedAt(old(reg.runners), reg.runners, conf, classes.keys, i)
  {
    var ret: Tree := Empty();
    WithDefaultsCompose(reg.runners, {}, {});
    for i := 0 to |classes.keys|
      invariant LintError(conf, classes.keys) == LintError(conf, classes.keys[i..])
      invariant ret.keys == classes.keys[..i]
      invariant Built(ret, conf, classes, exec)
      invariant reg.runners == WithDefaults(old(reg.runners), AllRunnerNames(conf, classes.keys[..i]))
      invariant forall j :: 0 <= j < i ==> LangMissingKey(conf, classes.keys[j]).None?
    {
      var lang := classes.keys[i];
      LintErrorStep(conf, classes.keys, i);
      ghost var mid := reg.runners;
      var langResults := LintLang(conf, lang, classes.vals[lang], exec, reg, cb);
      if langResults.Err? {
        RegistryStop(old(reg.runners), mid, reg.runners, conf, classes.keys, i);
        assert FirstFailing(conf, classes.keys, i);
        return Err(ConfError(LintMessage(langResults.error.key, lang)));
      }
      RegistryStep(old(reg.runners), mid, reg.runners, conf, classes.keys, i);
      BuiltStep(ret, i, langResults.value, conf, classes, exec);
      ret := Put(ret, lang, langResults.value);
    }
    assert classes.keys[..|classes.keys|] == classes.keys;
    return Ok(ret);
  }
}
