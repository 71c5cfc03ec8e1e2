/** `AutoLint.__classify_files`: grouping the files to lint by language,
    using each language's `include` globs. The glob test itself (`fnmatch` on
    the whole path) is the parameter `matches`. */
module Classify {
  import opened Config
  import opened OrderedDicts

  /** The error message for a key missing while classifying. */
  function ClassifyMessage(key: string): string
  {
    "Configuration file, key " + key + " not found"
  }

  /** Different missing keys give different messages. */
  lemma ClassifyMessageInjective(key1: string, key2: string)
    requires ClassifyMessage(key1) == ClassifyMessage(key2)
    ensures key1 == key2
  {
    var m := ClassifyMessage(key1);
    var prefix := "Configuration file, key ";
    assert m[|prefix|..|m| - 10] == key1;
    assert m[|prefix|..|m| - 10] == key2;
  }

  /** `f` matches at least one of the globs. */
  predicate MatchesAny(f: Path, globs: seq<Glob>, matches: (Path, Glob) -> bool)
  {
    exists i :: 0 <= i < |globs| && matches(f, globs[i])
  }

  /** The include globs of a language, none when the key is missing. */
  function IncludesOf(lc: LangConf): seq<Glob>
  {
    if lc.includes.Some? then lc.includes.value else []
  }

  /** The files a language claims. */
  ghost function LangFiles(files: set<Path>, globs: seq<Glob>, matches: (Path, Glob) -> bool): set<Path>
  {
    set f | f in files && MatchesAny(f, globs, matches)
  }

  /** The languages of `order` that claim at least one file, in that order. */
  ghost function NonEmptyLangs(order: seq<LangName>, langs: Dict<LangName, LangConf>,
                               files: set<Path>, matches: (Path, Glob) -> bool): seq<LangName>
  {
    if order == [] then []
    else
      var last := order[|order| - 1];
      var init := NonEmptyLangs(order[..|order| - 1], langs, files, matches);
      if last in langs.vals && LangFiles(files, IncludesOf(langs.vals[last]), matches) != {}
      then init + [last] else init
  }

  lemma NonEmptyLangsStep(order: seq<LangName>, langs: Dict<LangName, LangConf>,
                          files: set<Path>, matches: (Path, Glob) -> bool, i: nat)
    requires i < |order| && order[i] in langs.vals
    ensures NonEmptyLangs(order[..i + 1], langs, files, matches) ==
      NonEmptyLangs(order[..i], langs, files, matches) +
      (if LangFiles(files, IncludesOf(langs.vals[order[i]]), matches) != {} then [order[i]] else [])
  {
    assert order[..i + 1][..i] == order[..i];
  }

  /** A language is listed exactly when it is in `order` and claims some
      file. */
  lemma {:induction false} NonEmptyLangsMembers(order: seq<LangName>, langs: Dict<LangName, LangConf>,
                                                 files: set<Path>, matches: (Path, Glob) -> bool)
    ensures forall l :: l in NonEmptyLangs(order, langs, files, matches) <==>
      l in order && l in langs.vals && LangFiles(files, IncludesOf(langs.vals[l]), matches) != {}
  {
    if order != [] {
      NonEmptyLangsMembers(order[..|order| - 1], langs, files, matches);
      assert order == order[..|order| - 1] + [order[|order| - 1]];
    }
  }

  /** Some language has no `include` key. */
  ghost predicate MissingInclude(langs: Dict<LangName, LangConf>)
  {
    exists l :: l in langs.vals && langs.vals[l].includes.None?
  }

  /** The union, over the globs, of the files each glob matches. */
  method CollectMatches(files: set<Path>, globs: seq<Glob>, matches: (Path, Glob) -> bool)
    returns (found: set<Path>)
    ensures forall f :: f in found <==> f in files && MatchesAny(f, globs, matches)
  {
    found := {};
    for j := 0 to |globs|
      invariant forall f :: f in found <==> f in files && exists k :: 0 <= k < j && matches(f, globs[k])
    {
      found := found + set f | f in files && matches(f, globs[j]);
    }
  }

  /** Fails exactly when `langs` or some language's `include` is missing,
      naming the key. Otherwise the result lists, in configuration order, the
      languages that claim some file, each with exactly the files that match
      one of its globs (see `LangFiles`). */
  method ClassifyFiles(files: set<Path>, conf: Configuration, matches: (Path, Glob) -> bool)
    returns (r: Result<Classes>)
    ensures r.Err? <==> conf.langs.None? || MissingInclude(conf.langs.value)
    ensures conf.langs.None? ==> r == Err(ConfError(ClassifyMessage("langs")))
    ensures conf.langs.Some? && r.Err? ==> r == Err(ConfError(ClassifyMessage("include")))
    ensures r.Ok? ==> r.value.keys == NonEmptyLangs(conf.langs.value.keys, conf.langs.value, files, matches)
    ensures r.Ok? ==> forall lang :: lang in r.value.vals ==>
      && lang in conf.langs.value.vals
      && r.value.vals[lang] == LangFiles(files, IncludesOf(conf.langs.value.vals[lang]), matches)
      && r.value.vals[lang] != {}
    ensures r.Ok? ==> forall lang ::
      (lang in conf.langs.value.vals && LangFiles(files, IncludesOf(conf.langs.value.vals[lang]), matches) != {})
      ==> lang in r.value.vals
  {
    if conf.langs.None? {
      return Err(ConfError(ClassifyMessage("langs")));
    }
    var langs := conf.langs.value;
    var ret: Classes := Empty();
    for i := 0 to |langs.keys|
      invariant forall l :: l in langs.keys[..i] ==> langs.vals[l].includes.Some?
      invariant ret.keys == NonEmptyLangs(langs.keys[..i], langs, files, matches)
      invariant forall l :: l in ret.vals ==>
        l in langs.vals && ret.vals[l] == LangFiles(files, IncludesOf(langs.vals[l]), matches)
    {
      var lang := langs.keys[i];
      assert langs.keys[..i + 1] == langs.keys[..i] + [lang];
      if langs.vals[lang].includes.None? {
        assert MissingInclude(langs);
        return Err(ConfError(ClassifyMessage("include")));
      }
      var found := CollectMatches(files, langs.vals[lang].includes.value, matches);
      assert found == LangFiles(files, IncludesOf(langs.vals[lang]), matches);
      NonEmptyLangsStep(langs.keys, langs, files, matches, i);
      NonEmptyLangsMembers(langs.keys[..i], langs, files, matches);
      assert lang !in langs.keys[..i];
      if found != {} {
        ret := Put(ret, lang, found);
      }
    }
    assert langs.keys[..|langs.keys|] == langs.keys;
    NonEmptyLangsMembers(langs.keys, langs, files, matches);
    return Ok(ret);
  }
}
