/** `AutoLint.__remove_ignored_files`: dropping the files an ignore file
    (gitignore syntax) excludes. Parsing the ignore file and matching
    gitignore patterns belong to the pattern library; each parsed pattern is
    represented by its `include` flag and the set of paths it matches. */
module Ignore {
  import opened Config

  /** One parsed gitignore line; `flag` is the pattern's `include` attribute.
      `Some(true)` excludes what the line matches, `Some(false)` (a `!` line)
      re-includes it, and `None` (a blank or comment line) does nothing. */
  datatype IgnorePattern = IgnorePattern(flag: Option<bool>, matches: set<Path>)

  /** The pattern takes part in deciding `f`. */
  predicate Decides(p: IgnorePattern, f: Path)
  {
    p.flag.Some? && f in p.matches
  }

  /** The `include` flag of the last pattern that decides `f`, or `None` if
      no pattern does. */
  function Verdict(ps: seq<IgnorePattern>, f: Path): (v: Option<bool>)
    ensures v.Some? <==> exists i :: 0 <= i < |ps| && Decides(ps[i], f)
  {
    if ps == [] then None
    else if Decides(ps[|ps| - 1], f) then ps[|ps| - 1].flag
    else Verdict(ps[..|ps| - 1], f)
  }

  /** The files the filter keeps: all of them without an ignore file, else
      those whose verdict is not an exclusion. */
  ghost function Kept(allFiles: set<Path>, ignore: Option<seq<IgnorePattern>>): set<Path>
  {
    if ignore.None? then allFiles
    else set f | f in allFiles && Verdict(ignore.value, f) != Some(true)
  }

  /** With no ignore file every file is kept; otherwise a file is kept exactly
      when it was found and the last pattern that decides it, if any, is a
      negation. */
  method RemoveIgnoredFiles(allFiles: set<Path>, ignore: Option<seq<IgnorePattern>>)
    returns (kept: set<Path>)
    ensures ignore.None? ==> kept == allFiles
    ensures ignore.Some? ==>
      forall f :: f in kept <==> f in allFiles && Verdict(ignore.value, f) != Some(true)
    ensures kept <= allFiles
  {
    if ignore.None? {
      return allFiles;
    }
    var ps := ignore.value;
    kept := allFiles;
    for i := 0 to |ps|
      invariant forall f :: f in kept <==> f in allFiles && Verdict(ps[..i], f) != Some(true)
    {
      var p := ps[i];
      assert ps[..i + 1][..i] == ps[..i];
      if p.flag.Some? {
        // `p.match(all_files)`: the found files the pattern matches
        var matched := set f | f in allFiles && f in p.matches;
        if p.flag.value {
          kept := kept - matched;
        } else {
          kept := kept + matched;
        }
      }
    }
    assert ps[..|ps|] == ps;
  }

  /** The verdict is the flag of the last deciding pattern: `Some(b)` exactly
      when some pattern with flag `b` matches `f` and no later pattern decides
      `f`. */
  lemma {:induction false} VerdictIsLastMatch(ps: seq<IgnorePattern>, f: Path, b: bool)
    ensures Verdict(ps, f) == Some(b) <==>
      exists i :: 0 <= i < |ps| && ps[i].flag == Some(b) && f in ps[i].matches &&
                  forall j :: i < j < |ps| ==> !Decides(ps[j], f)
  {
    if ps != [] {
      var n := |ps| - 1;
      var init := ps[..n];
      VerdictIsLastMatch(init, f, b);
      if Decides(ps[n], f) {
        if Verdict(ps, f) == Some(b) {
          assert ps[n].flag == Some(b) && f in ps[n].matches;
        } else {
          forall i | 0 <= i < |ps| && ps[i].flag == Some(b) && f in ps[i].matches
            ensures exists j :: i < j < |ps| && Decides(ps[j], f)
          {
            assert i != n;
            assert Decides(ps[n], f);
          }
        }
      } else {
        if Verdict(ps, f) == Some(b) {
          var i :| 0 <= i < |init| && init[i].flag == Some(b) && f in init[i].matches &&
                   forall j :: i < j < |init| ==> !Decides(init[j], f);
          assert forall j :: i < j < |ps| ==> !Decides(ps[j], f) by {
            forall j | i < j < |ps| ensures !Decides(ps[j], f) {
              if j < n { assert ps[j] == init[j]; }
            }
          }
        } else {
          forall i | 0 <= i < |ps| && ps[i].flag == Some(b) && f in ps[i].matches
            ensures exists j :: i < j < |ps| && Decides(ps[j], f)
          {
            assert i != n;
            assert init[i] == ps[i];
            var j :| i < j < |init| && Decides(init[j], f);
            assert ps[j] == init[j];
          }
        }
      }
    }
  }

  /** A file no pattern decides gets no verdict, so it is always kept. */
  lemma {:induction false} UndecidedKept(ps: seq<IgnorePattern>, f: Path)
    requires forall i :: 0 <= i < |ps| ==> !Decides(ps[i], f)
    ensures Verdict(ps, f) == None
  {
    if ps != [] {
      UndecidedKept(ps[..|ps| - 1], f);
    }
  }

  /** Later lines override earlier ones: the patterns of `later` decide a file
      whenever one of them matches it, and only otherwise does `earlier`. */
  lemma {:induction false} LaterPatternsWin(earlier: seq<IgnorePattern>, later: seq<IgnorePattern>, f: Path)
    ensures Verdict(earlier + later, f) ==
      if Verdict(later, f).Some? then Verdict(later, f) else Verdict(earlier, f)
  {
    if later == [] {
      assert earlier + later == earlier;
    } else {
      var all := earlier + later;
      var n := |later| - 1;
      assert all[|all| - 1] == later[n];
      assert all[..|all| - 1] == earlier + later[..n];
      LaterPatternsWin(earlier, later[..n], f);
    }
  }
}
