/** The report side of `AutoLint`: `print_helper`, `__pretty_print` and the
    exit-code scans of `run_linter`. Printing is appending to a `Console`. */
module Report {
  import opened Config
  import opened OrderedDicts
  import opened Strings

  /** What a failing file's linter wrote, in the order the report shows it:
      stdout, then stderr on the next line. */
  function Output(stdout: string, stderr: string): string
  {
    if stdout != "" && stderr != "" then stdout + "\n" + stderr else stdout + stderr
  }

  /** `print_helper`: the line printed for a failing file, or `None` when the
      linter wrote nothing at all, in which case not even the file name is
      printed. The output sits under the file name with every line of it
      indented by three tabs. */
  function HelperLine(filename: Path, stdout: string, stderr: string): (line: Option<string>)
    ensures line.None? <==> stdout == "" && stderr == ""
    ensures line.Some? ==> line.value == "\t\t" + filename + Indent("\n" + Output(stdout, stderr))
  {
    IndentJoin("", Output(stdout, stderr));
    assert "" + "\n" + Output(stdout, stderr) == "\n" + Output(stdout, stderr);
    if stdout != "" && stderr != "" then
      IndentJoin(stdout, stderr);
      Some("\t\t" + filename + "\n\t\t\t" + Indent(stdout) + "\n\t\t\t" + Indent(stderr))
    else if stdout != "" then
      assert Output(stdout, stderr) == stdout;
      Some("\t\t" + filename + "\n\t\t\t" + Indent(stdout))
    else if stderr != "" then
      assert Output(stdout, stderr) == stderr;
      Some("\t\t" + filename + "\n\t\t\t" + Indent(stderr))
    else
      None
  }

  /** The printed block gives back exactly what the linter wrote: after the
      file name, removing the indentation leaves a line break followed by
      the output. */
  lemma HelperLineRecoversOutput(filename: Path, stdout: string, stderr: string)
    requires stdout != "" || stderr != ""
    ensures HelperLine(filename, stdout, stderr).Some?
    ensures HelperLine(filename, stdout, stderr).value[..|filename| + 2] == "\t\t" + filename
    ensures Unindent(HelperLine(filename, stdout, stderr).value[|filename| + 2..]) == "\n" + Output(stdout, stderr)
  {
    var body := Indent("\n" + Output(stdout, stderr));
    var line := HelperLine(filename, stdout, stderr).value;
    assert line == ("\t\t" + filename) + body;
    assert line[|filename| + 2..] == body;
    IndentRoundTrip("\n" + Output(stdout, stderr));
  }

  /** Every line break after the file name starts a line indented by three
      tabs, so the output stays nested under its file. */
  lemma HelperLineIndented(filename: Path, stdout: string, stderr: string)
    requires stdout != "" || stderr != ""
    ensures var line := HelperLine(filename, stdout, stderr).value;
      forall i :: |filename| + 2 <= i < |line| && line[i] == '\n' ==>
        i + 4 <= |line| && line[i + 1..i + 4] == "\t\t\t"
  {
    var body := Indent("\n" + Output(stdout, stderr));
    var line := HelperLine(filename, stdout, stderr).value;
    var n := |filename| + 2;
    assert line == ("\t\t" + filename) + body;
    IndentedBreaks("\n" + Output(stdout, stderr));
    forall i | n <= i < |line| && line[i] == '\n'
      ensures i + 4 <= |line| && line[i + 1..i + 4] == "\t\t\t"
    {
      assert line[i] == body[i - n];
      assert line[i + 1..i + 4] == body[i - n + 1..i - n + 4];
    }
  }

  /** A counter summary: `<name>: Checked <total> files; <failed> with
      errors`. */
  function CheckedLine(name: string, total: nat, failed: nat): string
  {
    name + ": Checked " + NatToString(total) + " files; " + NatToString(failed) + " with errors"
  }

  /** The closing line with the totals. */
  function SummaryLine(total: nat, failed: nat): string
  {
    "Checked " + NatToString(total) + " files, " + NatToString(failed) + " with errors"
  }

  /** One line of the pretty report, before formatting. */
  datatype Line =
    | LangHeader(lang: LangName)
    | LinterHeader(linter: LinterName)
    | FilePassed(filename: Path)
    | FileFailed(filename: Path, stdout: string, stderr: string)
    | LinterSummary(linter: LinterName, total: nat, failed: nat)
    | LangSummary(lang: LangName, total: nat, failed: nat)
    | Totals(total: nat, failed: nat)

  /** The text of a line: headers and passing files indented by their
      depth, a failing file as `print_helper` lays it out, and the summaries
      in their `%`-format. */
  function Render(l: Line): (r: string)
    ensures l.LinterHeader? || l.LinterSummary? ==> |r| >= 1 && r[0] == '\t'
    ensures l.FilePassed? || (l.FileFailed? && r != "") ==> |r| >= 2 && r[..2] == "\t\t"
    ensures l.FileFailed? ==> (r == "" <==> l.stdout == "" && l.stderr == "")
  {
    match l
    case LangHeader(lang) => lang
    case LinterHeader(linter) => "\t" + linter
    case FilePassed(filename) => "\t\t" + filename
    case FileFailed(filename, stdout, stderr) =>
      var line := HelperLine(filename, stdout, stderr);
      if line.Some? then line.value else ""
    case LinterSummary(linter, total, failed) => "\t" + CheckedLine(linter, total, failed)
    case LangSummary(lang, total, failed) => CheckedLine(lang, total, failed)
    case Totals(total, failed) => SummaryLine(total, failed)
  }

  /** The writes `print` makes for the lines, one per line. */
  function Printed(lines: seq<Line>): (out: seq<string>)
    ensures |out| == |lines|
  {
    seq(|lines|, i requires 0 <= i < |lines| => Render(lines[i]) + "\n")
  }

  lemma PrintedAppend(a: seq<Line>, b: seq<Line>)
    ensures Printed(a + b) == Printed(a) + Printed(b)
  {
    var l, r := Printed(a + b), Printed(a) + Printed(b);
    forall i | 0 <= i < |l|
      ensures l[i] == r[i]
    {
      if i < |a| {
        assert (a + b)[i] == a[i];
      } else {
        assert (a + b)[i] == b[i - |a|];
      }
    }
  }

  lemma PrintedOne(l: Line)
    ensures Printed([l]) == [Render(l) + "\n"]
  {
  }

  /** What `__pretty_print` prints for one file: the helper's block for a
      failing file (nothing if its linter wrote nothing), the bare name for a
      passing one. */
  function FileLines(filename: Path, result: ProcResult): seq<Line>
  {
    if result.code == 0 then [FilePassed(filename)]
    else if result.stdout == "" && result.stderr == "" then []
    else [FileFailed(filename, result.stdout, result.stderr)]
  }

  /** The tree as `__pretty_print` walks it with `items()` at each level:
      languages, then linters, then files, each in dictionary order. */
  type FileRows = seq<(Path, ProcResult)>
  type LinterRows = seq<(LinterName, FileRows)>
  type LangRows = seq<(LangName, LinterRows)>

  function FileRowsOf(fr: FileResults): FileRows
  {
    seq(|fr.keys|, i requires 0 <= i < |fr.keys| => (fr.keys[i], fr.vals[fr.keys[i]]))
  }

  function LinterRowsOf(lr: LangResults): LinterRows
  {
    seq(|lr.keys|, i requires 0 <= i < |lr.keys| => (lr.keys[i], FileRowsOf(lr.vals[lr.keys[i]])))
  }

  function Rows(t: Tree): LangRows
  {
    seq(|t.keys|, i requires 0 <= i < |t.keys| => (t.keys[i], LinterRowsOf(t.vals[t.keys[i]])))
  }

  /** The number of files among the first `n` rows with a nonzero exit
      code. */
  function Failed(files: FileRows, n: nat): nat
    requires n <= |files|
  {
    if n == 0 then 0
    else Failed(files, n - 1) + if files[n - 1].1.code != 0 then 1 else 0
  }

  /** Files checked by the first `n` linters of a language (a file counts
      once per linter). */
  function LangTotal(linters: LinterRows, n: nat): nat
    requires n <= |linters|
  {
    if n == 0 then 0
    else LangTotal(linters, n - 1) + |linters[n - 1].1|
  }

  /** Failed checks over the first `n` linters of a language. */
  function LangFailed(linters: LinterRows, n: nat): nat
    requires n <= |linters|
  {
    if n == 0 then 0
    else LangFailed(linters, n - 1) + Failed(linters[n - 1].1, |linters[n - 1].1|)
  }

  /** Files checked over the first `n` languages. */
  function TreeTotal(langs: LangRows, n: nat): nat
    requires n <= |langs|
  {
    if n == 0 then 0
    else TreeTotal(langs, n - 1) + LangTotal(langs[n - 1].1, |langs[n - 1].1|)
  }

  /** Failed checks over the first `n` languages. */
  function TreeFailed(langs: LangRows, n: nat): nat
    requires n <= |langs|
  {
    if n == 0 then 0
    else TreeFailed(langs, n - 1) + LangFailed(langs[n - 1].1, |langs[n - 1].1|)
  }

  /** Some file among the first `n` rows exited with a nonzero code. */
  ghost predicate FileNonzero(files: FileRows, n: nat)
    requires n <= |files|
  {
    exists k :: 0 <= k < n && files[k].1.code != 0
  }

  /** Some file of one of the first `n` linters failed. */
  ghost predicate LangNonzero(linters: LinterRows, n: nat)
    requires n <= |linters|
  {
    exists j :: 0 <= j < n && FileNonzero(linters[j].1, |linters[j].1|)
  }

  /** Some file of some linter of one of the first `n` languages failed. */
  ghost predicate TreeNonzero(langs: LangRows, n: nat)
    requires n <= |langs|
  {
    exists i :: 0 <= i < n && LangNonzero(langs[i].1, |langs[i].1|)
  }

  lemma FileNonzeroStep(files: FileRows, k: nat)
    requires k < |files|
    ensures FileNonzero(files, k + 1) <==> FileNonzero(files, k) || files[k].1.code != 0
  {
  }

  lemma LangNonzeroStep(linters: LinterRows, j: nat)
    requires j < |linters|
    ensures LangNonzero(linters, j + 1) <==>
      LangNonzero(linters, j) || FileNonzero(linters[j].1, |linters[j].1|)
  {
  }

  lemma TreeNonzeroStep(langs: LangRows, i: nat)
    requires i < |langs|
    ensures TreeNonzero(langs, i + 1) <==>
      TreeNonzero(langs, i) || LangNonzero(langs[i].1, |langs[i].1|)
  {
  }

  lemma FileNonzeroPrefix(files: FileRows, n: nat)
    requires n <= |files| && FileNonzero(files, n)
    ensures FileNonzero(files, |files|)
  {
  }

  lemma LangNonzeroPrefix(linters: LinterRows, n: nat)
    requires n <= |linters| && LangNonzero(linters, n)
    ensures LangNonzero(linters, |linters|)
  {
  }

  lemma TreeNonzeroPrefix(langs: LangRows, n: nat)
    requires n <= |langs| && TreeNonzero(langs, n)
    ensures TreeNonzero(langs, |langs|)
  {
  }

  /** A linter never has more failed files than files. */
  lemma {:induction false} FailedAtMostTotal(files: FileRows, n: nat)
    requires n <= |files|
    ensures Failed(files, n) <= n
  {
    if n > 0 {
      FailedAtMostTotal(files, n - 1);
    }
  }

  /** A language's failed count never exceeds its total. */
  lemma {:induction false} LangFailedAtMostTotal(linters: LinterRows, n: nat)
    requires n <= |linters|
    ensures LangFailed(linters, n) <= LangTotal(linters, n)
  {
    if n > 0 {
      LangFailedAtMostTotal(linters, n - 1);
      FailedAtMostTotal(linters[n - 1].1, |linters[n - 1].1|);
    }
  }

  /** The report's closing failed count never exceeds its total. */
  lemma {:induction false} TreeFailedAtMostTotal(langs: LangRows, n: nat)
    requires n <= |langs|
    ensures TreeFailed(langs, n) <= TreeTotal(langs, n)
  {
    if n > 0 {
      TreeFailedAtMostTotal(langs, n - 1);
      LangFailedAtMostTotal(langs[n - 1].1, |langs[n - 1].1|);
    }
  }

  /** A linter's failed count is positive exactly when one of its files
      failed. */
  lemma {:induction false} FailedPositive(files: FileRows, n: nat)
    requires n <= |files|
    ensures Failed(files, n) > 0 <==> FileNonzero(files, n)
  {
    if n > 0 {
      FailedPositive(files, n - 1);
      if files[n - 1].1.code != 0 {
        assert FileNonzero(files, n);
      } else if FileNonzero(files, n) {
        var k :| 0 <= k < n && files[k].1.code != 0;
        assert FileNonzero(files, n - 1);
      }
    }
  }

  /** A language's failed count is positive exactly when a file of one of
      its linters failed. */
  lemma {:induction false} LangFailedPositive(linters: LinterRows, n: nat)
    requires n <= |linters|
    ensures LangFailed(linters, n) > 0 <==> LangNonzero(linters, n)
  {
    if n > 0 {
      LangFailedPositive(linters, n - 1);
      var files := linters[n - 1].1;
      FailedPositive(files, |files|);
      if FileNonzero(files, |files|) {
        assert LangNonzero(linters, n);
      } else if LangNonzero(linters, n) {
        var j :| 0 <= j < n && FileNonzero(linters[j].1, |linters[j].1|);
        assert LangNonzero(linters, n - 1);
      }
    }
  }

  /** The report's failed count is positive exactly when some file failed. */
  lemma {:induction false} TreeFailedPositive(langs: LangRows, n: nat)
    requires n <= |langs|
    ensures TreeFailed(langs, n) > 0 <==> TreeNonzero(langs, n)
  {
    if n > 0 {
      TreeFailedPositive(langs, n - 1);
      var linters := langs[n - 1].1;
      LangFailedPositive(linters, |linters|);
      if LangNonzero(linters, |linters|) {
        assert TreeNonzero(langs, n);
      } else if TreeNonzero(langs, n) {
        var i :| 0 <= i < n && LangNonzero(langs[i].1, |langs[i].1|);
        assert TreeNonzero(langs, n - 1);
      }
    }
  }

  /** Some file of `fr` exited with a nonzero code. */
  ghost predicate AnyFileFailed(fr: FileResults)
  {
    exists f :: f in fr.vals && fr.vals[f].code != 0
  }

  /** Some file of some linter of `lr` failed. */
  ghost predicate AnyLinterFailed(lr: LangResults)
  {
    exists linter :: linter in lr.vals && AnyFileFailed(lr.vals[linter])
  }

  lemma FileRowsNonzero(fr: FileResults)
    ensures FileNonzero(FileRowsOf(fr), |fr.keys|) <==> AnyFileFailed(fr)
  {
    var files := FileRowsOf(fr);
    if AnyFileFailed(fr) {
      var f :| f in fr.vals && fr.vals[f].code != 0;
      var k := IndexOf(fr, f);
      assert files[k].1.code != 0;
    }
  }

  lemma LinterRowsNonzero(lr: LangResults)
    ensures LangNonzero(LinterRowsOf(lr), |lr.keys|) <==> AnyLinterFailed(lr)
  {
    var linters := LinterRowsOf(lr);
    if LangNonzero(linters, |lr.keys|) {
      var j :| 0 <= j < |lr.keys| && FileNonzero(linters[j].1, |linters[j].1|);
      FileRowsNonzero(lr.vals[lr.keys[j]]);
    }
    if AnyLinterFailed(lr) {
      var linter :| linter in lr.vals && AnyFileFailed(lr.vals[linter]);
      var j := IndexOf(lr, linter);
      FileRowsNonzero(lr.vals[linter]);
      assert FileNonzero(linters[j].1, |linters[j].1|);
    }
  }

  lemma LangRowsNonzero(t: Tree)
    ensures TreeNonzero(Rows(t), |t.keys|) <==>
      exists lang :: lang in t.vals && AnyLinterFailed(t.vals[lang])
  {
    var langs := Rows(t);
    if TreeNonzero(langs, |t.keys|) {
      var i :| 0 <= i < |t.keys| && LangNonzero(langs[i].1, |langs[i].1|);
      LinterRowsNonzero(t.vals[t.keys[i]]);
    }
    if exists lang :: lang in t.vals && AnyLinterFailed(t.vals[lang]) {
      var lang :| lang in t.vals && AnyLinterFailed(t.vals[lang]);
      var i := IndexOf(t, lang);
      LinterRowsNonzero(t.vals[lang]);
      assert LangNonzero(langs[i].1, |langs[i].1|);
    }
  }

  /** Walking the rows finds a failed file exactly when the tree has one. */
  lemma RowsNonzero(t: Tree)
    ensures TreeNonzero(Rows(t), |t.keys|) <==> AnyNonzero(t)
  {
    LangRowsNonzero(t);
    if AnyNonzero(t) {
      var lang, linter, f :|
        && lang in t.vals
        && linter in t.vals[lang].vals
        && f in t.vals[lang].vals[linter].vals
        && t.vals[lang].vals[linter].vals[f].code != 0;
      assert AnyFileFailed(t.vals[lang].vals[linter]);
      assert AnyLinterFailed(t.vals[lang]);
    }
  }

  /** The lines of the first `n` files of one linter. */
  function FilesLines(files: FileRows, n: nat): seq<Line>
    requires n <= |files|
  {
    if n == 0 then []
    else FilesLines(files, n - 1) + FileLines(files[n - 1].0, files[n - 1].1)
  }

  /** One linter's part: its header, its files and, when the language has
      several linters, its summary. */
  function LinterLines(linter: LinterName, files: FileRows, many: bool): seq<Line>
  {
    [LinterHeader(linter)] + FilesLines(files, |files|)
    + if many then [LinterSummary(linter, |files|, Failed(files, |files|))] else []
  }

  /** The first `n` linters of one language. */
  function LintersLines(linters: LinterRows, n: nat, many: bool): seq<Line>
    requires n <= |linters|
  {
    if n == 0 then []
    else LintersLines(linters, n - 1, many) + LinterLines(linters[n - 1].0, linters[n - 1].1, many)
  }

  /** One language's part: its header, its linters and, when there are
      several languages, its summary. */
  function LangLines(lang: LangName, linters: LinterRows, many: bool): seq<Line>
  {
    [LangHeader(lang)] + LintersLines(linters, |linters|, |linters| > 1)
    + if many then [LangSummary(lang, LangTotal(linters, |linters|), LangFailed(linters, |linters|))] else []
  }

  /** The first `n` languages. */
  function LangsLines(langs: LangRows, n: nat, many: bool): seq<Line>
    requires n <= |langs|
  {
    if n == 0 then []
    else LangsLines(langs, n - 1, many) + LangLines(langs[n - 1].0, langs[n - 1].1, many)
  }

  /** The whole report `__pretty_print` prints. It ends with the totals,
      whose failed count never exceeds the checked count and is positive
      exactly when some linter exited nonzero on some file. */
  function ReportLines(t: Tree): (lines: seq<Line>)
    ensures |lines| >= 1 && lines[|lines| - 1].Totals?
    ensures lines[|lines| - 1].failed <= lines[|lines| - 1].total
    ensures lines[|lines| - 1].failed > 0 <==> AnyNonzero(t)
  {
    var langs := Rows(t);
    TreeFailedAtMostTotal(langs, |langs|);
    TreeFailedPositive(langs, |langs|);
    RowsNonzero(t);
    LangsLines(langs, |langs|, |langs| > 1) + [Totals(TreeTotal(langs, |langs|), TreeFailed(langs, |langs|))]
  }

  /** Prints `lines` after what `before` holds: the writes add up. */
  lemma PrintedStep(before: seq<string>, a: seq<Line>, b: seq<Line>)
    ensures (before + Printed(a)) + Printed(b) == before + Printed(a + b)
  {
    PrintedAppend(a, b);
    assert (before + Printed(a)) + Printed(b) == before + (Printed(a) + Printed(b));
  }

  /** `print(Render(l))`, the write for one line. */
  method PrintLine(console: Console, l: Line)
    modifies console
    ensures console.out == old(console.out) + Printed([l]) && console.err == old(console.err)
  {
    console.Print(Render(l));
    PrintedOne(l);
  }

  /** One file of `__pretty_print`: `print_helper` for a failing file, the
      bare name otherwise. */
  method PrintFile(console: Console, filename: Path, result: ProcResult)
    modifies console
    ensures console.out == old(console.out) + Printed(FileLines(filename, result)) && console.err == old(console.err)
  {
    if result.code != 0 {
      var line := HelperLine(filename, result.stdout, result.stderr);
      if line.Some? {
        console.Print(line.value);
        PrintedOne(FileFailed(filename, result.stdout, result.stderr));
      } else {
        assert old(console.out) + [] == old(console.out);
      }
    } else {
      PrintLine(console, FilePassed(filename));
    }
  }

  /** The innermost loop of `__pretty_print`: one linter's files. */
  method PrintFiles(console: Console, files: FileRows) returns (total: nat, failed: nat)
    modifies console
    ensures total == |files| && failed == Failed(files, |files|)
    ensures console.out == old(console.out) + Printed(FilesLines(files, |files|)) && console.err == old(console.err)
  {
    total, failed := 0, 0;
    for k := 0 to |files|
      invariant total == k && failed == Failed(files, k)
      invariant console.out == old(console.out) + Printed(FilesLines(files, k)) && console.err == old(console.err)
    {
      var (filename, result) := files[k];
      total := total + 1;
      if result.code != 0 {
        failed := failed + 1;
      }
      PrintFile(console, filename, result);
      PrintedStep(old(console.out), FilesLines(files, k), FileLines(filename, result));
    }
  }

  /** One linter's part of `__pretty_print`: header, files, and the
      linter's summary when the language has several linters. */
  method PrintLinter(console: Console, linter: LinterName, files: FileRows, many: bool)
    returns (total: nat, failed: nat)
    modifies console
    ensures total == |files| && failed == Failed(files, |files|)
    ensures console.out == old(console.out) + Printed(LinterLines(linter, files, many)) && console.err == old(console.err)
  {
    PrintLine(console, LinterHeader(linter));
    total, failed := PrintFiles(console, files);
    PrintedStep(old(console.out), [LinterHeader(linter)], FilesLines(files, |files|));
    ghost var head := [LinterHeader(linter)] + FilesLines(files, |files|);
    if many {
      PrintLine(console, LinterSummary(linter, total, failed));
      PrintedStep(old(console.out), head, [LinterSummary(linter, total, failed)]);
    } else {
      assert head + [] == head;
    }
  }

  /** The middle loop of `__pretty_print`: the linters of one language. */
  method PrintLinters(console: Console, linters: LinterRows) returns (total: nat, failed: nat)
    modifies console
    ensures total == LangTotal(linters, |linters|) && failed == LangFailed(linters, |linters|)
    ensures console.out == old(console.out) + Printed(LintersLines(linters, |linters|, |linters| > 1))
    ensures console.err == old(console.err)
  {
    var many := |linters| > 1;
    total, failed := 0, 0;
    for j := 0 to |linters|
      invariant total == LangTotal(linters, j) && failed == LangFailed(linters, j)
      invariant console.out == old(console.out) + Printed(LintersLines(linters, j, many)) && console.err == old(console.err)
    {
      var (linter, files) := linters[j];
      var linterTotal, linterFailed := PrintLinter(console, linter, files, many);
      PrintedStep(old(console.out), LintersLines(linters, j, many), LinterLines(linter, files, many));
      total := total + linterTotal;
      failed := failed + linterFailed;
    }
  }

  /** One language's part of `__pretty_print`: header, linters, and the
      language's summary when there are several languages. */
  method PrintLang(console: Console, lang: LangName, linters: LinterRows, many: bool)
    returns (total: nat, failed: nat)
    modifies console
    ensures total == LangTotal(linters, |linters|) && failed == LangFailed(linters, |linters|)
    ensures console.out == old(console.out) + Printed(LangLines(lang, linters, many)) && console.err == old(console.err)
  {
    PrintLine(console, LangHeader(lang));
    total, failed := PrintLinters(console, linters);
    PrintedStep(old(console.out), [LangHeader(lang)], LintersLines(linters, |linters|, |linters| > 1));
    ghost var head := [LangHeader(lang)] + LintersLines(linters, |linters|, |linters| > 1);
    if many {
      PrintLine(console, LangSummary(lang, total, failed));
      PrintedStep(old(console.out), head, [LangSummary(lang, total, failed)]);
    } else {
      assert head + [] == head;
    }
  }

  /** The outer loop of `__pretty_print`: every language in order. */
  method PrintLangs(console: Console, langs: LangRows) returns (total: nat, failed: nat)
    modifies console
    ensures total == TreeTotal(langs, |langs|) && failed == TreeFailed(langs, |langs|)
    ensures console.out == old(console.out) + Printed(LangsLines(langs, |langs|, |langs| > 1))
    ensures console.err == old(console.err)
  {
    var many := |langs| > 1;
    total, failed := 0, 0;
    for i := 0 to |langs|
      invariant total == TreeTotal(langs, i) && failed == TreeFailed(langs, i)
      invariant console.out == old(console.out) + Printed(LangsLines(langs, i, many)) && console.err == old(console.err)
    {
      var (lang, linters) := langs[i];
      var langTotal, langFailed := PrintLang(console, lang, linters, many);
      PrintedStep(old(console.out), LangsLines(langs, i, many), LangLines(lang, linters, many));
      total := total + langTotal;
      failed := failed + langFailed;
    }
  }

  /** `__pretty_print`: prints the report and returns the number of failed
      file checks. */
  method PrettyPrint(console: Console, t: Tree) returns (failed: nat)
    modifies console
    ensures failed == TreeFailed(Rows(t), |t.keys|)
    ensures console.out == old(console.out) + Printed(ReportLines(t)) && console.err == old(console.err)
  {
    var langs := Rows(t);
    var total;
    total, failed := PrintLangs(console, langs);
    PrintLine(console, Totals(total, failed));
    PrintedStep(old(console.out), LangsLines(langs, |langs|, |langs| > 1), [Totals(total, failed)]);
  }

  /** The `print_all` scan of `run_linter`: every outcome is visited and
      the code becomes 1 on any nonzero exit. */
  method PrintAllCode(t: Tree) returns (code: int)
    ensures code == if AnyNonzero(t) then 1 else 0
  {
    var langs := Rows(t);
    code := 0;
    for i := 0 to |langs|
      invariant code == if TreeNonzero(langs, i) then 1 else 0
    {
      var linters := langs[i].1;
      for j := 0 to |linters|
        invariant code == if TreeNonzero(langs, i) || LangNonzero(linters, j) then 1 else 0
      {
        var files := linters[j].1;
        for k := 0 to |files|
          invariant code == if TreeNonzero(langs, i) || LangNonzero(linters, j) || FileNonzero(files, k) then 1 else 0
        {
          FileNonzeroStep(files, k);
          if files[k].1.code != 0 {
            code := 1;
          }
        }
        LangNonzeroStep(linters, j);
      }
      TreeNonzeroStep(langs, i);
    }
    RowsNonzero(t);
  }

  /** The silent scan of `run_linter`: stops at the first nonzero exit. */
  method SilentCode(t: Tree) returns (code: int)
    ensures code == if AnyNonzero(t) then 1 else 0
  {
    RowsNonzero(t);
    var langs := Rows(t);
    for i := 0 to |langs|
      invariant !TreeNonzero(langs, i)
    {
      var linters := langs[i].1;
      for j := 0 to |linters|
        invariant !LangNonzero(linters, j)
      {
        var files := linters[j].1;
        for k := 0 to |files|
          invariant !FileNonzero(files, k)
        {
          FileNonzeroStep(files, k);
          if files[k].1.code != 0 {
            FileNonzeroPrefix(files, k + 1);
            LangNonzeroPrefix(linters, j + 1);
            TreeNonzeroPrefix(langs, i + 1);
            return 1;
          }
        }
        LangNonzeroStep(linters, j);
      }
      TreeNonzeroStep(langs, i);
    }
    return 0;
  }
}
