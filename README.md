# autolint, modelled in Dafny

autolint runs external linters over a source tree. It first takes the files
found under the target directory and drops those excluded by a gitignore-style
ignore file. It then sorts the remaining files into languages using each
language's `include` globs. Next it runs every linter configured for each
language on that language's files, one process per file. The outcome is a
three-level result tree: language, then linter, then file, holding
`(returncode, stdout, stderr)`. The exit code is 1 exactly when some linter
exited nonzero on some file.

There are three output modes:

- `print_all` streams each linter's output as it arrives.
- `pretty_print` prints a hierarchical report with per-linter, per-language and
  overall counters.
- The silent mode prints nothing.

The model covers the orchestrator `AutoLint` in `autolint/autolint.py`, except
its command line and file loading, and the runner module
`autolint/runners.py`.

- `ordered_dicts.dfy` (`OrderedDicts`): Python's insertion-ordered `dict`. It
  pairs a key order with a map. `Put` keeps an existing key in its place and
  appends a new one. `FirstOccurrences` is the key order a dictionary ends
  with after assigning keys in turn.
- `config.dfy` (`Config`): the configuration, the per-file outcome, the result
  tree, and the two failures met while reading the configuration:
  - `KeyError`, the raw failed lookup;
  - `ConfError`, i.e. `AutoLintConfError` with its message.

  The same file holds the `Console` class. It stands for standard output and
  standard error, each as the sequence of writes made to it.
- `strings.dfy` (`Strings`): `str.replace`, the report's three-tab
  indentation, and `%d` formatting.
- `ignore.dfy` (`Ignore`): `__remove_ignored_files`.
- `classify.dfy` (`Classify`): `__classify_files`.
- `runners.py` is modelled in `runners.dfy` (`Runners`): the runner registry,
  command building and the per-file runner.
- `dispatch.dfy` (`Dispatch`): `__lint`.
- `report.dfy` (`Report`): `print_helper`, `__pretty_print` and the exit-code
  scans of `run_linter`. A report is a sequence of `Line` values. `Render`
  gives each one's text, and `Printed` gives the writes `print` makes for
  them.
- `autolint.dfy` (`AutoLint`): `run_linter`, composing all of the above.

## Model

| member | source | states |
|---|---|---|
| OrderedDicts.Empty | autolint/runners.py:57 | a fresh dictionary has no keys and no values |
| OrderedDicts.Put | autolint/runners.py:77 | `d[k] = v` maps `k` to `v`; an existing key keeps its position, a new key goes last |
| OrderedDicts.FirstOccurrencesElements | autolint/runners.py:64-77 | assigning keys in turn ends with exactly the assigned keys, none lost and none added |
| OrderedDicts.FirstOccurrencesOfDistinct | autolint/runners.py:64-77 | assigning distinct keys in turn gives exactly that key order |
| Config.Console.Print | autolint/autolint.py:134 | `print` appends one write, the line and a newline, to stdout and leaves stderr alone |
| Config.Console.PrintAllFx | autolint/autolint.py:162-171 | the callback writes the linter's stdout to stdout and its stderr to stderr, unformatted |
| Strings.CountPositive | autolint/runners.py:60 | the placeholder is counted at least once exactly when `'%file_path%' in c` holds |
| Strings.ReplaceAbsent | autolint/runners.py:66 | `replace` leaves a string without the pattern unchanged |
| Strings.ReplaceAllLength | autolint/runners.py:66 | each replaced occurrence changes the length by the replacement's length minus the pattern's |
| Strings.ReplaceInserts | autolint/runners.py:66 | when the pattern occurred, the replacement occurs in the result |
| Strings.IndentedBreaks | autolint/autolint.py:111 | after indentation every line break is followed by three tabs |
| Strings.IndentAppend | autolint/autolint.py:111 | indenting a concatenation indents each part separately |
| Strings.IndentJoin | autolint/autolint.py:108-112 | indenting two texts joined by a break puts the second on its own indented line |
| Strings.IndentRoundTrip | autolint/autolint.py:111 | indentation is lossless: removing it gives back the linter's text |
| Strings.ReplaceAll | autolint/runners.py:66 | replacing the placeholder by itself changes nothing |
| Strings.Indent | autolint/autolint.py:111 | indentation adds exactly three tabs per line break of the linter's text |
| Strings.NatToString | autolint/autolint.py:158-159 | `%d` of a counter is a non-empty string of decimal digits, with no leading zero except for zero itself |
| Strings.NatToStringRoundTrip | autolint/autolint.py:158-159 | the printed digits read back as the counter |
| Ignore.RemoveIgnoredFiles | autolint/autolint.py:229-252 | with no ignore file every file is kept; otherwise a file is kept iff it was found and its last deciding pattern is not an exclusion; the result is a subset of the input |
| Ignore.Verdict | autolint/autolint.py:245-251 | a file gets a verdict iff some pattern with a flag matches it |
| Ignore.VerdictIsLastMatch | autolint/autolint.py:245-251 | a file's verdict is `b` iff some pattern with flag `b` matches it and no later non-blank pattern matches it |
| Ignore.UndecidedKept | autolint/autolint.py:244-251 | a file that no pattern with a flag matches gets no verdict and so is kept |
| Ignore.LaterPatternsWin | autolint/autolint.py:245-251 | later ignore lines override earlier ones; earlier lines decide only files the later ones leave undecided |
| Classify.ClassifyMessageInjective | autolint/autolint.py:279-281 | the classification error names its missing key: different keys give different messages |
| Classify.CollectMatches | autolint/autolint.py:273-275 | the union over the globs is exactly the files matching at least one glob |
| Classify.NonEmptyLangsStep | autolint/autolint.py:271-277 | each language in turn is appended iff it claims some file |
| Classify.NonEmptyLangsMembers | autolint/autolint.py:271-277 | a language is listed iff it is configured and claims some file |
| Classify.ClassifyFiles | autolint/autolint.py:254-283 | fails with "key langs/include not found" iff `langs` or some `include` is missing; otherwise lists, in configuration order, exactly the languages with a non-empty file set, each with exactly its matching files |
| Runners.Registry.constructor | autolint/runners.py:7 | the registry starts with no registered runner |
| Runners.WithDefaultsCompose | autolint/runners.py:14-24 | registering defaults for no names changes nothing, and registering two batches in turn is registering their union |
| Runners.Registry.NewRunner | autolint/runners.py:14-24 | an unregistered name yields `ByFileRunner` and is stored as the default; a registered name yields its runner; the registry becomes the old one with the default added for that name |
| Runners.NeedReplace | autolint/runners.py:58-62 | `need_replace` holds iff some token contains `%file_path%` |
| Runners.CommandFor | autolint/runners.py:64-69 | with the placeholder in use the command keeps the template's length; otherwise it is the template followed by the file's path |
| Runners.SubstitutedCommand | autolint/runners.py:65-66 | the substituted command has the template's length, each token has every placeholder replaced, and tokens without one are unchanged |
| Runners.AppendedCommand | autolint/runners.py:67-69 | without a placeholder the command is the unchanged template followed by the path, and substituting would have changed nothing |
| Runners.PathReachesLinter | autolint/runners.py:64-69 | under either policy some argument contains the file's path |
| Runners.StreamStep | autolint/runners.py:75-76 | one more file adds that file's stdout and stderr to the streamed writes |
| Runners.ResultStep | autolint/runners.py:77 | one more file extends the result's key order by first occurrence and stores that file's outcome |
| Runners.Execute | autolint/runners.py:39-79 | one entry per distinct file in order of first appearance, holding that file's outcome; the callback, when present, receives every outcome in file order |
| Runners.BuildCommand | autolint/runners.py:93-96 | the command is `cmd` followed by the flags in configured order (the template `BaseCommand`), just `[cmd]` without flags, and a missing `cmd` is a failed lookup of `cmd` |
| Runners.IterationOrder | autolint/runners.py:64 | iterating a set visits each element exactly once |
| Runners.Run | autolint/runners.py:81-97 | fails before running anything iff `cmd` is missing; otherwise the result holds exactly the given files, each with the outcome of the configured command, and the callback, when present, has written every outcome's stdout and stderr in the result's file order |
| Dispatch.LintMessageInjective | autolint/autolint.py:316-320 | the dispatch error tells a missing `linters` key from any other, and names the language in the first case and the key in the second |
| Dispatch.RunnerName | autolint/autolint.py:310-313 | a linter's runner is its `runner` entry when there is one, else the linter's own name |
| Dispatch.RunnerNamesStep | autolint/autolint.py:307-313 | looking up one configured linter more asks for exactly its runner name more |
| Dispatch.AllRunnerNamesStep | autolint/autolint.py:305-313 | dispatching one language more asks for exactly the runner names of its linters more |
| Dispatch.WithDefaultsGrows | autolint/runners.py:14-24 | registering defaults never drops or replaces a registered runner |
| Dispatch.LookupStep | autolint/autolint.py:310-313 | after one more lookup the registry has the defaults of every linter looked up so far |
| Dispatch.LintLang | autolint/autolint.py:307-314 | fails with the first missing key among `langs`, the language, `linters`, the linter entry and `cmd`, in the lookup order `LangMissingKey` and `LinterMissingKey` fix; otherwise holds the configured linters in order, each run on the language's files, with each runner looked up under its `runner` override or else the linter's name; on success the registry has gained exactly the default runners for the runner names of the language's linters, and on failure those of the linters looked up before it stopped |
| Dispatch.BuiltStep | autolint/autolint.py:305-314 | adding the next classified language keeps the tree in classification order and every entry the result of its own dispatch |
| Dispatch.StoppedAtGrows | autolint/autolint.py:305-320 | a dispatch that stopped on an error has still only added runners to the registry |
| Dispatch.RegistryStep | autolint/autolint.py:305-314 | after one more language dispatched in full, the registry has the defaults of every runner name asked for so far |
| Dispatch.FirstFailingError | autolint/autolint.py:305-320 | the error a dispatch reports is the message for the first language that meets a missing key, with that language and key |
| Dispatch.RegistryStop | autolint/autolint.py:305-320 | a language `i` whose dispatch stopped, after the languages before it were dispatched in full, leaves the registry as a dispatch of the whole run stopped at language `i` |
| Dispatch.Lint | autolint/autolint.py:285-322 | fails iff some classified language meets a missing key, with "Linter not specified for <lang>" for `linters` and "Missing "<key>" at configuration" otherwise; else the tree has the classified languages in order, and the registry has gained exactly the default runners for every runner name the classified languages ask for; on failure there is a first language that meets a missing key, every language before it was dispatched in full, and the registry holds the defaults of all their linters and of the linters the failing one looked up |
| Report.HelperLine | autolint/autolint.py:100-120 | nothing is printed iff the linter wrote nothing; otherwise the name follows two tabs, and the output sits below it with every line indented by three tabs, stdout before stderr |
| Report.HelperLineRecoversOutput | autolint/autolint.py:108-120 | the printed block starts with the file name and, unindented, gives back exactly what the linter wrote |
| Report.HelperLineIndented | autolint/autolint.py:108-120 | every line break after the file name is followed by three tabs |
| Report.Render | autolint/autolint.py:133-159 | linter headers and summaries are indented by one tab, file lines by two, and a failing file renders as nothing iff the linter wrote nothing |
| Report.ReportLines | autolint/autolint.py:133-159 | the report ends with the totals line, whose failed count never exceeds the checked count and is positive iff some file exited nonzero |
| Report.Printed | autolint/autolint.py:134-159 | one write per report line |
| Report.PrintedAppend | autolint/autolint.py:133-159 | printing two runs of lines in turn writes the concatenation |
| Report.FailedAtMostTotal | autolint/autolint.py:141-144 | a linter never has more failed files than checked files |
| Report.LangFailedAtMostTotal | autolint/autolint.py:151-152 | a language's failed count never exceeds its checked count |
| Report.TreeFailedAtMostTotal | autolint/autolint.py:156-160 | the report's failed count never exceeds its checked count |
| Report.FailedPositive | autolint/autolint.py:141-144 | a linter's failed count is positive iff one of its files exited nonzero |
| Report.LangFailedPositive | autolint/autolint.py:151-152 | a language's failed count is positive iff some file of one of its linters exited nonzero |
| Report.TreeFailedPositive | autolint/autolint.py:156-160 | the returned failed count is positive iff some file exited nonzero |
| Report.FileRowsNonzero | autolint/autolint.py:141-144 | walking a linter's items finds a failure iff its dictionary has one |
| Report.LinterRowsNonzero | autolint/autolint.py:137-141 | walking a language's items finds a failure iff one of its linters has one |
| Report.LangRowsNonzero | autolint/autolint.py:133-141 | walking the tree's items finds a failure iff one of its languages has one |
| Report.RowsNonzero | autolint/autolint.py:133-141 | walking the tree finds a failure iff some file of some linter of some language exited nonzero |
| Report.PrintLine | autolint/autolint.py:134 | printing one report line appends its rendering |
| Report.PrintFile | autolint/autolint.py:141-147 | a passing file prints its name; a failing file prints the helper's block, or nothing if the linter wrote nothing (the lines `FileLines` gives) |
| Report.PrintFiles | autolint/autolint.py:141-147 | counts the linter's files and the failed ones, and prints each file's line in dictionary order |
| Report.PrintLinter | autolint/autolint.py:137-150 | prints the linter header, its files, and the linter summary, a tab and then `CheckedLine`'s "<linter>: Checked N files; M with errors", only when the language has several linters |
| Report.PrintLinters | autolint/autolint.py:137-152 | sums the language's counters over its linters and prints each linter's part in order |
| Report.PrintLang | autolint/autolint.py:133-155 | prints the language header, its linters, and the language summary, `CheckedLine`'s "<lang>: Checked N files; M with errors", only when there are several languages |
| Report.PrintLangs | autolint/autolint.py:133-157 | sums the counters over the languages and prints each language's part in order |
| Report.PrettyPrint | autolint/autolint.py:122-160 | prints the whole report followed by the closing totals line, `SummaryLine`'s "Checked N files, M with errors", and returns the number of failed file checks |
| Report.PrintAllCode | autolint/autolint.py:195-202 | the code is 1 iff some file of some linter of some language exited nonzero, else 0 |
| Report.SilentCode | autolint/autolint.py:207-214 | stops at the first nonzero exit; the code is 1 iff there is one, else 0 |
| AutoLint.RunLinter | autolint/autolint.py:173-214 | gives the classification's error for a missing `langs`/`include`, otherwise the dispatch's error for the selected languages; on success the code is 1 iff some outcome is nonzero in every mode, the tree lists the languages claiming a kept file in configuration order, each with its configured linters run on exactly its kept matching files; pretty mode prints the report, silent mode prints nothing, and neither prints anything on a configuration error; the registry is untouched by a classification error, gains exactly the default runners of the selected languages' linters on success, on a dispatch error holds those of every selected language before the first failing one and of the linters the failing one looked up, and never loses or changes an entry |

## Left out

- The command line (`get_parser`, `main`) is not modelled. Neither is the
  constructor's path checking (`__init__`), `get_default_conf_path`, or
  YAML loading (`__load_configuration`). They are argument parsing and
  file-system probing. The configuration enters as an already-parsed
  `Configuration` value.
- `__get_all_files` is the parameter `allFiles`, because walking a directory
  is I/O. `run_linter` keeps the walked list when there is no ignore file;
  the model uses a set there too, since classification only ever builds sets
  from it.
- Reading and parsing the ignore file (`pathspec`) is left out. Each parsed
  line is its `include` flag plus the set of found files it matches.
- `fnmatch` is the parameter `matches`, and `subprocess.Popen` with
  `communicate` is the parameter `exec`. Each is a fixed function of its
  arguments, so a linter is deterministic in the model.
- `exec` is total: every linter call returns a result. A linter that cannot
  be started (`Popen` raising `OSError`, which nothing catches, so
  `run_linter` ends part-way) is not modelled. Neither is a linter that never
  exits; there is no timeout, so the real run would hang.
- UTF-8 decoding of the captured output is left out. Outputs are the text
  they decode to.
- The order in which Python iterates a set of files is left open. The runner
  visits them in some order, once each.
- AutoLint.RunLinter: in `print_all` mode the contract does not say what
  reaches the console. `Runners.Execute` and `Runners.Run` state it for each
  runner call: every outcome's stdout and stderr, in file order.
- Dispatch.Lint: in `print_all` mode the contract does not say what reaches
  the console; only each runner call's contract does.
- Dispatch.LintLang: in `print_all` mode the contract does not say what
  reaches the console; only each runner call's contract does. On a failure
  it says the registry holds the defaults of the linters up to some position
  in the list, not which position.
- Report.SilentCode: the loop is modelled on Python 2's `itervalues`, as
  written. On Python 3 that method does not exist, so the silent mode would
  raise instead of returning.
- Dispatch.Lint: when a runner name is looked up, `new_runner` instantiates
  the runner; the model records only which implementation was chosen.
- Strings.ReplaceAll: it requires a non-empty pattern. Python's `replace`
  with an empty pattern inserts the replacement before every character and
  at the end, but both patterns autolint uses are non-empty.
- The stub `autolint.py` at the repository root is not part of this model.
  Neither are `setup.py` and `autolint/__init__.py`, which hold packaging
  metadata only.

## Notes on the code

- Duplicate linter names under one language collapse into one entry of the
  result, at the position of their first occurrence. The linter still runs
  once per listing, and the last run's result is kept. `Dispatch.LintLang`
  states this with `FirstOccurrences`.
- `__classify_files` inserts every language and then deletes it when it
  claims no file. Deleting the key just inserted leaves the order as if it had
  never been inserted, so the model inserts only languages that claim files.
- The silent mode's early return hands back the complete tree and the same
  code a full scan gives. `SilentCode` and `PrintAllCode` share one contract.
- The report's "Checked N files" counts checks: a file linted by two linters
  counts twice.
