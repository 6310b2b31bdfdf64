# casr-san, modelled in Dafny

CASR is a crash-triage toolkit. `casr-san` runs a target built with
AddressSanitizer, reads what the sanitizer printed and turns it into a crash
report. The report holds the sanitizer excerpt, an execution class (severity,
short description, description, explanation), a stack trace, the process
mappings and the crash line. This project models the two pieces that decide
what goes into that report, and proves what they promise:

- `src/execution_class.rs`, the taxonomy. It is the 71-row `CLASSES` table,
  `ExecutionClass::new`, the exact lookup `find`, the refining lookup
  `san_find`, `Default` and `Display`. In the model it is module
  `ExecutionClasses` in `execution_class.dfy`, all pure functions over a
  constant table.
- The body of `main` in `src/bin/casr-san.rs`, from the `ASAN_OPTIONS`
  rewrite to the crash line. In the model it is module `CasrSan` in
  `casr_san.dfy`:
  - `AsanOptions` is the options rewrite.
  - `Analysis` is the whole analysis as a function.
  - `AnalyzeCrash` is the same steps applied to a fresh `CrashReport` object.
    That object is a class whose methods fill in its fields one after another,
    as `main` does. `AnalyzeCrash` is proved to agree with `Analysis`.

Module `SanPatterns` (`san_patterns.dfy`) writes out the three regular
expressions `main` uses:

- the report start `==\d+==\s*ERROR: (LeakSanitizer|AddressSanitizer|libFuzzer):`;
- the summary line `SUMMARY: *(AddressSanitizer|libFuzzer): (\S+)`;
- the access word `(READ|WRITE|ACCESS)`.

Each one is a leftmost-match scanner over a line. For the start and summary
patterns, lemmas prove that the scanner agrees with the pattern stated
directly.

Module `Strings` (`strings.dfy`) gives the Rust library operations the code
relies on:

- `split('\n')`, which always gives at least one piece;
- `contains`, `join`, `trim` and `replace`;
- `Iterator::position`, `rposition` and `skip`.

Module `Wrappers` holds `Option` and `Result`.

Running the target, running gdb and looking up the crash line are outside
the model. Their results are parameters of `Analysis` and `AnalyzeCrash`:

- the target's stderr as text;
- the signal that ended it, if any;
- gdb's backtrace and mappings, or `None` when gdb fails;
- a function giving the crash-line lookup's answer for the report built so far.

## Model

| member | source | states |
|---|---|---|
| ExecutionClasses.ClassTable | src/execution_class.rs:22-94 | `CLASSES` has exactly 71 rows, no two rows share a short description, and every severity is one of EXPLOITABLE, PROBABLY_EXPLOITABLE, NOT_EXPLOITABLE, UNDEFINED |
| ExecutionClasses.InstructionKeysDistinct | src/execution_class.rs:23-46 | the short descriptions of CASR's own classes (the first 24 rows) are pairwise distinct |
| ExecutionClasses.MemoryErrorKeysDistinct | src/execution_class.rs:47-76 | the short descriptions of the memory-error rows are pairwise distinct |
| ExecutionClasses.OtherSanitizerKeysDistinct | src/execution_class.rs:77-93 | the short descriptions of the remaining sanitizer rows are pairwise distinct |
| ExecutionClasses.InstructionKeysCapitalised | src/execution_class.rs:23-46 | CASR's own class names are non-empty and start with a capital letter |
| ExecutionClasses.MemoryErrorKeysLowerCase | src/execution_class.rs:47-76 | the memory-error check names are non-empty and start with a lower-case letter |
| ExecutionClasses.OtherSanitizerKeysLowerCase | src/execution_class.rs:77-93 | the remaining sanitizer check names are non-empty and start with a lower-case letter |
| ExecutionClasses.SanitizerRunsDisjoint | src/execution_class.rs:47-93 | no memory-error row shares its short description with a later sanitizer row |
| ExecutionClasses.RunsHaveKnownSeverities | src/execution_class.rs:23-93 | each part of the table uses only the four severities |
| ExecutionClasses.FindFrom | src/execution_class.rs:117-121 | the loop of `find` from row `from` on: the index of the first row whose short description is the key, no earlier row from `from` having it; `None` exactly when no row from `from` on has it |
| ExecutionClasses.Find | src/execution_class.rs:116-126 | `Ok` exactly when the key is a short description of the table, and then it is the class built from the first such row, whose short description is the key; otherwise the error "Couldn't find class <key> by name." |
| ExecutionClasses.FindTableRow | src/execution_class.rs:102-126 | looking up any row's short description gives back exactly that row, all four fields copied: this is what pins down `New` (lines 102-109), which builds the class from the row |
| ExecutionClasses.TableClassIsFound | src/execution_class.rs:116-126 | any class of the table is what `find` gives for its own short description |
| ExecutionClasses.NotInTable | src/execution_class.rs:22-94 | a name held by none of the rows is not a key of the table |
| ExecutionClasses.FindRejectsSpecialNames | src/execution_class.rs:116-126 | `find` fails on `SEGV`, `deadly` and `stack-overflow`, which are not rows |
| ExecutionClasses.FindKeysOfSanFind | src/execution_class.rs:143-151 | the seven classes `san_find` names for its special cases are rows of the table |
| ExecutionClasses.FindKeysOfDriver | src/bin/casr-san.rs:152-218 | `memory-leaks`, `BadInstruction` and `AbortSignal` are rows, so the `unwrap`s of lines 153, 214 and 217 cannot fail |
| ExecutionClasses.SanFind | src/execution_class.rs:137-165 | every class returned is a table row. `SEGV`, `stack-overflow` and `deadly` never fail: `SEGV` gives one of the five access-violation classes, `stack-overflow` gives `StackOverflow` and `deadly` gives `AbortSignal`. Any other name succeeds exactly when the direction-qualified key or the bare key is a row, and the result's short description is the qualified key when that is a row, else the bare key |
| ExecutionClasses.SanFindSegv | src/execution_class.rs:143-149 | the five-way table of `SEGV`: READ gives `SourceAv`, or `SourceAvNearNull` near NULL; WRITE gives `DestAv`, or `DestAvNearNull`; anything else, `ACCESS` or none included, gives `AccessViolation` |
| ExecutionClasses.SanFindFixedNames | src/execution_class.rs:150-151 | `stack-overflow` and `deadly` give `StackOverflow` and `AbortSignal` whatever the direction and near-NULL flag |
| ExecutionClasses.SanFindWithoutDirection | src/execution_class.rs:152-163 | for an ordinary name with no READ or WRITE direction, `san_find` is `find` of the bare name |
| ExecutionClasses.SanFindHeapOverflowWrite | src/execution_class.rs:152-163 | `heap-buffer-overflow` with WRITE resolves to the `heap-buffer-overflow(write)` row, near NULL or not |
| ExecutionClasses.SanFindHeapOverflowUndirected | src/execution_class.rs:152-163 | `heap-buffer-overflow` without a direction resolves to the bare row |
| ExecutionClasses.SanFindUseAfterPoisonRead | src/execution_class.rs:152-163 | `use-after-poison` with READ has no `(read)` row and falls back to the bare row |
| ExecutionClasses.QualifiedKeyHasNoWhitespace | src/execution_class.rs:153-157 | `QualifiedKey`, the `(read)`/`(write)` key of lines 153-157, keeps a name without whitespace without whitespace; which key is tried first is stated by `SanFind` |
| ExecutionClasses.FixedClassNamesHaveNoWhitespace | src/execution_class.rs:144-151 | the fixed class names `san_find` returns are single words |
| ExecutionClasses.SpecialClassHasNoWhitespace | src/execution_class.rs:143-151 | for `SEGV`, `stack-overflow` and `deadly` the class found has a single-word short description |
| ExecutionClasses.SanFindKeepsNoWhitespace | src/execution_class.rs:137-165 | a single-word name resolves to a class whose short description is a single word |
| ExecutionClasses.FuzzTargetExitedHasWhitespace | src/execution_class.rs:91 | the `fuzz target exited` row contains a space, so a single-word check name never resolves to it |
| ExecutionClasses.DefaultVersusUndefinedRow | src/execution_class.rs:181-189 | `Default` agrees with the `Undefined` row (line 46) on severity, short description and description, but its explanation differs, so the two classes are not equal |
| ExecutionClasses.DisplayIsJoin | src/execution_class.rs:167-179 | `Display` is the severity, short-description and description lines joined by line breaks, with an `Explanation:` line only when the explanation is not empty |
| ExecutionClasses.DisplayLines | src/execution_class.rs:167-179 | when no field contains a line break, splitting the displayed text at line breaks gives back exactly those three or four lines |
| SanPatterns.RunLengthMaximal | src/bin/casr-san.rs:144 | a repetition is scanned greedily: every character in the run is of the class and the next one is not |
| SanPatterns.RunLengthUnique | src/bin/casr-san.rs:144 | a run of a class that cannot be extended is the one the scan finds |
| SanPatterns.ErrorSpanAt | src/bin/casr-san.rs:144 | a match of `\s*ERROR: ` and a tool name with its colon is found by the scan |
| SanPatterns.PidSpanAt | src/bin/casr-san.rs:144 | a match of `\d+==` followed by the rest of the pattern is found by the scan |
| SanPatterns.StartAtIsMatch | src/bin/casr-san.rs:143-147 | `StartAt`, the start scan, succeeds at an index exactly when the start pattern has a match there for some digit and whitespace counts; `IsReportStart` is `is_match`, a `StartAt` at some index of the line |
| SanPatterns.ToolAt | src/bin/casr-san.rs:155 | the tool it reports at an index is followed there by `: `, and `AddressSanitizer: ` at that index is never missed |
| SanPatterns.CaptureAt | src/bin/casr-san.rs:155 | capture group 2, `\S+`, is a non-empty word without whitespace |
| SanPatterns.CaptureAtSound | src/bin/casr-san.rs:155 | the captured word is the text from its start up to the next whitespace or the end of the line |
| SanPatterns.SummaryAtSound | src/bin/casr-san.rs:155 | what `SummaryAt`, the summary scan, returns at an index is a match of the pattern that takes all spaces after `SUMMARY:` and a capture that cannot be made longer |
| SanPatterns.SummaryAtComplete | src/bin/casr-san.rs:155 | every match of the summary pattern at an index is found by the scan, with the same tool and a capture at least as long |
| SanPatterns.SummaryIndex | src/bin/casr-san.rs:155-157 | the leftmost index at which the summary pattern matches, no earlier index matching; `None` exactly when no index matches |
| SanPatterns.SummaryCaptures | src/bin/casr-san.rs:155-157 | `summary.captures(line)`: capture group 2 is a non-empty word without whitespace |
| SanPatterns.SummaryCapturesLeftmost | src/bin/casr-san.rs:155-157 | a line has summary captures exactly when the pattern matches somewhere in it, and they are those of the leftmost match |
| SanPatterns.NoTagNoSummary | src/bin/casr-san.rs:155-157 | a line without `SUMMARY:` has no summary captures |
| SanPatterns.SummaryOfLeadingTag | src/bin/casr-san.rs:155 | a line that opens with `SUMMARY: `, a tool name, `: ` and a word ending the line or followed by whitespace has that tool and that word as its captures |
| SanPatterns.AccessAt | src/bin/casr-san.rs:171 | one of `READ`, `WRITE`, `ACCESS` occurs at the index, or none does |
| SanPatterns.AccessIndex | src/bin/casr-san.rs:171-174 | the leftmost index where an access word occurs, none occurring earlier |
| SanPatterns.AccessToken | src/bin/casr-san.rs:170-177 | the access word of a line is the leftmost of `READ`, `WRITE`, `ACCESS` in it; `None` exactly when none occurs |
| SanPatterns.AccessOfLeadingWord | src/bin/casr-san.rs:170-177 | a line that starts with `READ`, `WRITE` or `ACCESS` has that word as its access word |
| Strings.Contains | src/bin/casr-san.rs:128 | `str::contains`: true exactly when the pattern occurs at some index |
| Strings.Split | src/bin/casr-san.rs:139-142 | `split('\n')` gives at least one piece and no piece contains the separator |
| Strings.JoinSplit | src/bin/casr-san.rs:139-142 | joining the pieces of a split with the separator gives back the text, so splitting loses nothing; this is the partner of `Join` (lines 135 and 91) |
| Strings.SplitJoin | src/bin/casr-san.rs:236-239 | splitting the join of separator-free pieces gives back the pieces |
| Strings.Trim | src/bin/casr-san.rs:206 | `trim` is a slice of the line with only whitespace cut off either end, and it neither starts nor ends with whitespace |
| Strings.ReplaceAllAbsent | src/bin/casr-san.rs:96 | `ReplaceAll`, `replace`, leaves a string without the pattern unchanged |
| Strings.ReplaceAllPointwise | src/bin/casr-san.rs:96 | a same-length replacement that only changes one character keeps the length and changes nothing else |
| Strings.ReplaceAllLeavesNoMatch | src/bin/casr-san.rs:96 | after replacing every `from` by a `to` whose last character `from` does not contain, no `from` is left |
| Strings.PositionFirst | src/bin/casr-san.rs:145-147 | `position` finds the first element satisfying the predicate, and finds none only when no element does |
| Strings.Position | src/bin/casr-san.rs:145-147 | `Iterator::position`: an index it returns lies within the sequence (lines 145-147, 188 and 195-199 use it); that it is the first match is `PositionFirst` |
| Strings.PositionOfFirst | src/bin/casr-san.rs:188 | the first element satisfying the predicate is the one `position` returns |
| Strings.RPositionLast | src/bin/casr-san.rs:150 | `rposition` finds the last element satisfying the predicate, and none only when no element does |
| Strings.RPosition | src/bin/casr-san.rs:150 | `Iterator::rposition`: an index it returns lies within the sequence; that it is the last match is `RPositionLast` |
| Strings.Skip | src/bin/casr-san.rs:240-244 | `skip(n)` keeps the elements after the first `n`, in order, and nothing when there are fewer |
| CasrSan.WithRssLimit | src/bin/casr-san.rs:89-95 | after the limit is added when missing and one leading comma is removed, the options contain `hard_rss_limit_mb` |
| CasrSan.KeyAdded | src/bin/casr-san.rs:90-91 | appending `,hard_rss_limit_mb=2048` puts the key into options that lacked it |
| CasrSan.AsanOptions | src/bin/casr-san.rs:88-100 | unset gives exactly `hard_rss_limit_mb=2048`. A set value gets the limit appended when the key is missing, loses one leading comma, then has every `symbolize=0` replaced by `symbolize=1`. The result always sets the limit and never contains `symbolize=0`; an empty value ends up as the limit alone; options that already set the limit, never turn symbolization off and have no leading comma are kept unchanged |
| CasrSan.RewriteKeepsLimit | src/bin/casr-san.rs:96 | the rewritten options contain the limit key and no `symbolize=0` |
| CasrSan.SymbolizeKeepsLimit | src/bin/casr-san.rs:96 | replacing `symbolize=0` does not destroy the `hard_rss_limit_mb` key |
| CasrSan.SymbolizeIsClosing | src/bin/casr-san.rs:96 | `symbolize=1` differs from `symbolize=0` only in a last character that `symbolize=0` does not contain |
| CasrSan.LimitAlone | src/bin/casr-san.rs:99 | the limit alone sets the key, does not turn symbolization off, and is unchanged by the rewrite |
| CasrSan.EmptyIsUnset | src/bin/casr-san.rs:88-96 | an empty `ASAN_OPTIONS` ends up as the limit alone, the same as an unset one |
| CasrSan.ReportBounds | src/bin/casr-san.rs:143-151 | when there is a report, its start comes before its end and the end lies within stderr |
| CasrSan.ReportBoundsSpec | src/bin/casr-san.rs:139-151 | there is a report exactly when some stderr line matches the start pattern. It starts at the first such line and ends after the last non-empty line, and only empty lines follow it |
| CasrSan.ReportSlice | src/bin/casr-san.rs:150-152 | the report excerpt is never empty, its first line matches the start pattern and its last line is not empty, so `unwrap` and `asan_report[0]` cannot fail |
| CasrSan.FirstSummary | src/bin/casr-san.rs:157 | the error name found is a non-empty word without whitespace |
| CasrSan.FirstSummaryLine | src/bin/casr-san.rs:157 | `find_map` gives the captures of the first line with a summary match, and nothing exactly when no line has one |
| CasrSan.Classification | src/bin/casr-san.rs:152-185 | a first line mentioning LeakSanitizer gives `memory-leaks`. Otherwise the first line with a summary match decides: none keeps the default class; libFuzzer looks its error name up with `san_find` and no access word, AddressSanitizer with the access word of the report's second line (`SecondLineAccess`). A class is set exactly when that lookup succeeds, and it is the class found; it is a table row with a single-word short description, never `fuzz target exited` |
| CasrSan.AddressSanitizerClass | src/bin/casr-san.rs:152-185 | any report that is not a leak, whose first summary line is AddressSanitizer's with check `check` and whose second line starts with an access word, gets a class exactly when `san_find(check, word)` succeeds, and then that class |
| CasrSan.AddressSanitizerReportClass | src/bin/casr-san.rs:152-185 | the three-line report `[start, <access word><detail>, SUMMARY: AddressSanitizer: <check><location>]` reaches that case: its first summary is AddressSanitizer's with that check and its access word is the second line's. It gets a class exactly when `san_find(check, word)` succeeds, and then that class |
| CasrSan.HeapOverflowWriteReport | src/bin/casr-san.rs:152-185 | any report that is not a leak, whose first summary line is `SUMMARY: AddressSanitizer: heap-buffer-overflow` and whose second line starts with `WRITE`, is classified `heap-buffer-overflow(write)`, whatever frames and other lines it holds |
| CasrSan.TrimAll | src/bin/casr-san.rs:204-207 | each line trimmed, in order, none added or dropped |
| CasrSan.StackTrace | src/bin/casr-san.rs:187-207 | a stack trace that is found has at least one line |
| CasrSan.StackTraceMissing | src/bin/casr-san.rs:188-191 | the error "Couldn't find stack trace in sanitizer's report" occurs exactly when no line contains ` #0 ` |
| CasrSan.FrameZeroStarts | src/bin/casr-san.rs:188 | the first line with ` #0 ` is the one `position` returns |
| CasrSan.StackTraceUnended | src/bin/casr-san.rs:194-202 | "Couldn't find stack trace end" occurs exactly when no empty line follows the first frame-zero line. |
| CasrSan.StackTraceFound | src/bin/casr-san.rs:203-207 | a stack trace that is found is the trimmed run of non-empty lines from the first frame-zero line up to the next empty line, in order |
| CasrSan.StackTraceTrimmed | src/bin/casr-san.rs:203-207 | every line of a stack trace that is found is already trimmed |
| CasrSan.SignalClassAsWritten | src/bin/casr-san.rs:210-225 | the signal path as written: SIGILL (4) gives `BadInstruction`, SIGABRT (6) gives `AbortSignal`, and any class it sets is a table row |
| CasrSan.SegvSignalPanics | src/bin/casr-san.rs:219-221 | with SIGSEGV, `find("SEGV").unwrap()` fails |
| CasrSan.SignalClass | src/bin/casr-san.rs:210-225 | the corrected signal path: SIGILL (4) gives `BadInstruction`, SIGABRT (6) gives `AbortSignal`, and any class it sets is a table row |
| CasrSan.SignalClassCorrectsOnlySegv | src/bin/casr-san.rs:210-225 | the corrected path agrees with the code for every signal but 11. For 11 it gives `AccessViolation` where the code panics, and for signals other than 4, 6 and 11 no class is set |
| CasrSan.GdbStackTrace | src/bin/casr-san.rs:236-239 | the stack trace is the backtrace split at every line break, untrimmed: it has at least one line, no line contains a line break, and joining them gives back the backtrace |
| CasrSan.GdbStackTraceOfFrames | src/bin/casr-san.rs:236-239 | a backtrace printed one frame per line gives back exactly those frames |
| CasrSan.ProcMaps | src/bin/casr-san.rs:240-244 | the mappings are the lines of gdb's output after the first four, in order: max(0, n - 4) of them |
| CasrSan.ProcMapsOfLines | src/bin/casr-san.rs:240-244 | mappings printed as lines keep exactly the lines after the first four |
| CasrSan.CrashReport.constructor | src/bin/casr-san.rs:133 | `CrashReport::new`: every modelled field empty and the class the default one |
| CasrSan.CrashReport.ReadSanitizerReport | src/bin/casr-san.rs:151-207 | stores the excerpt, then its class when one is found, then its stack trace. The new fields are those `FromSanitizer` computes from the old ones, or the failure it gives |
| CasrSan.CrashReport.ReadSignal | src/bin/casr-san.rs:208-248 | no signal is "Program terminated (no crash)"; otherwise it stores the signal's class, then gdb's stack trace and mappings, or fails with "Unable to get results from gdb". The new fields are those `FromSignal` computes |
| CasrSan.CrashReport.SetCrashLine | src/bin/casr-san.rs:251-259 | the new fields are those `WithCrashLine` computes from the old ones |
| CasrSan.WithCrashLine | src/bin/casr-san.rs:251-259 | a failed lookup changes nothing. Otherwise the crash line is stored, and the source only when the line is a source line whose sources were found; in every other case the source is kept. No other field changes |
| CasrSan.Analysis | src/bin/casr-san.rs:127-259 | stderr reporting an exhausted rss limit (`IsOutOfMemory`, line 128) gives "Out of memory: hard_rss_limit_mb exhausted" before anything else. Any report built has `argv[0]` as executable path and `argv` joined by spaces as command line |
| CasrSan.NoReportNoSignalIsNoCrash | src/bin/casr-san.rs:245-248 | with no report-start line and no signal the analysis fails with "Program terminated (no crash)" |
| CasrSan.SignalRun | src/bin/casr-san.rs:208-244 | with no report-start line and a signal, the analysis takes the signal path (`FromSignal`): the class comes from the signal (or stays the default), the stack trace is `GdbStackTrace` of gdb's backtrace, the mappings are gdb's after four lines and the excerpt stays empty |
| CasrSan.SanitizerRun | src/bin/casr-san.rs:139-207 | with a report-start line in stderr, the analysis takes the sanitizer path on the excerpt: it succeeds exactly when the excerpt has a stack trace, and then stores the excerpt, the class `Classification` found (or the default one) and that stack trace |
| CasrSan.ReportClassIsKnown | src/bin/casr-san.rs:133-225 | every report carries a class of the table or the default class |
| CasrSan.SanitizerFields | src/bin/casr-san.rs:151-207 | `FromSanitizer`: reading a sanitizer excerpt stores it whole, stores the class it is given (in `Analysis`, the one `Classification` found) or else keeps the old one, and leaves the mappings alone. The stack trace is the run of lines from the first frame-zero line |
| CasrSan.AnalyzeCrash | src/bin/casr-san.rs:127-259 | `main` from the OOM check to the crash line, on a fresh `CrashReport`: it fails exactly as `Analysis` does, and otherwise the report's fields are those `Analysis` gives |

## Findings

| source | as written | input that shows it | evidently intended | confidence | as-written member | corrected member |
|---|---|---|---|---|---|---|
| src/bin/casr-san.rs:219-221 | SIGSEGV on the signal path is classified with `ExecutionClass::find("SEGV").unwrap()` | a target that prints no sanitizer report and is killed by signal 11: `SEGV` is no row of `CLASSES`, so `find` returns `Err` and `unwrap` panics | resolve `SEGV` with `san_find`, which handles it and gives `AccessViolation` without access information | not executed | CasrSan.SegvSignalPanics | CasrSan.SignalClassCorrectsOnlySegv |

`Analysis`, `AnalyzeCrash` and `CrashReport.ReadSignal` use the corrected
`SignalClass`. `SignalClassAsWritten` keeps the code as written.

## Left out

- Command-line parsing, the stdin file and the output of the report as JSON
  (the rest of `main`) are not modelled.
- Running the target is not modelled: `Command`, `personality` and
  `pre_exec`. Its stderr and termination signal are parameters.
- `String::from_utf8_lossy` is not modelled: stderr arrives as text.
- `AsanOptions` returns the new value instead of calling `env::set_var`. An
  `ASAN_OPTIONS` that is not valid Unicode makes `env::var` fail and is
  treated as unset (`None`), as the code does.
- CasrSan.CrashReport.constructor: `CrashReport::new` is defined outside
  `casr-san.rs` and is not part of this model. Its initial values (empty
  fields and the default class) are assumed; the comment at line 223 of
  `casr-san.rs` is what supports the default class.
- `CrashReport::add_os_info` and the report fields `casr-san` does not set
  are not modelled.
- Running gdb (`GdbCommand`) is not modelled: its backtrace and mappings are
  a parameter, `None` when gdb fails. The model assumes the result has the
  two entries that `gdb_result[0]` and `gdb_result[1]` read.
- `debug::crash_line` and `debug::sources` are not modelled: their answer is
  the parameter `crashLineOf`.
- `san_find` is declared with a third parameter, `near_null`, which both
  calls in `casr-san.rs` omit; the model passes `false`.
- SanPatterns: `\d` is the ASCII digits only, while the `regex` crate's `\d`
  also matches other Unicode decimal digits, so a process id written in
  non-ASCII digits is not recognised. `\s`, `\S` and `trim` use Unicode
  White_Space.
- `Display` writing to a `Formatter` that fails, and the serde attributes of
  `ExecutionClass`, are not modelled.
