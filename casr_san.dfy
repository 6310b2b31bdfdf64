/** The analysis `casr-san` performs once the target has run under
    AddressSanitizer: the `ASAN_OPTIONS` it sets, the out-of-memory check, the
    sanitizer report cut out of stderr, its execution class and stack trace,
    the fallback on the termination signal and gdb's output, and the crash
    line. Running the target and gdb are outside the model: their stderr,
    signal and output are parameters. */
module CasrSan {
  import opened Wrappers
  import opened Strings
  import opened ExecutionClasses
  import opened SanPatterns

  /** Why `casr-san` stops without a report: `Bail` is an error `main` returns,
      `Panic` an `unwrap` of a failed class lookup. */
  datatype Failure = Bail(message: string) | Panic(cause: Error)

  const OUT_OF_MEMORY := "Out of memory: hard_rss_limit_mb exhausted"
  const NO_STACK_TRACE := "Couldn't find stack trace in sanitizer's report"
  const NO_STACK_TRACE_END := "Couldn't find stack trace end in sanitizer's report"
  const NO_CRASH := "Program terminated (no crash)"
  const GDB_FAILED := "Unable to get results from gdb"

  // ---------------------------------------------------------------------------
  // ASAN_OPTIONS

  const RSS_KEY := "hard_rss_limit_mb"
  const RSS_LIMIT := "hard_rss_limit_mb=2048"
  const SYMBOLIZE_OFF := "symbolize=0"
  const SYMBOLIZE_ON := "symbolize=1"

  /** The options with the memory limit added when they have none, joined
      with a comma, and one leading comma dropped. */
  function WithRssLimit(current: string): (options: string)
    ensures Contains(options, RSS_KEY)
  {
    var joined := if Contains(current, RSS_KEY) then current else Join([current, RSS_LIMIT], ",");
    assert Contains(joined, RSS_KEY) by {
      if !Contains(current, RSS_KEY) {
        KeyAdded(current);
      }
    }
    if |joined| > 0 && joined[0] == ',' then
      ContainsAfterDrop(joined, RSS_KEY);
      joined[1..]
    else joined
  }

  /** Adding the memory limit to options that lack it gives options with it. */
  lemma KeyAdded(current: string)
    requires !Contains(current, RSS_KEY)
    ensures Contains(Join([current, RSS_LIMIT], ","), RSS_KEY)
  {
    JoinTwo(current, RSS_LIMIT, ",");
    var joined := current + "," + RSS_LIMIT;
    assert RSS_LIMIT[..|RSS_KEY|] == RSS_KEY;
    assert joined[|current| + 1..] == RSS_LIMIT;
    assert joined[|current| + 1..|current| + 1 + |RSS_KEY|] == RSS_LIMIT[..|RSS_KEY|];
    assert OccursAt(joined, RSS_KEY, |current| + 1);
  }

  /** The `ASAN_OPTIONS` the target runs with, from the value in the
      environment of `casr-san` (`None` when it is unset or not Unicode). The
      result always sets the memory limit and never turns symbolization off;
      options that already do both and start with no comma are kept as they
      are, and an empty value is treated as an unset one. */
  method AsanOptions(env: Option<string>) returns (options: string)
    ensures env.None? ==> options == RSS_LIMIT
    ensures env.Some? ==> options == ReplaceAll(WithRssLimit(env.value), SYMBOLIZE_OFF, SYMBOLIZE_ON)
    ensures Contains(options, RSS_KEY)
    ensures !Contains(options, SYMBOLIZE_OFF)
    ensures env == Some("") ==> options == RSS_LIMIT
    ensures (env.Some? && Contains(env.value, RSS_KEY) && !Contains(env.value, SYMBOLIZE_OFF)
             && (env.value == [] || env.value[0] != ',')) ==> options == env.value
  {
    match env {
      case None =>
        options := RSS_LIMIT;
        LimitAlone();
      case Some(current) =>
        options := current;
        if !Contains(current, RSS_KEY) {
          options := Join([options, RSS_LIMIT], ",");
        }
        if |options| > 0 && options[0] == ',' {
          options := options[1..];
        }
        assert options == WithRssLimit(current);
        options := ReplaceAll(options, SYMBOLIZE_OFF, SYMBOLIZE_ON);
        RewriteKeepsLimit(current);
        if current == "" {
          EmptyIsUnset();
        }
        if Contains(current, RSS_KEY) && !Contains(current, SYMBOLIZE_OFF) && (current == [] || current[0] != ',') {
          ReplaceAllAbsent(current, SYMBOLIZE_OFF, SYMBOLIZE_ON);
        }
    }
  }

  /** The rewritten options set the memory limit and leave symbolization on. */
  lemma RewriteKeepsLimit(current: string)
    ensures Contains(ReplaceAll(WithRssLimit(current), SYMBOLIZE_OFF, SYMBOLIZE_ON), RSS_KEY)
    ensures !Contains(ReplaceAll(WithRssLimit(current), SYMBOLIZE_OFF, SYMBOLIZE_ON), SYMBOLIZE_OFF)
  {
    SymbolizeKeepsLimit(WithRssLimit(current));
    SymbolizeIsClosing();
    ReplaceAllLeavesNoMatch(WithRssLimit(current), SYMBOLIZE_OFF, SYMBOLIZE_ON);
  }

  lemma SymbolizeIsClosing()
    ensures ClosingReplacement(SYMBOLIZE_OFF, SYMBOLIZE_ON)
  {
    assert SYMBOLIZE_OFF[..10] == SYMBOLIZE_ON[..10];
  }

  /** The memory limit alone sets the limit and leaves symbolization on. */
  lemma LimitAlone()
    ensures Contains(RSS_LIMIT, RSS_KEY) && !Contains(RSS_LIMIT, SYMBOLIZE_OFF)
    ensures ReplaceAll(RSS_LIMIT, SYMBOLIZE_OFF, SYMBOLIZE_ON) == RSS_LIMIT
  {
    assert OccursAt(RSS_LIMIT, RSS_KEY, 0);
    ContainsNeedsChar(RSS_LIMIT, SYMBOLIZE_OFF, 'y');
    ReplaceAllAbsent(RSS_LIMIT, SYMBOLIZE_OFF, SYMBOLIZE_ON);
  }

  /** An empty `ASAN_OPTIONS` ends up as the memory limit alone. */
  lemma EmptyIsUnset()
    ensures ReplaceAll(WithRssLimit(""), SYMBOLIZE_OFF, SYMBOLIZE_ON) == RSS_LIMIT
  {
    JoinTwo("", RSS_LIMIT, ",");
    assert WithRssLimit("") == RSS_LIMIT;
    LimitAlone();
  }

  /** Turning `symbolize=0` on keeps the memory limit in the options. */
  lemma SymbolizeKeepsLimit(limited: string)
    requires Contains(limited, RSS_KEY)
    ensures Contains(ReplaceAll(limited, SYMBOLIZE_OFF, SYMBOLIZE_ON), RSS_KEY)
  {
    var r := ReplaceAll(limited, SYMBOLIZE_OFF, SYMBOLIZE_ON);
    ReplaceAllPointwise(limited, SYMBOLIZE_OFF, SYMBOLIZE_ON, '0', '1');
    var i: nat :| OccursAt(limited, RSS_KEY, i);
    OccursAtKept(limited, r, RSS_KEY, '0', '1', i);
  }

  // ---------------------------------------------------------------------------
  // The sanitizer report in stderr

  /** The message `casr-san` takes as a sign that the memory limit was hit. */
  predicate IsOutOfMemory(stderr: string) {
    Contains(stderr, "AddressSanitizer: hard rss limit exhausted")
  }

  predicate IsBlank(line: string) {
    |line| == 0
  }

  predicate IsNotBlank(line: string) {
    |line| > 0
  }

  /** Where the sanitizer report lies in the lines of stderr: from the first
      line the start pattern matches to the last non-empty line. */
  function ReportBounds(lines: seq<string>): (r: Option<(nat, nat)>)
    ensures r.Some? ==> r.value.0 < r.value.1 <= |lines|
  {
    match Position(lines, IsReportStart)
    case None => None
    case Some(start) =>
      var last := RPosition(lines, IsNotBlank);
      assert last.Some? && start <= last.value by {
        PositionFirst(lines, IsReportStart);
        assert IsNotBlank(lines[start]);
        RPositionLast(lines, IsNotBlank);
      }
      Some((start, last.value + 1))
  }

  /** There is a report exactly when some line matches the start pattern; it
      begins at the first such line and ends after the last non-empty one. */
  lemma ReportBoundsSpec(lines: seq<string>)
    ensures ReportBounds(lines).None? <==> forall k :: 0 <= k < |lines| ==> !IsReportStart(lines[k])
    ensures ReportBounds(lines).Some? ==>
      var (start, end) := ReportBounds(lines).value;
      && IsReportStart(lines[start])
      && (forall k :: 0 <= k < start ==> !IsReportStart(lines[k]))
      && |lines[end - 1]| > 0
      && forall k :: end <= k < |lines| ==> |lines[k]| == 0
  {
    PositionFirst(lines, IsReportStart);
    RPositionLast(lines, IsNotBlank);
  }

  predicate IsSummaryLine(line: string) {
    SummaryCaptures(line).Some?
  }

  /** `find_map(|s| summary.captures(s))`: the tool and error name of the first
      summary line. */
  function FirstSummary(report: seq<string>): (r: Option<(Tool, string)>)
    ensures r.Some? ==> |r.value.1| >= 1 && NoWhitespace(r.value.1)
  {
    match Position(report, IsSummaryLine)
    case None => None
    case Some(k) => SummaryCaptures(report[k])
  }

  /** The summary of a report is that of its first summary line, and there is
      none when no line has one. */
  lemma FirstSummaryLine(report: seq<string>)
    ensures FirstSummary(report).None? <==> forall k :: 0 <= k < |report| ==> SummaryCaptures(report[k]).None?
    ensures FirstSummary(report).Some? ==>
      exists k :: 0 <= k < |report| && FirstSummary(report) == SummaryCaptures(report[k])
                  && forall j :: 0 <= j < k ==> SummaryCaptures(report[j]).None?
  {
    PositionFirst(report, IsSummaryLine);
    match Position(report, IsSummaryLine)
    case None =>
      assert forall k :: 0 <= k < |report| ==> !IsSummaryLine(report[k]);
    case Some(k) =>
      assert forall j :: 0 <= j < k ==> !IsSummaryLine(report[j]);
  }

  /** The access word of the second report line, if there is one. */
  function SecondLineAccess(report: seq<string>): Option<string> {
    if |report| > 1 then AccessToken(report[1]) else None
  }

  /** The execution class the report names, or `None` when the default one
      stays. A LeakSanitizer report is a memory leak; otherwise the error name
      of the first summary line is looked up, for AddressSanitizer with the
      access word of the second line. `san_find` is declared with a third
      parameter, `near_null`, that both calls omit; it is `false` here. */
  function Classification(report: seq<string>): (r: Option<ExecutionClass>)
    requires |report| > 0
    ensures r.Some? ==> IsTableClass(r.value)
    ensures Contains(report[0], "LeakSanitizer") ==> r.Some? && r.value.shortDescription == "memory-leaks"
    ensures !Contains(report[0], "LeakSanitizer") && r.Some? ==>
      NoWhitespace(r.value.shortDescription) && r.value.shortDescription != "fuzz target exited"
    ensures !Contains(report[0], "LeakSanitizer") && FirstSummary(report).None? ==> r.None?
    ensures !Contains(report[0], "LeakSanitizer") && FirstSummary(report).Some? ==>
      var (tool, check) := FirstSummary(report).value;
      var access := if tool == LibFuzzer then None else SecondLineAccess(report);
      && (r.Some? <==> SanFind(check, access, false).Ok?)
      && (r.Some? ==> r.value == SanFind(check, access, false).value)
  {
    if Contains(report[0], "LeakSanitizer") then
      FindKeysOfDriver();
      Some(Find("memory-leaks").value)
    else
      match FirstSummary(report)
      case None => None
      case Some((tool, check)) =>
        var access := if tool == LibFuzzer then None else SecondLineAccess(report);
        match SanFind(check, access, false)
        case Err(_) => None
        case Ok(c) =>
          SanFindKeepsNoWhitespace(check, access, false);
          FuzzTargetExitedHasWhitespace();
          Some(c)
  }

  /** An AddressSanitizer report whose second line opens with an access
      word and whose third line is the summary is classified by `san_find` of
      the summary's check with that access word. */
  lemma AddressSanitizerReportClass(start: string, word: string, detail: string, check: string, location: string)
    requires !Contains(start, "LeakSanitizer") && !Contains(start, "SUMMARY:")
    requires word in ACCESS_TOKENS && !Contains(word + detail, "SUMMARY:")
    requires |check| >= 1 && NoWhitespace(check)
    requires location == [] || IsWhitespace(location[0])
    ensures var report := [start, word + detail, "SUMMARY: " + ToolName(AddressSanitizer) + ": " + check + location];
      && (Classification(report).Some? <==> SanFind(check, Some(word), false).Ok?)
      && (Classification(report).Some? ==> Classification(report).value == SanFind(check, Some(word), false).value)
  {
    AddressSanitizerReportParts(start, word, detail, check, location);
  }

  lemma AddressSanitizerReportParts(start: string, word: string, detail: string, check: string, location: string)
    requires !Contains(start, "SUMMARY:")
    requires word in ACCESS_TOKENS && !Contains(word + detail, "SUMMARY:")
    requires |check| >= 1 && NoWhitespace(check)
    requires location == [] || IsWhitespace(location[0])
    ensures var report := [start, word + detail, "SUMMARY: " + ToolName(AddressSanitizer) + ": " + check + location];
      FirstSummary(report) == Some((AddressSanitizer, check)) && SecondLineAccess(report) == Some(word)
  {
    var report := [start, word + detail, "SUMMARY: " + ToolName(AddressSanitizer) + ": " + check + location];
    NoTagNoSummary(start);
    NoTagNoSummary(word + detail);
    SummaryOfLeadingTag(report[2], AddressSanitizer, check, location);
    PositionOfFirst(report, IsSummaryLine, 2);
    AccessOfLeadingWord(report[1], word, detail);
  }

  /** Any report that is not a leak, whose first summary is
      AddressSanitizer's and whose second line opens with an access word, is
      classified by `san_find` of the summary's check with that word. */
  lemma AddressSanitizerClass(report: seq<string>, word: string, detail: string, check: string)
    requires |report| > 1 && !Contains(report[0], "LeakSanitizer")
    requires word in ACCESS_TOKENS && report[1] == word + detail
    requires FirstSummary(report) == Some((AddressSanitizer, check))
    ensures Classification(report).Some? <==> SanFind(check, Some(word), false).Ok?
    ensures Classification(report).Some? ==> Classification(report).value == SanFind(check, Some(word), false).value
  {
    AccessOfLeadingWord(report[1], word, detail);
  }

  /** A heap overflow on a write, as AddressSanitizer reports it, is a
      `heap-buffer-overflow(write)`, whatever else the report holds. */
  lemma HeapOverflowWriteReport(report: seq<string>, detail: string, check: string)
    requires |report| > 1 && !Contains(report[0], "LeakSanitizer")
    requires report[1] == "WRITE" + detail
    requires FirstSummary(report) == Some((AddressSanitizer, check))
    requires check == "heap-buffer-overflow"
    ensures Classification(report).Some?
    ensures Classification(report).value.shortDescription == "heap-buffer-overflow(write)"
  {
    AccessOfLeadingWord(report[1], "WRITE", detail);
    SanFindHeapOverflowWrite(check, false);
  }

  lemma HeapOverflowIsWord(check: string)
    requires check == "heap-buffer-overflow"
    ensures |check| >= 1 && NoWhitespace(check)
  {
    forall k | 0 <= k < |check| ensures !IsWhitespace(check[k]) {
      assert check[k] in "-abcdefhlopruvw";
    }
  }

  predicate HasFrameZero(line: string) {
    Contains(line, " #0 ")
  }

  /** Each line with its surrounding whitespace trimmed. */
  function TrimAll(lines: seq<string>): (r: seq<string>)
    ensures |r| == |lines|
    ensures forall k :: 0 <= k < |r| ==> r[k] == Trim(lines[k])
  {
    seq(|lines|, k requires 0 <= k < |lines| => Trim(lines[k]))
  }

  /** `trace` is the trimmed run of non-empty lines starting at `first`,
      which an empty line ends. */
  ghost predicate TraceAt(report: seq<string>, first: nat, trace: seq<string>) {
    && |trace| >= 1
    && first + |trace| < |report|
    && |report[first + |trace|]| == 0
    && forall k :: 0 <= k < |trace| ==> |report[first + k]| > 0 && trace[k] == Trim(report[first + k])
  }

  /** The stack trace of the report: from the first line with frame `#0` up
      to the next empty line, trimmed. */
  function StackTrace(report: seq<string>): (r: Result<seq<string>, Failure>)
    ensures r.Ok? ==> |r.value| >= 1
  {
    match Position(report, HasFrameZero)
    case None => Err(Bail(NO_STACK_TRACE))
    case Some(first) =>
      var tail := Skip(report, first);
      match Position(tail, IsBlank)
      case None => Err(Bail(NO_STACK_TRACE_END))
      case Some(last) =>
        assert last > 0 by {
          PositionFirst(report, HasFrameZero);
          PositionFirst(tail, IsBlank);
          assert !IsBlank(tail[0]);
        }
        Ok(TrimAll(report[first..first + last]))
  }

  /** There is no stack trace exactly when no line has frame `#0`. */
  lemma StackTraceMissing(report: seq<string>)
    ensures StackTrace(report) == Err(Bail(NO_STACK_TRACE)) <==>
      forall k :: 0 <= k < |report| ==> !HasFrameZero(report[k])
  {
    PositionFirst(report, HasFrameZero);
    if Position(report, HasFrameZero).Some? {
      var first := Position(report, HasFrameZero).value;
      PositionFirst(Skip(report, first), IsBlank);
    }
  }

  /** The first line with frame `#0` begins the stack trace. */
  lemma FrameZeroStarts(report: seq<string>, first: nat)
    requires first < |report| && FirstFrameZero(report, first)
    ensures Position(report, HasFrameZero) == Some(first)
  {
    PositionOfFirst(report, HasFrameZero, first);
  }

  /** The stack trace has no end exactly when no empty line follows the first
      line with frame `#0`. */
  lemma StackTraceUnended(report: seq<string>, first: nat)
    requires first < |report| && FirstFrameZero(report, first)
    ensures StackTrace(report) == Err(Bail(NO_STACK_TRACE_END)) <==>
      forall k :: first <= k < |report| ==> |report[k]| > 0
  {
    FrameZeroStarts(report, first);
    var tail := Skip(report, first);
    PositionFirst(tail, IsBlank);
    assert forall k :: first <= k < |report| ==> report[k] == tail[k - first];
    if Position(tail, IsBlank).Some? {
      assert |report[first + Position(tail, IsBlank).value]| == 0;
    }
  }

  /** A stack trace that is found is the trimmed run of lines from the first
      line with frame `#0` to the next empty line. */
  lemma StackTraceFound(report: seq<string>)
    requires StackTrace(report).Ok?
    ensures exists first: nat :: first < |report| && FirstFrameZero(report, first)
                            && TraceAt(report, first, StackTrace(report).value)
  {
    PositionFirst(report, HasFrameZero);
    var first := Position(report, HasFrameZero).value;
    var tail := Skip(report, first);
    PositionFirst(tail, IsBlank);
    var last := Position(tail, IsBlank).value;
    assert report[first + last] == tail[last];
    assert forall k :: 0 <= k < last ==> report[first + k] == tail[k];
    assert TraceAt(report, first, StackTrace(report).value);
  }

  /** The stored stack trace is already trimmed: trimming its lines again
      changes none of them. */
  lemma StackTraceTrimmed(report: seq<string>)
    requires StackTrace(report).Ok?
    ensures forall k :: 0 <= k < |StackTrace(report).value| ==>
      Trim(StackTrace(report).value[k]) == StackTrace(report).value[k]
  {
  }

  /** Line `first` is the first with frame `#0`. */
  ghost predicate FirstFrameZero(report: seq<string>, first: nat)
    requires first < |report|
  {
    HasFrameZero(report[first]) && forall k :: 0 <= k < first ==> !HasFrameZero(report[k])
  }

  // ---------------------------------------------------------------------------
  // The termination signal and gdb

  /** The class the signal path sets, as written: SIGILL and SIGABRT have
      their rows, while SIGSEGV looks up `SEGV`, which is no row of the table,
      and the `unwrap` of that lookup panics. */
  function SignalClassAsWritten(signal: int): (r: Result<Option<ExecutionClass>, Failure>)
    ensures r.Ok? && r.value.Some? ==> IsTableClass(r.value.value)
    ensures signal == 4 ==> r.Ok? && r.value.Some? && r.value.value.shortDescription == "BadInstruction"
    ensures signal == 6 ==> r.Ok? && r.value.Some? && r.value.value.shortDescription == "AbortSignal"
  {
    FindKeysOfDriver();
    if signal == 4 then Ok(Some(Find("BadInstruction").value))
    else if signal == 6 then Ok(Some(Find("AbortSignal").value))
    else if signal == 11 then
      match Find("SEGV")
      case Ok(c) => Ok(Some(c))
      case Err(e) => Err(Panic(e))
    else Ok(None)
  }

  /** SIGSEGV makes the signal path panic. */
  lemma SegvSignalPanics()
    ensures SignalClassAsWritten(11).Err?
  {
    FindRejectsSpecialNames();
  }

  /** The class the signal path sets, with SIGSEGV looked up the way the
      sanitizer path looks up `SEGV`: without an access word it is an access
      violation. */
  function SignalClass(signal: int): (r: Option<ExecutionClass>)
    ensures r.Some? ==> IsTableClass(r.value)
    ensures signal == 4 ==> r.Some? && r.value.shortDescription == "BadInstruction"
    ensures signal == 6 ==> r.Some? && r.value.shortDescription == "AbortSignal"
  {
    FindKeysOfDriver();
    FindKeysOfSanFind();
    if signal == 4 then Some(Find("BadInstruction").value)
    else if signal == 6 then Some(Find("AbortSignal").value)
    else if signal == 11 then Some(SanFind("SEGV", None, false).value)
    else None
  }

  /** The corrected signal path differs from the written one only for
      SIGSEGV, which it classifies as an access violation instead of
      panicking. */
  lemma SignalClassCorrectsOnlySegv(signal: int)
    ensures signal != 11 ==> SignalClassAsWritten(signal) == Ok(SignalClass(signal))
    ensures SignalClassAsWritten(11).Err?
    ensures SignalClass(11).Some? && SignalClass(11).value.shortDescription == "AccessViolation"
    ensures signal !in {4, 6, 11} ==> SignalClass(signal).None?
  {
    SegvSignalPanics();
    SanFindSegv(None, false);
  }

  /** gdb's backtrace, one frame per line. */
  function GdbStackTrace(backtrace: string): (trace: seq<string>)
    ensures |trace| >= 1
    ensures forall k :: 0 <= k < |trace| ==> '\n' !in trace[k]
    ensures Join(trace, "\n") == backtrace
  {
    JoinSplit(backtrace, '\n');
    Split(backtrace, '\n')
  }

  /** A backtrace printed one frame per line gives back those frames. */
  lemma GdbStackTraceOfFrames(frames: seq<string>)
    requires |frames| >= 1
    requires forall k :: 0 <= k < |frames| ==> '\n' !in frames[k]
    ensures GdbStackTrace(Join(frames, "\n")) == frames
  {
    SplitJoin(frames, '\n');
  }

  /** gdb's mappings without the four header lines it prints first. */
  function ProcMaps(mappings: string): (maps: seq<string>)
    ensures |maps| == if |Split(mappings, '\n')| >= 4 then |Split(mappings, '\n')| - 4 else 0
    ensures forall k :: 0 <= k < |maps| ==> maps[k] == Split(mappings, '\n')[k + 4]
  {
    Skip(Split(mappings, '\n'), 4)
  }

  /** When gdb prints its mappings as lines, the mappings kept are the lines
      after the first four, in order. */
  lemma ProcMapsOfLines(lines: seq<string>)
    requires |lines| >= 4
    requires forall k :: 0 <= k < |lines| ==> '\n' !in lines[k]
    ensures ProcMaps(Join(lines, "\n")) == lines[4..]
  {
    SplitJoin(lines, '\n');
  }

  // ---------------------------------------------------------------------------
  // The crash report

  /** What `debug::crash_line` and `debug::sources` give for a report. */
  datatype CrashLine =
    | Unresolved                                            // `crash_line` failed
    | BinaryLine(text: string)                              // a module and offset
    | SourceLine(text: string, sources: Option<seq<string>>) // a source line, and the code around it when found

  /** The fields of a crash report that `casr-san` fills in. */
  datatype ReportFields = ReportFields(
    executablePath: string,
    procCmdline: string,
    asanReport: seq<string>,
    executionClass: ExecutionClass,
    stacktrace: seq<string>,
    procMaps: seq<string>,
    crashline: string,
    source: seq<string>)

  /** The modelled fields of `CrashReport`, which `main` fills in one after
      the other. */
  class CrashReport {
    var executablePath: string
    var procCmdline: string
    var asanReport: seq<string>
    var executionClass: ExecutionClass
    var stacktrace: seq<string>
    var procMaps: seq<string>
    var crashline: string
    var source: seq<string>

    /** `CrashReport::new`: every field empty and the default class. */
    constructor ()
      ensures Fields() == ReportFields("", "", [], Default(), [], [], "", [])
    {
      executablePath := "";
      procCmdline := "";
      asanReport := [];
      executionClass := Default();
      stacktrace := [];
      procMaps := [];
      crashline := "";
      source := [];
    }

    function Fields(): ReportFields
      reads this
    {
      ReportFields(executablePath, procCmdline, asanReport, executionClass,
                   stacktrace, procMaps, crashline, source)
    }

    /** Stores the sanitizer report, its class and its stack trace, or gives
        the reason there is no stack trace. */
    method ReadSanitizerReport(report: seq<string>) returns (failure: Option<Failure>)
      requires |report| > 0
      modifies this
      ensures FromSanitizer(old(Fields()), report, Classification(report)).Err? ==>
                failure == Some(FromSanitizer(old(Fields()), report, Classification(report)).error)
      ensures FromSanitizer(old(Fields()), report, Classification(report)).Ok? ==>
                failure.None? && Fields() == FromSanitizer(old(Fields()), report, Classification(report)).value
    {
      asanReport := report;
      var cls := Classification(asanReport);
      if cls.Some? {
        executionClass := cls.value;
      }
      var trace := StackTrace(asanReport);
      if trace.Err? {
        return Some(trace.error);
      }
      stacktrace := trace.value;
      return None;
    }

    /** Stores the class of the termination signal and gdb's backtrace and
        mappings, or gives the reason there are none. */
    method ReadSignal(signal: Option<int>, gdb: Option<(string, string)>) returns (failure: Option<Failure>)
      modifies this
      ensures FromSignal(old(Fields()), signal, gdb).Err? ==>
                failure == Some(FromSignal(old(Fields()), signal, gdb).error)
      ensures FromSignal(old(Fields()), signal, gdb).Ok? ==>
                failure.None? && Fields() == FromSignal(old(Fields()), signal, gdb).value
    {
      if signal.None? {
        return Some(Bail(NO_CRASH));
      }
      var cls := SignalClass(signal.value);
      if cls.Some? {
        executionClass := cls.value;
      }
      if gdb.None? {
        return Some(Bail(GDB_FAILED));
      }
      stacktrace := GdbStackTrace(gdb.value.0);
      procMaps := ProcMaps(gdb.value.1);
      return None;
    }

    /** Stores the crash line and the source around it, when they were found. */
    method SetCrashLine(line: CrashLine)
      modifies this
      ensures Fields() == WithCrashLine(old(Fields()), line)
    {
      if !line.Unresolved? {
        crashline := line.text;
        if line.SourceLine? && line.sources.Some? {
          source := line.sources.value;
        }
      }
    }
  }

  /** The report fields after the crash line has been looked up. */
  function WithCrashLine(f: ReportFields, line: CrashLine): (g: ReportFields)
    ensures line.Unresolved? ==> g == f
    ensures !line.Unresolved? ==> g.crashline == line.text
    ensures line.SourceLine? && line.sources.Some? ==> g.source == line.sources.value
    ensures !(line.SourceLine? && line.sources.Some?) ==> g.source == f.source
    ensures g.(crashline := f.crashline, source := f.source) == f
  {
    match line
    case Unresolved => f
    case BinaryLine(text) => f.(crashline := text)
    case SourceLine(text, None) => f.(crashline := text)
    case SourceLine(text, Some(sources)) => f.(crashline := text, source := sources)
  }

  /** The report fields after the sanitizer report has been read, with `cls`
      the class the report names. */
  function FromSanitizer(f: ReportFields, report: seq<string>, cls: Option<ExecutionClass>)
    : (r: Result<ReportFields, Failure>)
  {
    var cls := cls.GetOr(f.executionClass);
    match StackTrace(report)
    case Err(e) => Err(e)
    case Ok(trace) => Ok(f.(asanReport := report, executionClass := cls, stacktrace := trace))
  }

  /** The report fields after a run without a sanitizer report, from its
      termination signal and gdb's backtrace and mappings. */
  function FromSignal(f: ReportFields, signal: Option<int>, gdb: Option<(string, string)>): (r: Result<ReportFields, Failure>)
  {
    match signal
    case None => Err(Bail(NO_CRASH))
    case Some(sig) =>
      var cls := SignalClass(sig).GetOr(f.executionClass);
      match gdb
      case None => Err(Bail(GDB_FAILED))
      case Some((backtrace, mappings)) =>
        Ok(f.(executionClass := cls, stacktrace := GdbStackTrace(backtrace), procMaps := ProcMaps(mappings)))
  }

  /** The whole analysis of one run: `argv` is the target's command line,
      `stderr` what it wrote under the sanitizer, `signal` the signal that
      ended it, `gdb` the backtrace and mappings gdb gives (`None` when gdb
      fails), and `crashLineOf` what the crash-line lookup gives for the
      report built so far. */
  function Analysis(argv: seq<string>, stderr: string, signal: Option<int>,
                    gdb: Option<(string, string)>, crashLineOf: ReportFields -> CrashLine)
    : (r: Result<ReportFields, Failure>)
    requires |argv| > 0
    ensures IsOutOfMemory(stderr) ==> r == Err(Bail(OUT_OF_MEMORY))
    ensures r.Ok? ==> r.value.executablePath == argv[0] && r.value.procCmdline == Join(argv, " ")
  {
    if IsOutOfMemory(stderr) then Err(Bail(OUT_OF_MEMORY))
    else
      var f := ReportFields(argv[0], Join(argv, " "), [], Default(), [], [], "", []);
      var lines := Split(stderr, '\n');
      var traced := match ReportBounds(lines)
        case Some((start, end)) => FromSanitizer(f, lines[start..end], Classification(lines[start..end]))
        case None => FromSignal(f, signal, gdb);
      match traced
      case Err(e) => Err(e)
      case Ok(g) => Ok(WithCrashLine(g, crashLineOf(g)))
  }

  /** A run that printed no sanitizer report and was not killed by a signal
      is no crash. */
  lemma NoReportNoSignalIsNoCrash(argv: seq<string>, stderr: string,
                                  gdb: Option<(string, string)>, crashLineOf: ReportFields -> CrashLine)
    requires |argv| > 0
    requires !IsOutOfMemory(stderr)
    requires forall k :: 0 <= k < |Split(stderr, '\n')| ==> !IsReportStart(Split(stderr, '\n')[k])
    ensures Analysis(argv, stderr, None, gdb, crashLineOf) == Err(Bail(NO_CRASH))
  {
    ReportBoundsSpec(Split(stderr, '\n'));
  }

  /** Without a sanitizer report, a run killed by a signal is classified by
      the signal and its stack trace and mappings are gdb's; the sanitizer
      report stays empty. */
  lemma SignalRun(argv: seq<string>, stderr: string, signal: int, backtrace: string, mappings: string,
                  crashLineOf: ReportFields -> CrashLine)
    requires |argv| > 0
    requires !IsOutOfMemory(stderr)
    requires forall k :: 0 <= k < |Split(stderr, '\n')| ==> !IsReportStart(Split(stderr, '\n')[k])
    ensures var r := Analysis(argv, stderr, Some(signal), Some((backtrace, mappings)), crashLineOf);
      && r.Ok?
      && r.value.asanReport == []
      && r.value.executionClass == SignalClass(signal).GetOr(Default())
      && r.value.stacktrace == GdbStackTrace(backtrace)
      && r.value.procMaps == ProcMaps(mappings)
  {
    ReportBoundsSpec(Split(stderr, '\n'));
  }

  /** Every report carries a class of the table, or the default one. */
  lemma ReportClassIsKnown(argv: seq<string>, stderr: string, signal: Option<int>,
                           gdb: Option<(string, string)>, crashLineOf: ReportFields -> CrashLine)
    requires |argv| > 0
    requires Analysis(argv, stderr, signal, gdb, crashLineOf).Ok?
    ensures var c := Analysis(argv, stderr, signal, gdb, crashLineOf).value.executionClass;
      IsTableClass(c) || c == Default()
  {
  }

  /** The sanitizer report is the stretch of stderr from the start line to
      the last non-empty line: it is never empty, its first line matches the
      start pattern and its last line is not empty, so indexing its first
      line and unwrapping `rposition` cannot fail. */
  lemma ReportSlice(lines: seq<string>)
    requires ReportBounds(lines).Some?
    ensures var (start, end) := ReportBounds(lines).value;
      var report := lines[start..end];
      && |report| >= 1
      && IsReportStart(report[0])
      && |report[|report| - 1]| > 0
  {
    var (start, end) := ReportBounds(lines).value;
    assert IsReportStart(lines[start]) && |lines[end - 1]| > 0 by {
      ReportBoundsSpec(lines);
    }
    var report := lines[start..end];
    assert report[0] == lines[start];
    assert report[|report| - 1] == lines[end - 1];
  }

  /** Reading a sanitizer report stores it whole, with the stack trace found in
      it, and leaves the mappings alone. */
  /** With a report-start line in stderr, the analysis takes the sanitizer
      path (`FromSanitizer`) on the excerpt: it succeeds exactly when the
      excerpt has a stack trace, and then stores the excerpt, the class
      `Classification` found (or the default one) and that stack trace. */
  lemma SanitizerRun(argv: seq<string>, stderr: string, signal: Option<int>, gdb: Option<(string, string)>,
                     crashLineOf: ReportFields -> CrashLine)
    requires |argv| > 0
    requires !IsOutOfMemory(stderr)
    requires ReportBounds(Split(stderr, '\n')).Some?
    ensures var (start, end) := ReportBounds(Split(stderr, '\n')).value;
      var excerpt := Split(stderr, '\n')[start..end];
      var r := Analysis(argv, stderr, signal, gdb, crashLineOf);
      && (r.Ok? <==> StackTrace(excerpt).Ok?)
      && (r.Ok? ==> && r.value.asanReport == excerpt
                    && r.value.executionClass == Classification(excerpt).GetOr(Default())
                    && r.value.stacktrace == StackTrace(excerpt).value)
  {
  }

  lemma SanitizerFields(f: ReportFields, report: seq<string>, cls: Option<ExecutionClass>)
    requires FromSanitizer(f, report, cls).Ok?
    ensures var g := FromSanitizer(f, report, cls).value;
      && g.asanReport == report
      && g.executionClass == cls.GetOr(f.executionClass)
      && g.procMaps == f.procMaps
      && exists first: nat :: first < |report| && FirstFrameZero(report, first)
                              && TraceAt(report, first, g.stacktrace)
  {
    StackTraceFound(report);
  }

  /** `main` from the run of the target to the crash line: it fills in a
      fresh `CrashReport` field by field and agrees with `Analysis`. */
  method AnalyzeCrash(argv: seq<string>, stderr: string, signal: Option<int>,
                      gdb: Option<(string, string)>, crashLineOf: ReportFields -> CrashLine)
    returns (result: Result<CrashReport, Failure>)
    requires |argv| > 0
    ensures result.Err? ==> Analysis(argv, stderr, signal, gdb, crashLineOf) == Err(result.error)
    ensures result.Ok? ==> fresh(result.value)
                           && Analysis(argv, stderr, signal, gdb, crashLineOf) == Ok(result.value.Fields())
  {
    if IsOutOfMemory(stderr) {
      return Err(Bail(OUT_OF_MEMORY));
    }
    var report := new CrashReport();
    report.executablePath := argv[0];
    report.procCmdline := Join(argv, " ");
    var lines := Split(stderr, '\n');
    var failure: Option<Failure>;
    match ReportBounds(lines) {
      case Some((start, end)) =>
        failure := report.ReadSanitizerReport(lines[start..end]);
      case None =>
        failure := report.ReadSignal(signal, gdb);
    }
    if failure.Some? {
      return Err(failure.value);
    }
    report.SetCrashLine(crashLineOf(report.Fields()));
    result := Ok(report);
  }
}
