/** The three regular expressions `casr-san` applies to sanitizer output,
    written out as matchers over one line of text:

      start   `==\d+==\s*ERROR: (LeakSanitizer|AddressSanitizer|libFuzzer):`
      summary `SUMMARY: *(AddressSanitizer|libFuzzer): (\S+)`
      access  `(READ|WRITE|ACCESS)`

    Each one is searched for anywhere in the line, leftmost match first, as the
    `regex` crate does for `is_match` and `captures`. Each matcher is an
    executable scan; the ghost `...Span` predicates state the regular
    expression directly, one existentially chosen repetition count per `+` or
    `*`, and the lemmas prove the two agree. */
module SanPatterns {
  import opened Wrappers
  import opened Strings

  /** The character classes the three patterns repeat. */
  datatype CharClass =
    | Digit          // `\d`, restricted to the ASCII digits
    | Space          // ` `
    | Whitespace     // `\s`
    | NonWhitespace  // `\S`

  predicate InClass(c: char, cls: CharClass) {
    match cls
    case Digit => '0' <= c <= '9'
    case Space => c == ' '
    case Whitespace => IsWhitespace(c)
    case NonWhitespace => !IsWhitespace(c)
  }

  /** Length of the longest run of characters of class `cls` from index `i`. */
  function RunLength(s: string, i: nat, cls: CharClass): (n: nat)
    requires i <= |s|
    ensures i + n <= |s|
    decreases |s| - i
  {
    if i < |s| && InClass(s[i], cls) then 1 + RunLength(s, i + 1, cls) else 0
  }

  /** The run is made of characters of class `cls` and cannot be extended. */
  lemma {:induction false} RunLengthMaximal(s: string, i: nat, cls: CharClass)
    requires i <= |s|
    ensures forall k :: i <= k < i + RunLength(s, i, cls) ==> InClass(s[k], cls)
    ensures i + RunLength(s, i, cls) < |s| ==> !InClass(s[i + RunLength(s, i, cls)], cls)
    decreases |s| - i
  {
    if i < |s| && InClass(s[i], cls) {
      RunLengthMaximal(s, i + 1, cls);
    }
  }

  /** A run of class `cls` is exactly `n` long when it cannot be extended. */
  lemma RunLengthUnique(s: string, i: nat, cls: CharClass, n: nat)
    requires i + n <= |s|
    requires forall k :: i <= k < i + n ==> InClass(s[k], cls)
    requires i + n < |s| ==> !InClass(s[i + n], cls)
    ensures RunLength(s, i, cls) == n
  {
    RunLengthMaximal(s, i, cls);
  }

  /** A run of at least `n` characters of class `cls` starts at `i`. */
  lemma RunLengthAtLeast(s: string, i: nat, cls: CharClass, n: nat)
    requires i + n <= |s|
    requires forall k :: i <= k < i + n ==> InClass(s[k], cls)
    ensures RunLength(s, i, cls) >= n
  {
    RunLengthMaximal(s, i, cls);
  }

  // ---------------------------------------------------------------------------
  // The report-start line

  /** One of the three tool names, followed by a colon, at index `j`. */
  predicate ToolAndColonAt(s: string, j: nat) {
    || OccursAt(s, "LeakSanitizer:", j)
    || OccursAt(s, "AddressSanitizer:", j)
    || OccursAt(s, "libFuzzer:", j)
  }

  /** The start pattern matches at index `i`: `==`, then the rest from the
      process id on. */
  predicate StartAt(s: string, i: nat) {
    OccursAt(s, "==", i) && PidAt(s, i + 2)
  }

  /** `\d+==` and the rest at index `j`. Since `\d+` is followed by `=`, the
      repetition cannot give anything back, so the scan takes the run whole. */
  predicate PidAt(s: string, j: nat) {
    && j <= |s|
    && var d := RunLength(s, j, Digit);
    && d >= 1
    && OccursAt(s, "==", j + d)
    && ErrorAt(s, j + d + 2)
  }

  /** `\s*ERROR: ` and a tool name with its colon at index `k`; `\s*` is
      followed by `E` and is taken whole as well. */
  predicate ErrorAt(s: string, k: nat) {
    && k <= |s|
    && var w := RunLength(s, k, Whitespace);
    && OccursAt(s, "ERROR: ", k + w)
    && ToolAndColonAt(s, k + w + 7)
  }

  /** `\s*ERROR: ` with `w` whitespace characters, then a tool name and its
      colon, at index `k`. */
  ghost predicate ErrorSpan(s: string, k: nat, w: nat) {
    && k + w + 7 <= |s|
    && (forall m :: k <= m < k + w ==> InClass(s[m], Whitespace))
    && s[k + w..k + w + 7] == "ERROR: "
    && ToolAndColonAt(s, k + w + 7)
  }

  /** `\d+==` with `d` digits, then the rest with `w` whitespace characters,
      at index `j`. */
  ghost predicate PidSpan(s: string, j: nat, d: nat, w: nat) {
    && d >= 1
    && j + d + 2 <= |s|
    && (forall m :: j <= m < j + d ==> InClass(s[m], Digit))
    && s[j + d..j + d + 2] == "=="
    && ErrorSpan(s, j + d + 2, w)
  }

  /** The start pattern, with `d` digits and `w` whitespace characters,
      matches at index `i`. */
  ghost predicate StartSpan(s: string, i: nat, d: nat, w: nat) {
    && i + 2 <= |s|
    && s[i..i + 2] == "=="
    && PidSpan(s, i + 2, d, w)
  }

  lemma ErrorAtSpan(s: string, k: nat)
    requires ErrorAt(s, k)
    ensures ErrorSpan(s, k, RunLength(s, k, Whitespace))
  {
    RunLengthMaximal(s, k, Whitespace);
  }

  lemma ErrorSpanAt(s: string, k: nat, w: nat)
    requires ErrorSpan(s, k, w)
    ensures RunLength(s, k, Whitespace) == w
    ensures ErrorAt(s, k)
  {
    assert s[k + w] == 'E';
    RunLengthUnique(s, k, Whitespace, w);
  }

  lemma PidAtSpan(s: string, j: nat)
    requires PidAt(s, j)
    ensures var d := RunLength(s, j, Digit);
      PidSpan(s, j, d, RunLength(s, j + d + 2, Whitespace))
  {
    RunLengthMaximal(s, j, Digit);
    ErrorAtSpan(s, j + RunLength(s, j, Digit) + 2);
  }

  lemma PidSpanAt(s: string, j: nat, d: nat, w: nat)
    requires PidSpan(s, j, d, w)
    ensures RunLength(s, j, Digit) == d
    ensures PidAt(s, j)
  {
    PidDigitsEnd(s, j, d);
    ErrorSpanAt(s, j + d + 2, w);
  }

  lemma PidDigitsEnd(s: string, j: nat, d: nat)
    requires j + d + 2 <= |s|
    requires forall m :: j <= m < j + d ==> InClass(s[m], Digit)
    requires s[j + d..j + d + 2] == "=="
    ensures RunLength(s, j, Digit) == d && OccursAt(s, "==", j + d)
  {
    assert s[j + d] == s[j + d..j + d + 2][0] == '=';
    RunLengthUnique(s, j, Digit, d);
  }

  /** The scan at `i` succeeds exactly when the pattern has a match at `i`. */
  lemma StartAtIsMatch(s: string, i: nat)
    ensures StartAt(s, i) <==> exists d, w :: StartSpan(s, i, d, w)
  {
    if StartAt(s, i) {
      PidAtSpan(s, i + 2);
      var d := RunLength(s, i + 2, Digit);
      assert StartSpan(s, i, d, RunLength(s, i + 4 + d, Whitespace));
    }
    if exists d, w :: StartSpan(s, i, d, w) {
      var d, w :| StartSpan(s, i, d, w);
      PidSpanAt(s, i + 2, d, w);
    }
  }

  /** `rasan_start.is_match(line)`: the pattern matches somewhere in the line. */
  predicate IsReportStart(line: string) {
    exists i: nat :: i < |line| && StartAt(line, i)
  }

  // ---------------------------------------------------------------------------
  // The SUMMARY line

  datatype Tool = AddressSanitizer | LibFuzzer

  /** The text of capture group 1 for each tool. */
  function ToolName(t: Tool): string {
    match t
    case AddressSanitizer => "AddressSanitizer"
    case LibFuzzer => "libFuzzer"
  }

  /** The tool named at index `j`, followed by `": "`. */
  function ToolAt(s: string, j: nat): (r: Option<Tool>)
    ensures r.Some? ==> OccursAt(s, ToolName(r.value) + ": ", j)
    ensures r.None? ==> !OccursAt(s, ToolName(AddressSanitizer) + ": ", j)
                        && !OccursAt(s, ToolName(LibFuzzer) + ": ", j)
  {
    if OccursAt(s, ToolName(AddressSanitizer) + ": ", j) then Some(AddressSanitizer)
    else if OccursAt(s, ToolName(LibFuzzer) + ": ", j) then Some(LibFuzzer)
    else None
  }

  /** Index where capture group 2 starts, when `SUMMARY:` ends at `j` and is
      followed by `sp` spaces and the name of `t`. */
  function CaptureStart(j: nat, sp: nat, t: Tool): nat {
    j + sp + |ToolName(t)| + 2
  }

  /** The summary pattern matches at index `i` with `sp` spaces after
      `SUMMARY:`, tool `t`, and `n` characters in capture group 2. */
  ghost predicate SummarySpan(s: string, i: nat, sp: nat, t: Tool, n: nat) {
    var c := CaptureStart(i + 8, sp, t);
    && n >= 1
    && c + n <= |s|
    && s[i..i + 8] == "SUMMARY:"
    && (forall k :: i + 8 <= k < i + 8 + sp ==> InClass(s[k], Space))
    && s[i + 8 + sp..c] == ToolName(t) + ": "
    && (forall k :: c <= k < c + n ==> InClass(s[k], NonWhitespace))
  }

  /** Capture group 2, `\S+`, taken greedily from index `c`. */
  function CaptureAt(s: string, c: nat): (r: Option<string>)
    ensures r.Some? ==> |r.value| >= 1 && NoWhitespace(r.value)
  {
    if c > |s| then None
    else
      var n := RunLength(s, c, NonWhitespace);
      RunIsWord(s, c);
      if n == 0 then None else Some(s[c..c + n])
  }

  lemma RunIsWord(s: string, c: nat)
    requires c <= |s|
    ensures NoWhitespace(s[c..c + RunLength(s, c, NonWhitespace)])
  {
    var n := RunLength(s, c, NonWhitespace);
    RunLengthMaximal(s, c, NonWhitespace);
    var word := s[c..c + n];
    forall k | 0 <= k < |word|
      ensures !IsWhitespace(word[k])
    {
      assert InClass(s[c + k], NonWhitespace);
    }
  }

  /** The part of the summary pattern after `SUMMARY:`, which ends at `j`. */
  function SummaryAfterTag(s: string, j: nat): (r: Option<(Tool, string)>)
    requires j <= |s|
  {
    var sp := RunLength(s, j, Space);
    match ToolAt(s, j + sp)
    case None => None
    case Some(t) =>
      match CaptureAt(s, CaptureStart(j, sp, t))
      case None => None
      case Some(word) => Some((t, word))
  }

  /** The summary pattern at index `i`: the tool of capture group 1 and the
      text of capture group 2. The spaces are taken whole because a tool name
      follows them, and `\S+` is greedy. */
  function SummaryAt(s: string, i: nat): Option<(Tool, string)> {
    if OccursAt(s, "SUMMARY:", i) then SummaryAfterTag(s, i + 8) else None
  }

  /** Capture group 2 of a summary match is a non-empty run of non-whitespace. */
  lemma SummaryCaptureWord(s: string, i: nat)
    requires SummaryAt(s, i).Some?
    ensures |SummaryAt(s, i).value.1| >= 1 && NoWhitespace(SummaryAt(s, i).value.1)
  {
    var sp := RunLength(s, i + 8, Space);
    var t := ToolAt(s, i + 8 + sp).value;
    SummaryAtFromParts(s, i, sp, t);
  }

  lemma CaptureAtSound(s: string, c: nat)
    requires CaptureAt(s, c).Some?
    ensures c + |CaptureAt(s, c).value| <= |s|
    ensures CaptureAt(s, c).value == s[c..c + |CaptureAt(s, c).value|]
    ensures forall k :: c <= k < c + |CaptureAt(s, c).value| ==> InClass(s[k], NonWhitespace)
    ensures c + |CaptureAt(s, c).value| == |s| || IsWhitespace(s[c + |CaptureAt(s, c).value|])
  {
    RunLengthMaximal(s, c, NonWhitespace);
  }

  /** What `SummaryAt` returns is a match of the pattern, taking every space
      after `SUMMARY:`, whose capture group 2 cannot be made longer. */
  lemma SummaryAtSound(s: string, i: nat)
    requires SummaryAt(s, i).Some?
    ensures var sp, t, word := RunLength(s, i + 8, Space), SummaryAt(s, i).value.0, SummaryAt(s, i).value.1;
      var c := CaptureStart(i + 8, sp, t);
      && SummarySpan(s, i, sp, t, |word|)
      && word == s[c..c + |word|]
      && (c + |word| == |s| || IsWhitespace(s[c + |word|]))
  {
    var sp := RunLength(s, i + 8, Space);
    var t := ToolAt(s, i + 8 + sp).value;
    SummaryAtFromParts(s, i, sp, t);
    SummarySpanOfParts(s, i, sp, t);
  }

  lemma SummarySpanOfParts(s: string, i: nat, sp: nat, t: Tool)
    requires OccursAt(s, "SUMMARY:", i)
    requires RunLength(s, i + 8, Space) == sp
    requires ToolAt(s, i + 8 + sp) == Some(t)
    requires CaptureAt(s, CaptureStart(i + 8, sp, t)).Some?
    ensures var c, word := CaptureStart(i + 8, sp, t), CaptureAt(s, CaptureStart(i + 8, sp, t)).value;
      && SummarySpan(s, i, sp, t, |word|)
      && word == s[c..c + |word|]
      && (c + |word| == |s| || IsWhitespace(s[c + |word|]))
  {
    var c := CaptureStart(i + 8, sp, t);
    CaptureAtSound(s, c);
    RunLengthMaximal(s, i + 8, Space);
  }

  lemma ToolAtNamed(s: string, j: nat, t: Tool)
    requires OccursAt(s, ToolName(t) + ": ", j)
    ensures ToolAt(s, j) == Some(t)
  {
    var r := ToolAt(s, j).value;
    assert s[j] == ToolName(t)[0];
    assert s[j] == ToolName(r)[0];
  }

  lemma SummarySpanSpaces(s: string, i: nat, sp: nat, t: Tool, n: nat)
    requires SummarySpan(s, i, sp, t, n)
    ensures OccursAt(s, "SUMMARY:", i)
    ensures RunLength(s, i + 8, Space) == sp
    ensures OccursAt(s, ToolName(t) + ": ", i + 8 + sp)
  {
    assert s[i + 8 + sp] == ToolName(t)[0];
    RunLengthUnique(s, i + 8, Space, sp);
  }

  lemma CaptureAtLong(s: string, c: nat, n: nat)
    requires n >= 1 && c + n <= |s|
    requires forall k :: c <= k < c + n ==> InClass(s[k], NonWhitespace)
    ensures CaptureAt(s, c).Some? && |CaptureAt(s, c).value| >= n
  {
    RunLengthAtLeast(s, c, NonWhitespace, n);
  }

  /** Every match of the pattern at index `i` is found by `SummaryAt`, with
      the same tool and a capture group 2 at least as long. */
  lemma SummaryAtComplete(s: string, i: nat, sp: nat, t: Tool, n: nat)
    requires SummarySpan(s, i, sp, t, n)
    ensures SummaryAt(s, i).Some?
    ensures SummaryAt(s, i).value.0 == t
    ensures |SummaryAt(s, i).value.1| >= n
  {
    SummarySpanSpaces(s, i, sp, t, n);
    ToolAtNamed(s, i + 8 + sp, t);
    CaptureAtLong(s, CaptureStart(i + 8, sp, t), n);
    SummaryAtFromParts(s, i, sp, t);
  }

  lemma SummaryAtFromParts(s: string, i: nat, sp: nat, t: Tool)
    requires OccursAt(s, "SUMMARY:", i)
    requires RunLength(s, i + 8, Space) == sp
    requires ToolAt(s, i + 8 + sp) == Some(t)
    requires CaptureAt(s, CaptureStart(i + 8, sp, t)).Some?
    ensures SummaryAt(s, i) == Some((t, CaptureAt(s, CaptureStart(i + 8, sp, t)).value))
  {
    SummaryAfterTagParts(s, i + 8, sp, t);
  }

  lemma SummaryAfterTagParts(s: string, j: nat, sp: nat, t: Tool)
    requires j <= |s|
    requires RunLength(s, j, Space) == sp
    requires ToolAt(s, j + sp) == Some(t)
    requires CaptureAt(s, CaptureStart(j, sp, t)).Some?
    ensures SummaryAfterTag(s, j) == Some((t, CaptureAt(s, CaptureStart(j, sp, t)).value))
  {
  }

  /** The leftmost index at or after `i` where the summary pattern matches. */
  function SummaryIndex(s: string, i: nat): (r: Option<nat>)
    requires i <= |s|
    ensures r.Some? ==> i <= r.value <= |s| && SummaryAt(s, r.value).Some?
    ensures r.Some? ==> forall j :: i <= j < r.value ==> SummaryAt(s, j).None?
    ensures r.None? ==> forall k :: i <= k <= |s| ==> SummaryAt(s, k).None?
    decreases |s| - i
  {
    if SummaryAt(s, i).Some? then Some(i)
    else if i == |s| then None
    else SummaryIndex(s, i + 1)
  }

  /** `summary.captures(line)`: the captures of the leftmost match in the
      line. */
  function SummaryCaptures(line: string): (r: Option<(Tool, string)>)
    ensures r.Some? ==> |r.value.1| >= 1 && NoWhitespace(r.value.1)
  {
    match SummaryIndex(line, 0)
    case None => None
    case Some(k) => SummaryCaptureWord(line, k); SummaryAt(line, k)
  }

  /** A line has no summary captures exactly when the pattern matches at no
      index of it, and otherwise they are those of the leftmost match. */
  lemma SummaryCapturesLeftmost(line: string)
    ensures SummaryCaptures(line).None? <==> forall k :: 0 <= k <= |line| ==> SummaryAt(line, k).None?
    ensures SummaryCaptures(line).Some? ==>
      exists k :: 0 <= k <= |line| && SummaryAt(line, k) == SummaryCaptures(line)
                  && forall j :: 0 <= j < k ==> SummaryAt(line, j).None?
  {
    match SummaryIndex(line, 0)
    case None =>
    case Some(k) =>
      assert SummaryAt(line, k) == SummaryCaptures(line);
  }

  /** A line without `SUMMARY:` has no summary captures. */
  lemma NoTagNoSummary(line: string)
    requires !Contains(line, "SUMMARY:")
    ensures SummaryCaptures(line).None?
  {
    SummaryCapturesLeftmost(line);
  }

  /** A line that opens with `SUMMARY: `, a tool name, `: ` and a word, the
      word ending the line or followed by whitespace, has that tool and that
      word as its captures. */
  lemma SummaryOfLeadingTag(line: string, t: Tool, check: string, rest: string)
    requires line == "SUMMARY: " + ToolName(t) + ": " + check + rest
    requires |check| >= 1 && NoWhitespace(check)
    requires rest == [] || IsWhitespace(rest[0])
    ensures SummaryCaptures(line) == Some((t, check))
  {
    SummaryLineParts(line, t, check, rest);
    SummaryOfParts(line, t, check);
  }

  lemma SummaryLineParts(line: string, t: Tool, check: string, rest: string)
    requires line == "SUMMARY: " + ToolName(t) + ": " + check + rest
    requires |check| >= 1 && NoWhitespace(check)
    requires rest == [] || IsWhitespace(rest[0])
    ensures OccursAt(line, "SUMMARY:", 0) && RunLength(line, 8, Space) == 1
    ensures ToolAt(line, 9) == Some(t) && CaptureAt(line, CaptureStart(8, 1, t)) == Some(check)
  {
    Regroup("SUMMARY: ", ToolName(t), ": ", check, rest);
    SummaryTagOpens(line, ToolName(t) + ": " + (check + rest));
    SummaryBodyParts(line, t, check, rest);
  }

  lemma Regroup(a: string, b: string, c: string, d: string, e: string)
    ensures a + b + c + d + e == a + (b + c + (d + e))
  {
  }

  /** What follows `SUMMARY: `: the tool name, `: ` and the captured word. */
  lemma SummaryBodyParts(line: string, t: Tool, check: string, rest: string)
    requires |line| > 8 && line[8] == ' ' && line[9..] == ToolName(t) + ": " + (check + rest)
    requires |check| >= 1 && NoWhitespace(check)
    requires rest == [] || IsWhitespace(rest[0])
    ensures RunLength(line, 8, Space) == 1
    ensures ToolAt(line, 9) == Some(t) && CaptureAt(line, CaptureStart(8, 1, t)) == Some(check)
  {
    ToolAfterTag(line, t, check + rest);
    CaptureOfLeadingWord(line, CaptureStart(8, 1, t), check, rest);
  }

  /** A match at index 0 is the leftmost one. */
  lemma SummaryOfParts(line: string, t: Tool, check: string)
    requires OccursAt(line, "SUMMARY:", 0) && RunLength(line, 8, Space) == 1
    requires ToolAt(line, 9) == Some(t) && CaptureAt(line, CaptureStart(8, 1, t)) == Some(check)
    ensures SummaryCaptures(line) == Some((t, check))
  {
    SummaryAtFromParts(line, 0, 1, t);
  }

  /** The spaces after `SUMMARY:` and the tool name that follows them. */
  lemma ToolAfterTag(line: string, t: Tool, after: string)
    requires |line| > 8 && line[8] == ' ' && line[9..] == ToolName(t) + ": " + after
    ensures RunLength(line, 8, Space) == 1 && ToolAt(line, 9) == Some(t)
    ensures CaptureStart(8, 1, t) <= |line| && line[CaptureStart(8, 1, t)..] == after
  {
    var tag := ToolName(t) + ": ";
    assert line[9] == line[9..][0] == tag[0];
    RunLengthUnique(line, 8, Space, 1);
    assert line[9..9 + |tag|] == line[9..][..|tag|] == tag;
    ToolAtNamed(line, 9, t);
    assert line[9 + |tag|..] == line[9..][|tag|..] == after;
  }

  lemma SummaryTagOpens(line: string, after: string)
    requires line == "SUMMARY: " + after
    ensures OccursAt(line, "SUMMARY:", 0) && line[8] == ' ' && line[9..] == after
  {
    assert line[..9] == "SUMMARY: ";
    forall k | 0 <= k < 8 ensures line[k] == "SUMMARY:"[k] {
      assert line[k] == "SUMMARY: "[k];
    }
    assert line[..8] == "SUMMARY:";
  }

  /** Capture group 2 taken where a word starts that whitespace or the end
      of the line ends is that word. */
  lemma CaptureOfLeadingWord(line: string, c: nat, check: string, rest: string)
    requires c <= |line| && line[c..] == check + rest
    requires |check| >= 1 && NoWhitespace(check)
    requires rest == [] || IsWhitespace(rest[0])
    ensures CaptureAt(line, c) == Some(check)
  {
    forall k | c <= k < c + |check| ensures InClass(line[k], NonWhitespace) {
      assert line[k] == line[c..][k - c] == check[k - c];
    }
    if rest != [] {
      assert line[c + |check|] == line[c..][|check|] == rest[0];
    }
    RunLengthUnique(line, c, NonWhitespace, |check|);
    assert line[c..c + |check|] == line[c..][..|check|] == check;
  }

  // ---------------------------------------------------------------------------
  // The access token

  /** The three words capture group 1 can hold. */
  const ACCESS_TOKENS: set<string> := {"READ", "WRITE", "ACCESS"}

  /** The access pattern at index `i`. */
  function AccessAt(s: string, i: nat): (r: Option<string>)
    ensures r.Some? ==> r.value in ACCESS_TOKENS && OccursAt(s, r.value, i)
    ensures r.None? ==> !OccursAt(s, "READ", i) && !OccursAt(s, "WRITE", i) && !OccursAt(s, "ACCESS", i)
  {
    if OccursAt(s, "READ", i) then Some("READ")
    else if OccursAt(s, "WRITE", i) then Some("WRITE")
    else if OccursAt(s, "ACCESS", i) then Some("ACCESS")
    else None
  }

  /** The leftmost index at or after `i` where the access pattern matches. */
  function AccessIndex(s: string, i: nat): (r: Option<nat>)
    requires i <= |s|
    ensures r.Some? ==> i <= r.value < |s| && AccessAt(s, r.value).Some?
    ensures r.Some? ==> forall j :: i <= j < r.value ==> AccessAt(s, j).None?
    ensures r.None? ==> forall k :: i <= k <= |s| ==> AccessAt(s, k).None?
    decreases |s| - i
  {
    if i == |s| then None
    else if AccessAt(s, i).Some? then Some(i)
    else AccessIndex(s, i + 1)
  }

  /** `raccess.captures(line)`: the leftmost of `READ`, `WRITE` and `ACCESS`
      in the line, or nothing when none of them occurs. */
  function AccessToken(line: string): (r: Option<string>)
    ensures r.Some? ==> r.value in ACCESS_TOKENS
                        && exists k :: 0 <= k < |line| && OccursAt(line, r.value, k)
                                       && forall j :: 0 <= j < k ==> AccessAt(line, j).None?
    ensures r.None? ==> forall k :: 0 <= k <= |line| ==> AccessAt(line, k).None?
  {
    match AccessIndex(line, 0)
    case None => None
    case Some(k) => AccessAt(line, k)
  }

  /** A line that starts with an access word names that access. */
  lemma AccessOfLeadingWord(line: string, word: string, rest: string)
    requires word in ACCESS_TOKENS
    requires line == word + rest
    ensures AccessToken(line) == Some(word)
  {
    assert line[..|word|] == word;
    assert OccursAt(line, word, 0);
    assert word != "READ" ==> !OccursAt(line, "READ", 0) by {
      if word != "READ" && 4 <= |line| {
        assert line[0..4][0] == line[0] == word[0] != 'R';
      }
    }
    assert word == "ACCESS" ==> !OccursAt(line, "WRITE", 0) by {
      if word == "ACCESS" && 5 <= |line| {
        assert line[0..5][0] == line[0] == 'A';
      }
    }
  }
}
