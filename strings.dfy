/** The parts of Rust's `str`, `String` and iterator libraries that the crash
    pipeline relies on, written out so that their behaviour is part of the model:
    `contains`, `split`, `join`, `trim`, `replace`, `position`, `rposition`
    and `skip`. A Rust `String` is a `seq<char>` here. */
module Strings {
  import opened Wrappers

  /** Unicode's White_Space property, which is what both `char::is_whitespace`
      (used by `str::trim`) and the `\s` / `\S` classes of the `regex` crate test. */
  predicate IsWhitespace(c: char) {
    || ('\t' <= c <= '\r')
    || c == ' '
    || c == '\U{85}'
    || c == '\U{A0}'
    || c == '\U{1680}'
    || ('\U{2000}' <= c <= '\U{200A}')
    || c == '\U{2028}'
    || c == '\U{2029}'
    || c == '\U{202F}'
    || c == '\U{205F}'
    || c == '\U{3000}'
  }

  predicate NoWhitespace(s: string) {
    forall k :: 0 <= k < |s| ==> !IsWhitespace(s[k])
  }

  /** `p` occurs in `s` starting at index `i`. */
  predicate OccursAt(s: string, p: string, i: nat) {
    i + |p| <= |s| && s[i..i + |p|] == p
  }

  lemma OccursAtTail(s: string, p: string)
    requires |s| > 0
    ensures forall i: nat {:trigger OccursAt(s[1..], p, i)} :: OccursAt(s, p, i + 1) <==> OccursAt(s[1..], p, i)
  {
    forall i: nat ensures OccursAt(s, p, i + 1) <==> OccursAt(s[1..], p, i) {
      if i + 1 + |p| <= |s| {
        assert s[1..][i..i + |p|] == s[i + 1..i + 1 + |p|];
      }
    }
  }

  /** An occurrence after index 0 survives dropping the first character. */
  lemma OccursAfterDrop(s: string, p: string, i: nat)
    requires OccursAt(s, p, i) && i > 0
    ensures OccursAt(s[1..], p, i - 1)
  {
    assert s[1..][i - 1..i - 1 + |p|] == s[i..i + |p|];
  }

  /** `str::contains` for a string pattern. */
  function Contains(s: string, p: string): (b: bool)
    ensures b <==> exists i: nat :: OccursAt(s, p, i)
    decreases |s|
  {
    if OccursAt(s, p, 0) then true
    else if |s| == 0 then false
    else
      OccursAtTail(s, p);
      assert forall i: nat :: OccursAt(s, p, i) ==> i > 0 && OccursAt(s[1..], p, i - 1);
      Contains(s[1..], p)
  }

  /** Dropping a first character that does not start the pattern keeps every
      occurrence. */
  lemma ContainsAfterDrop(s: string, p: string)
    requires Contains(s, p)
    requires |s| > 0 && |p| > 0 && p[0] != s[0]
    ensures Contains(s[1..], p)
  {
    var i: nat :| OccursAt(s, p, i);
    assert s[i] == s[i..i + |p|][0];
    OccursAfterDrop(s, p, i);
  }

  /** `str::split` with a single-character separator: always at least one
      piece, and no piece contains the separator. */
  function Split(s: string, sep: char): (pieces: seq<string>)
    ensures |pieces| >= 1
    ensures forall k :: 0 <= k < |pieces| ==> sep !in pieces[k]
    decreases |s|
  {
    if s == [] then [""]
    else
      var rest := Split(s[1..], sep);
      if s[0] == sep then [""] + rest else [[s[0]] + rest[0]] + rest[1..]
  }

  /** `[String]::join`. */
  function Join(pieces: seq<string>, sep: string): string
  {
    if |pieces| == 0 then ""
    else if |pieces| == 1 then pieces[0]
    else pieces[0] + sep + Join(pieces[1..], sep)
  }

  /** Joining two pieces puts the separator between them. */
  lemma JoinTwo(a: string, b: string, sep: string)
    ensures Join([a, b], sep) == a + sep + b
  {
    assert [a, b][1..] == [b];
  }

  /** Joining three pieces puts the separator between each pair. */
  lemma JoinThree(a: string, b: string, c: string, sep: string)
    ensures Join([a, b, c], sep) == a + sep + b + sep + c
  {
    assert [a, b, c][1..] == [b, c];
    assert [b, c][1..] == [c];
    assert Join([b, c], sep) == b + sep + c;
    assert Join([a, b, c], sep) == a + sep + (b + sep + c);
  }

  /** Joining four pieces puts the separator between each pair. */
  lemma JoinFour(a: string, b: string, c: string, d: string, sep: string)
    ensures Join([a, b, c, d], sep) == a + sep + b + sep + c + sep + d
  {
    assert [a, b, c, d][1..] == [b, c, d];
    JoinThree(b, c, d, sep);
    assert Join([a, b, c, d], sep) == a + sep + (b + sep + c + sep + d);
  }

  /** Joining the pieces of a split with the separator gives the text back. */
  lemma {:induction false} JoinSplit(s: string, sep: char)
    ensures Join(Split(s, sep), [sep]) == s
    decreases |s|
  {
    if s != [] {
      var rest := Split(s[1..], sep);
      JoinSplit(s[1..], sep);
      if s[0] == sep {
        assert Split(s, sep) == [""] + rest;
        assert Join([""] + rest, [sep]) == "" + [sep] + Join(rest, [sep]) by {
          assert ([""] + rest)[1..] == rest;
        }
        assert s == [s[0]] + s[1..];
      } else {
        var pieces := [[s[0]] + rest[0]] + rest[1..];
        assert Split(s, sep) == pieces;
        if |rest| == 1 {
          assert Join(pieces, [sep]) == [s[0]] + rest[0];
        } else {
          assert pieces[1..] == rest[1..];
          assert Join(rest, [sep]) == rest[0] + [sep] + Join(rest[1..], [sep]);
          assert Join(pieces, [sep]) == [s[0]] + rest[0] + [sep] + Join(rest[1..], [sep]);
        }
        assert s == [s[0]] + s[1..];
      }
    }
  }

  /** A text without the separator splits into itself alone. */
  lemma {:induction false} SplitNoSeparator(s: string, sep: char)
    requires sep !in s
    ensures Split(s, sep) == [s]
    decreases |s|
  {
    if s != [] {
      assert sep !in s[1..];
      SplitNoSeparator(s[1..], sep);
      assert [s[0]] + s[1..] == s;
    }
  }

  /** Splitting `p + sep + rest`, where `p` has no separator, gives `p` first
      and then the pieces of `rest`. */
  lemma {:induction false} SplitPrefix(p: string, rest: string, sep: char)
    requires sep !in p
    ensures Split(p + [sep] + rest, sep) == [p] + Split(rest, sep)
    decreases |p|
  {
    var s := p + [sep] + rest;
    if p == [] {
      assert s[1..] == rest;
    } else {
      assert s[1..] == p[1..] + [sep] + rest;
      assert sep !in p[1..];
      SplitPrefix(p[1..], rest, sep);
      assert [p[0]] + p[1..] == p;
    }
  }

  /** Splitting the join of separator-free pieces gives the pieces back. */
  lemma {:induction false} SplitJoin(pieces: seq<string>, sep: char)
    requires |pieces| >= 1
    requires forall k :: 0 <= k < |pieces| ==> sep !in pieces[k]
    ensures Split(Join(pieces, [sep]), sep) == pieces
    decreases |pieces|
  {
    if |pieces| == 1 {
      SplitNoSeparator(pieces[0], sep);
    } else {
      SplitJoin(pieces[1..], sep);
      SplitPrefix(pieces[0], Join(pieces[1..], [sep]), sep);
      assert [pieces[0]] + pieces[1..] == pieces;
    }
  }

  /** Number of whitespace characters at the front of `s`. */
  function LeadingWhitespace(s: string): (n: nat)
    ensures n <= |s|
    ensures forall k :: 0 <= k < n ==> IsWhitespace(s[k])
    ensures n < |s| ==> !IsWhitespace(s[n])
    decreases |s|
  {
    if s == [] || !IsWhitespace(s[0]) then 0 else 1 + LeadingWhitespace(s[1..])
  }

  /** Number of whitespace characters at the back of `s`. */
  function TrailingWhitespace(s: string): (n: nat)
    ensures n <= |s|
    ensures forall k :: |s| - n <= k < |s| ==> IsWhitespace(s[k])
    ensures n < |s| ==> !IsWhitespace(s[|s| - 1 - n])
    decreases |s|
  {
    if s == [] || !IsWhitespace(s[|s| - 1]) then 0 else 1 + TrailingWhitespace(s[..|s| - 1])
  }

  /** `str::trim`: the text between the leading and the trailing whitespace. */
  function Trim(s: string): (r: string)
    ensures exists a, b :: 0 <= a <= b <= |s| && r == s[a..b]
                           && (forall k :: 0 <= k < a ==> IsWhitespace(s[k]))
                           && (forall k :: b <= k < |s| ==> IsWhitespace(s[k]))
    ensures r != [] ==> !IsWhitespace(r[0]) && !IsWhitespace(r[|r| - 1])
  {
    var a := LeadingWhitespace(s);
    if a == |s| then
      assert s[|s|..|s|] == [];
      ""
    else
      var t := TrailingWhitespace(s);
      assert |s| - 1 - t >= a;
      s[a..|s| - t]
  }

  /** `str::replace`: every non-overlapping occurrence of `from`, scanning left
      to right, replaced by `to`. */
  function ReplaceAll(s: string, from: string, to: string): string
    requires |from| > 0
    decreases |s|
  {
    if OccursAt(s, from, 0) then to + ReplaceAll(s[|from|..], from, to)
    else if s == [] then []
    else [s[0]] + ReplaceAll(s[1..], from, to)
  }

  /** When `to` has the length of `from` and differs from it only by turning
      the character `x` into `y`, the replacement keeps the length and changes
      no character other than an `x` into a `y`. */
  lemma {:induction false} ReplaceAllPointwise(s: string, from: string, to: string, x: char, y: char)
    requires |from| > 0 && |to| == |from|
    requires forall m :: 0 <= m < |from| ==> to[m] == from[m] || (from[m] == x && to[m] == y)
    ensures |ReplaceAll(s, from, to)| == |s|
    ensures forall k :: 0 <= k < |s| ==>
      ReplaceAll(s, from, to)[k] == s[k] || (s[k] == x && ReplaceAll(s, from, to)[k] == y)
    decreases |s|
  {
    var r := ReplaceAll(s, from, to);
    if OccursAt(s, from, 0) {
      var tail := s[|from|..];
      ReplaceAllPointwise(tail, from, to, x, y);
      assert r == to + ReplaceAll(tail, from, to);
      forall k | 0 <= k < |s|
        ensures r[k] == s[k] || (s[k] == x && r[k] == y)
      {
        if k < |from| {
          assert s[k] == from[k];
        } else {
          assert s[k] == tail[k - |from|];
        }
      }
    } else if s != [] {
      var tail := s[1..];
      ReplaceAllPointwise(tail, from, to, x, y);
      assert r == [s[0]] + ReplaceAll(tail, from, to);
      forall k | 0 <= k < |s|
        ensures r[k] == s[k] || (s[k] == x && r[k] == y)
      {
        if k > 0 {
          assert s[k] == tail[k - 1];
        }
      }
    }
  }

  /** A text in which `from` does not occur is left as it is. */
  lemma {:induction false} ReplaceAllAbsent(s: string, from: string, to: string)
    requires |from| > 0
    requires !Contains(s, from)
    ensures ReplaceAll(s, from, to) == s
    decreases |s|
  {
    if s != [] {
      OccursAtTail(s, from);
      assert !Contains(s[1..], from) by {
        forall i: nat ensures !OccursAt(s[1..], from, i) {
          assert !OccursAt(s, from, i + 1);
        }
      }
      ReplaceAllAbsent(s[1..], from, to);
      assert [s[0]] + s[1..] == s;
    }
  }

  /** A pattern without the character `x` still occurs wherever it did after
      a change that only turns some `x` into `y`. */
  lemma OccursAtKept(s: string, r: string, p: string, x: char, y: char, i: nat)
    requires |r| == |s|
    requires forall k :: 0 <= k < |s| ==> r[k] == s[k] || (s[k] == x && r[k] == y)
    requires x !in p
    requires OccursAt(s, p, i)
    ensures OccursAt(r, p, i)
  {
    forall m | 0 <= m < |p| ensures r[i + m] == p[m] {
      assert s[i + m] == p[m];
    }
  }

  /** The conditions under which a replacement leaves no occurrence of
      `from`: `to` is `from` with its last character changed into one that
      does not occur in `from`. */
  ghost predicate ClosingReplacement(from: string, to: string) {
    && |from| > 0 && |to| == |from|
    && from[..|from| - 1] == to[..|to| - 1]
    && to[|to| - 1] !in from
  }

  /** After a closing replacement, no occurrence of `from` is left: a new one
      would have to overlap the end of a `to`, which `from` cannot contain, or
      be an old one the scan missed. */
  lemma {:induction false} ReplaceAllLeavesNoMatch(s: string, from: string, to: string)
    requires ClosingReplacement(from, to)
    ensures !Contains(ReplaceAll(s, from, to), from)
    decreases |s|
  {
    if OccursAt(s, from, 0) {
      ReplaceAllLeavesNoMatch(s[|from|..], from, to);
      NoMatchAfterReplaced(s, from, to);
    } else if s != [] {
      ReplaceAllLeavesNoMatch(s[1..], from, to);
      NoMatchAfterKept(s, from, to);
    }
  }

  /** The step of `ReplaceAllLeavesNoMatch` where the text starts with `from`. */
  lemma NoMatchAfterReplaced(s: string, from: string, to: string)
    requires ClosingReplacement(from, to)
    requires OccursAt(s, from, 0)
    requires !Contains(ReplaceAll(s[|from|..], from, to), from)
    ensures !Contains(ReplaceAll(s, from, to), from)
  {
    var rest := ReplaceAll(s[|from|..], from, to);
    assert ReplaceAll(s, from, to) == to + rest;
    forall i: nat ensures !OccursAt(to + rest, from, i) {
      if i < |from| {
        NoMatchStraddling(from, to, rest, i);
      } else {
        NoMatchPastPrefix(to, rest, from, i);
      }
    }
  }

  /** A window that starts past `prefix` lies in `rest`, which has no match. */
  lemma NoMatchPastPrefix(prefix: string, rest: string, p: string, i: nat)
    requires !Contains(rest, p)
    requires i >= |prefix|
    ensures !OccursAt(prefix + rest, p, i)
  {
    assert !OccursAt(rest, p, i - |prefix|);
    if i + |p| <= |prefix + rest| {
      assert (prefix + rest)[i..i + |p|] == rest[i - |prefix|..i - |prefix| + |p|];
    }
  }

  /** A window that starts inside a closing replacement ends on or after its
      last character, which `from` does not contain, so it is no match. */
  lemma NoMatchStraddling(from: string, to: string, rest: string, i: nat)
    requires ClosingReplacement(from, to)
    requires i < |from|
    ensures !OccursAt(to + rest, from, i)
  {
    var n := |from|;
    var r := to + rest;
    if i + n <= |r| {
      assert r[i..i + n][n - 1 - i] == to[n - 1];
      assert from[n - 1 - i] in from;
    }
  }

  /** The step of `ReplaceAllLeavesNoMatch` where the first character is kept. */
  lemma NoMatchAfterKept(s: string, from: string, to: string)
    requires ClosingReplacement(from, to)
    requires s != [] && !OccursAt(s, from, 0)
    requires !Contains(ReplaceAll(s[1..], from, to), from)
    ensures !Contains(ReplaceAll(s, from, to), from)
  {
    var n := |from|;
    var tail := s[1..];
    var rest := ReplaceAll(tail, from, to);
    var r := ReplaceAll(s, from, to);
    assert r == [s[0]] + rest;
    forall i: nat | i >= 1 ensures !OccursAt(r, from, i) {
      NoMatchPastPrefix([s[0]], rest, from, i);
    }
    ClosingIsPointwise(from, to);
    ReplaceAllPointwise(tail, from, to, from[n - 1], to[n - 1]);
    if n <= |s| {
      assert s[0..n] != from;
      var m :| 0 <= m < n && s[m] != from[m];
      if m > 0 {
        assert r[m] == rest[m - 1];
      }
      assert r[0..n][m] != from[m];
    }
  }

  lemma ClosingIsPointwise(from: string, to: string)
    requires ClosingReplacement(from, to)
    ensures forall m :: 0 <= m < |from| ==>
      to[m] == from[m] || (from[m] == from[|from| - 1] && to[m] == to[|to| - 1])
  {
    forall m | 0 <= m < |from| - 1 ensures to[m] == from[m] {
      assert to[m] == to[..|to| - 1][m];
      assert from[m] == from[..|from| - 1][m];
    }
  }

  /** A pattern with a character the text lacks does not occur in it. */
  lemma ContainsNeedsChar(s: string, p: string, c: char)
    requires c in p && c !in s
    ensures !Contains(s, p)
  {
    var m :| 0 <= m < |p| && p[m] == c;
    forall i: nat ensures !OccursAt(s, p, i) {
      if i + |p| <= |s| {
        assert s[i..i + |p|][m] == s[i + m] != c;
      }
    }
  }

  /** `Iterator::position`: the first index whose element satisfies `p`. */
  function Position<T>(s: seq<T>, p: T -> bool): (r: Option<nat>)
    ensures r.Some? ==> r.value < |s|
    decreases |s|
  {
    if s == [] then None
    else if p(s[0]) then Some(0)
    else match Position(s[1..], p)
      case None => None
      case Some(i) => Some(i + 1)
  }

  /** `Position` finds the first element satisfying `p`, and finds nothing
      only when no element does. */
  lemma {:induction false} PositionFirst<T>(s: seq<T>, p: T -> bool)
    ensures Position(s, p).Some? ==> p(s[Position(s, p).value])
                                     && forall j :: 0 <= j < Position(s, p).value ==> !p(s[j])
    ensures Position(s, p).None? ==> forall j :: 0 <= j < |s| ==> !p(s[j])
    decreases |s|
  {
    if s != [] && !p(s[0]) {
      PositionFirst(s[1..], p);
      assert forall j :: 1 <= j < |s| ==> s[j] == s[1..][j - 1];
    }
  }

  /** The first element satisfying `p` is the one `Position` finds. */
  lemma PositionOfFirst<T>(s: seq<T>, p: T -> bool, i: nat)
    requires i < |s| && p(s[i])
    requires forall k :: 0 <= k < i ==> !p(s[k])
    ensures Position(s, p) == Some(i)
  {
    PositionFirst(s, p);
    var j := Position(s, p).value;
    assert p(s[j]);
  }

  /** `Iterator::rposition`: the last index whose element satisfies `p`. */
  function RPosition<T>(s: seq<T>, p: T -> bool): (r: Option<nat>)
    ensures r.Some? ==> r.value < |s|
    decreases |s|
  {
    if s == [] then None
    else if p(s[|s| - 1]) then Some(|s| - 1)
    else RPosition(s[..|s| - 1], p)
  }

  /** `RPosition` finds the last element satisfying `p`, and finds nothing
      only when no element does. */
  lemma {:induction false} RPositionLast<T>(s: seq<T>, p: T -> bool)
    ensures RPosition(s, p).Some? ==> p(s[RPosition(s, p).value])
                                      && forall j :: RPosition(s, p).value < j < |s| ==> !p(s[j])
    ensures RPosition(s, p).None? ==> forall j :: 0 <= j < |s| ==> !p(s[j])
    decreases |s|
  {
    if s != [] && !p(s[|s| - 1]) {
      RPositionLast(s[..|s| - 1], p);
      assert forall j :: 0 <= j < |s| - 1 ==> s[j] == s[..|s| - 1][j];
    }
  }

  /** `Iterator::skip`: all but the first `n` elements. */
  function Skip<T>(s: seq<T>, n: nat): (r: seq<T>)
    ensures |r| == if n <= |s| then |s| - n else 0
    ensures forall k :: 0 <= k < |r| ==> r[k] == s[k + n]
  {
    if n <= |s| then s[n..] else []
  }
}
