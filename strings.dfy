/** The Python string and list built-ins the range client relies on, written out over `seq<char>`:
    `sep.join`, `str.split`, `str.strip`/`str.rstrip`, `str.splitlines`, `str(int)`, the code-point
    order of `str` and `list.sort`. */
module Strings {

  // ---------------------------------------------------------------------------------------------
  // sep.join(xs) and s.split(sep)
  // ---------------------------------------------------------------------------------------------

  /** `sep.join(xs)`: the pieces with one separator between neighbours. */
  function JoinWith(sep: char, xs: seq<string>): string
  {
    if xs == [] then ""
    else if |xs| == 1 then xs[0]
    else xs[0] + [sep] + JoinWith(sep, xs[1..])
  }

  /** Position of the first `c` in `s`, or `|s|` when there is none. */
  function IndexOf(c: char, s: string): (i: nat)
    ensures i <= |s|
    ensures forall k | 0 <= k < i :: s[k] != c
    ensures i < |s| ==> s[i] == c
  {
    if s == [] then 0
    else if s[0] == c then 0
    else 1 + IndexOf(c, s[1..])
  }

  /** `s.split(sep)`: the pieces between separators, empty pieces kept; `''.split(',')` is `['']`. */
  function SplitOn(sep: char, s: string): (r: seq<string>)
    ensures r != []
    ensures forall piece <- r :: sep !in piece
    decreases |s|
  {
    var i := IndexOf(sep, s);
    if i == |s| then [s] else [s[..i]] + SplitOn(sep, s[i + 1..])
  }

  /** Splitting and re-joining on the same separator gives the string back. */
  lemma {:induction false} JoinSplit(sep: char, s: string)
    ensures JoinWith(sep, SplitOn(sep, s)) == s
    decreases |s|
  {
    var i := IndexOf(sep, s);
    if i < |s| {
      var rest := SplitOn(sep, s[i + 1..]);
      JoinSplit(sep, s[i + 1..]);
      assert SplitOn(sep, s) == [s[..i]] + rest;
      assert ([s[..i]] + rest)[1..] == rest;
      assert s == s[..i] + [sep] + s[i + 1..];
    }
  }

  /** Joining pieces free of the separator and splitting again gives the pieces back. */
  lemma {:induction false} SplitJoin(sep: char, xs: seq<string>)
    requires xs != []
    requires forall x <- xs :: sep !in x
    ensures SplitOn(sep, JoinWith(sep, xs)) == xs
  {
    var s := JoinWith(sep, xs);
    if |xs| == 1 {
      assert s == xs[0] && sep !in s;
      assert forall k | 0 <= k < |s| :: s[k] != sep;
    } else {
      var x := xs[0];
      var tail := JoinWith(sep, xs[1..]);
      assert s == x + [sep] + tail;
      var i := IndexOf(sep, s);
      assert s[|x|] == sep;
      assert x in xs;
      assert forall k | 0 <= k < |x| :: s[k] == x[k] && x[k] != sep;
      assert s[..i] == x;
      assert s[i + 1..] == tail;
      SplitJoin(sep, xs[1..]);
      assert xs == [x] + xs[1..];
    }
  }

  // ---------------------------------------------------------------------------------------------
  // s.strip(chars) and s.rstrip()
  // ---------------------------------------------------------------------------------------------

  /** The characters Python's argument-less `str.rstrip()` removes, restricted to ASCII. */
  const Whitespace: set<char> := {' ', '\t', '\n', '\r', '\U{000B}', '\U{000C}'}

  /** `s.rstrip(chars)`: the longest prefix of `s` that does not end in one of `chars`. */
  function TrimEnd(s: string, chars: set<char>): (r: string)
    ensures |r| <= |s|
    ensures r == [] || r[|r| - 1] !in chars
  {
    if s != [] && s[|s| - 1] in chars then TrimEnd(s[..|s| - 1], chars) else s
  }

  /** `rstrip` keeps a prefix of `s` and removes only characters of `chars`. */
  lemma {:induction false} TrimEndIsPrefix(s: string, chars: set<char>)
    ensures var r := TrimEnd(s, chars);
      r <= s && forall k | |r| <= k < |s| :: s[k] in chars
    decreases |s|
  {
    if s != [] && s[|s| - 1] in chars {
      TrimEndIsPrefix(s[..|s| - 1], chars);
    }
  }

  /** `s.lstrip(chars)`: the longest suffix of `s` that does not start with one of `chars`. */
  function TrimStart(s: string, chars: set<char>): (r: string)
    ensures |r| <= |s|
    ensures r == [] || r[0] !in chars
  {
    if s != [] && s[0] in chars then TrimStart(s[1..], chars) else s
  }

  /** `lstrip` keeps a suffix of `s` and removes only characters of `chars`. */
  lemma {:induction false} TrimStartIsSuffix(s: string, chars: set<char>)
    ensures var r := TrimStart(s, chars);
      r == s[|s| - |r|..] && forall k | 0 <= k < |s| - |r| :: s[k] in chars
    decreases |s|
  {
    if s != [] && s[0] in chars {
      var r := TrimStart(s[1..], chars);
      TrimStartIsSuffix(s[1..], chars);
      assert s[1..][|s| - 1 - |r|..] == s[|s| - |r|..];
      assert forall k | 1 <= k < |s| - |r| :: s[k] == s[1..][k - 1];
    }
  }

  /** `s.strip(chars)`: both ends trimmed. */
  function Strip(s: string, chars: set<char>): (r: string)
    ensures r == [] || (r[0] !in chars && r[|r| - 1] !in chars)
  {
    var t := TrimStart(s, chars);
    TrimEndIsPrefix(t, chars);
    TrimEnd(t, chars)
  }

  /** `line.rstrip()` applied to every line, keeping their order. */
  function RStripAll(lines: seq<string>): (r: seq<string>)
    ensures |r| == |lines|
    ensures forall k | 0 <= k < |lines| :: r[k] == TrimEnd(lines[k], Whitespace)
  {
    seq(|lines|, k requires 0 <= k < |lines| => TrimEnd(lines[k], Whitespace))
  }

  /** Right-stripping one more line appends that line, stripped. */
  lemma RStripAllSnoc(lines: seq<string>, i: nat)
    requires i < |lines|
    ensures RStripAll(lines[..i + 1]) == RStripAll(lines[..i]) + [TrimEnd(lines[i], Whitespace)]
  {
    var longer := RStripAll(lines[..i + 1]);
    assert forall k | 0 <= k < i :: longer[k] == RStripAll(lines[..i])[k];
  }

  // ---------------------------------------------------------------------------------------------
  // s.splitlines()
  // ---------------------------------------------------------------------------------------------

  /** The line boundaries the model recognises: `\n`, `\r`, and `\r\n` taken as one boundary. */
  const LineBreaks: set<char> := {'\n', '\r'}

  predicate NoBreak(line: string)
  {
    forall k | 0 <= k < |line| :: line[k] !in LineBreaks
  }

  /** Position of the first line break in `s`, or `|s|`. */
  function LineEnd(s: string): (i: nat)
    ensures i <= |s|
    ensures forall k | 0 <= k < i :: s[k] !in LineBreaks
    ensures i < |s| ==> s[i] in LineBreaks
  {
    if s == [] then 0
    else if s[0] in LineBreaks then 0
    else 1 + LineEnd(s[1..])
  }

  /** `s.splitlines()`: the lines of `s` without their terminators; a final terminator does not
      start another line, so `''` has no lines and `'a\n'` has one. */
  function SplitLines(s: string): (lines: seq<string>)
    ensures forall line <- lines :: NoBreak(line)
    decreases |s|
  {
    if s == [] then []
    else
      var i := LineEnd(s);
      if i == |s| then [s]
      else
        var next := if s[i] == '\r' && i + 1 < |s| && s[i + 1] == '\n' then i + 2 else i + 1;
        [s[..i]] + SplitLines(s[next..])
  }

  /** The body a server would send for `lines`: every line followed by `\n`. */
  function TerminateLines(lines: seq<string>): string
  {
    if lines == [] then "" else lines[0] + "\n" + TerminateLines(lines[1..])
  }

  /** `splitlines` recovers every line of a `\n`-terminated body. */
  lemma {:induction false} SplitTerminatedLines(lines: seq<string>)
    requires forall line <- lines :: NoBreak(line)
    ensures SplitLines(TerminateLines(lines)) == lines
  {
    if lines != [] {
      var s := TerminateLines(lines);
      var first := lines[0];
      var rest := TerminateLines(lines[1..]);
      assert s == first + "\n" + rest;
      var i := LineEnd(s);
      assert s[|first|] == '\n';
      assert NoBreak(first);
      assert forall k | 0 <= k < |first| :: s[k] == first[k];
      assert s[..i] == first;
      assert s[i + 1..] == rest;
      SplitTerminatedLines(lines[1..]);
      assert lines == [first] + lines[1..];
    }
  }

  // ---------------------------------------------------------------------------------------------
  // str(n)
  // ---------------------------------------------------------------------------------------------

  predicate IsDigit(ch: char)
  {
    '0' <= ch <= '9'
  }

  function DigitChar(d: nat): (ch: char)
    requires d < 10
    ensures IsDigit(ch)
  {
    "0123456789"[d]
  }

  function DigitValue(ch: char): nat
    requires IsDigit(ch)
  {
    ch as int - '0' as int
  }

  /** `str(n)` for a non-negative `n`: its decimal digits, most significant first. */
  function NatToDecimal(n: nat): (r: string)
    ensures r != []
    ensures forall k | 0 <= k < |r| :: IsDigit(r[k])
  {
    if n < 10 then [DigitChar(n)] else NatToDecimal(n / 10) + [DigitChar(n % 10)]
  }

  /** `str(n)` for any integer: a minus sign before the digits of a negative number. */
  function IntToDecimal(n: int): string
  {
    if n < 0 then "-" + NatToDecimal(-n) else NatToDecimal(n)
  }

  /** The number a string of decimal digits denotes. */
  function DecimalValue(s: string): nat
    requires forall k | 0 <= k < |s| :: IsDigit(s[k])
  {
    if s == [] then 0 else 10 * DecimalValue(s[..|s| - 1]) + DigitValue(s[|s| - 1])
  }

  /** The number a decimal string with an optional leading minus sign denotes. */
  function IntValue(s: string): int
    requires s != [] && forall k | 1 <= k < |s| :: IsDigit(s[k])
    requires s[0] == '-' || IsDigit(s[0])
  {
    if s[0] == '-' then -(DecimalValue(s[1..]) as int) else DecimalValue(s)
  }

  lemma {:induction false} NatToDecimalRoundTrip(n: nat)
    ensures DecimalValue(NatToDecimal(n)) == n
  {
    if n >= 10 {
      var s := NatToDecimal(n);
      assert s[..|s| - 1] == NatToDecimal(n / 10);
      NatToDecimalRoundTrip(n / 10);
    } else {
      assert "0123456789"[n] as int - '0' as int == n;
    }
  }

  /** The text `str(n)` puts into a message determines `n`. */
  lemma IntToDecimalRoundTrip(n: int)
    ensures var s := IntToDecimal(n);
      && s != [] && (s[0] == '-' || IsDigit(s[0])) && (forall k | 1 <= k < |s| :: IsDigit(s[k]))
      && IntValue(s) == n
  {
    var s := IntToDecimal(n);
    if n < 0 {
      NatToDecimalRoundTrip(-n);
      assert s[1..] == NatToDecimal(-n);
    } else {
      NatToDecimalRoundTrip(n);
    }
  }

  // ---------------------------------------------------------------------------------------------
  // The order of str and list.sort()
  // ---------------------------------------------------------------------------------------------

  /** `a <= b` on Python strings: lexicographic by code point, a proper prefix coming first. */
  predicate LexLeq(a: string, b: string)
    decreases |a|
  {
    a == [] || (b != [] && (a[0] < b[0] || (a[0] == b[0] && LexLeq(a[1..], b[1..]))))
  }

  lemma {:induction false} LexLeqReflexive(a: string)
    ensures LexLeq(a, a)
    decreases |a|
  {
    if a != [] {
      LexLeqReflexive(a[1..]);
    }
  }

  lemma {:induction false} LexLeqTotal(a: string, b: string)
    ensures LexLeq(a, b) || LexLeq(b, a)
    decreases |a|
  {
    if a != [] && b != [] && a[0] == b[0] {
      LexLeqTotal(a[1..], b[1..]);
    }
  }

  lemma {:induction false} LexLeqAntisymmetric(a: string, b: string)
    requires LexLeq(a, b) && LexLeq(b, a)
    ensures a == b
    decreases |a|
  {
    if a != [] {
      LexLeqAntisymmetric(a[1..], b[1..]);
      assert a == [a[0]] + a[1..] && b == [b[0]] + b[1..];
    }
  }

  lemma {:induction false} LexLeqTransitive(a: string, b: string, c: string)
    requires LexLeq(a, b) && LexLeq(b, c)
    ensures LexLeq(a, c)
    decreases |a|
  {
    if a != [] && a[0] == b[0] && b[0] == c[0] {
      LexLeqTransitive(a[1..], b[1..], c[1..]);
    }
  }

  /** Ascending in the order of `str`, as `list.sort()` leaves a list of strings. */
  predicate Sorted(s: seq<string>)
  {
    forall i, j | 0 <= i < j < |s| :: LexLeq(s[i], s[j])
  }

  /** Inserting before the first element that is not below `x`. */
  function Insert(x: string, s: seq<string>): seq<string>
  {
    if s == [] || LexLeq(x, s[0]) then [x] + s else [s[0]] + Insert(x, s[1..])
  }

  /** `sorted(s)` / `s.sort()`: the elements of `s` in ascending order (insertion sort). */
  function SortStrings(s: seq<string>): seq<string>
  {
    if s == [] then [] else Insert(s[0], SortStrings(s[1..]))
  }

  /** Inserting adds `x` and loses nothing. */
  lemma {:induction false} InsertPermutes(x: string, s: seq<string>)
    ensures multiset(Insert(x, s)) == multiset(s) + multiset{x}
    decreases |s|
  {
    if s != [] && !LexLeq(x, s[0]) {
      InsertPermutes(x, s[1..]);
      assert s == [s[0]] + s[1..];
    }
  }

  /** Inserting into an ascending list keeps it ascending. */
  lemma {:induction false} InsertSorted(x: string, s: seq<string>)
    requires Sorted(s)
    ensures Sorted(Insert(x, s))
    decreases |s|
  {
    if s == [] {
    } else if LexLeq(x, s[0]) {
      forall j | 0 <= j < |s| ensures LexLeq(x, s[j]) {
        if j > 0 { LexLeqTransitive(x, s[0], s[j]); }
      }
    } else {
      var rest := Insert(x, s[1..]);
      InsertSorted(x, s[1..]);
      InsertPermutes(x, s[1..]);
      LexLeqTotal(x, s[0]);
      assert s == [s[0]] + s[1..];
      forall j | 0 <= j < |rest| ensures LexLeq(s[0], rest[j]) {
        assert rest[j] in multiset(rest);
        assert rest[j] == x || rest[j] in s[1..];
      }
    }
  }

  /** `SortStrings` returns an ascending arrangement of its argument. */
  lemma {:induction false} SortStringsSorts(s: seq<string>)
    ensures Sorted(SortStrings(s))
    ensures multiset(SortStrings(s)) == multiset(s)
    decreases |s|
  {
    if s != [] {
      SortStringsSorts(s[1..]);
      InsertSorted(s[0], SortStrings(s[1..]));
      InsertPermutes(s[0], SortStrings(s[1..]));
      assert s == [s[0]] + s[1..];
    }
  }

  /** The head of an ascending list is at or below every element of the list. */
  lemma SortedHeadIsLeast(a: seq<string>, y: string)
    requires Sorted(a) && y in multiset(a)
    ensures LexLeq(a[0], y)
  {
    var i :| 0 <= i < |a| && a[i] == y;
    if i == 0 { LexLeqReflexive(y); }
  }

  lemma SortedTail(a: seq<string>)
    requires Sorted(a) && a != []
    ensures Sorted(a[1..])
  {
    forall i, j | 0 <= i < j < |a| - 1 ensures LexLeq(a[1..][i], a[1..][j]) {
      assert a[1..][i] == a[i + 1] && a[1..][j] == a[j + 1];
    }
  }

  lemma DropHead(a: seq<string>)
    requires a != []
    ensures multiset(a[1..]) == multiset(a) - multiset{a[0]}
  {
    assert a == [a[0]] + a[1..];
  }

  /** Two ascending arrangements of the same strings start with the same string. */
  lemma SortedSameHead(a: seq<string>, b: seq<string>)
    requires Sorted(a) && Sorted(b) && a != []
    requires multiset(a) == multiset(b)
    ensures |b| == |a| && b[0] == a[0]
  {
    assert |multiset(a)| == |multiset(b)|;
    assert b[0] in multiset(b);
    SortedHeadIsLeast(a, b[0]);
    SortedHeadIsLeast(b, a[0]);
    LexLeqAntisymmetric(a[0], b[0]);
  }

  /** A list of strings has exactly one ascending arrangement, so `SortStrings` is `list.sort()`
      whatever algorithm the latter uses. */
  lemma {:induction false} SortedUnique(a: seq<string>, b: seq<string>)
    requires Sorted(a) && Sorted(b)
    requires multiset(a) == multiset(b)
    ensures a == b
    decreases |a|
  {
    if a != [] {
      SortedSameHead(a, b);
      DropHead(a);
      DropHead(b);
      SortedTail(a);
      SortedTail(b);
      SortedUnique(a[1..], b[1..]);
      assert a == [a[0]] + a[1..] && b == [b[0]] + b[1..];
    }
  }
}
