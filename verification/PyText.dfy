/** Outcomes, bytes and the string operations the Python code relies on. */
module PyText {

  datatype Option<+T> = None | Some(value: T)

  datatype Result<+T, +E> = Ok(value: T) | Err(error: E)

  type Byte = x: int | 0 <= x < 256

  type Bytes = seq<Byte>

  predicate StartsWith(s: string, prefix: string)
  {
    |prefix| <= |s| && s[..|prefix|] == prefix
  }

  predicate EndsWith(s: string, suffix: string)
  {
    |suffix| <= |s| && s[|s| - |suffix|..] == suffix
  }

  /** No element occurs twice. */
  predicate Distinct<T(==)>(xs: seq<T>)
  {
    xs == [] || (xs[0] !in xs[1..] && Distinct(xs[1..]))
  }

  lemma {:induction false} DistinctAt<T>(xs: seq<T>, i: nat, j: nat)
    requires Distinct(xs) && i < j < |xs|
    ensures xs[i] != xs[j]
  {
    if i > 0 {
      DistinctAt(xs[1..], i - 1, j - 1);
    }
  }

  lemma {:induction false} DistinctConcat<T>(a: seq<T>, b: seq<T>)
    requires Distinct(a) && Distinct(b)
    requires forall x :: x in a ==> x !in b
    ensures Distinct(a + b)
  {
    if a == [] {
      assert a + b == b;
    } else {
      DistinctConcat(a[1..], b);
      assert (a + b)[1..] == a[1..] + b;
    }
  }

  // --- str.strip, str.splitlines, str.replace --------------------------------

  /** `str.isspace` for one character. */
  predicate IsSpace(c: char)
  {
    var n := c as int;
    9 <= n <= 13 || 28 <= n <= 32 || n == 0x85 || n == 0xA0 || n == 0x1680 || 0x2000 <= n <= 0x200A
    || n == 0x2028 || n == 0x2029 || n == 0x202F || n == 0x205F || n == 0x3000
  }

  /** The characters at which `str.splitlines` ends a line. */
  predicate IsBreak(c: char)
  {
    var n := c as int;
    10 <= n <= 13 || 28 <= n <= 30 || n == 0x85 || n == 0x2028 || n == 0x2029
  }

  /** The whitespace of Python's text type, by code point. */
  lemma SpacesExactly(c: char)
    ensures IsSpace(c) <==> (c as int) in [9, 10, 11, 12, 13, 28, 29, 30, 31, 32, 133, 160, 5760, 8192, 8193, 8194, 8195,
                                           8196, 8197, 8198, 8199, 8200, 8201, 8202, 8232, 8233, 8239, 8287, 12288]
  {
  }

  /** Its line ends. */
  lemma BreaksExactly(c: char)
    ensures IsBreak(c) <==> (c as int) in [10, 11, 12, 13, 28, 29, 30, 133, 8232, 8233]
  {
  }

  predicate OneLine(s: string)
  {
    forall i :: 0 <= i < |s| ==> !IsBreak(s[i])
  }

  predicate Blank(s: string)
  {
    forall i :: 0 <= i < |s| ==> IsSpace(s[i])
  }

  /** No whitespace at either end. */
  predicate Trimmed(s: string)
  {
    s == "" || (!IsSpace(s[0]) && !IsSpace(s[|s| - 1]))
  }

  function LStrip(s: string): string
  {
    if s != "" && IsSpace(s[0]) then LStrip(s[1..]) else s
  }

  function RStrip(s: string): string
  {
    if s != "" && IsSpace(s[|s| - 1]) then RStrip(s[..|s| - 1]) else s
  }

  /** `str.strip` */
  function Strip(s: string): string
  {
    RStrip(LStrip(s))
  }

  lemma {:induction false} LStripPad(pad: string, s: string)
    requires Blank(pad)
    ensures LStrip(pad + s) == LStrip(s)
  {
    if pad == "" {
      assert pad + s == s;
    } else {
      assert (pad + s)[0] == pad[0] && (pad + s)[1..] == pad[1..] + s;
      LStripPad(pad[1..], s);
    }
  }

  /** Stripping on the right stops inside `s` unless `s` is all whitespace. */
  lemma {:induction false} RStripTail(a: string, s: string)
    requires !Blank(s)
    ensures RStrip(a + s) == a + RStrip(s) && RStrip(s) != ""
  {
    var n := |s|;
    if IsSpace(s[n - 1]) {
      assert (a + s)[|a + s| - 1] == s[n - 1];
      assert (a + s)[..|a + s| - 1] == a + s[..n - 1];
      RStripTail(a, s[..n - 1]);
    } else {
      assert (a + s)[|a + s| - 1] == s[n - 1];
    }
  }

  lemma {:induction false} StripOfBlank(s: string)
    requires Blank(s)
    ensures LStrip(s) == "" && Strip(s) == ""
  {
    if s != "" {
      StripOfBlank(s[1..]);
    }
  }

  /** `strip` leaves exactly the trimmed strings alone. */
  lemma StripTrimmed(s: string)
    ensures Strip(s) == s <==> Trimmed(s)
    ensures Trimmed(Strip(s))
  {
    LStripEnds(s);
    RStripEnds(LStrip(s));
  }

  lemma {:induction false} LStripEnds(s: string)
    ensures |LStrip(s)| <= |s| && (LStrip(s) != "" ==> !IsSpace(LStrip(s)[0]))
    ensures |LStrip(s)| == |s| ==> LStrip(s) == s
  {
    if s != "" && IsSpace(s[0]) {
      LStripEnds(s[1..]);
    }
  }

  lemma {:induction false} RStripEnds(s: string)
    ensures RStrip(s) <= s
    ensures RStrip(s) != "" ==> !IsSpace(RStrip(s)[|RStrip(s)| - 1])
  {
    if s != "" && IsSpace(s[|s| - 1]) {
      RStripEnds(s[..|s| - 1]);
    }
  }

  /** Stripping the right end first makes no difference. */
  lemma {:induction false} StripAfterRStrip(s: string)
    ensures Strip(RStrip(s)) == Strip(s)
  {
    if Blank(s) {
      StripOfBlank(s);
      RStripEnds(s);
      StripOfBlank(RStrip(s));
    } else if IsSpace(s[0]) {
      RStripTail(s[..1], s[1..]);
      assert s == s[..1] + s[1..];
      assert (s[..1] + RStrip(s[1..]))[1..] == RStrip(s[1..]);
      StripAfterRStrip(s[1..]);
    } else {
      RStripEnds(s);
      RStripTail("", s);
      assert "" + s == s;
      RStripTwice(s);
    }
  }

  lemma {:induction false} RStripTwice(s: string)
    ensures RStrip(RStrip(s)) == RStrip(s)
  {
    RStripEnds(s);
  }

  function FirstBreak(s: string): (n: nat)
    ensures n <= |s| && OneLine(s[..n]) && (n < |s| ==> IsBreak(s[n]))
  {
    if s == "" || IsBreak(s[0]) then 0 else 1 + FirstBreak(s[1..])
  }

  /** `str.splitlines` */
  function SplitLines(s: string): seq<string>
    decreases |s|
  {
    if s == "" then []
    else
      var n := FirstBreak(s);
      if n == |s| then [s]
      else
        var width := if StartsWith(s[n..], "\r\n") then 2 else 1;
        [s[..n]] + SplitLines(s[n + width..])
  }

  /** Each line followed by a newline: `"\n".join(lines) + "\n"` for a non-empty list. */
  function JoinLines(lines: seq<string>): string
  {
    if lines == [] then "" else lines[0] + "\n" + JoinLines(lines[1..])
  }

  lemma {:induction false} FirstBreakAt(line: string, end: char, rest: string)
    requires OneLine(line) && IsBreak(end)
    ensures FirstBreak(line + [end] + rest) == |line| && FirstBreak(line) == |line|
  {
    var s := line + [end] + rest;
    if line == "" {
      assert s[0] == end;
    } else {
      assert s[0] == line[0] && s[1..] == line[1..] + [end] + rest;
      FirstBreakAt(line[1..], end, rest);
    }
  }

  /** How a text is split: at its first line end, which is one character or a carriage return with a newline, and then
      in what follows; a last line needs no end. */
  lemma SplitLinesExactly(line: string, end: char, rest: string)
    requires OneLine(line) && IsBreak(end)
    ensures SplitLines(line) == if line == "" then [] else [line]
    ensures SplitLines(line + [end] + rest)
         == [line] + SplitLines(if end == '\r' && rest != "" && rest[0] == '\n' then rest[1..] else rest)
  {
    var s := line + [end] + rest;
    FirstBreakAt(line, end, rest);
    hide FirstBreak, OneLine;
    var n := |line|;
    assert s[n] == end && s[n..] == [end] + rest && s[..n] == line && s[n + 1..] == rest && line[..n] == line;
    if StartsWith(s[n..], "\r\n") {
      assert s[n..][..2] == "\r\n" && s[n..][0] == '\r' && s[n..][1] == '\n' && rest[0] == '\n';
      assert s[n + 2..] == rest[1..];
    }
  }

  lemma SplitNone()
    ensures SplitLines("") == []
  {
  }

  /** Lines without line breaks survive being joined and split again. */
  lemma {:induction false} SplitJoined(lines: seq<string>)
    requires forall i :: 0 <= i < |lines| ==> OneLine(lines[i])
    ensures SplitLines(JoinLines(lines)) == lines
  {
    hide SplitLines, OneLine;
    if lines == [] {
      SplitNone();
    } else {
      SplitLinesExactly(lines[0], '\n', JoinLines(lines[1..]));
      SplitJoined(lines[1..]);
    }
  }

  /** `s.replace(pattern, replacement)`: all occurrences, found from left to right. */
  function ReplaceAll(s: string, pattern: string, replacement: string): string
    requires pattern != ""
    decreases |s|
  {
    if s == "" then ""
    else if StartsWith(s, pattern) then replacement + ReplaceAll(s[|pattern|..], pattern, replacement)
    else [s[0]] + ReplaceAll(s[1..], pattern, replacement)
  }
}
