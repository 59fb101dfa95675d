/** The string operations the barcode page relies on: trimming, the ASCII
    digit class, splitting a text area on line breaks and joining lines. */
module Text {

  /** Characters removed by trimming: space, tab, line feed, vertical tab,
      form feed and carriage return. */
  predicate IsWhitespace(c: char) {
    c == ' ' || c == '\t' || c == '\n' || c == '\U{000B}' || c == '\U{000C}' || c == '\r'
  }

  /** The regular-expression class `\d`: an ASCII decimal digit. */
  predicate IsDigit(c: char) {
    '0' <= c <= '9'
  }

  predicate AllDigits(s: string) {
    forall i | 0 <= i < |s| :: IsDigit(s[i])
  }

  /** `Number(d)` for a digit character. */
  function DigitValue(c: char): (d: nat)
    requires IsDigit(c)
    ensures d < 10
  {
    c as int - '0' as int
  }

  /** `d.toString()` for a digit value. */
  function DigitChar(d: nat): (c: char)
    requires d < 10
    ensures IsDigit(c) && DigitValue(c) == d
  {
    ('0' as int + d) as char
  }

  /** `s.split('').map((d) => Number(d))` for a string of digits. */
  function DigitsOf(s: string): (ds: seq<nat>)
    requires AllDigits(s)
    ensures |ds| == |s|
    ensures forall i | 0 <= i < |s| :: ds[i] < 10 && DigitChar(ds[i]) == s[i]
  {
    seq(|s|, i requires 0 <= i < |s| => DigitValue(s[i]))
  }

  /** The string spelling a sequence of digit values. */
  function DigitString(ds: seq<nat>): (s: string)
    requires forall i | 0 <= i < |ds| :: ds[i] < 10
    ensures |s| == |ds| && AllDigits(s)
    ensures DigitsOf(s) == ds
  {
    seq(|ds|, i requires 0 <= i < |ds| => DigitChar(ds[i]))
  }

  lemma DigitStringOfDigits(s: string)
    requires AllDigits(s)
    ensures DigitString(DigitsOf(s)) == s
  {
  }

  /** Writing one more digit after a digit string spells the longer
      sequence. */
  lemma AppendDigit(ds: seq<nat>, d: nat)
    requires forall i | 0 <= i < |ds| :: ds[i] < 10
    requires d < 10
    ensures DigitString(ds) + [DigitChar(d)] == DigitString(ds + [d])
  {
  }

  /** A string made only of whitespace (the empty string included). */
  predicate IsBlank(s: string) {
    forall i | 0 <= i < |s| :: IsWhitespace(s[i])
  }

  /** A string with no whitespace at either end. */
  predicate IsTrimmed(s: string) {
    s == [] || (!IsWhitespace(s[0]) && !IsWhitespace(s[|s| - 1]))
  }

  /** Drops leading whitespace: the result is no longer than `s` and does
      not start with whitespace. */
  function TrimStart(s: string): (r: string)
    ensures |r| <= |s|
    ensures r == [] || !IsWhitespace(r[0])
    decreases |s|
  {
    if |s| > 0 && IsWhitespace(s[0]) then TrimStart(s[1..]) else s
  }

  /** Drops trailing whitespace: the result is no longer than `s` and does
      not end with whitespace. */
  function TrimEnd(s: string): (r: string)
    ensures |r| <= |s|
    ensures r == [] || !IsWhitespace(r[|r| - 1])
    decreases |s|
  {
    if |s| > 0 && IsWhitespace(s[|s| - 1]) then TrimEnd(s[..|s| - 1]) else s
  }

  /** String.prototype.trim: the result is trimmed and no longer than `s`. */
  function Trim(s: string): (r: string)
    ensures IsTrimmed(r)
    ensures |r| <= |s|
  {
    TrimEndIsPrefix(TrimStart(s));
    TrimEnd(TrimStart(s))
  }

  /** TrimStart keeps a suffix of `s`. */
  lemma {:induction false} TrimStartIsSuffix(s: string)
    ensures TrimStart(s) == s[|s| - |TrimStart(s)|..]
    decreases |s|
  {
    if |s| > 0 && IsWhitespace(s[0]) {
      TrimStartIsSuffix(s[1..]);
    }
  }

  /** TrimEnd keeps a prefix of `s`. */
  lemma {:induction false} TrimEndIsPrefix(s: string)
    ensures TrimEnd(s) == s[..|TrimEnd(s)|]
    decreases |s|
  {
    if |s| > 0 && IsWhitespace(s[|s| - 1]) {
      TrimEndIsPrefix(s[..|s| - 1]);
    }
  }

  /** What TrimStart drops is all whitespace. */
  lemma {:induction false} TrimStartDropsWhitespace(s: string)
    ensures forall i | 0 <= i < |s| - |TrimStart(s)| :: IsWhitespace(s[i])
    decreases |s|
  {
    if |s| > 0 && IsWhitespace(s[0]) {
      TrimStartDropsWhitespace(s[1..]);
      TrimStartIsSuffix(s[1..]);
      assert forall i | 1 <= i < |s| :: s[i] == s[1..][i - 1];
    }
  }

  /** What TrimEnd drops is all whitespace. */
  lemma {:induction false} TrimEndDropsWhitespace(s: string)
    ensures forall i | |TrimEnd(s)| <= i < |s| :: IsWhitespace(s[i])
    decreases |s|
  {
    if |s| > 0 && IsWhitespace(s[|s| - 1]) {
      TrimEndDropsWhitespace(s[..|s| - 1]);
    }
  }

  /** Trimming gives the empty string exactly when `s` is all whitespace. */
  lemma TrimBlank(s: string)
    ensures Trim(s) == [] <==> forall i | 0 <= i < |s| :: IsWhitespace(s[i])
  {
    var u := TrimStart(s);
    TrimStartIsSuffix(s);
    TrimEndIsPrefix(u);
    TrimStartDropsWhitespace(s);
    TrimEndDropsWhitespace(u);
    if Trim(s) == [] {
      assert u == [];
    } else {
      assert !IsWhitespace(Trim(s)[0]);
      assert Trim(s)[0] == u[0] == s[|s| - |u|];
    }
  }

  /** Trimming adds no character: one absent from `s` is absent from its
      trimmed form. */
  lemma TrimOmits(s: string, c: char)
    ensures c !in s ==> c !in Trim(s)
  {
    var u := TrimStart(s);
    TrimStartIsSuffix(s);
    TrimEndIsPrefix(u);
    if c in Trim(s) {
      var i :| 0 <= i < |Trim(s)| && Trim(s)[i] == c;
      assert u[i] == c;
      assert s[|s| - |u| + i] == c;
    }
  }

  /** Trimming leaves an already trimmed string alone, so trimming twice is
      trimming once. */
  lemma TrimmedIsFixpoint(s: string)
    requires IsTrimmed(s)
    ensures Trim(s) == s
  {
  }

  lemma TrimIdempotent(s: string)
    ensures Trim(Trim(s)) == Trim(s)
  {
    TrimmedIsFixpoint(Trim(s));
  }

  /** `s.split(/\r?\n/)`: cut at every line feed, dropping a carriage return
      that immediately precedes it.  Always at least one piece, and no piece
      holds a line feed. */
  function SplitLines(s: string): (lines: seq<string>)
    ensures |lines| >= 1
    ensures forall k | 0 <= k < |lines| :: '\n' !in lines[k]
    decreases |s|
  {
    if |s| == 0 then [""]
    else if s[0] == '\n' then [""] + SplitLines(s[1..])
    else if |s| >= 2 && s[0] == '\r' && s[1] == '\n' then [""] + SplitLines(s[2..])
    else
      var rest := SplitLines(s[1..]);
      [[s[0]] + rest[0]] + rest[1..]
  }

  /** `lines.join('\n')`. */
  function JoinLines(lines: seq<string>): string
    decreases |lines|
  {
    if |lines| == 0 then ""
    else if |lines| == 1 then lines[0]
    else lines[0] + "\n" + JoinLines(lines[1..])
  }

  /** A line that survives a join and a split unchanged: no line feed inside
      and no carriage return at its end. */
  predicate IsPlainLine(line: string) {
    '\n' !in line && (line == [] || line[|line| - 1] != '\r')
  }

  lemma {:induction false} SplitSingle(a: string)
    requires '\n' !in a
    ensures SplitLines(a) == [a]
    decreases |a|
  {
    if |a| > 0 {
      assert a[0] != '\n';
      assert !(|a| >= 2 && a[0] == '\r' && a[1] == '\n') by {
        if |a| >= 2 { assert a[1] in a; }
      }
      SplitSingle(a[1..]);
      assert [a[0]] + a[1..] == a;
    }
  }

  lemma {:induction false} SplitAfterLine(a: string, b: string)
    requires IsPlainLine(a)
    ensures SplitLines(a + "\n" + b) == [a] + SplitLines(b)
    decreases |a|
  {
    var s := a + "\n" + b;
    if |a| == 0 {
      assert s == "\n" + b;
      assert s[1..] == b;
    } else {
      assert s[0] == a[0] && a[0] != '\n';
      var a' := a[1..];
      assert s[1..] == a' + "\n" + b;
      assert IsPlainLine(a') by {
        if a' != [] { assert a'[|a'| - 1] == a[|a| - 1]; }
      }
      if |a'| == 0 {
        assert a[0] != '\r';
      } else {
        assert s[1] == a'[0] && a'[0] != '\n' by { assert a'[0] in a'; }
      }
      SplitAfterLine(a', b);
      assert [a[0]] + a' == a;
    }
  }

  /** Every string of a list is blank. */
  predicate AllBlank(lines: seq<string>) {
    forall k | 0 <= k < |lines| :: IsBlank(lines[k])
  }

  lemma BlankCons(c: char, t: string)
    ensures IsBlank([c] + t) <==> IsWhitespace(c) && IsBlank(t)
  {
    var s := [c] + t;
    assert s[0] == c;
    assert forall i | 0 <= i < |t| :: t[i] == s[i + 1];
    assert forall i | 1 <= i < |s| :: s[i] == t[i - 1];
  }

  lemma AllBlankCons(line: string, rest: seq<string>)
    ensures AllBlank([line] + rest) <==> IsBlank(line) && AllBlank(rest)
  {
    var lines := [line] + rest;
    assert lines[0] == line;
    assert forall k | 0 <= k < |rest| :: rest[k] == lines[k + 1];
    assert forall k | 1 <= k < |lines| :: lines[k] == rest[k - 1];
  }

  /** The pieces of a split are all blank exactly when the text is: the line
      breaks dropped by the split are whitespace themselves. */
  lemma {:induction false} SplitLinesBlank(s: string)
    ensures AllBlank(SplitLines(s)) <==> IsBlank(s)
    decreases |s|
  {
    if |s| == 0 {
      assert SplitLines(s) == [""];
    } else if s[0] == '\n' {
      SplitLinesBlank(s[1..]);
      AllBlankCons("", SplitLines(s[1..]));
      assert s == [s[0]] + s[1..];
      BlankCons(s[0], s[1..]);
    } else if |s| >= 2 && s[0] == '\r' && s[1] == '\n' {
      SplitLinesBlank(s[2..]);
      AllBlankCons("", SplitLines(s[2..]));
      assert s == [s[0]] + ([s[1]] + s[2..]);
      BlankCons(s[1], s[2..]);
      BlankCons(s[0], [s[1]] + s[2..]);
    } else {
      SplitLinesBlank(s[1..]);
      var rest := SplitLines(s[1..]);
      var first := [s[0]] + rest[0];
      assert SplitLines(s) == [first] + rest[1..];
      assert rest == [rest[0]] + rest[1..];
      AllBlankCons(rest[0], rest[1..]);
      AllBlankCons(first, rest[1..]);
      BlankCons(s[0], rest[0]);
      assert s == [s[0]] + s[1..];
      BlankCons(s[0], s[1..]);
    }
  }

  /** Splitting undoes joining, for lines that are plain. */
  lemma {:induction false} SplitJoin(lines: seq<string>)
    requires |lines| >= 1
    requires forall k | 0 <= k < |lines| :: IsPlainLine(lines[k])
    ensures SplitLines(JoinLines(lines)) == lines
    decreases |lines|
  {
    if |lines| == 1 {
      SplitSingle(lines[0]);
    } else {
      SplitJoin(lines[1..]);
      SplitAfterLine(lines[0], JoinLines(lines[1..]));
      assert [lines[0]] + lines[1..] == lines;
    }
  }

  /** Joining undoes splitting, for text without carriage returns. */
  lemma {:induction false} JoinSplit(s: string)
    requires '\r' !in s
    ensures JoinLines(SplitLines(s)) == s
    decreases |s|
  {
    if |s| > 0 {
      JoinSplit(s[1..]);
      var rest := SplitLines(s[1..]);
      if s[0] == '\n' {
        assert s == "\n" + s[1..];
      } else {
        assert s[0] != '\r' by { assert s[0] in s; }
        if |rest| == 1 {
          assert s == [s[0]] + rest[0];
        } else {
          assert rest == [rest[0]] + rest[1..];
          assert JoinLines(rest) == rest[0] + "\n" + JoinLines(rest[1..]);
          assert s == [s[0]] + rest[0] + "\n" + JoinLines(rest[1..]);
        }
      }
    }
  }
}
