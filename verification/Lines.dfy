/** Lines of text, as str.splitlines and str.strip see them. */
module Lines {
  /** The characters at which str.splitlines breaks a text. JSON escapes the ones below U+0020; it
      leaves the other three as they are. */
  predicate IsBreak(c: char) {
    '\n' <= c <= '\r' || '\U{001C}' <= c <= '\U{001E}' || IsRawBreak(c)
  }

  predicate IsRawBreak(c: char) {
    c == '\U{0085}' || c == '\U{2028}' || c == '\U{2029}'
  }

  /** The characters str.strip removes. */
  predicate IsBlankChar(c: char) {
    || '\t' <= c <= '\r' || '\U{001C}' <= c <= ' ' || c == '\U{0085}' || c == '\U{00A0}' || c == '\U{1680}'
    || '\U{2000}' <= c <= '\U{200A}' || c == '\U{2028}' || c == '\U{2029}' || c == '\U{202F}' || c == '\U{205F}'
    || c == '\U{3000}'
  }

  predicate Blank(line: string) {
    forall i | 0 <= i < |line| :: IsBlankChar(line[i])
  }

  predicate Unbroken(s: string) {
    forall i | 0 <= i < |s| :: !IsBreak(s[i])
  }

  /** How many characters come before the first break. */
  function LineLength(s: string): (n: nat)
    ensures n <= |s| && Unbroken(s[..n]) && (n < |s| ==> IsBreak(s[n]))
  {
    if s == "" || IsBreak(s[0]) then 0
    else
      var n := LineLength(s[1..]);
      assert s[..n + 1] == [s[0]] + s[1..][..n];
      n + 1
  }

  function SplitLines(s: string): seq<string>
    decreases |s|
  {
    if s == "" then []
    else
      var n := LineLength(s);
      if n == |s| then [s]
      else
        var width := if s[n] == '\r' && n + 1 < |s| && s[n + 1] == '\n' then 2 else 1;
        [s[..n]] + SplitLines(s[n + width..])
  }

  /** A file written one line at a time. */
  function Joined(lines: seq<string>): string {
    if lines == [] then "" else lines[0] + "\n" + Joined(lines[1..])
  }

  lemma {:induction false} LengthIs(s: string, n: nat)
    requires n <= |s| && Unbroken(s[..n]) && (n < |s| ==> IsBreak(s[n]))
    ensures LineLength(s) == n
  {
    var m := LineLength(s);
    forall i | 0 <= i < n ensures !IsBreak(s[i]) { assert s[..n][i] == s[i]; }
    forall i | 0 <= i < m ensures !IsBreak(s[i]) { assert s[..m][i] == s[i]; }
  }

  /** An unbroken line is read back whole. */
  lemma {:induction false} FirstLine(line: string, rest: string)
    requires Unbroken(line)
    ensures SplitLines(line + "\n" + rest) == [line] + SplitLines(rest)
  {
    var s := line + "\n" + rest;
    var n := |line|;
    assert s[..n] == line && s[n] == '\n' && s[n + 1..] == rest;
    LengthIs(s, n);
  }

  /** A line with a break in it is read back as its first part, and more. */
  lemma {:induction false} BrokenLine(line: string, rest: string)
    requires !Unbroken(line)
    ensures LineLength(line) < |line|
    ensures SplitLines(line + "\n" + rest) != []
    ensures SplitLines(line + "\n" + rest)[0] == line[..LineLength(line)]
  {
    var s := line + "\n" + rest;
    var n := LineLength(line);
    assert n < |line| by { assert line[..|line|] == line; }
    assert s[..n] == line[..n] && s[n] == line[n];
    LengthIs(s, n);
  }

  lemma {:induction false} JoinedStep(lines: seq<string>)
    requires lines != [] && Unbroken(lines[0])
    ensures SplitLines(Joined(lines)) == [lines[0]] + SplitLines(Joined(lines[1..]))
  {
    FirstLine(lines[0], Joined(lines[1..]));
  }

  lemma {:induction false} ShiftedSlices(lines: seq<string>, k: nat, tail: seq<string>)
    requires 0 < k <= |lines|
    ensures lines[1..][k - 1..] == lines[k..]
    ensures [lines[0]] + (lines[1..][..k - 1] + tail) == lines[..k] + tail
  {
  }

  /** Unbroken lines are read back as they were written, whatever follows them. */
  lemma {:induction false} UnbrokenLines(lines: seq<string>, k: nat)
    requires k <= |lines| && forall i | 0 <= i < k :: Unbroken(lines[i])
    ensures SplitLines(Joined(lines)) == lines[..k] + SplitLines(Joined(lines[k..]))
  {
    if k == 0 {
      assert lines[k..] == lines && lines[..k] == [];
    } else {
      ShiftedSlices(lines, k, SplitLines(Joined(lines[k..])));
      forall i | 0 <= i < k - 1 ensures Unbroken(lines[1..][i]) { assert lines[1..][i] == lines[i + 1]; }
      UnbrokenLines(lines[1..], k - 1);
      JoinedStep(lines);
    }
  }

  lemma {:induction false} LinesReadBack(lines: seq<string>)
    requires forall i | 0 <= i < |lines| :: Unbroken(lines[i])
    ensures SplitLines(Joined(lines)) == lines
  {
    UnbrokenLines(lines, |lines|);
    assert lines[|lines|..] == [] && lines[..|lines|] == lines;
  }

  /** The first broken line, with everything before it intact. */
  lemma {:induction false} LinesUpToBreak(lines: seq<string>, k: nat)
    requires k < |lines| && !Unbroken(lines[k]) && forall i | 0 <= i < k :: Unbroken(lines[i])
    ensures var read := SplitLines(Joined(lines));
            |read| > k && read[..k] == lines[..k] && LineLength(lines[k]) < |lines[k]|
            && read[k] == lines[k][..LineLength(lines[k])]
  {
    UnbrokenLines(lines, k);
    BrokenLine(lines[k], Joined(lines[k..][1..]));
  }

  // ------------------------------------------------------------------ which characters, and where a text is split

  /** The ten characters at which a text is split: line feed, line tabulation, form feed, carriage return, the file,
      group and record separators, next line, and the line and paragraph separators. */
  lemma {:induction false} BreaksAreThese(c: char)
    ensures IsBreak(c) <==>
            || c == '\U{000A}' || c == '\U{000B}' || c == '\U{000C}' || c == '\U{000D}' || c == '\U{001C}'
            || c == '\U{001D}' || c == '\U{001E}' || c == '\U{0085}' || c == '\U{2028}' || c == '\U{2029}'
  {
  }

  /** Blank is what breaks a line, and tabulation, the unit separator and the spaces of Unicode. */
  lemma {:induction false} BlanksAreThese(c: char)
    ensures IsBlankChar(c) <==>
            || IsBreak(c) || c == '\U{0009}' || c == '\U{001F}' || c == '\U{0020}' || c == '\U{00A0}'
            || c == '\U{1680}' || '\U{2000}' <= c <= '\U{200A}' || c == '\U{202F}' || c == '\U{205F}'
            || c == '\U{3000}'
  {
  }

  /** A text without a break is one line, unless it is empty; any break ends a line and belongs to none; and a carriage
      return and a line feed are one break. */
  lemma {:induction false} SplitsExactly(line: string, c: char, rest: string)
    requires Unbroken(line)
    ensures SplitLines(line) == if line == "" then [] else [line]
    ensures IsBreak(c) && !(c == '\r' && rest != "" && rest[0] == '\n') ==>
              SplitLines(line + [c] + rest) == [line] + SplitLines(rest)
    ensures SplitLines(line + "\r\n" + rest) == [line] + SplitLines(rest)
  {
    LengthIs(line, |line|);
    var s, n := line + [c] + rest, |line|;
    if IsBreak(c) {
      assert s[..n] == line && s[n] == c && s[n + 1..] == rest;
      LengthIs(s, n);
    }
    var t := line + "\r\n" + rest;
    assert t[..n] == line && t[n] == '\r' && t[n + 1] == '\n' && t[n + 2..] == rest;
    LengthIs(t, n);
  }
}
