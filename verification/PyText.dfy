/** Python's notions of white space, of lines and of rounding. */
module PyText {

  /** The characters for which `str.isspace` holds; `\s` and `str.strip` use the same set. */
  predicate IsSpace(c: char) {
    var n := c as int;
    9 <= n <= 13 || 28 <= n <= 32 || n == 0x85 || n == 0xA0 || n == 0x1680 || 0x2000 <= n <= 0x200A
    || n == 0x2028 || n == 0x2029 || n == 0x202F || n == 0x205F || n == 0x3000
  }

  function LStrip(s: string): string { if s == "" || !IsSpace(s[0]) then s else LStrip(s[1..]) }
  function RStrip(s: string): string { if s == "" || !IsSpace(s[|s| - 1]) then s else RStrip(s[..|s| - 1]) }
  function Strip(s: string): string { RStrip(LStrip(s)) }

  predicate AllSpaces(s: string) { forall i :: 0 <= i < |s| ==> IsSpace(s[i]) }

  lemma {:induction false} LStripSplits(s: string) returns (lead: string)
    ensures AllSpaces(lead) && s == lead + LStrip(s) && (LStrip(s) != "" ==> !IsSpace(LStrip(s)[0]))
  {
    if s == "" || !IsSpace(s[0]) {
      lead := "";
    } else {
      lead := LStripSplits(s[1..]);
      lead := [s[0]] + lead;
    }
  }

  lemma {:induction false} RStripSplits(s: string) returns (tail: string)
    ensures AllSpaces(tail) && s == RStrip(s) + tail && (RStrip(s) != "" ==> !IsSpace(RStrip(s)[|RStrip(s)| - 1]))
  {
    if s == "" || !IsSpace(s[|s| - 1]) {
      tail := "";
    } else {
      tail := RStripSplits(s[..|s| - 1]);
      tail := tail + [s[|s| - 1]];
    }
  }

  /** Stripping takes white space off both ends, and all of it. */
  lemma StripSplits(s: string) returns (lead: string, tail: string)
    ensures AllSpaces(lead) && AllSpaces(tail) && s == lead + Strip(s) + tail
    ensures Strip(s) != "" ==> !IsSpace(Strip(s)[0]) && !IsSpace(Strip(s)[|Strip(s)| - 1])
  {
    lead := LStripSplits(s);
    tail := RStripSplits(LStrip(s));
    assert s == lead + (Strip(s) + tail);
  }

  /** The characters at which `str.splitlines` ends a line. */
  predicate IsBreak(c: char) {
    var n := c as int;
    10 <= n <= 13 || 28 <= n <= 30 || n == 0x85 || n == 0x2028 || n == 0x2029
  }

  /** The length of the first line, its break included; `\r\n` is one break. */
  function LineLength(s: string): (n: nat)
    ensures n <= |s| && (s != "" ==> n > 0)
  {
    if s == "" then 0
    else if s[0] == '\r' && |s| > 1 && s[1] == '\n' then 2
    else if IsBreak(s[0]) then 1
    else 1 + LineLength(s[1..])
  }

  /** `s.splitlines(keepends=True)` */
  function Split(s: string): seq<string> {
    if s == "" then [] else [s[..LineLength(s)]] + Split(s[LineLength(s)..])
  }

  function Concat(lines: seq<string>): string {
    if lines == [] then "" else lines[0] + Concat(lines[1..])
  }

  /** Splitting and joining is the identity. */
  lemma {:induction false} SplitThenConcat(s: string)
    ensures Concat(Split(s)) == s
  {
    if s != "" {
      SplitThenConcat(s[LineLength(s)..]);
      assert s == s[..LineLength(s)] + s[LineLength(s)..];
    }
  }

  lemma {:induction false} ConcatAppend(a: seq<string>, b: seq<string>)
    ensures Concat(a + b) == Concat(a) + Concat(b)
  {
    if a == [] {
      assert a + b == b;
    } else {
      assert (a + b)[1..] == a[1..] + b;
      ConcatAppend(a[1..], b);
    }
  }

  /** One whole line: not empty, with no break before its end. */
  predicate IsLine(line: string) { line != "" && LineLength(line) == |line| }

  predicate Terminated(line: string) { line != "" && IsBreak(line[|line| - 1]) }

  /** A list of lines as `Split` makes them: every one but the last ends in a break, and no `\r` meets a `\n`. */
  predicate ProperLines(lines: seq<string>) {
    && (forall i :: 0 <= i < |lines| ==> IsLine(lines[i]))
    && (forall i :: 0 <= i < |lines| - 1 ==>
          Terminated(lines[i]) && !(lines[i][|lines[i]| - 1] == '\r' && lines[i + 1] != "" && lines[i + 1][0] == '\n'))
  }

  lemma {:induction false} LineLengthOfJoin(line: string, rest: string)
    requires IsLine(line)
    requires rest == "" || (Terminated(line) && !(line[|line| - 1] == '\r' && rest[0] == '\n'))
    ensures LineLength(line + rest) == |line|
  {
    if rest == "" {
      assert line + rest == line;
    } else if |line| > 1 && !IsBreak(line[0]) {
      assert (line + rest)[1..] == line[1..] + rest;
      LineLengthOfJoin(line[1..], rest);
    }
  }

  lemma {:induction false} FirstLineEnds(s: string)
    requires s != ""
    ensures IsLine(s[..LineLength(s)])
    ensures LineLength(s) < |s| ==> Terminated(s[..LineLength(s)])
    ensures LineLength(s) < |s| ==> !(s[LineLength(s) - 1] == '\r' && s[LineLength(s)] == '\n')
  {
    if !IsBreak(s[0]) && |s| > 1 {
      FirstLineEnds(s[1..]);
      var n := LineLength(s[1..]);
      assert s[..n + 1][1..] == s[1..][..n];
    }
  }

  lemma {:induction false} SplitIsProper(s: string)
    ensures ProperLines(Split(s))
    ensures s != "" ==> Split(s) != [] && Split(s)[0] != "" && Split(s)[0][0] == s[0]
  {
    if s != "" {
      var n := LineLength(s);
      FirstLineEnds(s);
      SplitIsProper(s[n..]);
      var rest := Split(s[n..]);
      assert Split(s) == [s[..n]] + rest;
    }
  }

  lemma {:induction false} ProperLinesResplit(lines: seq<string>)
    requires ProperLines(lines)
    ensures Split(Concat(lines)) == lines
  {
    if lines != [] {
      assert forall i :: 0 <= i < |lines| - 1 ==> lines[1..][i] == lines[i + 1];
      ProperLinesResplit(lines[1..]);
      var rest := Concat(lines[1..]);
      if |lines| > 1 {
        assert rest != "" && rest[0] == lines[1][0];
      }
      LineLengthOfJoin(lines[0], rest);
      assert (lines[0] + rest)[..|lines[0]|] == lines[0] && (lines[0] + rest)[|lines[0]|..] == rest;
    }
  }

  /** Joining and splitting gives a list of lines back exactly when it is one that splitting can make. */
  lemma ConcatThenSplit(lines: seq<string>)
    ensures Split(Concat(lines)) == lines <==> ProperLines(lines)
  {
    SplitIsProper(Concat(lines));
    if ProperLines(lines) { ProperLinesResplit(lines); }
  }

  // ----- numbers

  /** Python's `round`: to the nearest integer, a half to the even neighbour. */
  function Round(x: real): int {
    var f, d := x.Floor, x - x.Floor as real;
    if d < 0.5 then f else if d > 0.5 then f + 1 else if f % 2 == 0 then f else f + 1
  }

  /** Rounding gives a nearest integer, and the even one of two. */
  lemma RoundIsNearest(x: real)
    ensures -0.5 <= Round(x) as real - x <= 0.5
    ensures Round(x) as real - x == 0.5 || Round(x) as real - x == -0.5 ==> Round(x) % 2 == 0
  {
  }
}
