/** Strings as Python's `str` methods see them: whitespace, stripping, lines, substrings. */
module Text {

  datatype Option<+T> = None | Some(value: T)

  const NEWLINE: char := '\n'

  /** The characters `str.isspace`, `str.strip` and `str.split` treat as whitespace. */
  predicate IsSpace(c: char) {
    var n := c as int;
    || 0x09 <= n <= 0x0D || 0x1C <= n <= 0x20 || n == 0x85 || n == 0xA0 || n == 0x1680
    || 0x2000 <= n <= 0x200A || n == 0x2028 || n == 0x2029 || n == 0x202F || n == 0x205F || n == 0x3000
  }

  predicate Blank(s: string) {
    forall i :: 0 <= i < |s| ==> IsSpace(s[i])
  }

  function LStrip(s: string): string {
    if s != "" && IsSpace(s[0]) then LStrip(s[1..]) else s
  }

  function RStrip(s: string): string {
    if s != "" && IsSpace(s[|s| - 1]) then RStrip(s[..|s| - 1]) else s
  }

  function Strip(s: string): string { RStrip(LStrip(s)) }

  predicate StartsWith(s: string, p: string) { p <= s }

  predicate EndsWith(s: string, p: string) {
    |p| <= |s| && s[|s| - |p|..] == p
  }

  function Spaces(n: nat): (r: string)
    ensures |r| == n
    ensures forall i :: 0 <= i < n ==> r[i] == ' '
  {
    seq(n, _ => ' ')
  }

  /** `s.split("\n")`: never empty, `""` gives `[""]`. */
  function Lines(s: string): (r: seq<string>)
    ensures |r| >= 1
  {
    if s == "" then [""]
    else if s[0] == NEWLINE then [""] + Lines(s[1..])
    else var rest := Lines(s[1..]); [[s[0]] + rest[0]] + rest[1..]
  }

  /** `"\n".join(lines)` */
  function Unlines(lines: seq<string>): string {
    if lines == [] then ""
    else if |lines| == 1 then lines[0]
    else lines[0] + [NEWLINE] + Unlines(lines[1..])
  }

  /** The position of the first occurrence of `p` in `s` at or after `from`, as `str.find` returns it. */
  function Find(s: string, p: string, from: nat): (r: Option<nat>)
    requires from <= |s|
    ensures r.Some? ==> from <= r.value && r.value + |p| <= |s| && s[r.value..r.value + |p|] == p
    ensures r.Some? ==> forall k :: from <= k < r.value ==> !(p <= s[k..])
    ensures r.None? ==> forall k :: from <= k <= |s| ==> !(p <= s[k..])
    decreases |s| - from
  {
    if p <= s[from..] then Some(from)
    else if from == |s| then None
    else Find(s, p, from + 1)
  }

  // --- stripping ---

  lemma {:induction false} LStripBlank(s: string)
    requires Blank(s)
    ensures LStrip(s) == ""
  {
    if s != "" { LStripBlank(s[1..]); }
  }

  lemma {:induction false} RStripSpaces(s: string, t: string)
    requires Blank(t)
    ensures RStrip(s + t) == RStrip(s)
  {
    if t == "" {
      assert s + t == s;
    } else {
      assert (s + t)[..|s + t| - 1] == s + t[..|t| - 1];
      RStripSpaces(s, t[..|t| - 1]);
    }
  }

  lemma {:induction false} LStripSpaces(s: string, t: string)
    requires Blank(s)
    ensures LStrip(s + t) == LStrip(t)
  {
    if s == "" {
      assert s + t == t;
    } else {
      assert (s + t)[1..] == s[1..] + t;
      LStripSpaces(s[1..], t);
    }
  }

  lemma {:induction false} RStripBlank(s: string)
    requires Blank(s)
    ensures RStrip(s) == ""
  {
    assert "" + s == s;
    RStripSpaces("", s);
  }

  /** Stripping on the right leaves a text that is a prefix, cut before a run of whitespace. */
  lemma {:induction false} RStripSplit(s: string)
    ensures |RStrip(s)| <= |s| && s[..|RStrip(s)|] == RStrip(s) && Blank(s[|RStrip(s)|..])
    ensures RStrip(s) == "" || !IsSpace(RStrip(s)[|RStrip(s)| - 1])
  {
    if s != "" && IsSpace(s[|s| - 1]) {
      RStripSplit(s[..|s| - 1]);
      var k := |RStrip(s)|;
      assert forall i :: k <= i < |s| - 1 ==> s[i] == s[..|s| - 1][k..][i - k];
    }
  }

  lemma {:induction false} LStripSplit(s: string)
    ensures |LStrip(s)| <= |s| && s[|s| - |LStrip(s)|..] == LStrip(s) && Blank(s[..|s| - |LStrip(s)|])
    ensures LStrip(s) == "" || !IsSpace(LStrip(s)[0])
  {
    if s != "" && IsSpace(s[0]) {
      LStripSplit(s[1..]);
      var k := |s| - |LStrip(s)|;
      assert forall i :: 1 <= i < k ==> s[i] == s[1..][..k - 1][i - 1];
    }
  }

  // --- lines ---

  /** Joining the lines of a text gives the text back. */
  lemma {:induction false} UnlinesLines(s: string)
    ensures Unlines(Lines(s)) == s
  {
    if s != "" {
      UnlinesLines(s[1..]);
      var rest := Lines(s[1..]);
      if s[0] == NEWLINE {
        assert Lines(s)[1..] == rest;
      } else {
        assert Lines(s)[1..] == rest[1..];
        assert s == [s[0]] + s[1..];
      }
    }
  }

  /** A line holds no newline, and text without newlines is one line. */
  lemma {:induction false} LinesHaveNoNewline(s: string)
    ensures forall i :: 0 <= i < |Lines(s)| ==> NEWLINE !in Lines(s)[i]
  {
    if s != "" { LinesHaveNoNewline(s[1..]); }
  }

  lemma {:induction false} LinesSingle(s: string)
    requires NEWLINE !in s
    ensures Lines(s) == [s]
  {
    if s != "" {
      LinesSingle(s[1..]);
      assert s == [s[0]] + s[1..];
    }
  }

  /** Two line lists glued: the last line of the first runs on into the first line of the second. */
  function Glue(x: seq<string>, y: seq<string>): (r: seq<string>)
    requires x != [] && y != []
    ensures |r| == |x| + |y| - 1
  {
    x[..|x| - 1] + [x[|x| - 1] + y[0]] + y[1..]
  }

  lemma GlueCons(c: char, x: seq<string>, y: seq<string>)
    requires x != [] && y != []
    ensures Glue([""] + x, y) == [""] + Glue(x, y)
    ensures Glue([[c] + x[0]] + x[1..], y) == [[c] + Glue(x, y)[0]] + Glue(x, y)[1..]
  {
    if |x| == 1 {
      assert [c] + (x[0] + y[0]) == ([c] + x[0]) + y[0];
    }
  }

  /** Splitting a concatenation merges the last line of the left part with the first of the right. */
  lemma {:induction false} LinesConcat(a: string, b: string)
    ensures Lines(a + b) == Glue(Lines(a), Lines(b))
  {
    if a == "" {
      assert a + b == b;
      assert "" + Lines(b)[0] == Lines(b)[0];
    } else {
      assert (a + b)[1..] == a[1..] + b;
      LinesConcat(a[1..], b);
      GlueCons(a[0], Lines(a[1..]), Lines(b));
    }
  }

  lemma LinesNewline(a: string, b: string)
    ensures Lines(a + [NEWLINE] + b) == Lines(a) + Lines(b)
  {
    LinesConcat(a, [NEWLINE] + b);
    assert a + ([NEWLINE] + b) == a + [NEWLINE] + b;
    assert ([NEWLINE] + b)[1..] == b;
    assert Lines([NEWLINE] + b) == [""] + Lines(b);
    var x := Lines(a);
    assert x[|x| - 1] + "" == x[|x| - 1];
  }

  /** Splitting undoes joining when no line holds a newline. */
  lemma {:induction false} LinesUnlines(lines: seq<string>)
    requires lines != []
    requires forall i :: 0 <= i < |lines| ==> NEWLINE !in lines[i]
    ensures Lines(Unlines(lines)) == lines
  {
    LinesSingle(lines[0]);
    if |lines| > 1 {
      LinesUnlines(lines[1..]);
      LinesNewline(lines[0], Unlines(lines[1..]));
    }
  }

  lemma {:induction false} UnlinesAppend(lines: seq<string>, last: string)
    requires lines != []
    ensures Unlines(lines + [last]) == Unlines(lines) + [NEWLINE] + last
  {
    if |lines| > 1 {
      assert (lines + [last])[1..] == lines[1..] + [last];
      UnlinesAppend(lines[1..], last);
    }
  }

  // --- reading files ---

  /** Reading a text file with universal newlines. */
  function Universal(s: string): string {
    if s == "" then ""
    else if s[0] == '\r' then ['\n'] + Universal(if |s| > 1 && s[1] == '\n' then s[2..] else s[1..])
    else [s[0]] + Universal(s[1..])
  }

  /** What is read so holds no carriage return, and a text without one is read as it is. */
  lemma {:induction false} UniversalHasNone(s: string)
    ensures '\r' !in Universal(s)
    ensures '\r' !in s ==> Universal(s) == s
    decreases |s|
  {
    if s != "" {
      if s[0] == '\r' {
        UniversalHasNone(if |s| > 1 && s[1] == '\n' then s[2..] else s[1..]);
      } else {
        UniversalHasNone(s[1..]);
        assert s == [s[0]] + s[1..];
      }
    }
  }

  /** A line holds no character its text does not. */
  lemma {:induction false} LinesHold(s: string, c: char)
    requires c !in s
    ensures forall i :: 0 <= i < |Lines(s)| ==> c !in Lines(s)[i]
  {
    if s != "" { LinesHold(s[1..], c); }
  }

  lemma {:induction false} UnlinesHold(lines: seq<string>, c: char)
    requires c != NEWLINE && forall i :: 0 <= i < |lines| ==> c !in lines[i]
    ensures c !in Unlines(lines)
  {
    if |lines| > 1 { UnlinesHold(lines[1..], c); }
  }
}
