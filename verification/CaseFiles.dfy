/** The `.case` fixture format, `--bless` and `--selftest`: scripts/conform.py. */
module CaseFiles {
  import opened Text

  const EXPECT := "--- expect ---"
  const PLANT := "--- plant ---"
  const NOTHING := "NOTHING"

  /** The two patterns of the format: a multi-file plant header in a stripped line, giving target and
      mode, and a `# key: value` line of the head. */
  datatype Grammar = Grammar(header: string -> Option<(string, string)>, meta: string -> Option<(string, string)>)

  datatype Where = InHead | InPlant | InPlants | InExpect

  /** What has been read: the head, the single plant, the multi-file plants, the expected lines. */
  datatype Case = Case(
    meta: map<string, string>, plant: seq<string>, plants: seq<(string, string, seq<string>)>,
    expected: seq<string>, where: Where)

  const EMPTY := Case(map[], [], [], [], InHead)

  function DropCR(line: string): string {
    if line != "" && line[|line| - 1] == '\r' then line[..|line| - 1] else line
  }

  predicate IsPlantMark(g: Grammar, line: string) { Strip(line) == PLANT || g.header(Strip(line)).Some? }

  function AddMeta(m: map<string, string>, k: string, v: string): map<string, string> {
    m[k := if k == "why" then Strip((if k in m then m[k] else "") + " " + v) else v]
  }

  /** One line of the case. */
  function Step(g: Grammar, c: Case, line: string): Case {
    if Strip(line) == PLANT then c.(where := InPlant)
    else if g.header(Strip(line)).Some? then
      var (target, mode) := g.header(Strip(line)).value;
      c.(plants := c.plants + [(target, mode, [])], where := InPlants)
    else if Strip(line) == EXPECT then c.(where := InExpect)
    else match c.where
      case InHead =>
        (match g.meta(line) case None => c case Some((k, v)) => c.(meta := AddMeta(c.meta, k, RStrip(v))))
      case InPlants =>
        if c.plants == [] then c
        else
          var (target, mode, body) := c.plants[|c.plants| - 1];
          c.(plants := c.plants[|c.plants| - 1 := (target, mode, body + [line])])
      case InPlant => c.(plant := c.plant + [line])
      case InExpect => c.(expected := c.expected + [line])
  }

  function Steps(g: Grammar, c: Case, lines: seq<string>): Case {
    if lines == [] then c else Step(g, Steps(g, c, lines[..|lines| - 1]), lines[|lines| - 1])
  }

  function DropCRs(lines: seq<string>): (r: seq<string>)
    ensures |r| == |lines|
  {
    seq(|lines|, i requires 0 <= i < |lines| => DropCR(lines[i]))
  }

  /** `_parse_case`, before the `\u` escapes of the plants are decoded. */
  function ParseCase(g: Grammar, text: string): Case { Steps(g, EMPTY, DropCRs(Lines(text))) }

  method ParseCaseFile(g: Grammar, text: string) returns (c: Case)
    ensures c == ParseCase(g, text)
  {
    var lines := DropCRs(Lines(text));
    c := EMPTY;
    for i := 0 to |lines|
      invariant c == Steps(g, EMPTY, lines[..i])
    {
      assert lines[..i + 1][..i] == lines[..i];
      c := Step(g, c, lines[i]);
    }
    assert lines[..|lines|] == lines;
  }

  /** The expected diagnostic of a case. */
  function Expected(c: Case): string { Strip(Unlines(c.expected)) }

  function RStrips(lines: seq<string>): (r: seq<string>)
    ensures |r| == |lines|
  {
    seq(|lines|, i requires 0 <= i < |lines| => RStrip(lines[i]))
  }

  /** Every line stripped on the right. */
  function Trimmed(s: string): string { Unlines(RStrips(Lines(s))) }

  /** `_norm` */
  function Norm(s: string): string { Trimmed(Strip(s)) }

  /** `new.replace("\n", eol)` */
  function WithEol(s: string, eol: string): string {
    if s == "" then "" else (if s[0] == NEWLINE then eol else [s[0]]) + WithEol(s[1..], eol)
  }

  function Observed(got: string): string { if got == "" then NOTHING else got }

  /** What precedes the newline at the end of each line of the file. */
  function LineTail(text: string): (r: string)
    ensures r == "" || r == "\r"
  {
    if Find(text, "\r\n", 0).Some? then "\r" else ""
  }

  /** The file a blessing writes: the head, the marker, the diagnostic, in the file's line ends. */
  function Written(head: string, seen: string, tail: string): string {
    var eol := tail + [NEWLINE];
    head + EXPECT + (eol + WithEol(seen, eol) + eol)
  }

  /** `bless`, for one case whose diagnostic came out as `got`: unchanged when it already says so, or
      when there is no marker; otherwise everything after the first marker text is replaced. */
  function Bless(g: Grammar, text: string, got: string): string {
    var seen := Observed(got);
    if Norm(seen) == Norm(Expected(ParseCase(g, text))) then text
    else match Find(text, EXPECT, 0)
      case None => text
      case Some(i) => Written(text[..i], seen, LineTail(text))
  }

  method BlessFile(g: Grammar, text: string, got: string) returns (r: string)
    ensures r == Bless(g, text, got)
  {
    var c := ParseCaseFile(g, text);
    var seen := Observed(got);
    if Norm(seen) == Norm(Expected(c)) { return text; }
    var at := Find(text, EXPECT, 0);
    if at.None? { return text; }
    r := Written(text[..at.value], seen, LineTail(text));
  }

  /** `selftest`, for one case. */
  predicate Accepts(g: Grammar, text: string, got: string) {
    var want := Expected(ParseCase(g, text));
    Norm(got) == Norm(if Strip(want) == NOTHING then "" else want)
  }

  // --- normalising ---

  lemma RStripSnoc(s: string, c: char)
    ensures RStrip(s + [c]) == if IsSpace(c) then RStrip(s) else s + [c]
  {
    assert (s + [c])[..|s|] == s;
  }

  lemma {:induction false} RStripCons(c: char, s: string)
    ensures RStrip([c] + s) == if RStrip(s) == "" && IsSpace(c) then "" else [c] + RStrip(s)
  {
    if s == "" {
      assert [c] + s == "" + [c];
      RStripSnoc("", c);
    } else {
      var init, last := s[..|s| - 1], s[|s| - 1];
      assert [c] + s == ([c] + init) + [last] && s == init + [last];
      RStripSnoc([c] + init, last);
      RStripSnoc(init, last);
      if IsSpace(last) { RStripCons(c, init); }
    }
  }

  lemma UnlinesCons(c: char, x: string, ys: seq<string>)
    ensures Unlines([[c] + x] + ys) == [c] + Unlines([x] + ys)
    ensures ys != [] ==> Unlines([x] + ys) == x + [NEWLINE] + Unlines(ys)
  {
    if ys != [] {
      assert ([[c] + x] + ys)[1..] == ys && ([x] + ys)[1..] == ys;
    }
  }

  lemma LinesCons(c: char, s: string)
    ensures Lines([c] + s) == if c == NEWLINE then [""] + Lines(s) else [[c] + Lines(s)[0]] + Lines(s)[1..]
  {
    assert ([c] + s)[1..] == s;
  }

  lemma TrimmedLine(c: char, ls: seq<string>)
    requires ls != []
    ensures Unlines(RStrips([[c] + ls[0]] + ls[1..])) ==
            if IsSpace(c) && RStrip(ls[0]) == "" then Unlines(RStrips(ls)) else [c] + Unlines(RStrips(ls))
  {
    var rs := RStrips(ls);
    assert rs == [rs[0]] + rs[1..];
    RStripCons(c, ls[0]);
    assert RStrips([[c] + ls[0]] + ls[1..]) == [RStrip([c] + ls[0])] + rs[1..];
    UnlinesCons(c, rs[0], rs[1..]);
  }

  lemma TrimmedBreak(ls: seq<string>)
    requires ls != []
    ensures Unlines(RStrips([""] + ls)) == [NEWLINE] + Unlines(RStrips(ls))
  {
    var rs := RStrips(ls);
    assert RStrips([""] + ls) == [""] + rs;
    assert ([""] + rs)[1..] == rs;
  }

  /** Trimming a text, from its first character. */
  lemma TrimmedCons(c: char, s: string)
    ensures Trimmed([c] + s) ==
            if c == NEWLINE then [NEWLINE] + Trimmed(s)
            else if IsSpace(c) && RStrip(Lines(s)[0]) == "" then Trimmed(s)
            else [c] + Trimmed(s)
  {
    LinesCons(c, s);
    if c == NEWLINE { TrimmedBreak(Lines(s)); } else { TrimmedLine(c, Lines(s)); }
  }

  lemma LinesSnoc(s: string, c: char)
    requires c != NEWLINE
    ensures var ls := Lines(s); Lines(s + [c]) == ls[..|ls| - 1] + [ls[|ls| - 1] + [c]]
  {
    LinesConcat(s, [c]);
    LinesSingle([c]);
  }

  lemma RStripsAppend(lines: seq<string>, last: string)
    ensures RStrips(lines + [last]) == RStrips(lines) + [RStrip(last)]
  {
  }

  lemma TrimmedNewline(s: string)
    ensures Trimmed(s + [NEWLINE]) == Trimmed(s) + [NEWLINE]
  {
    LinesNewline(s, "");
    assert s + [NEWLINE] + "" == s + [NEWLINE];
    RStripsAppend(Lines(s), "");
    UnlinesAppend(RStrips(Lines(s)), "");
    assert Trimmed(s) + [NEWLINE] + "" == Trimmed(s) + [NEWLINE];
  }

  /** Trimming a text, from its last character. */
  lemma TrimmedSnoc(s: string, c: char)
    requires c != NEWLINE
    ensures var ls := Lines(s);
            Trimmed(s + [c]) == Unlines(RStrips(ls[..|ls| - 1]) + [RStrip(ls[|ls| - 1] + [c])])
  {
    LinesSnoc(s, c);
    var ls := Lines(s);
    RStripsAppend(ls[..|ls| - 1], ls[|ls| - 1] + [c]);
  }

  lemma TrimmedSpace(s: string, c: char)
    requires c != NEWLINE && IsSpace(c)
    ensures Trimmed(s + [c]) == Trimmed(s)
  {
    TrimmedSnoc(s, c);
    var ls := Lines(s);
    var init, last := ls[..|ls| - 1], ls[|ls| - 1];
    assert ls == init + [last];
    RStripSnoc(last, c);
    RStripsAppend(init, last);
  }

  lemma TrimmedEnds(s: string, c: char)
    requires !IsSpace(c)
    ensures Trimmed(s + [c]) != "" && Trimmed(s + [c])[|Trimmed(s + [c])| - 1] == c
  {
    var ls := Lines(s);
    TrimmedSnoc(s, c);
    RStripSnoc(ls[|ls| - 1], c);
    UnlinesEnd(RStrips(ls[..|ls| - 1]), ls[|ls| - 1] + [c]);
  }

  lemma UnlinesEnd(lines: seq<string>, last: string)
    requires last != ""
    ensures var u := Unlines(lines + [last]); u != "" && u[|u| - 1] == last[|last| - 1]
  {
    if lines != [] { UnlinesAppend(lines, last); } else { assert lines + [last] == [last]; }
  }

  lemma {:induction false} TrimmedLStrip(s: string)
    ensures LStrip(Trimmed(s)) == Trimmed(LStrip(s))
  {
    if s != "" {
      assert s == [s[0]] + s[1..];
      TrimmedCons(s[0], s[1..]);
      var t := Trimmed(s[1..]);
      assert ([s[0]] + t)[1..] == t;
      if IsSpace(s[0]) { TrimmedLStrip(s[1..]); }
    }
  }

  lemma {:induction false} TrimmedRStrip(s: string)
    ensures RStrip(Trimmed(s)) == Trimmed(RStrip(s))
  {
    if s != "" {
      var init, c := s[..|s| - 1], s[|s| - 1];
      assert s == init + [c];
      if c == NEWLINE {
        TrimmedNewline(init);
      } else if IsSpace(c) {
        TrimmedSpace(init, c);
      } else {
        TrimmedEnds(init, c);
      }
      RStripSnoc(Trimmed(init), c);
      if IsSpace(c) { TrimmedRStrip(init); }
    }
  }

  /** Stripping and trimming commute: `_norm` looks only at the trimmed lines. */
  lemma NormIsStripped(s: string)
    ensures Norm(s) == Strip(Trimmed(s))
  {
    TrimmedLStrip(s);
    TrimmedRStrip(LStrip(s));
  }

  lemma StripIdem(s: string)
    ensures Strip(Strip(s)) == Strip(s)
  {
    var a := LStrip(s);
    LStripSplit(s);
    RStripSplit(a);
    var b := RStrip(a);
    assert LStrip(b) == b by { if b != "" { assert b[0] == a[0]; } }
    RStripIdem(a);
  }

  lemma {:induction false} RStripIdem(s: string)
    ensures RStrip(RStrip(s)) == RStrip(s)
  {
    if s != "" && IsSpace(s[|s| - 1]) { RStripIdem(s[..|s| - 1]); }
  }

  /** A text normalises to a single visible word exactly when it is that word and whitespace. */
  lemma NormIsWord(s: string, w: string)
    requires NEWLINE !in w && w != "" && !IsSpace(w[|w| - 1])
    ensures Norm(s) == w <==> Strip(s) == w
  {
    var x := Strip(s);
    var ls := Lines(x);
    LinesHaveNoNewline(x);
    UnlinesLines(x);
    if |ls| == 1 {
      assert Trimmed(x) == RStrip(ls[0]) && x == ls[0];
      StripIdem(s);
      RStripIdem(LStrip(s));
    } else {
      var rs := RStrips(ls);
      assert rs == [rs[0]] + rs[1..];
      UnlinesCons('x', rs[0], rs[1..]);
      assert Trimmed(x)[|rs[0]|] == NEWLINE;
      if x == w {
        LinesSingle(w);
      }
    }
  }

  // --- reading back a blessed case ---

  lemma {:induction false} StepsConcat(g: Grammar, c: Case, a: seq<string>, b: seq<string>)
    ensures Steps(g, c, a + b) == Steps(g, Steps(g, c, a), b)
  {
    if b == [] {
      assert a + b == a;
    } else {
      assert (a + b)[..|a + b| - 1] == a + b[..|b| - 1];
      StepsConcat(g, c, a, b[..|b| - 1]);
    }
  }

  lemma DropCRsConcat(a: seq<string>, b: seq<string>)
    ensures DropCRs(a + b) == DropCRs(a) + DropCRs(b)
  {
  }

  /** Dropping the carriage return of a line does not change what stripping leaves. */
  lemma DropCRStrips(line: string)
    ensures RStrip(DropCR(line)) == RStrip(line)
    ensures Strip(DropCR(line)) == Strip(line)
  {
    if line != "" && line[|line| - 1] == '\r' {
      var init := line[..|line| - 1];
      assert line == init + ['\r'];
      RStripSnoc(init, '\r');
      StripSnoc(init, '\r');
    }
  }

  lemma {:induction false} StripSnoc(s: string, c: char)
    requires IsSpace(c)
    ensures Strip(s + [c]) == Strip(s)
  {
    if s == "" {
      assert s + [c] == [c];
      LStripBlank([c]);
    } else if IsSpace(s[0]) {
      assert (s + [c])[1..] == s[1..] + [c];
      StripSnoc(s[1..], c);
    } else {
      RStripSnoc(s, c);
    }
  }

  /** A line the format takes for a marker of any kind. */
  predicate IsMark(g: Grammar, line: string) { IsPlantMark(g, line) || Strip(line) == EXPECT }

  predicate NoMarks(g: Grammar, lines: seq<string>) {
    forall i :: 0 <= i < |lines| ==> !IsMark(g, lines[i])
  }

  predicate NoPlantMarks(g: Grammar, lines: seq<string>) {
    forall i :: 0 <= i < |lines| ==> !IsPlantMark(g, lines[i])
  }

  /** After the expect marker, lines without plant markers reach only the expected text. */
  lemma {:induction false} ExpectLines(g: Grammar, c: Case, lines: seq<string>)
    requires c.where == InExpect && NoPlantMarks(g, lines)
    ensures var d := Steps(g, c, lines);
            d.where == InExpect && d.meta == c.meta && d.plant == c.plant && d.plants == c.plants
    ensures NoMarks(g, lines) ==> Steps(g, c, lines).expected == c.expected + lines
  {
    if lines != [] {
      var init := lines[..|lines| - 1];
      assert forall i :: 0 <= i < |init| ==> init[i] == lines[i];
      ExpectLines(g, c, init);
      assert lines == init + [lines[|lines| - 1]];
      assert !IsPlantMark(g, lines[|lines| - 1]);
    }
  }

  /** Before any expect marker nothing is expected. */
  lemma {:induction false} HeadLines(g: Grammar, lines: seq<string>)
    requires forall i :: 0 <= i < |lines| ==> Strip(lines[i]) != EXPECT
    ensures Steps(g, EMPTY, lines).expected == [] && Steps(g, EMPTY, lines).where != InExpect
  {
    if lines != [] {
      var init := lines[..|lines| - 1];
      assert forall i :: 0 <= i < |init| ==> init[i] == lines[i];
      HeadLines(g, init);
    }
  }

  /** A line of a text stands in the text. */
  lemma {:induction false} LineInText(s: string, k: nat) returns (pre: string, suf: string)
    requires k < |Lines(s)|
    ensures s == pre + Lines(s)[k] + suf
    ensures k == 0 ==> pre == ""
  {
    if s == "" {
      pre, suf := "", "";
    } else if s[0] == NEWLINE && k == 0 {
      pre, suf := "", s;
    } else {
      var p, q := LineInText(s[1..], if s[0] == NEWLINE then k - 1 else k);
      suf := q;
      pre := if k == 0 then "" else [s[0]] + p;
      assert s == [s[0]] + s[1..];
    }
  }

  lemma StripSplit(s: string) returns (lead: string, trail: string)
    ensures s == lead + Strip(s) + trail
  {
    var l := LStrip(s);
    LStripSplit(s);
    RStripSplit(l);
    lead, trail := s[..|s| - |l|], l[|Strip(s)|..];
    assert l == Strip(s) + trail;
    assert s == lead + l;
  }

  lemma PartInText(pre: string, lead: string, w: string, trail: string, suf: string)
    ensures w <= (pre + (lead + w + trail) + suf)[|pre + lead|..]
  {
    assert (pre + (lead + w + trail) + suf)[|pre + lead|..] == w + (trail + suf);
  }

  /** What a line strips to stands in the text. */
  lemma StrippedInText(s: string, k: nat) returns (at: nat)
    requires k < |Lines(s)|
    ensures at <= |s| && Strip(DropCR(Lines(s)[k])) <= s[at..]
  {
    var pre, suf := LineInText(s, k);
    DropCRStrips(Lines(s)[k]);
    var lead, trail := StripSplit(Lines(s)[k]);
    PartInText(pre, lead, Strip(Lines(s)[k]), trail, suf);
    at := |pre + lead|;
  }

  // --- the text a blessing writes ---

  function AddTails(lines: seq<string>, tail: string): (r: seq<string>)
    ensures |r| == |lines|
  {
    seq(|lines|, i requires 0 <= i < |lines| => lines[i] + tail)
  }

  lemma AddTailsCons(c: char, rest: seq<string>, tail: string)
    requires rest != []
    ensures AddTails([""] + rest, tail) == [tail] + AddTails(rest, tail)
    ensures AddTails([[c] + rest[0]] + rest[1..], tail)
         == [[c] + AddTails(rest, tail)[0]] + AddTails(rest, tail)[1..]
  {
    assert "" + tail == tail;
    assert ([c] + rest[0]) + tail == [c] + (rest[0] + tail);
  }

  lemma LinesAfter(tail: string, more: string)
    requires NEWLINE !in tail
    ensures Lines(tail + [NEWLINE] + more) == [tail] + Lines(more)
  {
    LinesNewline(tail, more);
    LinesSingle(tail);
  }

  /** Changing the line ends of a text and closing its last line: the same lines, tailed. */
  lemma {:induction false} WithEolLines(s: string, tail: string)
    requires NEWLINE !in tail
    ensures Lines(WithEol(s, tail + [NEWLINE]) + (tail + [NEWLINE])) == AddTails(Lines(s), tail) + [""]
  {
    var eol := tail + [NEWLINE];
    if s == "" {
      assert WithEol(s, eol) + eol == tail + [NEWLINE] + "";
      LinesAfter(tail, "");
      assert "" + tail == tail;
    } else {
      WithEolLines(s[1..], tail);
      var more := WithEol(s[1..], eol) + eol;
      AddTailsCons(s[0], Lines(s[1..]), tail);
      if s[0] == NEWLINE {
        assert WithEol(s, eol) + eol == tail + [NEWLINE] + more;
        LinesAfter(tail, more);
      } else {
        assert WithEol(s, eol) + eol == [s[0]] + more;
        LinesCons(s[0], more);
      }
    }
  }

  // --- the case before and after ---

  function Last<T>(s: seq<T>): T
    requires s != []
  {
    s[|s| - 1]
  }

  /** The lines of a text that has `mark` between `head` and `rest`. */
  lemma MarkedLines(head: string, mark: string, rest: string)
    requires NEWLINE !in mark
    ensures Lines(head + mark + rest) ==
            Lines(head)[..|Lines(head)| - 1] + [Last(Lines(head)) + mark + Lines(rest)[0]] + Lines(rest)[1..]
  {
    LinesConcat(head, mark);
    LinesSingle(mark);
    var ls := Lines(head + mark);
    assert ls == Lines(head)[..|Lines(head)| - 1] + [Last(Lines(head)) + mark];
    LinesConcat(head + mark, rest);
  }

  lemma StripAround(a: string, w: string, b: string)
    requires Blank(a) && Blank(b)
    requires w != "" && !IsSpace(w[0]) && !IsSpace(w[|w| - 1])
    ensures Strip(a + w + b) == w
  {
    assert a + w + b == a + (w + b);
    LStripSpaces(a, w + b);
    RStripSpaces(w, b);
  }

  /** What the head of a case reads as, up to the line of the marker. */
  function HeadOf(g: Grammar, head: string): Case {
    Steps(g, EMPTY, DropCRs(Lines(head)[..|Lines(head)| - 1]))
  }

  /** The marker text does not begin inside `head`. */
  predicate Unmarked(head: string) {
    forall k :: 0 <= k <= |head| ==> !(EXPECT <= head[k..])
  }

  lemma HeadExpectsNothing(g: Grammar, head: string)
    requires Unmarked(head)
    ensures HeadOf(g, head).expected == []
  {
    var lines := DropCRs(Lines(head)[..|Lines(head)| - 1]);
    forall i | 0 <= i < |lines|
      ensures Strip(lines[i]) != EXPECT
    {
      var at := StrippedInText(head, i);
      assert lines[i] == DropCR(Lines(head)[i]);
    }
    HeadLines(g, lines);
  }

  /** Reading a text whose marker stands on a line of its own. */
  lemma ParseMarked(g: Grammar, head: string, rest: string)
    requires g.header(EXPECT).None? && Unmarked(head)
    requires Blank(Last(Lines(head))) && Blank(Lines(rest)[0])
    ensures ParseCase(g, head + EXPECT + rest) ==
            Steps(g, HeadOf(g, head).(where := InExpect), DropCRs(Lines(rest)[1..]))
  {
    MarkedLines(head, EXPECT, rest);
    var upto := Lines(head)[..|Lines(head)| - 1];
    var mark := Last(Lines(head)) + EXPECT + Lines(rest)[0];
    StripAround(Last(Lines(head)), EXPECT, Lines(rest)[0]);
    DropCRStrips(mark);
    DropCRsConcat(upto + [mark], Lines(rest)[1..]);
    DropCRsConcat(upto, [mark]);
    assert DropCRs([mark]) == [DropCR(mark)];
    StepsConcat(g, EMPTY, DropCRs(upto) + [DropCR(mark)], DropCRs(Lines(rest)[1..]));
    StepsConcat(g, EMPTY, DropCRs(upto), [DropCR(mark)]);
    MarkStep(g, HeadOf(g, head), DropCR(mark));
  }

  lemma MarkStep(g: Grammar, c: Case, mark: string)
    requires g.header(EXPECT).None? && Strip(mark) == EXPECT
    ensures Steps(g, c, [mark]) == c.(where := InExpect)
  {
    assert [mark][..0] == [];
    assert EXPECT[4] != PLANT[4];
    assert Steps(g, c, [mark]) == Step(g, c, mark);
  }

  /** Lines that trim alike, and end in an empty line, give a text that normalises alike. */
  lemma NormOfLines(lines: seq<string>, seen: string)
    requires |lines| == |Lines(seen)| && RStrips(lines) == RStrips(Lines(seen))
    requires forall i :: 0 <= i < |lines| ==> NEWLINE !in lines[i]
    ensures Norm(Strip(Unlines(lines + [""]))) == Norm(seen)
  {
    var s := Unlines(lines);
    UnlinesAppend(lines, "");
    assert s + [NEWLINE] + "" == s + [NEWLINE];
    StripIdem(s + [NEWLINE]);
    StripSnoc(s, NEWLINE);
    LinesUnlines(lines);
    assert Trimmed(s) == Trimmed(seen);
    NormIsStripped(s);
    NormIsStripped(seen);
  }

  /** The lines of the observed diagnostic as the case file gives them back. */
  lemma TailedLines(seen: string, tail: string)
    requires tail == "" || tail == "\r"
    ensures var lines := DropCRs(AddTails(Lines(seen), tail));
            && |lines| == |Lines(seen)| && RStrips(lines) == RStrips(Lines(seen))
            && forall i :: 0 <= i < |lines| ==> NEWLINE !in lines[i] && Strip(lines[i]) == Strip(Lines(seen)[i])
  {
    var lines := DropCRs(AddTails(Lines(seen), tail));
    LinesHaveNoNewline(seen);
    forall i | 0 <= i < |lines|
      ensures NEWLINE !in lines[i] && RStrip(lines[i]) == RStrip(Lines(seen)[i])
      ensures Strip(lines[i]) == Strip(Lines(seen)[i])
    {
      var l := Lines(seen)[i];
      if tail == "" {
        assert l + tail == l;
        DropCRStrips(l);
      } else {
        assert (l + tail)[..|l|] == l;
      }
    }
  }

  /** The lines after the marker in the file a blessing writes. */
  lemma WrittenLines(seen: string, tail: string)
    requires tail == "" || tail == "\r"
    ensures var eol := tail + [NEWLINE];
            var lines := Lines(eol + WithEol(seen, eol) + eol);
            && Blank(lines[0])
            && DropCRs(lines[1..]) == DropCRs(AddTails(Lines(seen), tail)) + [""]
  {
    var eol := tail + [NEWLINE];
    var more := WithEol(seen, eol) + eol;
    assert eol + WithEol(seen, eol) + eol == tail + [NEWLINE] + more;
    LinesAfter(tail, more);
    WithEolLines(seen, tail);
    DropCRsConcat(AddTails(Lines(seen), tail), [""]);
    assert DropCRs([""]) == [""];
  }

  lemma TailedNoMarks(g: Grammar, seen: string, tail: string)
    requires tail == "" || tail == "\r"
    requires NoMarks(g, Lines(seen)) && !IsMark(g, "")
    ensures NoMarks(g, DropCRs(AddTails(Lines(seen), tail)) + [""])
  {
    var lines := DropCRs(AddTails(Lines(seen), tail));
    TailedLines(seen, tail);
    forall i | 0 <= i < |lines + [""]|
      ensures !IsMark(g, (lines + [""])[i])
    {
      if i < |lines| { assert !IsMark(g, Lines(seen)[i]); }
    }
  }

  /** What the file a blessing writes reads as. */
  lemma BlessedReads(g: Grammar, head: string, seen: string, tail: string)
    requires g.header(EXPECT).None? && Unmarked(head) && Blank(Last(Lines(head)))
    requires tail == "" || tail == "\r"
    requires NoMarks(g, Lines(seen)) && !IsMark(g, "")
    ensures var c := ParseCase(g, Written(head, seen, tail));
            var was := HeadOf(g, head);
            && c.meta == was.meta && c.plant == was.plant && c.plants == was.plants
            && c.expected == DropCRs(AddTails(Lines(seen), tail)) + [""]
  {
    var eol := tail + [NEWLINE];
    WrittenLines(seen, tail);
    ParseMarked(g, head, eol + WithEol(seen, eol) + eol);
    HeadExpectsNothing(g, head);
    TailedNoMarks(g, seen, tail);
    ExpectLines(g, HeadOf(g, head).(where := InExpect), DropCRs(AddTails(Lines(seen), tail)) + [""]);
  }

  /** The file a blessing may be applied to: the first marker text is the marker line, and no plant
      follows it. */
  predicate Blessable(g: Grammar, text: string) {
    && Find(text, EXPECT, 0).Some?
    && var i := Find(text, EXPECT, 0).value;
    && Blank(Last(Lines(text[..i])))
    && Blank(Lines(text[i + |EXPECT|..])[0])
    && NoPlantMarks(g, DropCRs(Lines(text[i + |EXPECT|..])[1..]))
  }

  lemma FirstMark(text: string)
    requires Find(text, EXPECT, 0).Some?
    ensures var i := Find(text, EXPECT, 0).value;
            text == text[..i] + EXPECT + text[i + |EXPECT|..] && Unmarked(text[..i])
  {
    FirstPart(text, EXPECT);
  }

  lemma FirstPart(text: string, w: string)
    requires Find(text, w, 0).Some? && w != ""
    ensures var i := Find(text, w, 0).value;
            && text == text[..i] + w + text[i + |w|..]
            && forall k :: 0 <= k <= i ==> !(w <= text[..i][k..])
  {
    var i := Find(text, w, 0).value;
    assert text == text[..i] + text[i..i + |w|] + text[i + |w|..];
    forall k | 0 <= k <= i
      ensures !(w <= text[..i][k..])
    {
      assert text[..i][k..] <= text[k..];
    }
  }

  /** The two cases agree on everything but what is expected. */
  predicate SamePlan(c: Case, d: Case) { c.meta == d.meta && c.plant == d.plant && c.plants == d.plants }

  lemma BlessablePlan(g: Grammar, text: string)
    requires g.header(EXPECT).None? && Blessable(g, text)
    ensures SamePlan(ParseCase(g, text), HeadOf(g, text[..Find(text, EXPECT, 0).value]))
  {
    var i := Find(text, EXPECT, 0).value;
    FirstMark(text);
    ParseMarked(g, text[..i], text[i + |EXPECT|..]);
    ExpectLines(g, HeadOf(g, text[..i]).(where := InExpect), DropCRs(Lines(text[i + |EXPECT|..])[1..]));
  }

  lemma BlessedNorm(g: Grammar, head: string, seen: string, tail: string)
    requires g.header(EXPECT).None? && Unmarked(head) && Blank(Last(Lines(head)))
    requires tail == "" || tail == "\r"
    requires NoMarks(g, Lines(seen)) && !IsMark(g, "")
    ensures var c := ParseCase(g, Written(head, seen, tail));
            SamePlan(c, HeadOf(g, head)) && Norm(Expected(c)) == Norm(seen)
  {
    BlessedReads(g, head, seen, tail);
    TailedLines(seen, tail);
    NormOfLines(DropCRs(AddTails(Lines(seen), tail)), seen);
  }

  /** Blessing keeps the head and the plants of the case, and makes it expect what was observed. */
  lemma BlessRecords(g: Grammar, text: string, got: string)
    requires g.header(EXPECT).None? && Blessable(g, text)
    requires NoMarks(g, Lines(Observed(got))) && !IsMark(g, "")
    ensures SamePlan(ParseCase(g, Bless(g, text, got)), ParseCase(g, text))
    ensures Norm(Expected(ParseCase(g, Bless(g, text, got)))) == Norm(Observed(got))
  {
    var seen := Observed(got);
    if Norm(seen) != Norm(Expected(ParseCase(g, text))) {
      var head := text[..Find(text, EXPECT, 0).value];
      FirstMark(text);
      BlessablePlan(g, text);
      BlessedNorm(g, head, seen, LineTail(text));
    }
  }

  /** When the file is rewritten, the plan is kept exactly when nothing after the marker added to it. */
  lemma RewriteKeepsPlanExactly(g: Grammar, text: string, got: string)
    requires g.header(EXPECT).None? && Find(text, EXPECT, 0).Some?
    requires Blank(Last(Lines(text[..Find(text, EXPECT, 0).value])))
    requires NoMarks(g, Lines(Observed(got))) && !IsMark(g, "")
    requires Norm(Observed(got)) != Norm(Expected(ParseCase(g, text)))
    ensures SamePlan(ParseCase(g, Bless(g, text, got)), ParseCase(g, text)) <==>
            SamePlan(HeadOf(g, text[..Find(text, EXPECT, 0).value]), ParseCase(g, text))
  {
    FirstMark(text);
    BlessedNorm(g, text[..Find(text, EXPECT, 0).value], Observed(got), LineTail(text));
  }

  /** A case that expects nothing yet, with its plant after the expect marker. */
  function LateCase(line: string): string { EXPECT + [NEWLINE] + (PLANT + [NEWLINE] + line) }

  lemma ThreeLines(a: string, b: string, c: string)
    requires NEWLINE !in a && NEWLINE !in b && NEWLINE !in c
    ensures Lines(a + [NEWLINE] + (b + [NEWLINE] + c)) == [a, b, c]
  {
    LinesNewline(b, c);
    LinesNewline(a, b + [NEWLINE] + c);
    LinesSingle(a);
    LinesSingle(b);
    LinesSingle(c);
  }

  lemma LateLines(line: string)
    requires NEWLINE !in line && DropCR(line) == line
    ensures DropCRs(Lines(LateCase(line))) == [EXPECT, PLANT, line]
  {
    ThreeLines(EXPECT, PLANT, line);
    assert DropCR(EXPECT) == EXPECT && DropCR(PLANT) == PLANT;
  }

  /** The plant is read. */
  lemma LateParse(g: Grammar, line: string)
    requires NEWLINE !in line && DropCR(line) == line && !IsMark(g, line) && g.header(EXPECT).None?
    ensures ParseCase(g, LateCase(line)) == EMPTY.(plant := [line], where := InPlant)
  {
    LateLines(line);
    var all := [EXPECT, PLANT, line];
    assert all[..2] == [EXPECT, PLANT] && [EXPECT, PLANT][..1] == [EXPECT] && [EXPECT][..0] == [];
    assert Strip(EXPECT) == EXPECT && Strip(PLANT) == PLANT;
    assert Steps(g, EMPTY, [EXPECT]) == EMPTY.(where := InExpect);
    assert Steps(g, EMPTY, [EXPECT, PLANT]) == EMPTY.(where := InPlant);
  }

  lemma LateMarker(line: string)
    ensures Find(LateCase(line), EXPECT, 0) == Some(0) && LateCase(line)[..0] == ""
  {
    assert LateCase(line)[0..] == LateCase(line) && EXPECT <= LateCase(line);
  }

  /** Whatever is observed, a blessing of that case loses its plant. */
  lemma LatePlantIsLost(g: Grammar, line: string, got: string)
    requires NEWLINE !in line && DropCR(line) == line && !IsMark(g, line) && g.header(EXPECT).None? && !IsMark(g, "")
    requires NoMarks(g, Lines(Observed(got))) && Norm(Observed(got)) != ""
    ensures var text := LateCase(line);
            ParseCase(g, text).plant == [line] && !SamePlan(ParseCase(g, Bless(g, text, got)), ParseCase(g, text))
  {
    var text := LateCase(line);
    LateParse(g, line);
    LateMarker(line);
    assert Expected(ParseCase(g, text)) == "" && Norm("") == "";
    RewriteKeepsPlanExactly(g, text, got);
    assert HeadOf(g, "").plant == [];
  }

  /** A self-test accepts a case whose expectation normalises to what was observed, except when what
      was observed is itself the word for "no finding". */
  lemma RecordedIsAccepted(g: Grammar, text: string, got: string)
    requires Norm(Expected(ParseCase(g, text))) == Norm(Observed(got))
    ensures Accepts(g, text, got) <==> Strip(got) != NOTHING
  {
    var want := Expected(ParseCase(g, text));
    NormIsWord(want, NOTHING);
    NormIsWord(got, NOTHING);
    NormIsWord(NOTHING, NOTHING);
    assert Norm("") == "" && Strip("") == "";
    assert Strip(NOTHING) == NOTHING;
  }

  /** Blessing settles: the next self-test accepts the case exactly when the diagnostic is not the
      word for "no finding", and blessing again changes nothing. */
  lemma BlessSettles(g: Grammar, text: string, got: string)
    requires g.header(EXPECT).None? && Blessable(g, text)
    requires NoMarks(g, Lines(Observed(got))) && !IsMark(g, "")
    ensures var out := Bless(g, text, got);
            && (Accepts(g, out, got) <==> Strip(got) != NOTHING)
            && Bless(g, out, got) == out
  {
    BlessRecords(g, text, got);
    RecordedIsAccepted(g, Bless(g, text, got), got);
  }
}
