/** What a scan of `git show` looks at: `git` in scripts/shared_surface_check.py strips the whole output, so
    a file loses its leading blank lines and every line number moves. */
module StrippedShow {
  import opened Text
  import opened GateExtents

  /** The lines of a text without a newline at its end. */
  function Split(s: string): seq<string> { if s == "" then [] else Lines(s) }

  /** The lines of a file as the stripped output of `git show` gives them. */
  function Shown(file: seq<string>): seq<string> { Split(Strip(Unlines(file) + [NEWLINE])) }

  predicate NoNewlines(ls: seq<string>) { forall i :: 0 <= i < |ls| ==> NEWLINE !in ls[i] }

  // --- stripping the text is trimming its lines ---

  function TrimHead(ls: seq<string>): seq<string> {
    if ls == [] then [] else if Blank(ls[0]) then TrimHead(ls[1..]) else [LStrip(ls[0])] + ls[1..]
  }

  function TrimTail(ls: seq<string>): seq<string> {
    if ls == [] then []
    else if Blank(ls[|ls| - 1]) then TrimTail(ls[..|ls| - 1])
    else ls[..|ls| - 1] + [RStrip(ls[|ls| - 1])]
  }

  /** How many blank lines a file starts with. */
  function Lead(ls: seq<string>): (d: nat)
    ensures d <= |ls|
    ensures forall i :: 0 <= i < d ==> Blank(ls[i])
    ensures d < |ls| ==> !Blank(ls[d])
  {
    if ls == [] || !Blank(ls[0]) then 0 else 1 + Lead(ls[1..])
  }

  lemma {:induction false} LStripKeeps(s: string, t: string)
    requires !Blank(s)
    ensures LStrip(s + t) == LStrip(s) + t
  {
    if IsSpace(s[0]) {
      assert (s + t)[1..] == s[1..] + t;
      assert !Blank(s[1..]) by {
        var i :| 0 <= i < |s| && !IsSpace(s[i]);
        assert s[1..][i - 1] == s[i];
      }
      LStripKeeps(s[1..], t);
    }
  }

  lemma {:induction false} RStripKeeps(s: string, t: string)
    requires !Blank(t)
    ensures RStrip(s + t) == s + RStrip(t)
  {
    var n := |t| - 1;
    if IsSpace(t[n]) {
      assert (s + t)[..|s| + n] == s + t[..n];
      assert !Blank(t[..n]) by {
        var i :| 0 <= i < |t| && !IsSpace(t[i]);
        assert t[..n][i] == t[i];
      }
      RStripKeeps(s, t[..n]);
    }
  }

  lemma {:induction false} LStripLines(ls: seq<string>)
    ensures LStrip(Unlines(ls)) == Unlines(TrimHead(ls))
  {
    if ls == [] {
    } else if |ls| == 1 {
      if Blank(ls[0]) { LStripBlank(ls[0]); }
    } else {
      var rest := [NEWLINE] + Unlines(ls[1..]);
      assert Unlines(ls) == ls[0] + rest;
      if Blank(ls[0]) {
        assert Unlines(ls) == (ls[0] + [NEWLINE]) + Unlines(ls[1..]);
        LStripSpaces(ls[0] + [NEWLINE], Unlines(ls[1..]));
        LStripLines(ls[1..]);
      } else {
        LStripKeeps(ls[0], rest);
        assert ([LStrip(ls[0])] + ls[1..])[1..] == ls[1..];
      }
    }
  }

  lemma {:induction false} RStripLines(ls: seq<string>)
    ensures RStrip(Unlines(ls)) == Unlines(TrimTail(ls))
  {
    if ls == [] {
    } else if |ls| == 1 {
      if Blank(ls[0]) { RStripBlank(ls[0]); }
      assert ls[..0] == [];
    } else {
      var init, last := ls[..|ls| - 1], ls[|ls| - 1];
      assert ls == init + [last];
      UnlinesAppend(init, last);
      if Blank(last) {
        assert Unlines(ls) == Unlines(init) + ([NEWLINE] + last);
        RStripSpaces(Unlines(init), [NEWLINE] + last);
        RStripLines(init);
      } else {
        RStripKeeps(Unlines(init) + [NEWLINE], last);
        UnlinesAppend(init, RStrip(last));
      }
    }
  }

  lemma {:induction false} HeadTrimmed(ls: seq<string>)
    requires NoNewlines(ls)
    ensures var d, t := Lead(ls), TrimHead(ls);
            && |t| == |ls| - d && NoNewlines(t)
            && (t != [] ==> t[0] == LStrip(ls[d]) && !Blank(t[0]) && t[1..] == ls[d + 1..])
  {
    if ls != [] {
      if Blank(ls[0]) {
        HeadTrimmed(ls[1..]);
        if TrimHead(ls) != [] { assert ls[1..][Lead(ls[1..]) + 1..] == ls[Lead(ls) + 1..]; }
      } else {
        LStripSplit(ls[0]);
        BlankParts(ls[0]);
      }
    }
  }

  lemma {:induction false} LStripShows(s: string)
    requires !Blank(s)
    ensures !Blank(LStrip(s))
  {
    if IsSpace(s[0]) {
      var i :| 0 <= i < |s| && !IsSpace(s[i]);
      assert s[1..][i - 1] == s[i];
      LStripShows(s[1..]);
    }
  }

  lemma {:induction false} RStripShows(s: string)
    requires !Blank(s)
    ensures !Blank(RStrip(s))
  {
    var n := |s| - 1;
    if IsSpace(s[n]) {
      var i :| 0 <= i < |s| && !IsSpace(s[i]);
      assert s[..n][i] == s[i];
      RStripShows(s[..n]);
    }
  }

  /** A text with something in it keeps that when stripped. */
  lemma BlankParts(s: string)
    requires !Blank(s)
    ensures !Blank(LStrip(s)) && !Blank(RStrip(s))
  {
    LStripShows(s);
    RStripShows(s);
  }

  lemma {:induction false} TailTrimmed(ls: seq<string>)
    requires NoNewlines(ls)
    ensures var t := TrimTail(ls);
            && |t| <= |ls| && NoNewlines(t) && (forall i :: |t| <= i < |ls| ==> Blank(ls[i]))
            && (t != [] ==> t[..|t| - 1] == ls[..|t| - 1] && t[|t| - 1] == RStrip(ls[|t| - 1]))
  {
    if ls != [] {
      var init := ls[..|ls| - 1];
      if Blank(ls[|ls| - 1]) {
        TailTrimmed(init);
        var t := TrimTail(init);
        if t != [] { assert init[..|t| - 1] == ls[..|t| - 1]; }
      } else {
        RStripSplit(ls[|ls| - 1]);
      }
    }
  }

  /** What a scan of the stripped output goes over. */
  lemma ShownTrims(file: seq<string>)
    requires NoNewlines(file)
    ensures Shown(file) == TrimTail(TrimHead(file))
  {
    var u, m := Unlines(file), TrimHead(file);
    HeadTrimmed(file);
    TailTrimmed(m);
    LStripLines(file);
    RStripLines(m);
    if Blank(u) {
      assert Blank(u + [NEWLINE]);
      LStripBlank(u + [NEWLINE]);
      LStripBlank(u);
      NotBlankText(m);
    } else {
      LStripKeeps(u, [NEWLINE]);
      RStripSpaces(LStrip(u), [NEWLINE]);
      var t := TrimTail(m);
      if t != [] {
        LinesUnlines(t);
        TrimmedText(m);
      }
    }
  }

  lemma NotBlankText(ls: seq<string>)
    requires Unlines(ls) == "" && (ls == [] || !Blank(ls[0]))
    ensures ls == []
  {
  }

  lemma TrimmedText(ls: seq<string>)
    requires TrimTail(ls) != [] && NoNewlines(ls) && !Blank(ls[0])
    ensures Unlines(TrimTail(ls)) != ""
  {
    TailTrimmed(ls);
    var t := TrimTail(ls);
    if |t| == 1 {
      BlankParts(ls[0]);
      assert t[0] == RStrip(ls[0]);
    }
  }

  // --- a trimmed line looks the same to the scan ---

  /** A pattern that whitespace around a line does not matter to. */
  ghost predicate Unmoved(archCfg: string -> bool) {
    forall s :: archCfg(LStrip(s)) == archCfg(s) && archCfg(RStrip(s)) == archCfg(s)
  }

  /** A text without whitespace in it. */
  predicate Solid(p: string) { p != "" && forall i :: 0 <= i < |p| ==> !IsSpace(p[i]) }

  predicate OccursAt(s: string, p: string, k: nat) { k + |p| <= |s| && s[k..k + |p|] == p }

  lemma FindOccurs(s: string, p: string)
    ensures Find(s, p, 0).Some? <==> exists k :: OccursAt(s, p, k)
  {
    if Find(s, p, 0).Some? {
      assert OccursAt(s, p, Find(s, p, 0).value);
    } else {
      forall k: nat
        ensures !OccursAt(s, p, k)
      {
        if k <= |s| { assert !(p <= s[k..]); }
      }
    }
  }

  lemma OccursInside(pre: string, s: string, post: string, p: string, k: nat)
    requires |pre| <= k && k + |p| <= |pre| + |s|
    ensures OccursAt(pre + s + post, p, k) <==> OccursAt(s, p, k - |pre|)
  {
    assert (pre + s + post)[k..k + |p|] == s[k - |pre|..k - |pre| + |p|];
  }

  lemma OccursOnlyInside(pre: string, s: string, post: string, p: string, k: nat)
    requires Blank(pre) && Blank(post) && Solid(p) && OccursAt(pre + s + post, p, k)
    ensures |pre| <= k && k + |p| <= |pre| + |s|
  {
    var all := pre + s + post;
    assert all[k] == all[k..k + |p|][0] && all[k + |p| - 1] == all[k..k + |p|][|p| - 1];
    assert forall i :: 0 <= i < |pre| ==> all[i] == pre[i];
    assert forall i :: |pre| + |s| <= i < |all| ==> all[i] == post[i - |pre| - |s|];
  }

  /** Where something solid stands in a text, it stands between the whitespace around it. */
  lemma FindInside(pre: string, s: string, post: string, p: string)
    requires Blank(pre) && Blank(post) && Solid(p)
    ensures Find(pre + s + post, p, 0).Some? <==> Find(s, p, 0).Some?
  {
    FindOccurs(s, p);
    FindOccurs(pre + s + post, p);
    if k: nat :| OccursAt(s, p, k) { OccursInside(pre, s, post, p, |pre| + k); }
    if k: nat :| OccursAt(pre + s + post, p, k) {
      OccursOnlyInside(pre, s, post, p, k);
      OccursInside(pre, s, post, p, k);
    }
  }

  lemma {:induction false} OccurrencesConcat(a: string, b: string, c: char)
    ensures Occurrences(a + b, c) == Occurrences(a, c) + Occurrences(b, c)
  {
    if a == "" {
      assert a + b == b;
    } else {
      assert (a + b)[1..] == a[1..] + b;
      OccurrencesConcat(a[1..], b, c);
    }
  }

  lemma OccurrencesInside(pre: string, s: string, post: string, c: char)
    requires Blank(pre) && Blank(post) && !IsSpace(c)
    ensures Occurrences(pre + s + post, c) == Occurrences(s, c)
  {
    OccurrencesConcat(pre + s, post, c);
    OccurrencesConcat(pre, s, c);
    NoOccurrences(pre, c);
    NoOccurrences(post, c);
  }

  lemma BlankStrips(s: string)
    ensures Strip(s) == "" <==> Blank(s)
  {
    if Blank(s) {
      LStripBlank(s);
    } else {
      BlankParts(s);
      BlankParts(LStrip(s));
    }
  }

  lemma EndingKept(pre: string, t: string)
    requires !Blank(t)
    ensures EndsWith(RStrip(pre + t), ";") == EndsWith(RStrip(t), ";")
  {
    RStripKeeps(pre, t);
    BlankParts(t);
    var r := RStrip(t);
    assert (pre + r)[|pre + r| - 1..] == [r[|r| - 1]] == r[|r| - 1..];
  }

  lemma LStripEnding(s: string)
    ensures EndsWith(RStrip(LStrip(s)), ";") == EndsWith(RStrip(s), ";")
  {
    if Blank(s) {
      LStripBlank(s);
      RStripBlank(s);
    } else {
      LStripSplit(s);
      BlankParts(s);
      var pre := s[..|s| - |LStrip(s)|];
      assert s == pre + LStrip(s);
      EndingKept(pre, LStrip(s));
    }
  }

  lemma LStripFinds(s: string, p: string)
    requires Solid(p)
    ensures Find(LStrip(s), p, 0).Some? == Find(s, p, 0).Some?
  {
    LStripSplit(s);
    var pre := s[..|s| - |LStrip(s)|];
    assert s == pre + LStrip(s) + "";
    FindInside(pre, LStrip(s), "", p);
  }

  lemma LStripCounts(s: string, c: char)
    requires !IsSpace(c)
    ensures Occurrences(LStrip(s), c) == Occurrences(s, c)
  {
    LStripSplit(s);
    var pre := s[..|s| - |LStrip(s)|];
    assert s == pre + LStrip(s) + "";
    OccurrencesInside(pre, LStrip(s), "", c);
  }

  lemma ClassifyLStrip(archCfg: string -> bool, s: string)
    requires Unmoved(archCfg)
    ensures Classify(archCfg, LStrip(s)) == Classify(archCfg, s)
  {
    LStripFinds(s, "#[");
    LStripCounts(s, '{');
    LStripCounts(s, '}');
    LStripEnding(s);
    LStripSplit(s);
    SameFeatures(archCfg, LStrip(s), s);
  }

  /** A solid beginning does not reach into the whitespace at the end. */
  lemma StartsInside(s: string, post: string, p: string)
    requires Blank(post) && Solid(p)
    ensures StartsWith(s + post, p) <==> StartsWith(s, p)
  {
    if |s| < |p| <= |s + post| { assert (s + post)[|p| - 1] == post[|p| - 1 - |s|]; }
  }

  lemma RStripBeginning(s: string, p: string)
    requires Solid(p)
    ensures StartsWith(LStrip(RStrip(s)), p) == StartsWith(LStrip(s), p)
  {
    RStripSplit(s);
    var r := RStrip(s);
    var post := s[|r|..];
    assert s == r + post;
    if Blank(s) {
      RStripBlank(s);
      LStripBlank(s);
    } else {
      BlankParts(s);
      LStripKeeps(r, post);
      StartsInside(LStrip(r), post, p);
    }
  }

  lemma RStripFinds(s: string, p: string)
    requires Solid(p)
    ensures Find(RStrip(s), p, 0).Some? == Find(s, p, 0).Some?
  {
    RStripSplit(s);
    var post := s[|RStrip(s)|..];
    assert s == "" + RStrip(s) + post;
    FindInside("", RStrip(s), post, p);
  }

  lemma RStripCounts(s: string, c: char)
    requires !IsSpace(c)
    ensures Occurrences(RStrip(s), c) == Occurrences(s, c)
  {
    RStripSplit(s);
    var post := s[|RStrip(s)|..];
    assert s == "" + RStrip(s) + post;
    OccurrencesInside("", RStrip(s), post, c);
  }

  lemma RStripBlankness(s: string)
    ensures (Strip(RStrip(s)) == "") == (Strip(s) == "")
  {
    BlankStrips(s);
    BlankStrips(RStrip(s));
    if Blank(s) { RStripBlank(s); } else { BlankParts(s); }
  }

  lemma RStripBeginnings(s: string)
    ensures StartsWith(LStrip(RStrip(s)), "#[") == StartsWith(LStrip(s), "#[")
    ensures StartsWith(LStrip(RStrip(s)), "///") == StartsWith(LStrip(s), "///")
  {
    RStripBeginning(s, "#[");
    RStripBeginning(s, "///");
  }

  lemma SameFeatures(archCfg: string -> bool, a: string, b: string)
    requires archCfg(a) == archCfg(b) && Find(a, "#[", 0).Some? == Find(b, "#[", 0).Some?
    requires StartsWith(LStrip(a), "#[") == StartsWith(LStrip(b), "#[")
    requires StartsWith(LStrip(a), "///") == StartsWith(LStrip(b), "///")
    requires (Strip(a) == "") == (Strip(b) == "") && EndsWith(RStrip(a), ";") == EndsWith(RStrip(b), ";")
    requires Occurrences(a, '{') == Occurrences(b, '{') && Occurrences(a, '}') == Occurrences(b, '}')
    ensures Classify(archCfg, a) == Classify(archCfg, b)
  {
  }

  lemma ClassifyRStrip(archCfg: string -> bool, s: string)
    requires Unmoved(archCfg)
    ensures Classify(archCfg, RStrip(s)) == Classify(archCfg, s)
  {
    RStripFinds(s, "#[");
    RStripCounts(s, '{');
    RStripCounts(s, '}');
    RStripSplit(s);
    RStripBlankness(s);
    RStripBeginnings(s);
    SameFeatures(archCfg, RStrip(s), s);
  }

  /** What a reader makes of each line. */
  function Mapped(f: string -> Line, file: seq<string>): (r: seq<Line>)
    ensures |r| == |file|
  {
    if file == [] then [] else [f(file[0])] + Mapped(f, file[1..])
  }

  lemma {:induction false} MappedAt(f: string -> Line, file: seq<string>, i: nat)
    requires i < |file|
    ensures Mapped(f, file)[i] == f(file[i])
  {
    if i > 0 { MappedAt(f, file[1..], i - 1); }
  }

  /** Lines a reader takes alike from some place on. */
  lemma {:induction false} MappedAgree(f: string -> Line, a: seq<string>, b: seq<string>, d: nat)
    requires d + |a| <= |b| && forall i :: 0 <= i < |a| ==> f(a[i]) == f(b[d + i])
    ensures Mapped(f, a) == Mapped(f, b)[d..d + |a|]
    decreases a
  {
    if a != [] {
      MappedAt(f, b, d);
      MappedAgree(f, a[1..], b, d + 1);
      var all := Mapped(f, b);
      assert all[d..d + |a|] == [all[d]] + all[d + 1..d + |a|];
    }
  }

  function Reader(archCfg: string -> bool): string -> Line { s => Classify(archCfg, s) }

  /** The lines of a file as the gate scan sees them. */
  function Features(archCfg: string -> bool, file: seq<string>): (r: seq<Line>)
    ensures |r| == |file|
  {
    Mapped(Reader(archCfg), file)
  }

  lemma TrimHeadLine(file: seq<string>, i: nat)
    requires NoNewlines(file) && i < |TrimHead(file)|
    ensures Lead(file) + i < |file|
    ensures TrimHead(file)[i] == if i == 0 then LStrip(file[Lead(file)]) else file[Lead(file) + i]
  {
    HeadTrimmed(file);
    var t, d := TrimHead(file), Lead(file);
    if i > 0 { assert t[i] == t[1..][i - 1] == file[d + 1..][i - 1]; }
  }

  lemma TrimTailLine(file: seq<string>, i: nat)
    requires NoNewlines(file) && i < |TrimTail(file)|
    ensures i < |file| && (TrimTail(file)[i] == file[i] || TrimTail(file)[i] == RStrip(file[i]))
  {
    TailTrimmed(file);
    var t := TrimTail(file);
    if i < |t| - 1 { assert t[i] == t[..|t| - 1][i] == file[..|t| - 1][i]; }
  }

  lemma StrippedAlike(archCfg: string -> bool, a: string, b: string, c: string)
    requires Unmoved(archCfg) && (b == a || b == LStrip(a)) && (c == b || c == RStrip(b))
    ensures Reader(archCfg)(c) == Reader(archCfg)(a)
  {
    ClassifyLStrip(archCfg, a);
    ClassifyRStrip(archCfg, b);
  }

  lemma ShownTail(file: seq<string>) returns (e: nat)
    requires NoNewlines(file)
    ensures Lead(file) <= e <= |file| && (forall i :: e <= i < |file| ==> Blank(file[i]))
    ensures |TrimTail(TrimHead(file))| == e - Lead(file)
  {
    HeadTrimmed(file);
    var d, m := Lead(file), TrimHead(file);
    TailTrimmed(m);
    e := d + |TrimTail(m)|;
    forall i | e <= i < |file| ensures Blank(file[i]) {
      assert Blank(m[i - d]) && i != d;
      assert m[i - d] == m[1..][i - d - 1] == file[d + 1..][i - d - 1];
    }
  }

  lemma TrimmedLineAlike(archCfg: string -> bool, file: seq<string>, i: nat)
    requires Unmoved(archCfg) && NoNewlines(file) && i < |TrimTail(TrimHead(file))|
    ensures Lead(file) + i < |file|
    ensures Reader(archCfg)(TrimTail(TrimHead(file))[i]) == Reader(archCfg)(file[Lead(file) + i])
  {
    HeadTrimmed(file);
    TrimTailLine(TrimHead(file), i);
    TrimHeadLine(file, i);
    StrippedAlike(archCfg, file[Lead(file) + i], TrimHead(file)[i], TrimTail(TrimHead(file))[i]);
  }

  lemma TrimmedFeatures(archCfg: string -> bool, file: seq<string>, trimmed: seq<string>, d: nat)
    requires Unmoved(archCfg) && NoNewlines(file) && trimmed == TrimTail(TrimHead(file)) && d == Lead(file)
    requires d + |trimmed| <= |file|
    ensures Features(archCfg, trimmed) == Features(archCfg, file)[d..d + |trimmed|]
  {
    var f := Reader(archCfg);
    forall i | 0 <= i < |trimmed|
      ensures f(trimmed[i]) == f(file[d + i])
    {
      TrimmedLineAlike(archCfg, file, i);
    }
    MappedAgree(f, trimmed, file, d);
  }

  /** The scan of the stripped output sees a stretch of the file: from its first line with anything on it to
      one past which everything is blank. */
  lemma ShownFeatures(archCfg: string -> bool, file: seq<string>) returns (e: nat)
    requires Unmoved(archCfg) && NoNewlines(file)
    ensures Lead(file) <= e <= |file| && (forall i :: e <= i < |file| ==> Blank(file[i]))
    ensures Features(archCfg, Shown(file)) == Features(archCfg, file)[Lead(file)..e]
  {
    e := ShownTail(file);
    TrimmedFeatures(archCfg, file, TrimTail(TrimHead(file)), Lead(file));
    ShownTrims(file);
  }

  // --- extents in a stretch of a file ---

  lemma {:induction false} DepthSlice(ls: seq<Line>, d: nat, e: nat, j: nat, k: nat)
    requires d <= e <= |ls| && j <= k <= e - d
    ensures Depth(ls[d..e], j, k) == Depth(ls, d + j, d + k)
    decreases k
  {
    if j < k { DepthSlice(ls, d, e, j, k - 1); }
  }

  lemma BraceSlice(ls: seq<Line>, d: nat, e: nat, j: nat, k: nat)
    requires d <= e <= |ls| && j <= k <= e - d
    ensures HasBrace(ls[d..e], j, k) == HasBrace(ls, d + j, d + k)
  {
    var sub := ls[d..e];
    if m :| d + j <= m < d + k && ls[m].opens > 0 { assert sub[m - d].opens > 0; }
    if m :| j <= m < k && sub[m].opens > 0 { assert ls[d + m].opens > 0; }
  }

  lemma EndsSlice(ls: seq<Line>, d: nat, e: nat, j: nat, k: nat)
    requires d <= e <= |ls| && j <= k < e - d
    ensures Ends(ls[d..e], j, k) == Ends(ls, d + j, d + k)
  {
    BraceSlice(ls, d, e, j, k + 1);
    DepthSlice(ls, d, e, j, k + 1);
  }

  lemma {:induction false} ItemSlice(ls: seq<Line>, d: nat, e: nat, j: nat)
    requires d <= e <= |ls| && j <= e - d
    ensures var i := ItemFrom(ls, d + j); d + ItemFrom(ls[d..e], j) == if i < e then i else e
    decreases e - d - j
  {
    if j < e - d && ls[d + j].skip { ItemSlice(ls, d, e, j + 1); }
  }

  lemma {:induction false} EndSlice(ls: seq<Line>, d: nat, e: nat, j: nat, k: nat)
    requires d <= e <= |ls| && j <= k <= e - d
    ensures var i := EndFrom(ls, d + j, d + k); d + EndFrom(ls[d..e], j, k) == if i < e then i else e
    decreases e - d - k
  {
    if k < e - d {
      EndsSlice(ls, d, e, j, k);
      if !Ends(ls[d..e], j, k) { EndSlice(ls, d, e, j, k + 1); }
    }
  }

  /** A line the scan takes nothing from. */
  predicate Empty(l: Line) { !l.gate && l.skip && l.opens == 0 && l.closes == 0 && !l.semi }

  /** An item that ends on such a line has ended before it. */
  lemma EndedBefore(ls: seq<Line>, j: nat, k: nat)
    requires j < k < |ls| && Empty(ls[k]) && Ends(ls, j, k)
    ensures Ends(ls, j, k - 1)
  {
    assert HasBrace(ls, j, k + 1) == HasBrace(ls, j, k);
  }

  /** An item that ends at all ends on a line with something on it. */
  lemma EndsBeforeTail(ls: seq<Line>, e: nat, j: nat)
    requires e <= |ls| && j < e && NothingFrom(ls, e) && EndFrom(ls, j, j) < |ls|
    ensures EndFrom(ls, j, j) < e
  {
    EndIsFirst(ls, j, j);
    if EndFrom(ls, j, j) >= e { EndedBefore(ls, j, EndFrom(ls, j, j)); }
  }

  lemma ReachOf(ls: seq<Line>, g: nat, j: nat, k: nat)
    requires g < |ls| && j == ItemFrom(ls, g + 1) && (j < |ls| ==> k == EndFrom(ls, j, j) < |ls|)
    ensures Reach(ls, g) == if j == |ls| then g else k + 1
  {
  }

  lemma ItemKept(ls: seq<Line>, d: nat, e: nat, g: nat)
    requires d <= g < e <= |ls| && ItemFrom(ls, g + 1) < e
    ensures ItemFrom(ls[d..e], g - d + 1) == ItemFrom(ls, g + 1) - d
  {
    ItemSlice(ls, d, e, g + 1 - d);
  }

  lemma EndKept(ls: seq<Line>, d: nat, e: nat, j: nat)
    requires d <= j < e <= |ls| && EndFrom(ls, j, j) < e
    ensures EndFrom(ls[d..e], j - d, j - d) == EndFrom(ls, j, j) - d
  {
    EndSlice(ls, d, e, j - d, j - d);
  }

  lemma ReachSliceFound(ls: seq<Line>, d: nat, e: nat, g: nat, j: nat, k: nat)
    requires d <= g < e <= |ls| && j == ItemFrom(ls, g + 1) < e && k == EndFrom(ls, j, j) < e
    ensures d + Reach(ls[d..e], g - d) == k + 1
  {
    ItemKept(ls, d, e, g);
    EndKept(ls, d, e, j);
    ReachOf(ls[d..e], g - d, j - d, k - d);
  }

  lemma ReachSliceNone(ls: seq<Line>, d: nat, e: nat, g: nat)
    requires d <= g < e <= |ls| && ItemFrom(ls, g + 1) == |ls|
    ensures d + Reach(ls[d..e], g - d) == g
  {
    ItemSlice(ls, d, e, g + 1 - d);
    ReachOf(ls[d..e], g - d, e - d, 0);
  }

  /** From line `e` on there is nothing. */
  predicate NothingFrom(ls: seq<Line>, e: nat) { forall m :: e <= m < |ls| ==> Empty(ls[m]) }

  lemma ItemBeforeTail(ls: seq<Line>, e: nat, g: nat)
    requires g < e <= |ls| && NothingFrom(ls, e)
    ensures ItemFrom(ls, g + 1) < e || ItemFrom(ls, g + 1) == |ls|
  {
    ItemIsFirst(ls, g + 1);
  }

  lemma ReachSlice(ls: seq<Line>, d: nat, e: nat, g: nat)
    requires d <= g < e <= |ls| && NothingFrom(ls, e) && EndsInside(ls, ItemFrom(ls, g + 1))
    ensures d + Reach(ls[d..e], g - d) == Reach(ls, g)
  {
    var j := ItemFrom(ls, g + 1);
    ItemBeforeTail(ls, e, g);
    if j < e {
      EndsBeforeTail(ls, e, j);
      ReachSliceFound(ls, d, e, g, j, EndFrom(ls, j, j));
      ReachOf(ls, g, j, EndFrom(ls, j, j));
    } else {
      ReachSliceNone(ls, d, e, g);
      ReachOf(ls, g, j, 0);
    }
  }

  /** The gates of `sub` are those of `ls` from line `d` on, each with its reach. */
  ghost predicate Moved(ls: seq<Line>, sub: seq<Line>, d: nat) {
    && d + |sub| <= |ls|
    && (forall g :: 0 <= g < |ls| && ls[g].gate ==> d <= g < d + |sub| && sub[g - d].gate)
    && (forall g :: 0 <= g < |sub| && sub[g].gate ==> ls[d + g].gate && d + Reach(sub, g) == Reach(ls, d + g))
  }

  /** Lines with nothing on them around a file move its extents and change nothing else. */
  lemma SliceMoves(ls: seq<Line>, d: nat, e: nat)
    requires d <= e <= |ls| && Scannable(ls) && NothingFrom(ls, e) && forall m :: 0 <= m < d ==> Empty(ls[m])
    ensures Moved(ls, ls[d..e], d)
  {
    var sub := ls[d..e];
    forall g | 0 <= g < |sub| && sub[g].gate
      ensures ls[d + g].gate && d + Reach(sub, g) == Reach(ls, d + g)
    {
      assert ls[d + g].gate;
      ReachSlice(ls, d, e, d + g);
    }
  }

  lemma GovernedMoves(ls: seq<Line>, sub: seq<Line>, d: nat, n: int)
    requires Moved(ls, sub, d)
    ensures Governed(sub, n) <==> Governed(ls, d + n)
  {
    if Governed(sub, n) {
      var g :| 0 <= g < n && g < |sub| && sub[g].gate && n <= Reach(sub, g);
      assert ls[d + g].gate && d + n <= Reach(ls, d + g);
    }
    if Governed(ls, d + n) {
      var g :| 0 <= g < d + n && g < |ls| && ls[g].gate && d + n <= Reach(ls, g);
      assert sub[g - d].gate && n <= Reach(sub, g - d);
    }
  }

  lemma ContainedMoves(ls: seq<Line>, sub: seq<Line>, d: nat)
    requires Moved(ls, sub, d) && Contained(ls)
    ensures Contained(sub)
  {
    forall i, g | 0 <= i < g < |sub| && sub[i].gate && sub[g].gate && g < Reach(sub, i)
      ensures Reach(sub, g) <= Reach(sub, i)
    {
      assert ls[d + i].gate && ls[d + g].gate;
      assert Reach(ls, d + g) <= Reach(ls, d + i);
    }
  }

  lemma BlankIsEmpty(archCfg: string -> bool, s: string)
    requires Blank(s)
    ensures Empty(Classify(archCfg, s))
  {
    BlankStrips(s);
    NoOccurrences(s, '{');
    NoOccurrences(s, '}');
    RStripBlank(s);
    FindOccurs(s, "#[");
    forall k: nat
      ensures !OccursAt(s, "#[", k)
    {
      if k + 2 <= |s| { assert s[k..k + 2][0] == s[k]; }
    }
  }

  lemma EmptyEnds(archCfg: string -> bool, file: seq<string>, e: nat)
    requires e <= |file| && forall i :: e <= i < |file| ==> Blank(file[i])
    ensures forall m :: 0 <= m < Lead(file) ==> Empty(Features(archCfg, file)[m])
    ensures NothingFrom(Features(archCfg, file), e)
  {
    forall m | 0 <= m < |file| && (m < Lead(file) || e <= m)
      ensures Empty(Features(archCfg, file)[m])
    {
      MappedAt(Reader(archCfg), file, m);
      BlankIsEmpty(archCfg, file[m]);
    }
  }

  lemma MovedScan(ls: seq<Line>, sub: seq<Line>, d: nat, covered: set<nat>, spans: seq<(nat, nat)>, n: nat)
    requires Moved(ls, sub, d) && Scannable(ls) && Scanned(sub, covered, spans)
    ensures n in covered <==> Governed(ls, n + d)
  {
    ContainedMoves(ls, sub, d);
    ScanLosesNothing(sub, covered, spans);
    GovernedMoves(ls, sub, d, n);
  }

  lemma ShownMoves(archCfg: string -> bool, file: seq<string>)
    requires Unmoved(archCfg) && NoNewlines(file) && Scannable(Features(archCfg, file))
    ensures Moved(Features(archCfg, file), Features(archCfg, Shown(file)), Lead(file))
  {
    var e := ShownFeatures(archCfg, file);
    EmptyEnds(archCfg, file, e);
    SliceMoves(Features(archCfg, file), Lead(file), e);
  }

  /** The lines covered are the extents, moved up by `d`. */
  ghost predicate Shifts(ls: seq<Line>, covered: set<nat>, d: nat) {
    forall n: nat :: n in covered <==> Governed(ls, n + d)
  }

  lemma MovedShifts(ls: seq<Line>, sub: seq<Line>, d: nat, covered: set<nat>)
    requires Moved(ls, sub, d) && Scannable(ls) && exists spans :: Scanned(sub, covered, spans)
    ensures Shifts(ls, covered, d)
  {
    var spans :| Scanned(sub, covered, spans);
    forall n: nat
      ensures n in covered <==> Governed(ls, n + d)
    {
      MovedScan(ls, sub, d, covered, spans, n);
    }
  }

  /** What a scan of the stripped output covers: the extents of the file, moved up by the blank lines it
      starts with. */
  lemma ShownIsShifted(archCfg: string -> bool, file: seq<string>, covered: set<nat>)
    requires Unmoved(archCfg) && NoNewlines(file) && Scannable(Features(archCfg, file))
    requires exists spans :: Scanned(Features(archCfg, Shown(file)), covered, spans)
    ensures Shifts(Features(archCfg, file), covered, Lead(file))
  {
    assert Moved(Features(archCfg, file), Features(archCfg, Shown(file)), Lead(file)) by { ShownMoves(archCfg, file); }
    MovedShifts(Features(archCfg, file), Features(archCfg, Shown(file)), Lead(file), covered);
  }
}
