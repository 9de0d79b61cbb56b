/** Which integer constants count as module-level: `_module_level_consts` of scripts/commandments.py. */
module ModuleConsts {
  import opened Text

  type Decl = (string, int)

  /** What the scan sees of a line, comments removed: the constant it declares, whether it names a
      `fn`, and how many braces it opens and closes. */
  datatype Line = Line(decl: Option<Decl>, isFn: bool, opens: nat, closes: nat)

  /** The brace depth before line `k`. */
  function Depth(lines: seq<Line>, k: nat): int
    requires k <= |lines|
  {
    if k == 0 then 0 else Depth(lines, k - 1) + lines[k - 1].opens - lines[k - 1].closes
  }

  /** The depth before every line, and after the last. */
  function Depths(lines: seq<Line>): (r: seq<int>)
    ensures |r| == |lines| + 1
  {
    seq(|lines| + 1, k requires 0 <= k <= |lines| => Depth(lines, k))
  }

  predicate OpensFn(line: Line) { line.isFn && line.opens > 0 }

  predicate Above(at: seq<int>, m: int, f: int) { 0 <= m < |at| && 0 <= f < |at| && at[m] > at[f] }

  /** Line `f` names a function, opens a brace, and the depth has stayed above its own up to line `k`. */
  ghost predicate Encloses(lines: seq<Line>, at: seq<int>, f: nat, k: nat)
    requires k < |at| == |lines| + 1
  {
    f < k && OpensFn(lines[f]) && forall m :: f < m <= k ==> Above(at, m, f)
  }

  ghost predicate InFunction(lines: seq<Line>, k: nat)
    requires k <= |lines|
  {
    exists f: nat :: Encloses(lines, Depths(lines), f, k)
  }

  /** The constants of the first `k` lines that no function encloses, in order. */
  ghost function ModuleLevel(lines: seq<Line>, k: nat): seq<Decl>
    requires k <= |lines|
  {
    if k == 0 then []
    else
      ModuleLevel(lines, k - 1)
      + if lines[k - 1].decl.Some? && !InFunction(lines, k - 1) then [lines[k - 1].decl.value] else []
  }

  // --- the stack ---

  predicate Within(fns: seq<nat>, n: int) { forall i :: 0 <= i < |fns| ==> fns[i] < n }

  /** The functions left open, innermost last, once the depth has come down to `d`. */
  function Close(at: seq<int>, fns: seq<nat>, d: int): (r: seq<nat>)
    requires Within(fns, |at|)
    ensures r <= fns
  {
    if fns != [] && d <= at[fns[|fns| - 1]] then Close(at, fns[..|fns| - 1], d) else fns
  }

  function Opened(line: Line, fns: seq<nat>, k: nat): seq<nat> {
    if OpensFn(line) then fns + [k] else fns
  }

  /** The lines of the functions the scan holds open before line `k`. */
  function OpenFns(lines: seq<Line>, at: seq<int>, k: nat): (r: seq<nat>)
    requires k < |at| == |lines| + 1
    ensures Within(r, k)
  {
    if k == 0 then [] else Close(at, Opened(lines[k - 1], OpenFns(lines, at, k - 1), k - 1), at[k])
  }

  /** The depths kept on the stack for these functions. */
  function Stack(at: seq<int>, fns: seq<nat>): (r: seq<int>)
    requires Within(fns, |at|)
    ensures |r| == |fns|
  {
    seq(|fns|, i requires 0 <= i < |fns| => at[fns[i]])
  }

  /** Drop what the depth has closed. */
  method CloseDown(stack: seq<int>, depth: int, ghost at: seq<int>, ghost fns: seq<nat>) returns (left: seq<int>)
    requires Within(fns, |at|) && stack == Stack(at, fns)
    ensures left == Stack(at, Close(at, fns, depth))
  {
    left := stack;
    ghost var open := fns;
    while left != [] && depth <= left[|left| - 1]
      invariant Within(open, |at|) && left == Stack(at, open)
      invariant Close(at, open, depth) == Close(at, fns, depth)
      decreases |left|
    {
      open := open[..|open| - 1];
      left := left[..|left| - 1];
    }
  }

  /** The depth and the stack after one line. */
  method Advance(line: Line, depth: int, stack: seq<int>, ghost lines: seq<Line>, ghost at: seq<int>, ghost k: nat)
    returns (d: int, left: seq<int>)
    requires k < |lines| && at == Depths(lines) && line == lines[k]
    requires depth == at[k] && stack == Stack(at, OpenFns(lines, at, k))
    ensures d == at[k + 1] && left == Stack(at, OpenFns(lines, at, k + 1))
  {
    d, left := depth + line.opens - line.closes, stack;
    ghost var fns := Opened(line, OpenFns(lines, at, k), k);
    OpenFnsNext(lines, at, k);
    if OpensFn(line) {
      left := left + [depth];
    }
    left := CloseDown(left, d, at, fns);
  }

  /** The functions held open after a line, and the stack before anything is closed. */
  lemma OpenFnsNext(lines: seq<Line>, at: seq<int>, k: nat)
    requires k < |lines| && at == Depths(lines)
    ensures at[k + 1] == at[k] + lines[k].opens - lines[k].closes
    ensures var fns, next := OpenFns(lines, at, k), Opened(lines[k], OpenFns(lines, at, k), k);
            && Within(next, |at|) && OpenFns(lines, at, k + 1) == Close(at, next, at[k + 1])
            && Stack(at, next) == if OpensFn(lines[k]) then Stack(at, fns) + [at[k]] else Stack(at, fns)
  {
    StackPush(at, lines[k], OpenFns(lines, at, k), k);
  }

  method ModuleLevelConsts(lines: seq<Line>) returns (out: seq<Decl>)
    ensures out == ModuleLevel(lines, |lines|)
  {
    out := [];
    var depth := 0;
    var fnDepths: seq<int> := [];
    ghost var at := Depths(lines);
    assert OpenFns(lines, at, 0) == [];
    for k := 0 to |lines|
      invariant depth == at[k]
      invariant fnDepths == Stack(at, OpenFns(lines, at, k))
      invariant out == ModuleLevel(lines, k)
    {
      FoundOut(lines, at, k);
      if lines[k].decl.Some? && fnDepths == [] {
        out := out + [lines[k].decl.value];
      }
      depth, fnDepths := Advance(lines[k], depth, fnDepths, lines, at, k);
    }
  }

  /** The depths rise along the stack and stay below `d`. */
  predicate Rising(at: seq<int>, fns: seq<nat>, d: int)
    requires Within(fns, |at|)
  {
    fns == [] || (at[fns[|fns| - 1]] < d && Rising(at, fns[..|fns| - 1], at[fns[|fns| - 1]]))
  }

  lemma {:induction false} RisingBelow(at: seq<int>, fns: seq<nat>, d: int, f: nat)
    requires Within(fns, |at|) && Rising(at, fns, d) && f in fns
    ensures at[f] < d
  {
    if f != fns[|fns| - 1] {
      assert f in fns[..|fns| - 1];
      RisingBelow(at, fns[..|fns| - 1], at[fns[|fns| - 1]], f);
    }
  }

  /** Closing keeps exactly the functions whose depth is still exceeded. */
  lemma {:induction false} CloseKeeps(at: seq<int>, fns: seq<nat>, top: int, d: int, f: nat)
    requires Within(fns, |at|) && Rising(at, fns, top) && f < |at|
    ensures Rising(at, Close(at, fns, d), d)
    ensures f in Close(at, fns, d) <==> f in fns && at[f] < d
  {
    if fns != [] {
      var init, last := fns[..|fns| - 1], fns[|fns| - 1];
      assert fns == init + [last];
      if d <= at[last] {
        CloseKeeps(at, init, at[last], d, f);
      } else if f in init {
        RisingBelow(at, init, at[last], f);
      }
    }
  }

  lemma EnclosesStep(lines: seq<Line>, at: seq<int>, f: nat, k: nat)
    requires k < |lines| && |at| == |lines| + 1
    ensures Encloses(lines, at, f, k + 1) <==>
            (Encloses(lines, at, f, k) || (f == k && OpensFn(lines[k]))) && Above(at, k + 1, f)
  {
  }

  lemma {:induction false} OpenFnsRise(lines: seq<Line>, at: seq<int>, k: nat)
    requires k < |at| == |lines| + 1
    ensures Rising(at, OpenFns(lines, at, k), at[k])
  {
    if k > 0 {
      OpenFnsRise(lines, at, k - 1);
      OpenedRises(lines[k - 1], at, OpenFns(lines, at, k - 1), k - 1);
      CloseKeeps(at, Opened(lines[k - 1], OpenFns(lines, at, k - 1), k - 1), at[k - 1] + 1, at[k], 0);
    }
  }

  /** What line `k` does to the functions held open. */
  lemma OpenFnsStep(lines: seq<Line>, at: seq<int>, k: nat, f: nat)
    requires k < |lines| && |at| == |lines| + 1 && f < |at|
    ensures f in OpenFns(lines, at, k + 1) <==>
            (f in OpenFns(lines, at, k) || (f == k && OpensFn(lines[k]))) && Above(at, k + 1, f)
  {
    OpenFnsRise(lines, at, k);
    OpenedRises(lines[k], at, OpenFns(lines, at, k), k);
    CloseKeeps(at, Opened(lines[k], OpenFns(lines, at, k), k), at[k] + 1, at[k + 1], f);
  }

  ghost predicate Agrees(lines: seq<Line>, at: seq<int>, f: nat, k: nat) {
    k < |at| == |lines| + 1 && (f in OpenFns(lines, at, k) <==> Encloses(lines, at, f, k))
  }

  lemma AgreesNext(lines: seq<Line>, at: seq<int>, f: nat, k: nat)
    requires k < |lines| && f < |at| && Agrees(lines, at, f, k)
    ensures Agrees(lines, at, f, k + 1)
  {
    EnclosesStep(lines, at, f, k);
    OpenFnsStep(lines, at, k, f);
  }

  lemma AgreesAtStart(lines: seq<Line>, at: seq<int>, f: nat)
    requires |at| == |lines| + 1
    ensures Agrees(lines, at, f, 0)
  {
    assert OpenFns(lines, at, 0) == [];
  }

  lemma {:induction false} AllAgree(lines: seq<Line>, at: seq<int>, f: nat, k: nat)
    requires k < |at| == |lines| + 1 && f < |at|
    ensures Agrees(lines, at, f, k)
  {
    if k == 0 {
      AgreesAtStart(lines, at, f);
    } else {
      AllAgree(lines, at, f, k - 1);
      AgreesNext(lines, at, f, k - 1);
    }
  }

  /** The functions the scan holds open are exactly the enclosing ones. */
  lemma OpenFnsEnclose(lines: seq<Line>, at: seq<int>, k: nat, f: nat)
    requires k < |at| == |lines| + 1 && f < |at|
    ensures f in OpenFns(lines, at, k) <==> Encloses(lines, at, f, k)
  {
    AllAgree(lines, at, f, k);
  }

  lemma OpenedRises(line: Line, at: seq<int>, fns: seq<nat>, k: nat)
    requires Within(fns, k) && k < |at| && Rising(at, fns, at[k])
    ensures Within(Opened(line, fns, k), |at|) && Rising(at, Opened(line, fns, k), at[k] + 1)
    ensures forall f :: f in Opened(line, fns, k) <==> f in fns || (f == k && OpensFn(line))
  {
    if OpensFn(line) { assert (fns + [k])[..|fns|] == fns; }
  }

  lemma OpenIsEnclosing(lines: seq<Line>, k: nat)
    requires k <= |lines|
    ensures OpenFns(lines, Depths(lines), k) == [] <==> !InFunction(lines, k)
  {
    var at := Depths(lines);
    if OpenFns(lines, at, k) != [] {
      OpenFnsEnclose(lines, at, k, OpenFns(lines, at, k)[0]);
    } else if f: nat :| Encloses(lines, at, f, k) {
      OpenFnsEnclose(lines, at, k, f);
      assert false;
    }
  }

  // --- the scan, line by line ---

  datatype State = State(depth: int, fnDepths: seq<int>, out: seq<Decl>)

  const START := State(0, [], [])

  function PopTo(stack: seq<int>, d: int): seq<int> {
    if stack != [] && d <= stack[|stack| - 1] then PopTo(stack[..|stack| - 1], d) else stack
  }

  function ScanLine(st: State, line: Line): State {
    var d := st.depth + line.opens - line.closes;
    State(d,
          PopTo(if OpensFn(line) then st.fnDepths + [st.depth] else st.fnDepths, d),
          if line.decl.Some? && st.fnDepths == [] then st.out + [line.decl.value] else st.out)
  }

  function Scan(st: State, lines: seq<Line>): State
    decreases |lines|
  {
    if lines == [] then st else Scan(ScanLine(st, lines[0]), lines[1..])
  }

  lemma {:induction false} ScanConcat(st: State, a: seq<Line>, b: seq<Line>)
    ensures Scan(st, a + b) == Scan(Scan(st, a), b)
    decreases |a|
  {
    if a == [] {
      assert a + b == b;
    } else {
      assert (a + b)[1..] == a[1..] + b;
      ScanConcat(ScanLine(st, a[0]), a[1..], b);
    }
  }

  lemma {:induction false} PopIsClose(at: seq<int>, fns: seq<nat>, d: int)
    requires Within(fns, |at|)
    ensures PopTo(Stack(at, fns), d) == Stack(at, Close(at, fns, d))
  {
    if fns != [] && d <= at[fns[|fns| - 1]] {
      assert Stack(at, fns)[..|fns| - 1] == Stack(at, fns[..|fns| - 1]);
      PopIsClose(at, fns[..|fns| - 1], d);
    }
  }

  /** The state of the scan before line `k`, in terms of what encloses what. */
  ghost function Found(lines: seq<Line>, at: seq<int>, k: nat): State
    requires k <= |lines| && at == Depths(lines)
  {
    State(at[k], Stack(at, OpenFns(lines, at, k)), ModuleLevel(lines, k))
  }

  lemma StackPush(at: seq<int>, line: Line, fns: seq<nat>, k: nat)
    requires Within(fns, k) && k < |at|
    ensures Within(Opened(line, fns, k), |at|)
    ensures Stack(at, Opened(line, fns, k)) == if OpensFn(line) then Stack(at, fns) + [at[k]] else Stack(at, fns)
  {
  }

  lemma FoundStack(lines: seq<Line>, at: seq<int>, k: nat)
    requires k < |lines| && at == Depths(lines)
    ensures var stack := Stack(at, OpenFns(lines, at, k));
            PopTo(if OpensFn(lines[k]) then stack + [at[k]] else stack, at[k + 1])
            == Stack(at, OpenFns(lines, at, k + 1))
  {
    StackPush(at, lines[k], OpenFns(lines, at, k), k);
    PopIsClose(at, Opened(lines[k], OpenFns(lines, at, k), k), at[k + 1]);
  }

  lemma FoundOut(lines: seq<Line>, at: seq<int>, k: nat)
    requires k < |lines| && at == Depths(lines)
    ensures ModuleLevel(lines, k + 1) ==
            if lines[k].decl.Some? && Stack(at, OpenFns(lines, at, k)) == []
            then ModuleLevel(lines, k) + [lines[k].decl.value] else ModuleLevel(lines, k)
  {
    OpenIsEnclosing(lines, k);
  }

  lemma FoundStep(lines: seq<Line>, at: seq<int>, k: nat)
    requires k < |lines| && at == Depths(lines)
    ensures ScanLine(Found(lines, at, k), lines[k]) == Found(lines, at, k + 1)
  {
    assert at[k + 1] == at[k] + lines[k].opens - lines[k].closes;
    FoundStack(lines, at, k);
    FoundOut(lines, at, k);
  }

  lemma ScanSnoc(st: State, lines: seq<Line>, line: Line)
    ensures Scan(st, lines + [line]) == ScanLine(Scan(st, lines), line)
  {
    ScanConcat(st, lines, [line]);
    ScanOne(Scan(st, lines), line);
  }

  /** A scan passes through the states that follow from one another. */
  lemma {:induction false} ScanFollows(lines: seq<Line>, states: seq<State>, k: nat)
    requires k <= |lines| < |states|
    requires forall j :: 0 <= j < |lines| ==> ScanLine(states[j], lines[j]) == states[j + 1]
    ensures Scan(states[0], lines[..k]) == states[k]
  {
    if k > 0 {
      ScanFollows(lines, states, k - 1);
      assert lines[..k] == lines[..k - 1] + [lines[k - 1]];
      ScanSnoc(states[0], lines[..k - 1], lines[k - 1]);
    }
  }

  ghost function FoundStates(lines: seq<Line>): (r: seq<State>)
    ensures |r| == |lines| + 1
  {
    seq(|lines| + 1, k requires 0 <= k <= |lines| => Found(lines, Depths(lines), k))
  }

  lemma FoundFollows(lines: seq<Line>, j: nat)
    requires j < |lines|
    ensures ScanLine(FoundStates(lines)[j], lines[j]) == FoundStates(lines)[j + 1]
  {
    FoundStep(lines, Depths(lines), j);
  }

  lemma FoundEnds(lines: seq<Line>)
    ensures FoundStates(lines)[0] == START
    ensures FoundStates(lines)[|lines|].out == ModuleLevel(lines, |lines|)
  {
    assert OpenFns(lines, Depths(lines), 0) == [];
  }

  /** The scan keeps exactly the constants no function encloses. */
  lemma ScanIsModuleLevel(lines: seq<Line>)
    ensures Scan(START, lines).out == ModuleLevel(lines, |lines|)
  {
    var states := FoundStates(lines);
    forall j | 0 <= j < |lines|
      ensures ScanLine(states[j], lines[j]) == states[j + 1]
    {
      FoundFollows(lines, j);
    }
    ScanFollows(lines, states, |lines|);
    assert lines[..|lines|] == lines;
    FoundEnds(lines);
  }

  // --- source files as nested blocks ---

  /** The items of a module or a block, one after another. A function whose signature runs over
      several lines names `fn` on a line that opens no brace: a `split` block. */
  datatype Items =
    | Nil
    | Const(decl: Decl, rest: Items)
    | Plain(isFn: bool, braces: nat, rest: Items)
    | Block(isFn: bool, split: bool, body: Items, rest: Items)

  const CLOSER := Line(None, false, 0, 1)

  function Header(isFn: bool, split: bool): seq<Line> {
    if split then [Line(None, isFn, 0, 0), Line(None, false, 1, 0)] else [Line(None, isFn, 1, 0)]
  }

  function Print(items: Items): seq<Line> {
    match items
    case Nil => []
    case Const(decl, rest) => [Line(Some(decl), false, 0, 0)] + Print(rest)
    case Plain(isFn, braces, rest) => [Line(None, isFn, braces, braces)] + Print(rest)
    case Block(isFn, split, body, rest) => Header(isFn, split) + Print(body) + [CLOSER] + Print(rest)
  }

  /** The constants outside every function whose brace opens on the line that names it. */
  function Kept(items: Items, hidden: bool): seq<Decl> {
    match items
    case Nil => []
    case Const(decl, rest) => (if hidden then [] else [decl]) + Kept(rest, hidden)
    case Plain(_, _, rest) => Kept(rest, hidden)
    case Block(isFn, split, body, rest) => Kept(body, hidden || (isFn && !split)) + Kept(rest, hidden)
  }

  /** The constants outside every function. */
  function Outside(items: Items, inFn: bool): seq<Decl> {
    match items
    case Nil => []
    case Const(decl, rest) => (if inFn then [] else [decl]) + Outside(rest, inFn)
    case Plain(_, _, rest) => Outside(rest, inFn)
    case Block(isFn, _, body, rest) => Outside(body, inFn || isFn) + Outside(rest, inFn)
  }

  /** How many constants lie in functions, but only in split ones. */
  function Stray(items: Items, inFn: bool, hidden: bool): nat {
    match items
    case Nil => 0
    case Const(_, rest) => (if inFn && !hidden then 1 else 0) + Stray(rest, inFn, hidden)
    case Plain(_, _, rest) => Stray(rest, inFn, hidden)
    case Block(isFn, split, body, rest) =>
      Stray(body, inFn || isFn, hidden || (isFn && !split)) + Stray(rest, inFn, hidden)
  }

  predicate Settled(st: State) { st.fnDepths == [] || st.fnDepths[|st.fnDepths| - 1] < st.depth }

  lemma ScanOne(st: State, line: Line)
    ensures Scan(st, [line]) == ScanLine(st, line)
  {
    assert [line][1..] == [];
  }

  lemma PopPush(stack: seq<int>, d: int)
    requires stack == [] || stack[|stack| - 1] < d
    ensures PopTo(stack, d) == PopTo(stack + [d], d) == stack
  {
    assert (stack + [d])[..|stack|] == stack;
  }

  function HeaderState(st: State, isFn: bool, split: bool): State {
    if split then ScanLine(ScanLine(st, Line(None, isFn, 0, 0)), Line(None, false, 1, 0))
    else ScanLine(st, Line(None, isFn, 1, 0))
  }

  /** The scan of a printed file, item by item. */
  function ScanItems(st: State, items: Items): State
    decreases items
  {
    match items
    case Nil => st
    case Const(decl, rest) => ScanItems(ScanLine(st, Line(Some(decl), false, 0, 0)), rest)
    case Plain(isFn, braces, rest) => ScanItems(ScanLine(st, Line(None, isFn, braces, braces)), rest)
    case Block(isFn, split, body, rest) =>
      ScanItems(ScanLine(ScanItems(HeaderState(st, isFn, split), body), CLOSER), rest)
  }

  lemma ScanCons(st: State, line: Line, rest: seq<Line>)
    ensures Scan(st, [line] + rest) == Scan(ScanLine(st, line), rest)
  {
    ScanConcat(st, [line], rest);
    ScanOne(st, line);
  }

  lemma ScanHeader(st: State, isFn: bool, split: bool)
    ensures Scan(st, Header(isFn, split)) == HeaderState(st, isFn, split)
  {
    if split {
      var first, second := Line(None, isFn, 0, 0), Line(None, false, 1, 0);
      assert Header(isFn, split) == [first] + [second];
      ScanCons(st, first, [second]);
      ScanOne(ScanLine(st, first), second);
    } else {
      ScanOne(st, Line(None, isFn, 1, 0));
    }
  }

  lemma ScanBlock(st: State, header: seq<Line>, body: seq<Line>, rest: seq<Line>)
    ensures Scan(st, header + body + [CLOSER] + rest) == Scan(ScanLine(Scan(Scan(st, header), body), CLOSER), rest)
  {
    ScanConcat(st, header, body);
    ScanSnoc(st, header + body, CLOSER);
    ScanConcat(st, header + body + [CLOSER], rest);
  }

  /** Scanning the printed lines is scanning the items. */
  lemma {:induction false} PrintedIsItems(st: State, items: Items)
    ensures Scan(st, Print(items)) == ScanItems(st, items)
    decreases items
  {
    match items
    case Nil =>
    case Const(decl, rest) =>
      ScanCons(st, Line(Some(decl), false, 0, 0), Print(rest));
      PrintedIsItems(ScanLine(st, Line(Some(decl), false, 0, 0)), rest);
    case Plain(isFn, n, rest) =>
      ScanCons(st, Line(None, isFn, n, n), Print(rest));
      PrintedIsItems(ScanLine(st, Line(None, isFn, n, n)), rest);
    case Block(isFn, split, body, rest) =>
      var inner := HeaderState(st, isFn, split);
      ScanBlock(st, Header(isFn, split), Print(body), Print(rest));
      ScanHeader(st, isFn, split);
      PrintedIsItems(inner, body);
      PrintedIsItems(ScanLine(ScanItems(inner, body), CLOSER), rest);
  }

  /** What scanning the items of a file amounts to: depth and stack come back, and what is kept is what
      is not hidden. */
  function Scanned(st: State, items: Items): State { st.(out := st.out + Kept(items, st.fnDepths != [])) }

  lemma HeaderOpens(st: State, isFn: bool, split: bool)
    requires Settled(st)
    ensures HeaderState(st, isFn, split) ==
            State(st.depth + 1, if isFn && !split then st.fnDepths + [st.depth] else st.fnDepths, st.out)
  {
  }

  lemma CloserCloses(st: State, stack: seq<int>)
    requires stack == [] || stack[|stack| - 1] < st.depth - 1
    requires st.fnDepths == stack || st.fnDepths == stack + [st.depth - 1]
    ensures ScanLine(st, CLOSER) == State(st.depth - 1, stack, st.out)
  {
    PopPush(stack, st.depth - 1);
    assert ScanLine(st, CLOSER).fnDepths == PopTo(st.fnDepths, st.depth - 1);
  }

  lemma PlainKeeps(st: State, isFn: bool, n: nat)
    requires Settled(st)
    ensures ScanLine(st, Line(None, isFn, n, n)) == st
  {
    PopPush(st.fnDepths, st.depth);
  }

  lemma ConstKeeps(st: State, decl: Decl)
    requires Settled(st)
    ensures ScanLine(st, Line(Some(decl), false, 0, 0)) ==
            st.(out := st.out + if st.fnDepths != [] then [] else [decl])
  {
    PopPush(st.fnDepths, st.depth);
  }

  lemma ScannedTwice(st: State, found: seq<Decl>, rest: Items)
    ensures Scanned(st.(out := st.out + found), rest).out == st.out + (found + Kept(rest, st.fnDepths != []))
  {
  }

  lemma BlockKeeps(st: State, isFn: bool, split: bool, body: Items)
    requires Settled(st)
    requires var inner := HeaderState(st, isFn, split); ScanItems(inner, body) == Scanned(inner, body)
    ensures ScanLine(ScanItems(HeaderState(st, isFn, split), body), CLOSER) ==
            st.(out := st.out + Kept(body, st.fnDepths != [] || (isFn && !split)))
  {
    HeaderOpens(st, isFn, split);
    CloserCloses(Scanned(HeaderState(st, isFn, split), body), st.fnDepths);
  }

  lemma ConstScanned(st: State, decl: Decl, rest: Items)
    requires Settled(st)
    requires var mid := ScanLine(st, Line(Some(decl), false, 0, 0)); ScanItems(mid, rest) == Scanned(mid, rest)
    ensures ScanItems(st, Const(decl, rest)) == Scanned(st, Const(decl, rest))
  {
    ConstKeeps(st, decl);
    ScannedTwice(st, if st.fnDepths != [] then [] else [decl], rest);
  }

  lemma BlockScanned(st: State, isFn: bool, split: bool, body: Items, rest: Items)
    requires Settled(st)
    requires var inner := HeaderState(st, isFn, split); ScanItems(inner, body) == Scanned(inner, body)
    requires var mid := st.(out := st.out + Kept(body, st.fnDepths != [] || (isFn && !split)));
             ScanItems(mid, rest) == Scanned(mid, rest)
    ensures ScanItems(st, Block(isFn, split, body, rest)) == Scanned(st, Block(isFn, split, body, rest))
  {
    BlockKeeps(st, isFn, split, body);
    ScannedTwice(st, Kept(body, st.fnDepths != [] || (isFn && !split)), rest);
  }

  lemma {:induction false} ItemsScanned(st: State, items: Items)
    requires Settled(st)
    ensures ScanItems(st, items) == Scanned(st, items)
    decreases items
  {
    match items
    case Nil => assert st.out + [] == st.out;
    case Const(decl, rest) =>
      ConstKeeps(st, decl);
      ItemsScanned(ScanLine(st, Line(Some(decl), false, 0, 0)), rest);
      ConstScanned(st, decl, rest);
    case Plain(isFn, n, rest) =>
      PlainKeeps(st, isFn, n);
      ItemsScanned(st, rest);
    case Block(isFn, split, body, rest) =>
      HeaderOpens(st, isFn, split);
      ItemsScanned(HeaderState(st, isFn, split), body);
      ItemsScanned(st.(out := st.out + Kept(body, st.fnDepths != [] || (isFn && !split))), rest);
      BlockScanned(st, isFn, split, body, rest);
  }

  lemma {:induction false} StrayIsTheDifference(items: Items, inFn: bool, hidden: bool)
    requires hidden ==> inFn
    ensures |Kept(items, hidden)| == |Outside(items, inFn)| + Stray(items, inFn, hidden)
    ensures Stray(items, inFn, hidden) == 0 ==> Kept(items, hidden) == Outside(items, inFn)
  {
    match items
    case Nil =>
    case Const(_, rest) => StrayIsTheDifference(rest, inFn, hidden);
    case Plain(_, _, rest) => StrayIsTheDifference(rest, inFn, hidden);
    case Block(isFn, split, body, rest) =>
      StrayIsTheDifference(body, inFn || isFn, hidden || (isFn && !split));
      StrayIsTheDifference(rest, inFn, hidden);
  }

  /** Over every nested file the scan finds exactly the constants outside functions if and only if no
      constant lies in a function whose signature runs past the line that names it. */
  lemma ModuleConstsAreOutside(items: Items)
    ensures ModuleLevel(Print(items), |Print(items)|) == Outside(items, false) <==> Stray(items, false, false) == 0
  {
    ScanIsModuleLevel(Print(items));
    PrintedIsItems(START, items);
    ItemsScanned(START, items);
    StrayIsTheDifference(items, false, false);
  }

  /** A function-local constant under a two-line signature is counted. */
  lemma SplitSignatureLeaks(decl: Decl)
    ensures var items := Block(true, true, Const(decl, Nil), Nil);
            Outside(items, false) == [] && ModuleLevel(Print(items), |Print(items)|) == [decl]
  {
    var items := Block(true, true, Const(decl, Nil), Nil);
    ScanIsModuleLevel(Print(items));
    PrintedIsItems(START, items);
    ItemsScanned(START, items);
    assert Kept(Const(decl, Nil), false) == [decl];
    assert Outside(Const(decl, Nil), true) == [];
  }
}
