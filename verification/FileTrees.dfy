/** Planting violations into a working tree and taking them out again: the case runner of
    scripts/conform.py. */
module FileTrees {
  import opened Text

  type Path = string
  type Data = seq<int>
  type Tree = map<Path, Data>

  /** UTF-8, with the texts and the bytes it refuses. */
  datatype Codec = Codec(encode: string -> Option<Data>, decode: Data -> Option<string>)

  datatype Mode = Append | Overwrite | Create | Replace

  datatype Plant = Plant(target: Path, mode: Mode, body: string)

  /** How one plant is taken out: the file it made is removed, the bytes it replaced are put back. */
  datatype Undo = Remove(path: Path) | PutBack(path: Path, bytes: Data)

  const WITH := "\n--- with ---\n"

  function StripNewlinesLeft(s: string): string {
    if s != "" && s[0] == NEWLINE then StripNewlinesLeft(s[1..]) else s
  }

  function StripNewlinesRight(s: string): string {
    if s != "" && s[|s| - 1] == NEWLINE then StripNewlinesRight(s[..|s| - 1]) else s
  }

  /** `s.strip("\n")` */
  function StripNewlines(s: string): string { StripNewlinesRight(StripNewlinesLeft(s)) }

  /** `s.count(p)`: occurrences left to right, not overlapping; an empty `p` occurs everywhere. */
  function Count(s: string, p: string): nat
    decreases |s|
  {
    if p == "" then |s| + 1
    else match Find(s, p, 0)
      case None => 0
      case Some(i) => 1 + Count(s[i + |p|..], p)
  }

  /** `s.replace(p, q, 1)` */
  function ReplaceFirst(s: string, p: string, q: string): string {
    match Find(s, p, 0)
    case None => s
    case Some(i) => s[..i] + q + s[i + |p|..]
  }

  /** The text a plant writes, or `None` when it is refused before the file is opened; the inner
      option is `None` when decoding the file fails after it has been opened and emptied. */
  function Planned(c: Codec, original: Data, p: Plant): Option<Option<string>> {
    match p.mode
    case Create => Some(Some(p.body))
    case Overwrite => Some(Some(p.body))
    case Append =>
      (match c.decode(original)
       case None => Some(None)
       case Some(text) => Some(Some(text + p.body)))
    case Replace =>
      (match Find(p.body, WITH, 0)
       case None => None
       case Some(i) =>
         var before := StripNewlines(p.body[..i]);
         var after := StripNewlines(p.body[i + |WITH|..]);
         (match c.decode(original)
          case None => None
          case Some(text) => if Count(text, before) != 1 then None else Some(Some(ReplaceFirst(text, before, after)))))
  }

  /** The bytes a plant ends up writing, `None` when it fails with the file already emptied. */
  function Written(c: Codec, text: Option<string>): Option<Data> {
    match text
    case None => None
    case Some(t) => c.encode(t)
  }

  datatype Applied =
    | Planted(tree: Tree, undo: Undo)
    | Refused(tree: Tree)

  /** `_apply`: opening a file for writing empties it, and only then can the write itself fail. */
  function Apply(c: Codec, t: Tree, p: Plant): Applied {
    if p.mode.Create? == (p.target in t) then Refused(t)
    else
      var original := if p.target in t then t[p.target] else [];
      match Planned(c, original, p)
      case None => Refused(t)
      case Some(text) =>
        match Written(c, text)
        case None => Refused(t[p.target := []])
        case Some(bytes) =>
          Planted(t[p.target := bytes], if p.mode.Create? then Remove(p.target) else PutBack(p.target, original))
  }

  function UndoOne(t: Tree, u: Undo): Tree {
    match u
    case Remove(p) => t - {p}
    case PutBack(p, bytes) => t[p := bytes]
  }

  /** The undos, last first. */
  function Unwind(t: Tree, us: seq<Undo>): Tree
    decreases |us|
  {
    if us == [] then t else Unwind(UndoOne(t, us[|us| - 1]), us[..|us| - 1])
  }

  /** The tree and the undo stack after some plants, and whether one of them was refused. */
  datatype Progress = Progress(tree: Tree, undos: seq<Undo>, refused: bool)

  function PlantAll(c: Codec, t: Tree, ps: seq<Plant>): Progress {
    if ps == [] then Progress(t, [], false)
    else
      var s := PlantAll(c, t, ps[..|ps| - 1]);
      if s.refused then s
      else match Apply(c, s.tree, ps[|ps| - 1])
        case Planted(t', u) => Progress(t', s.undos + [u], false)
        case Refused(t') => Progress(t', s.undos, true)
  }

  /** The tree a case leaves behind. */
  function AfterCase(c: Codec, t: Tree, ps: seq<Plant>): Tree {
    var s := PlantAll(c, t, ps);
    Unwind(s.tree, s.undos)
  }

  /** A working tree on disk, changed by plants. */
  class WorkingTree {
    var files: Tree

    constructor (files: Tree)
      ensures this.files == files
    {
      this.files := files;
    }

    /** `_apply`, returning the undo it would hand back, or `None` where it raises. */
    method ApplyPlant(c: Codec, p: Plant) returns (u: Option<Undo>)
      modifies this
      ensures match Apply(c, old(files), p)
              case Planted(t, undo) => files == t && u == Some(undo)
              case Refused(t) => files == t && u == None
    {
      if p.mode.Create? {
        if p.target in files { return None; }
        files := files[p.target := []];
        var bytes := c.encode(p.body);
        if bytes.None? { return None; }
        files := files[p.target := bytes.value];
        return Some(Remove(p.target));
      }
      if p.target !in files { return None; }
      var original := files[p.target];
      var text: string;
      if p.mode.Replace? {
        var at := Find(p.body, WITH, 0);
        if at.None? { return None; }
        var before := StripNewlines(p.body[..at.value]);
        var after := StripNewlines(p.body[at.value + |WITH|..]);
        var decoded := c.decode(original);
        if decoded.None? { return None; }
        if Count(decoded.value, before) != 1 { return None; }
        files := files[p.target := []];
        text := ReplaceFirst(decoded.value, before, after);
      } else {
        files := files[p.target := []];
        if p.mode.Append? {
          var decoded := c.decode(original);
          if decoded.None? { return None; }
          text := decoded.value + p.body;
        } else {
          text := p.body;
        }
      }
      var bytes := c.encode(text);
      if bytes.None? { return None; }
      files := files[p.target := bytes.value];
      return Some(PutBack(p.target, original));
    }

    /** `_run_case`: plant in order, stop at the first refusal, and always unwind. */
    method RunCase(c: Codec, ps: seq<Plant>) returns (failed: bool)
      modifies this
      ensures files == AfterCase(c, old(files), ps)
      ensures failed == PlantAll(c, old(files), ps).refused
    {
      var undos: seq<Undo> := [];
      var i := 0;
      failed := false;
      while i < |ps| && !failed
        invariant 0 <= i <= |ps|
        invariant Progress(files, undos, failed) == PlantAll(c, old(files), ps[..i])
      {
        assert ps[..i + 1][..i] == ps[..i];
        var u := ApplyPlant(c, ps[i]);
        if u.Some? { undos := undos + [u.value]; } else { failed := true; }
        i := i + 1;
      }
      RefusalStops(c, old(files), ps, i);
      assert Progress(files, undos, failed) == PlantAll(c, old(files), ps);
      while undos != []
        invariant Unwind(files, undos) == AfterCase(c, old(files), ps)
        decreases |undos|
      {
        var u := undos[|undos| - 1];
        match u {
          case Remove(p) => files := files - {p};
          case PutBack(p, bytes) => files := files[p := bytes];
        }
        undos := undos[..|undos| - 1];
      }
    }
  }

  /** Nothing is planted after a refusal. */
  lemma {:induction false} RefusalStops(c: Codec, t: Tree, ps: seq<Plant>, i: nat)
    requires i <= |ps|
    requires i == |ps| || PlantAll(c, t, ps[..i]).refused
    ensures PlantAll(c, t, ps) == PlantAll(c, t, ps[..i])
    decreases |ps| - i
  {
    if i == |ps| {
      assert ps[..i] == ps;
    } else {
      assert ps[..i + 1][..i] == ps[..i];
      RefusalStops(c, t, ps, i + 1);
    }
  }

  // --- what is restored ---

  predicate Touches(us: seq<Undo>, p: Path) { exists i :: 0 <= i < |us| && us[i].path == p }

  /** Opening this file for writing empties it, and the write then fails. */
  predicate FailsOpen(c: Codec, t: Tree, p: Plant) {
    && p.mode.Create? != (p.target in t)
    && var plan := Planned(c, if p.target in t then t[p.target] else [], p);
       plan.Some? && Written(c, plan.value).None?
  }

  /** The plant at `k` is reached, is the first on its file, fails with the file open, and the file
      was not an empty one already: what it held, or that it was absent, is lost. */
  predicate Loses(c: Codec, t: Tree, ps: seq<Plant>, k: nat)
    requires k < |ps|
  {
    && !PlantAll(c, t, ps[..k]).refused
    && (forall j :: 0 <= j < k ==> ps[j].target != ps[k].target)
    && FailsOpen(c, t, ps[k])
    && !(ps[k].target in t && t[ps[k].target] == [])
  }

  lemma TouchesSnoc(us: seq<Undo>, u: Undo, p: Path)
    ensures Touches(us + [u], p) <==> Touches(us, p) || u.path == p
  {
    var all := us + [u];
    if Touches(us, p) {
      var i :| 0 <= i < |us| && us[i].path == p;
      assert all[i].path == p;
    }
    if u.path == p { assert all[|us|].path == p; }
  }

  lemma {:induction false} UnwindElsewhere(t: Tree, us: seq<Undo>, p: Path, bytes: Data)
    ensures !Touches(us, p) ==> Unwind(t[p := bytes], us) == Unwind(t, us)[p := bytes]
    ensures Touches(us, p) ==> Unwind(t[p := bytes], us) == Unwind(t, us)
    decreases |us|
  {
    if us != [] {
      var u, init := us[|us| - 1], us[..|us| - 1];
      assert us == init + [u];
      TouchesSnoc(init, u, p);
      if u.path == p {
        assert UndoOne(t[p := bytes], u) == UndoOne(t, u);
      } else {
        assert UndoOne(t[p := bytes], u) == UndoOne(t, u)[p := bytes];
        UnwindElsewhere(UndoOne(t, u), init, p, bytes);
      }
    }
  }

  /** A plant that goes in changes its own file only, and its undo takes it out again. */
  lemma UndoInverts(c: Codec, t: Tree, p: Plant)
    requires Apply(c, t, p).Planted?
    ensures var r := Apply(c, t, p);
            && UndoOne(r.tree, r.undo) == t && r.undo.path == p.target
            && forall q :: q != p.target ==> (q in r.tree <==> q in t) && (q in t ==> r.tree[q] == t[q])
  {
  }

  /** A file whose bytes are not text, and one plant that appends to it: the file is opened, emptied and then
      found unreadable, and the case leaves it empty. */
  lemma AppendEmptiesBinary(c: Codec, body: string)
    requires c.decode([255]).None?
    ensures AfterCase(c, map["f" := [255]], [Plant("f", Append, body)]) == map["f" := []]
    ensures PlantAll(c, map["f" := [255]], [Plant("f", Append, body)]).refused
  {
    var t: Tree, p := map["f" := [255]], Plant("f", Append, body);
    assert [p][..0] == [];
    assert Apply(c, t, p) == Refused(t["f" := []]);
    assert PlantAll(c, t, [p]) == Progress(t["f" := []], [], true);
  }

  /** The two trees hold the same file, or lack it, at every path the stack does not touch. */
  predicate SameOutside(us: seq<Undo>, a: Tree, b: Tree) {
    && (forall p :: p in a && !Touches(us, p) ==> p in b && a[p] == b[p])
    && (forall p :: p in b && !Touches(us, p) ==> p in a)
  }

  lemma OutsideNext(us: seq<Undo>, u: Undo, was: Tree, now: Tree, t: Tree)
    requires SameOutside(us, was, t)
    requires forall q :: q != u.path ==> (q in now <==> q in was) && (q in was ==> now[q] == was[q])
    ensures SameOutside(us + [u], now, t)
  {
    forall p
      ensures Touches(us + [u], p) <==> Touches(us, p) || u.path == p
    {
      TouchesSnoc(us, u, p);
    }
  }

  /** The last plant of a list that went in: what the run before it reached, and its own change. */
  lemma PlantLast(c: Codec, t: Tree, ps: seq<Plant>)
    requires ps != [] && !PlantAll(c, t, ps).refused
    ensures var s0, s, last := PlantAll(c, t, ps[..|ps| - 1]), PlantAll(c, t, ps), ps[|ps| - 1];
            && !s0.refused && Apply(c, s0.tree, last).Planted?
            && s.tree == Apply(c, s0.tree, last).tree && s.undos == s0.undos + [Apply(c, s0.tree, last).undo]
  {
  }

  lemma {:induction false} PlantsUnwindTree(c: Codec, t: Tree, ps: seq<Plant>)
    requires !PlantAll(c, t, ps).refused
    ensures Unwind(PlantAll(c, t, ps).tree, PlantAll(c, t, ps).undos) == t
  {
    if ps != [] {
      PlantLast(c, t, ps);
      PlantsUnwindTree(c, t, ps[..|ps| - 1]);
      var s0, s := PlantAll(c, t, ps[..|ps| - 1]), PlantAll(c, t, ps);
      UndoInverts(c, s0.tree, ps[|ps| - 1]);
      assert s.undos[..|s.undos| - 1] == s0.undos;
    }
  }

  lemma {:induction false} PlantsNamed(c: Codec, t: Tree, ps: seq<Plant>)
    requires !PlantAll(c, t, ps).refused
    ensures |PlantAll(c, t, ps).undos| == |ps|
    ensures forall i :: 0 <= i < |ps| ==> PlantAll(c, t, ps).undos[i].path == ps[i].target
  {
    if ps != [] {
      PlantLast(c, t, ps);
      PlantsNamed(c, t, ps[..|ps| - 1]);
      UndoInverts(c, PlantAll(c, t, ps[..|ps| - 1]).tree, ps[|ps| - 1]);
    }
  }

  lemma {:induction false} PlantsOutside(c: Codec, t: Tree, ps: seq<Plant>)
    requires !PlantAll(c, t, ps).refused
    ensures SameOutside(PlantAll(c, t, ps).undos, PlantAll(c, t, ps).tree, t)
  {
    if ps != [] {
      PlantLast(c, t, ps);
      PlantsOutside(c, t, ps[..|ps| - 1]);
      var s0, r := PlantAll(c, t, ps[..|ps| - 1]), Apply(c, PlantAll(c, t, ps[..|ps| - 1]).tree, ps[|ps| - 1]);
      UndoInverts(c, s0.tree, ps[|ps| - 1]);
      OutsideNext(s0.undos, r.undo, s0.tree, r.tree, t);
    }
  }

  /** While nothing has been refused, unwinding gives the original tree back, the stack names the
      plants' targets in order, and a file no plant has named is as it was. */
  lemma PlantsUnwind(c: Codec, t: Tree, ps: seq<Plant>)
    requires !PlantAll(c, t, ps).refused
    ensures var s := PlantAll(c, t, ps);
            && Unwind(s.tree, s.undos) == t
            && |s.undos| == |ps|
            && (forall i :: 0 <= i < |ps| ==> s.undos[i].path == ps[i].target)
            && SameOutside(s.undos, s.tree, t)
  {
    PlantsUnwindTree(c, t, ps);
    PlantsNamed(c, t, ps);
    PlantsOutside(c, t, ps);
  }

  lemma TouchedIsNamed(c: Codec, t: Tree, ps: seq<Plant>, k: nat, p: Path)
    requires k <= |ps| && !PlantAll(c, t, ps[..k]).refused
    ensures Touches(PlantAll(c, t, ps[..k]).undos, p) <==> exists j :: 0 <= j < k && ps[j].target == p
  {
    PlantsUnwind(c, t, ps[..k]);
    var us := PlantAll(c, t, ps[..k]).undos;
    assert forall j :: 0 <= j < k ==> us[j].path == ps[..k][j].target == ps[j].target;
    if j :| 0 <= j < k && ps[j].target == p { assert us[j].path == p; }
  }

  /** At a file no earlier plant has named, a plant meets the original file. */
  lemma FirstMeetsOriginal(c: Codec, t: Tree, ps: seq<Plant>, k: nat)
    requires k < |ps| && !PlantAll(c, t, ps[..k]).refused
    requires forall j :: 0 <= j < k ==> ps[j].target != ps[k].target
    ensures FailsOpen(c, PlantAll(c, t, ps[..k]).tree, ps[k]) == FailsOpen(c, t, ps[k])
  {
    PlantsUnwind(c, t, ps[..k]);
    TouchedIsNamed(c, t, ps, k, ps[k].target);
  }

  lemma RefusedTree(c: Codec, t: Tree, p: Plant)
    requires Apply(c, t, p).Refused?
    ensures Apply(c, t, p).tree == if FailsOpen(c, t, p) then t[p.target := []] else t
  {
  }

  /** A refusal at the plant after `ps`: what the unwinding then leaves. */
  lemma RefusalLeaves(c: Codec, t: Tree, ps: seq<Plant>, k: nat)
    requires k < |ps| && !PlantAll(c, t, ps[..k]).refused
    requires Apply(c, PlantAll(c, t, ps[..k]).tree, ps[k]).Refused?
    ensures AfterCase(c, t, ps) == if Loses(c, t, ps, k) then t[ps[k].target := []] else t
  {
    var s, p := PlantAll(c, t, ps[..k]), ps[k];
    PlantsUnwind(c, t, ps[..k]);
    assert ps[..k + 1][..k] == ps[..k];
    RefusalStops(c, t, ps, k + 1);
    RefusedTree(c, s.tree, p);
    UnwindElsewhere(s.tree, s.undos, p.target, []);
    TouchedIsNamed(c, t, ps, k, p.target);
    if !Touches(s.undos, p.target) {
      FirstMeetsOriginal(c, t, ps, k);
      if p.target in t && t[p.target] == [] { assert t[p.target := []] == t; }
    }
  }

  lemma {:induction false} FirstRefusal(c: Codec, t: Tree, ps: seq<Plant>) returns (k: nat)
    requires PlantAll(c, t, ps).refused
    ensures k < |ps| && !PlantAll(c, t, ps[..k]).refused
    ensures Apply(c, PlantAll(c, t, ps[..k]).tree, ps[k]).Refused?
  {
    var init := ps[..|ps| - 1];
    if PlantAll(c, t, init).refused {
      k := FirstRefusal(c, t, init);
      assert init[..k] == ps[..k];
    } else {
      k := |ps| - 1;
    }
  }

  /** For every list of plants, in any mix, on any targets, refused anywhere: the tree is left
      byte for byte as it was found, except exactly when a plant loses the file it opens. */
  lemma CaseRestoresExactly(c: Codec, t: Tree, ps: seq<Plant>)
    ensures AfterCase(c, t, ps) == t <==> forall k :: 0 <= k < |ps| ==> !Loses(c, t, ps, k)
  {
    if !PlantAll(c, t, ps).refused {
      PlantsUnwind(c, t, ps);
      forall k | 0 <= k < |ps| ensures !Loses(c, t, ps, k) {
        if Loses(c, t, ps, k) { LosingIsRefused(c, t, ps, k); }
      }
    } else {
      var k := FirstRefusal(c, t, ps);
      RefusalLeaves(c, t, ps, k);
      if Loses(c, t, ps, k) {
        assert AfterCase(c, t, ps) != t;
      } else {
        forall j | 0 <= j < |ps| ensures !Loses(c, t, ps, j) {
          if Loses(c, t, ps, j) {
            LosingIsRefused(c, t, ps, j);
            if j < k { PrefixNotRefused(c, t, ps, j + 1, k); }
            if k < j { assert ps[..k + 1][..k] == ps[..k]; PrefixNotRefused(c, t, ps, k + 1, j); }
          }
        }
      }
    }
  }

  lemma {:induction false} PrefixNotRefused(c: Codec, t: Tree, ps: seq<Plant>, j: nat, k: nat)
    requires j <= k <= |ps| && !PlantAll(c, t, ps[..k]).refused
    ensures !PlantAll(c, t, ps[..j]).refused
    decreases k - j
  {
    if j < k {
      assert ps[..k][..k - 1] == ps[..k - 1];
      PrefixNotRefused(c, t, ps, j, k - 1);
    }
  }

  lemma LosingIsRefused(c: Codec, t: Tree, ps: seq<Plant>, k: nat)
    requires k < |ps| && Loses(c, t, ps, k)
    ensures PlantAll(c, t, ps[..k + 1]).refused && PlantAll(c, t, ps).refused
  {
    FirstMeetsOriginal(c, t, ps, k);
    assert ps[..k + 1][..k] == ps[..k];
    RefusalStops(c, t, ps, k + 1);
  }
}
