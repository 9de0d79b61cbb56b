/** Injecting violations and restoring from first-write snapshots: scripts/commandments_redteam.py. */
module RedTeam {
  import opened Text
  import opened FileTrees

  /** One step of an injection: an edit around an anchor that must be present, or a new file. */
  datatype Action = Edit(path: Path, anchor: string, replacement: string) | Make(path: Path, text: string)

  /** A case: what it injects, and the files it declares it edits and creates. */
  datatype Case = Case(actions: seq<Action>, paths: seq<Path>, created: seq<Path>)

  /** Every text has an encoding, and encoding and decoding undo each other. */
  ghost predicate Lossless(c: Codec) {
    && (forall t :: c.encode(t).Some? && c.decode(c.encode(t).value) == Some(t))
    && (forall b :: c.decode(b).Some? ==> c.encode(c.decode(b).value) == Some(b))
  }

  ghost predicate DeclaredAction(c: Codec, t: Tree, k: Case, a: Action) {
    match a
    case Edit(p, _, _) => p in k.paths && p in t && c.decode(t[p]).Some?
    case Make(p, _) => p in k.created
  }

  /** The declarations hold: edits stay on declared, existing, decodable files, new files are
      declared and absent, and no file is declared both ways. */
  ghost predicate Declared(c: Codec, t: Tree, k: Case) {
    && (forall a :: a in k.actions ==> DeclaredAction(c, t, k, a))
    && (forall p :: p in k.created ==> p !in t && p !in k.paths)
  }

  /** Every snapshot is of a file of `t`, and only files with a snapshot or in `made` differ from `t`. */
  ghost predicate Tracks(c: Codec, files: Tree, original: map<Path, string>, t: Tree, made: set<Path>) {
    && (forall p :: p in original ==> p in t && c.encode(original[p]) == Some(t[p]))
    && (forall p :: p in t ==> p in files && (files[p] == t[p] || p in original))
    && (forall p :: p in files ==> p in t || p in made)
    && (forall p :: p in made ==> p !in t)
  }

  /** Files with a snapshot hold text the tool wrote, so they decode. */
  ghost predicate Readable(c: Codec, files: Tree, original: map<Path, string>) {
    forall p :: p in original && p in files ==> c.decode(files[p]).Some?
  }

  function Elements(s: seq<Path>): set<Path> { set p | p in s }

  lemma EditTracks(c: Codec, files: Tree, original: map<Path, string>, t: Tree, made: set<Path>, p: Path, bytes: Data)
    requires Lossless(c) && Tracks(c, files, original, t, made) && p in t && c.decode(t[p]).Some?
    ensures var snap := if p in original then original else original[p := c.decode(files[p]).value];
            Tracks(c, files[p := bytes], snap, t, made)
  {
  }

  lemma PutBackTracks(c: Codec, files: Tree, original: map<Path, string>, t: Tree, p: Path)
    requires Tracks(c, files, original, t, {}) && p in original
    ensures Tracks(c, files[p := c.encode(original[p]).value], original - {p}, t, {})
  {
  }

  class Team {
    var files: Tree
    /** `_ORIGINAL`: the text of each file at its first write. */
    var original: map<Path, string>

    constructor (files: Tree)
      ensures this.files == files && original == map[]
    {
      this.files := files;
      original := map[];
    }

    method Snapshot(c: Codec, p: Path)
      requires p in files && c.decode(files[p]).Some?
      modifies this`original
      ensures original == if p in old(original) then old(original) else old(original)[p := c.decode(files[p]).value]
    {
      if p !in original {
        original := original[p := c.decode(files[p]).value];
      }
    }

    /** `edit`: refused, with nothing changed, when the anchor is missing. */
    method DoEdit(c: Codec, p: Path, anchor: string, replacement: string, ghost t: Tree, ghost made: set<Path>)
      returns (ok: bool)
      requires Lossless(c) && Tracks(c, files, original, t, made) && Readable(c, files, original)
      requires p in t && c.decode(t[p]).Some? && p in files && c.decode(files[p]).Some?
      modifies this
      ensures Tracks(c, files, original, t, made) && Readable(c, files, original)
      ensures ok == Find(Universal(c.decode(old(files)[p]).value), anchor, 0).Some?
      ensures !ok ==> files == old(files) && original == old(original)
      ensures ok ==>
                files == old(files)[p := c.encode(
                  ReplaceFirst(Universal(c.decode(old(files)[p]).value), anchor, replacement)).value]
      ensures ok ==> original.Keys == old(original).Keys + {p}
    {
      var s := Universal(c.decode(files[p]).value);
      ok := Find(s, anchor, 0).Some?;
      if ok {
        var bytes := c.encode(ReplaceFirst(s, anchor, replacement)).value;
        EditTracks(c, files, original, t, made, p, bytes);
        Snapshot(c, p);
        files := files[p := bytes];
      }
    }

    /** `create` */
    method DoMake(c: Codec, p: Path, text: string, ghost t: Tree, ghost made: set<Path>)
      requires Lossless(c) && Tracks(c, files, original, t, made) && Readable(c, files, original) && p in made
      modifies this`files
      ensures Tracks(c, files, original, t, made) && Readable(c, files, original)
      ensures files == old(files)[p := c.encode(text).value]
    {
      files := files[p := c.encode(text).value];
    }

    /** The first loop of `restore`. */
    method RemoveCreated(created: seq<Path>)
      modifies this`files
      ensures files == old(files) - Elements(created)
    {
      for i := 0 to |created|
        invariant files == old(files) - Elements(created[..i])
      {
        if created[i] in files { files := files - {created[i]}; }
        assert created[..i + 1] == created[..i] + [created[i]];
        assert Elements(created[..i + 1]) == Elements(created[..i]) + {created[i]};
      }
      assert created[..|created|] == created;
    }

    /** The second loop of `restore`: each snapshot is written back and dropped. */
    method PutBackAll(c: Codec, paths: seq<Path>, ghost t: Tree)
      requires Tracks(c, files, original, t, {}) && Lossless(c)
      requires forall p :: p in original ==> p in paths
      modifies this
      ensures files == t && original == map[]
    {
      for i := 0 to |paths|
        invariant Tracks(c, files, original, t, {})
        invariant forall p :: p in original ==> p in paths[i..]
      {
        var p := paths[i];
        assert paths[i..] == [p] + paths[i + 1..];
        if p in original {
          PutBackTracks(c, files, original, t, p);
          files := files[p := c.encode(original[p]).value];
          original := original - {p};
        }
      }
    }

    /** `restore`: the created files go, and each declared file with a snapshot gets it back. */
    method Restore(c: Codec, paths: seq<Path>, created: seq<Path>, ghost t: Tree)
      requires Lossless(c) && Tracks(c, files, original, t, Elements(created))
      requires forall p :: p in original ==> p in paths
      modifies this
      ensures files == t && original == map[]
    {
      RemoveCreated(created);
      PutBackAll(c, paths, t);
    }

    method DoAction(c: Codec, k: Case, a: Action, ghost t: Tree, ghost made: set<Path>) returns (ok: bool)
      requires Lossless(c) && DeclaredAction(c, t, k, a) && made == Elements(k.created)
      requires Tracks(c, files, original, t, made) && Readable(c, files, original)
      requires forall p :: p in original ==> p in k.paths
      modifies this
      ensures Tracks(c, files, original, t, made) && Readable(c, files, original)
      ensures forall p :: p in original ==> p in k.paths
    {
      match a {
        case Edit(p, anchor, replacement) =>
          ok := DoEdit(c, p, anchor, replacement, t, made);
        case Make(p, text) =>
          DoMake(c, p, text, t, made);
          ok := true;
      }
    }

    /** Inject, and restore whether or not every anchor was found. */
    method RunOne(c: Codec, k: Case) returns (injected: bool)
      requires Lossless(c) && original == map[] && Declared(c, files, k)
      modifies this
      ensures files == old(files) && original == map[]
    {
      ghost var t := files;
      ghost var made := Elements(k.created);
      injected := true;
      var i := 0;
      while i < |k.actions| && injected
        invariant 0 <= i <= |k.actions|
        invariant Tracks(c, files, original, t, made) && Readable(c, files, original)
        invariant forall p :: p in original ==> p in k.paths
      {
        injected := DoAction(c, k, k.actions[i], t, made);
        i := i + 1;
      }
      Restore(c, k.paths, k.created, t);
    }

    /** The loop over the cases: each finds the tree as the run found it. */
    method RunAll(c: Codec, cases: seq<Case>) returns (injected: seq<bool>)
      requires Lossless(c) && original == map[]
      requires forall i :: 0 <= i < |cases| ==> Declared(c, files, cases[i])
      modifies this
      ensures files == old(files) && original == map[] && |injected| == |cases|
    {
      injected := [];
      for i := 0 to |cases|
        invariant files == old(files) && original == map[] && |injected| == i
      {
        var one := RunOne(c, cases[i]);
        injected := injected + [one];
      }
    }
  }

  // --- snapshots against the undo stack ---

  /** Writes over existing files, as both tools make them. */
  datatype Change = Change(path: Path, bytes: Data)

  function Changed(t: Tree, cs: seq<Change>): Tree {
    if cs == [] then t else Changed(t, cs[..|cs| - 1])[cs[|cs| - 1].path := cs[|cs| - 1].bytes]
  }

  /** The bytes each changed file held before its first change. */
  function FirstBytes(t: Tree, cs: seq<Change>): Tree {
    if cs == [] then map[]
    else
      var s, p := FirstBytes(t, cs[..|cs| - 1]), cs[|cs| - 1].path;
      var before := Changed(t, cs[..|cs| - 1]);
      if p in s || p !in before then s else s[p := before[p]]
  }

  /** The undo pushed for each change. */
  function UndoStack(t: Tree, cs: seq<Change>): seq<Undo> {
    if cs == [] then []
    else
      var p, before := cs[|cs| - 1].path, Changed(t, cs[..|cs| - 1]);
      UndoStack(t, cs[..|cs| - 1]) + [if p in before then PutBack(p, before[p]) else Remove(p)]
  }

  lemma {:induction false} ChangedKeys(t: Tree, cs: seq<Change>)
    requires forall i :: 0 <= i < |cs| ==> cs[i].path in t
    ensures Changed(t, cs).Keys == t.Keys
  {
    if cs != [] { ChangedKeys(t, cs[..|cs| - 1]); }
  }

  lemma {:induction false} SnapshotsRestore(t: Tree, cs: seq<Change>)
    requires forall i :: 0 <= i < |cs| ==> cs[i].path in t
    ensures forall p :: p in FirstBytes(t, cs) ==> p in t && FirstBytes(t, cs)[p] == t[p]
    ensures forall p :: p in t && p !in FirstBytes(t, cs) ==> p in Changed(t, cs) && Changed(t, cs)[p] == t[p]
    ensures Changed(t, cs) + FirstBytes(t, cs) == t
  {
    ChangedKeys(t, cs);
    if cs != [] {
      SnapshotsRestore(t, cs[..|cs| - 1]);
      ChangedKeys(t, cs[..|cs| - 1]);
    }
  }

  lemma UndoOfWrite(t: Tree, p: Path, bytes: Data)
    ensures UndoOne(t[p := bytes], if p in t then PutBack(p, t[p]) else Remove(p)) == t
  {
  }

  lemma UnwindSnoc(t: Tree, us: seq<Undo>, u: Undo)
    ensures Unwind(t, us + [u]) == Unwind(UndoOne(t, u), us)
  {
    assert (us + [u])[..|us|] == us;
  }

  lemma {:induction false} UndosRestore(t: Tree, cs: seq<Change>)
    ensures Unwind(Changed(t, cs), UndoStack(t, cs)) == t
  {
    if cs != [] {
      var init, last := cs[..|cs| - 1], cs[|cs| - 1];
      UndosRestore(t, init);
      var before := Changed(t, init);
      UndoOfWrite(before, last.path, last.bytes);
      UnwindSnoc(Changed(t, cs), UndoStack(t, init),
                 if last.path in before then PutBack(last.path, before[last.path]) else Remove(last.path));
    }
  }

  /** First-write snapshots and the last-in first-out stack restore the same tree, the original. */
  lemma SnapshotsAgreeWithUndos(t: Tree, cs: seq<Change>)
    requires forall i :: 0 <= i < |cs| ==> cs[i].path in t
    ensures Changed(t, cs) + FirstBytes(t, cs) == Unwind(Changed(t, cs), UndoStack(t, cs)) == t
  {
    SnapshotsRestore(t, cs);
    UndosRestore(t, cs);
  }
}
