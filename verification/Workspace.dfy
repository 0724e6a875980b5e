/** The loop that re-seeds the verification files before every oracle run, on a tree of files and
    directories. Where a path of the request leads is the file system's business, so it is a parameter;
    a path that leaves the workspace leads nowhere. */
module Workspaces {
  import opened Wrappers

  /** A place below the root of the workspace, name by name; the root is the empty path. */
  type Path = seq<string>

  /** A verification file as the request gives it. */
  datatype SeedFile = SeedFile(path: string, content: string)

  type Resolver = string -> Option<Path>

  function Ancestors(t: Path): set<Path> {
    set k | 0 <= k < |t| :: t[..k]
  }

  datatype Tree = Tree(files: map<Path, string>, dirs: set<Path>) {
    /** Everything lies in directories, and nothing is both. */
    ghost predicate Valid() {
      && [] in dirs
      && (forall p | p in files :: p !in dirs)
      && (forall p, k | (p in files || p in dirs) && 0 <= k < |p| :: p[..k] in dirs)
    }

    /** A file can be written here: this is no directory, and no file stands where a directory would
        have to be. */
    predicate Fits(t: Path) {
      t !in dirs && forall k | 0 <= k < |t| :: t[..k] !in files
    }

    /** With the directories it takes. */
    function Write(t: Path, content: string): Tree {
      Tree(files[t := content], dirs + Ancestors(t))
    }
  }

  const EMPTY := Tree(map[], {[]})

  /** The tree after writing the entries in order, and whether the loop ran through. Making a
      directory where a file stands raises, and so does writing to a directory. */
  function Written(resolve: Resolver, tree: Tree, entries: seq<SeedFile>): (Tree, bool)
    decreases |entries|
  {
    if entries == [] then (tree, true)
    else
      var target := resolve(entries[0].path);
      if target.None? || !tree.Fits(target.value) then (tree, false)
      else Written(resolve, tree.Write(target.value, entries[0].content), entries[1..])
  }

  class Workspace {
    var files: map<Path, string>
    var dirs: set<Path>

    function View(): Tree
      reads this
    {
      Tree(files, dirs)
    }

    constructor ()
      ensures View() == EMPTY
    {
      files, dirs := map[], {[]};
    }

    /** Makes the directories of `t` and writes the file, or raises and changes nothing. */
    method WriteFile(t: Path, content: string) returns (raised: bool)
      modifies this
      ensures raised <==> !old(View()).Fits(t)
      ensures View() == if raised then old(View()) else old(View()).Write(t, content)
    {
      raised := !View().Fits(t);
      if !raised {
        dirs := dirs + Ancestors(t);
        files := files[t := content];
      }
    }

    /** Stops at the first entry that cannot be written; what was written before it stays. */
    method Reseed(entries: seq<SeedFile>, resolve: Resolver) returns (raised: bool)
      modifies this
      ensures (View(), !raised) == Written(resolve, old(View()), entries)
    {
      var i := 0;
      while i < |entries|
        invariant 0 <= i <= |entries|
        invariant Written(resolve, View(), entries[i..]) == Written(resolve, old(View()), entries)
      {
        var target := resolve(entries[i].path);
        if target.None? {
          return true;
        }
        raised := WriteFile(target.value, entries[i].content);
        if raised {
          return;
        }
        assert entries[i..][1..] == entries[i + 1..];
        i := i + 1;
      }
      raised := false;
    }
  }

  // ---------- when the loop runs through ----------

  predicate StaysInside(resolve: Resolver, entries: seq<SeedFile>) {
    forall e | e in entries :: resolve(e.path).Some?
  }

  /** No target is a directory, none lies below a file, and none lies below another. */
  predicate Compatible(resolve: Resolver, tree: Tree, entries: seq<SeedFile>)
    requires StaysInside(resolve, entries)
  {
    && (forall e | e in entries :: tree.Fits(resolve(e.path).value))
    && (forall e, f | e in entries && f in entries :: !(resolve(e.path).value < resolve(f.path).value))
  }

  lemma FitsAfterWrite(tree: Tree, t: Path, content: string, u: Path)
    ensures tree.Write(t, content).Fits(u) <==> tree.Fits(u) && !(u < t) && !(t < u)
  {
    assert u in Ancestors(t) <==> u < t by {
      assert u < t ==> u == t[..|u|];
    }
    assert t < u ==> u[..|t|] == t;
  }

  lemma WriteKeepsValid(tree: Tree, t: Path, content: string)
    requires tree.Valid() && tree.Fits(t)
    ensures tree.Write(t, content).Valid()
  {
    var after := tree.Write(t, content);
    forall p, k | (p in after.files || p in after.dirs) && 0 <= k < |p| ensures p[..k] in after.dirs {
      if p in Ancestors(t) {
        assert p[..k] == t[..k];
      }
    }
  }

  /** The loop runs through exactly if every path stays inside and the targets fit the tree and each
      other. */
  lemma {:induction false} RunsThroughIff(resolve: Resolver, tree: Tree, entries: seq<SeedFile>)
    ensures Written(resolve, tree, entries).1 <==> StaysInside(resolve, entries) && Compatible(resolve, tree, entries)
    decreases |entries|
  {
    if entries != [] {
      var first, rest := entries[0], entries[1..];
      assert first in entries && forall e | e in rest :: e in entries;
      assert forall e | e in entries :: e == first || e in rest;
      if resolve(first.path).Some? && tree.Fits(resolve(first.path).value) {
        RunsThroughIff(resolve, tree.Write(resolve(first.path).value, first.content), rest);
        if StaysInside(resolve, rest) {
          CompatibleCons(resolve, tree, first, rest);
          assert entries == [first] + rest;
        }
      }
    }
  }

  lemma CompatibleCons(resolve: Resolver, tree: Tree, first: SeedFile, rest: seq<SeedFile>)
    requires resolve(first.path).Some? && StaysInside(resolve, rest) && tree.Fits(resolve(first.path).value)
    ensures StaysInside(resolve, [first] + rest)
    ensures Compatible(resolve, tree.Write(resolve(first.path).value, first.content), rest) <==>
            Compatible(resolve, tree, [first] + rest)
  {
    var t, entries := resolve(first.path).value, [first] + rest;
    assert first in entries && forall e | e in rest :: e in entries;
    assert forall e | e in entries :: e == first || e in rest;
    forall e | e in rest
      ensures var u := resolve(e.path).value;
              tree.Write(t, first.content).Fits(u) <==> tree.Fits(u) && !(u < t) && !(t < u)
    {
      FitsAfterWrite(tree, t, first.content, resolve(e.path).value);
    }
  }

  // ---------- what is in place afterwards ----------

  /** The file an entry is meant for holds its content. */
  predicate InPlace(resolve: Resolver, tree: Tree, e: SeedFile) {
    var target := resolve(e.path);
    target.Some? && target.value in tree.files && tree.files[target.value] == e.content
  }

  /** What the entries say each file holds; of two entries for one file the later counts. */
  function Seeds(resolve: Resolver, entries: seq<SeedFile>): map<Path, string>
    requires StaysInside(resolve, entries)
  {
    if entries == [] then map[]
    else
      assert entries[0] in entries && forall e | e in entries[1..] :: e in entries;
      map[resolve(entries[0].path).value := entries[0].content] + Seeds(resolve, entries[1..])
  }

  lemma Overwrite(files: map<Path, string>, t: Path, content: string, seeds: map<Path, string>)
    ensures files[t := content] + seeds == files + (map[t := content] + seeds)
  {
  }

  /** A loop that ran through leaves the files as they were, overwritten by the seeds. */
  lemma {:induction false} FilesAreOverwritten(resolve: Resolver, tree: Tree, entries: seq<SeedFile>)
    requires StaysInside(resolve, entries) && Written(resolve, tree, entries).1
    ensures Written(resolve, tree, entries).0.files == tree.files + Seeds(resolve, entries)
    decreases |entries|
  {
    if entries != [] {
      var first, rest := entries[0], entries[1..];
      assert first in entries && forall e | e in rest :: e in entries;
      var t := resolve(first.path).value;
      FilesAreOverwritten(resolve, tree.Write(t, first.content), rest);
      Overwrite(tree.files, t, first.content, Seeds(resolve, rest));
    }
  }

  lemma {:induction false} SeedsAt(resolve: Resolver, entries: seq<SeedFile>, file: Path)
    requires StaysInside(resolve, entries)
    ensures file in Seeds(resolve, entries) <==> exists e | e in entries :: resolve(e.path) == Some(file)
    ensures file in Seeds(resolve, entries) ==>
              exists e | e in entries :: resolve(e.path) == Some(file) && e.content == Seeds(resolve, entries)[file]
  {
    if entries != [] {
      var first, rest := entries[0], entries[1..];
      assert first in entries && forall e | e in rest :: e in entries;
      assert forall e | e in entries :: e == first || e in rest;
      SeedsAt(resolve, rest, file);
    }
  }

  /** No two verification files with different contents lead to the same file. */
  predicate NoClash(resolve: Resolver, entries: seq<SeedFile>) {
    forall e, f | e in entries && f in entries :: resolve(e.path) == resolve(f.path) ==> e.content == f.content
  }

  lemma SeededIff(resolve: Resolver, tree: Tree, entries: seq<SeedFile>)
    requires StaysInside(resolve, entries) && Written(resolve, tree, entries).1
    ensures var after := Written(resolve, tree, entries).0;
            (forall e | e in entries :: InPlace(resolve, after, e)) <==> NoClash(resolve, entries)
  {
    FilesAreOverwritten(resolve, tree, entries);
    var after := Written(resolve, tree, entries).0;
    forall e | e in entries ensures NoClash(resolve, entries) ==> InPlace(resolve, after, e) {
      SeedsAt(resolve, entries, resolve(e.path).value);
    }
  }

  /** The entry at which the loop raised is not in place. */
  lemma {:induction false} RaisingEntry(resolve: Resolver, tree: Tree, entries: seq<SeedFile>)
    requires tree.Valid() && !Written(resolve, tree, entries).1
    ensures exists e | e in entries :: !InPlace(resolve, Written(resolve, tree, entries).0, e)
    decreases |entries|
  {
    var first, rest := entries[0], entries[1..];
    assert first in entries && forall e | e in rest :: e in entries;
    var target := resolve(first.path);
    if target.Some? && tree.Fits(target.value) {
      WriteKeepsValid(tree, target.value, first.content);
      RaisingEntry(resolve, tree.Write(target.value, first.content), rest);
    } else {
      assert !InPlace(resolve, tree, first);
    }
  }

  /** Every verification file is in place afterwards exactly if every path stays inside, the targets
      fit the tree and each other, and no two files with different contents share one. */
  lemma AllInPlaceIff(resolve: Resolver, tree: Tree, entries: seq<SeedFile>)
    requires tree.Valid()
    ensures var after := Written(resolve, tree, entries).0;
            (forall e | e in entries :: InPlace(resolve, after, e)) <==>
            && StaysInside(resolve, entries)
            && Compatible(resolve, tree, entries)
            && NoClash(resolve, entries)
  {
    RunsThroughIff(resolve, tree, entries);
    if Written(resolve, tree, entries).1 {
      SeededIff(resolve, tree, entries);
    } else {
      RaisingEntry(resolve, tree, entries);
    }
  }

  predicate SameAt(a: map<Path, string>, b: map<Path, string>, file: Path) {
    (file in a <==> file in b) && (file in a && file in b ==> a[file] == b[file])
  }

  predicate IsTarget(resolve: Resolver, entries: seq<SeedFile>, file: Path) {
    exists e | e in entries :: resolve(e.path) == Some(file)
  }

  /** No other file ever changes, whether the loop runs through or not. */
  lemma {:induction false} OthersStay(resolve: Resolver, tree: Tree, entries: seq<SeedFile>, file: Path)
    requires !IsTarget(resolve, entries, file)
    ensures SameAt(tree.files, Written(resolve, tree, entries).0.files, file)
    decreases |entries|
  {
    if entries != [] {
      var first, rest := entries[0], entries[1..];
      assert first in entries && forall e | e in rest :: e in entries;
      if resolve(first.path).Some? && tree.Fits(resolve(first.path).value) {
        OthersStay(resolve, tree.Write(resolve(first.path).value, first.content), rest, file);
      }
    }
  }

  /** Whatever was done to the verification files: if the loop runs through on both trees, the oracle
      finds the same files as if nothing had been done to them. */
  lemma TamperingIsUndone(resolve: Resolver, honest: Tree, tampered: Tree, entries: seq<SeedFile>)
    requires forall file | !IsTarget(resolve, entries, file) :: SameAt(honest.files, tampered.files, file)
    ensures Written(resolve, honest, entries).1 && Written(resolve, tampered, entries).1 ==>
              Written(resolve, honest, entries).0.files == Written(resolve, tampered, entries).0.files
  {
    if Written(resolve, honest, entries).1 && Written(resolve, tampered, entries).1 {
      RunsThroughIff(resolve, honest, entries);
      FilesAreOverwritten(resolve, honest, entries);
      FilesAreOverwritten(resolve, tampered, entries);
      var seeds := Seeds(resolve, entries);
      forall file ensures file in seeds <==> IsTarget(resolve, entries, file) {
        SeedsAt(resolve, entries, file);
      }
      SameOutside(honest.files, tampered.files, seeds);
    }
  }

  lemma SameOutside(a: map<Path, string>, b: map<Path, string>, seeds: map<Path, string>)
    requires forall file | file !in seeds :: SameAt(a, b, file)
    ensures a + seeds == b + seeds
  {
    forall file ensures SameAt(a + seeds, b + seeds, file) {
      assert file !in seeds ==> SameAt(a, b, file);
    }
    assert forall file :: file in a + seeds <==> file in b + seeds by {
      forall file ensures file in a + seeds <==> file in b + seeds { assert SameAt(a + seeds, b + seeds, file); }
    }
    assert forall file | file in a + seeds :: (a + seeds)[file] == (b + seeds)[file] by {
      forall file | file in a + seeds ensures (a + seeds)[file] == (b + seeds)[file] {
        assert SameAt(a + seeds, b + seeds, file);
      }
    }
  }

  // ---------- requests that go wrong ----------

  /** Two paths for one file: the loop runs through, and the first file is not in place. */
  lemma ClashingPaths(resolve: Resolver)
    requires resolve("a") == resolve("./a") == Some(["a"])
    ensures var entries := [SeedFile("a", "x"), SeedFile("./a", "y")];
            var (after, through) := Written(resolve, EMPTY, entries);
            through && !InPlace(resolve, after, entries[0])
  {
    var entries := [SeedFile("a", "x"), SeedFile("./a", "y")];
    var once := EMPTY.Write(["a"], "x");
    FitsAfterWrite(EMPTY, ["a"], "x", ["a"]);
    assert entries[1..] == [SeedFile("./a", "y")] && entries[1..][1..] == [];
    assert Written(resolve, once, entries[1..]) == (once.Write(["a"], "y"), true);
    assert "x"[0] != "y"[0];
  }

  /** A file and a file below it: the loop raises in either order. */
  lemma NestedPaths(resolve: Resolver)
    requires resolve("a") == Some(["a"]) && resolve("a/b") == Some(["a", "b"])
    ensures !Written(resolve, EMPTY, [SeedFile("a", "x"), SeedFile("a/b", "y")]).1
    ensures !Written(resolve, EMPTY, [SeedFile("a/b", "y"), SeedFile("a", "x")]).1
  {
    var a, b := SeedFile("a", "x"), SeedFile("a/b", "y");
    assert ["a"] < ["a", "b"];
    RunsThroughIff(resolve, EMPTY, [a, b]);
    RunsThroughIff(resolve, EMPTY, [b, a]);
    assert a in [a, b] && b in [a, b] && a in [b, a] && b in [b, a];
  }
}
