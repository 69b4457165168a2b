/** An explicit filesystem value: a map from absolute paths to directory or file nodes, with the
    lexical walk that visits it and the two operations the renderer writes through. */
module FileSystems {
  import opened Wrappers
  import opened Errors
  import opened Orders
  import opened Paths

  datatype Node = Dir | File(content: string)

  type FileSystem = map<Path, Node>

  /** Every non-root key sits in a directory. */
  ghost predicate Closed(fs: FileSystem) {
    forall p :: p in fs && |p| > 0 ==> DirName(p) in fs && fs[DirName(p)] == Dir
  }

  /** A tree: closed, and every key is made of proper names. */
  ghost predicate WellFormed(fs: FileSystem) {
    && Closed(fs)
    && (forall p :: p in fs ==> Segments(p))
  }

  /** In a closed filesystem every proper prefix of a key is a directory. */
  lemma {:induction false} AncestorIsDir(fs: FileSystem, p: Path, k: nat)
    requires Closed(fs) && p in fs && k < |p|
    ensures p[..k] in fs && fs[p[..k]] == Dir
    decreases |p| - k
  {
    var up := DirName(p);
    assert up in fs && fs[up] == Dir;
    if k < |up| {
      AncestorIsDir(fs, up, k);
      assert up[..k] == p[..k];
    } else {
      assert up == p[..k];
    }
  }

  /** The keys at or below `root`. */
  ghost function Under(fs: FileSystem, root: Path): set<Path> {
    set p | p in fs.Keys && IsPrefix(root, p)
  }

  /** The paths afero.Walk visits from `root`: the root, then each directory's entries in
      sorted order, each directory followed at once by its own contents. */
  ghost function Walk(fs: FileSystem, root: Path): (w: seq<Path>)
    ensures forall p :: p in w <==> p in fs && IsPrefix(root, p)
    ensures Increasing(w, PathLess)
  {
    PathLessIsStrictTotal();
    Sort(Under(fs, root), PathLess)
  }

  /** The walk is a pre-order: it starts at the root and visits a path before anything below it. */
  lemma WalkIsPreOrder(fs: FileSystem, root: Path, i: int, j: int)
    requires 0 <= i < |Walk(fs, root)| && 0 <= j < |Walk(fs, root)|
    requires var w := Walk(fs, root); IsPrefix(w[i], w[j]) && w[i] != w[j]
    ensures i < j
  {
    var w := Walk(fs, root);
    PathLessIsStrictTotal();
    LexPrefix(w[i], w[j], NameLess);
    if j < i {
      assert PathLess(w[j], w[i]);
      NameLessIsStrictTotal();
      LexTransitive(w[i], w[j], w[i], NameLess);
      LexIrreflexive(w[i], NameLess);
    }
  }

  /** Each walked path is visited once. */
  lemma WalkVisitsOnce(fs: FileSystem, root: Path, i: int, j: int)
    requires 0 <= i < |Walk(fs, root)| && 0 <= j < |Walk(fs, root)| && i != j
    ensures Walk(fs, root)[i] != Walk(fs, root)[j]
  {
    PathLessIsStrictTotal();
    IncreasingDistinct(Walk(fs, root), PathLess, i, j);
  }

  /** No prefix of `p` is a file. */
  ghost predicate NoFileOnPath(fs: FileSystem, p: Path) {
    forall k :: 0 <= k <= |p| && p[..k] in fs ==> fs[p[..k]] == Dir
  }

  /** Every prefix of `p` is a directory. */
  ghost predicate DirsOnPath(fs: FileSystem, p: Path) {
    forall k :: 0 <= k <= |p| ==> p[..k] in fs && fs[p[..k]] == Dir
  }

  /** os.MkdirAll: create `p` and every missing directory above it; stop silently at a file. */
  function MkdirAll(fs: FileSystem, p: Path): (r: FileSystem)
    ensures forall q :: q in fs ==> q in r && r[q] == fs[q]
    ensures forall q :: q in r && q !in fs ==> IsPrefix(q, p) && r[q] == Dir
    ensures Closed(fs) ==> Closed(r)
    ensures Closed(fs) && NoFileOnPath(fs, p) ==> DirsOnPath(r, p)
    decreases |p|
  {
    if p in fs then
      ExistingPathIsDirs(fs, p);
      fs
    else if |p| == 0 then fs[p := Dir]
    else
      var up := MkdirAll(fs, DirName(p));
      NoFileOnParent(fs, p);
      ParentPrefixes(up, fs, p);
      if DirName(p) in up && up[DirName(p)] == Dir then
        DirsOnPathExtend(up, p);
        up[p := Dir]
      else
        assert DirName(p) == p[..|p| - 1];
        up
  }

  lemma ExistingPathIsDirs(fs: FileSystem, p: Path)
    requires p in fs
    ensures Closed(fs) && NoFileOnPath(fs, p) ==> DirsOnPath(fs, p)
  {
    if Closed(fs) && NoFileOnPath(fs, p) {
      forall k | 0 <= k <= |p| ensures p[..k] in fs && fs[p[..k]] == Dir {
        if k < |p| { AncestorIsDir(fs, p, k); } else { assert p[..k] == p; }
      }
    }
  }

  lemma NoFileOnParent(fs: FileSystem, p: Path)
    requires |p| > 0
    ensures NoFileOnPath(fs, p) ==> NoFileOnPath(fs, DirName(p))
  {
    if NoFileOnPath(fs, p) {
      forall k | 0 <= k <= |DirName(p)| && DirName(p)[..k] in fs
        ensures fs[DirName(p)[..k]] == Dir
      {
        assert DirName(p)[..k] == p[..k];
      }
    }
  }

  /** What lies on the way to the parent lies on the way to `p`. */
  lemma ParentPrefixes(up: FileSystem, fs: FileSystem, p: Path)
    requires |p| > 0
    requires forall q :: q in up && q !in fs ==> IsPrefix(q, DirName(p))
    ensures forall q :: q in up && q !in fs ==> IsPrefix(q, p)
  {
    forall q | q in up && q !in fs ensures IsPrefix(q, p) {
      assert p[..|DirName(p)|] == DirName(p);
      assert p[..|q|] == DirName(p)[..|q|];
    }
  }

  lemma DirsOnPathExtend(up: FileSystem, p: Path)
    requires |p| > 0 && DirName(p) in up && up[DirName(p)] == Dir
    ensures DirsOnPath(up, DirName(p)) ==> DirsOnPath(up[p := Dir], p)
  {
    var r := up[p := Dir];
    if DirsOnPath(up, DirName(p)) {
      forall k | 0 <= k <= |p| ensures p[..k] in r && r[p[..k]] == Dir {
        if k < |p| {
          assert p[..k] == DirName(p)[..k];
        } else {
          assert p[..k] == p;
        }
      }
    }
  }

  /** In a closed filesystem with no file in the way, MkdirAll leaves `p` a directory. */
  lemma MkdirAllMakesDir(fs: FileSystem, p: Path)
    requires Closed(fs) && NoFileOnPath(fs, p)
    ensures p in MkdirAll(fs, p) && MkdirAll(fs, p)[p] == Dir
  {
    assert p[..|p|] == p;
  }

  /** Creating directories that already exist changes nothing. */
  lemma {:induction false} MkdirAllIdempotent(fs: FileSystem, p: Path)
    ensures MkdirAll(MkdirAll(fs, p), p) == MkdirAll(fs, p)
    decreases |p|
  {
    var r := MkdirAll(fs, p);
    if p !in fs && |p| > 0 {
      var up := MkdirAll(fs, DirName(p));
      MkdirAllIdempotent(fs, DirName(p));
      if DirName(p) in up && up[DirName(p)] == Dir {
        assert p in r;
      } else {
        assert r == up;
        assert p !in r;
      }
    }
  }

  /** fs.Create: an empty file at `p`, replacing a file there; fails on a directory or when the
      parent is not a directory. */
  function Create(fs: FileSystem, p: Path): (r: Result<FileSystem, Error>)
    ensures r.Success? <==>
              |p| > 0 && (p in fs ==> fs[p].File?) && DirName(p) in fs && fs[DirName(p)] == Dir
    ensures r.Success? ==> r.value == fs[p := File("")]
    ensures r.Failure? ==> r.error == CreateFailed(p)
  {
    if |p| == 0 || (p in fs && fs[p] == Dir) then Failure(CreateFailed(p))
    else if DirName(p) !in fs || fs[DirName(p)] != Dir then Failure(CreateFailed(p))
    else Success(fs[p := File("")])
  }
}
