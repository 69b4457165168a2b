/** The project provider: where the configuration text and the template files come from, and
    the handler protocol that feeds files to the renderer one at a time. */
module ProjectProvider {
  import opened Wrappers
  import opened Errors
  import opened Orders
  import opened Paths
  import opened FileSystems

  /** The configuration file's fixed name in the project folder. */
  const ConfigFileName: string := "bp.yaml"

  /** The arguments of one handler call: the directory relative to the project folder (empty
      for "."), the base name, and the file's content. */
  datatype Entry = Entry(dir: Path, name: string, content: string)

  /** The directory and the name joined back into one relative path. */
  function RelPath(e: Entry): Path {
    e.dir + [e.name]
  }

  /** One handler call: the state it leaves behind and the error it returned, if any. */
  datatype Step<S> = Step(state: S, failure: Option<Error>)

  /** A finished enumeration: the final state, how many entries reached the handler, and the
      handler error that stopped it, if any. */
  datatype Walked<S> = Walked(state: S, handled: nat, failure: Option<Error>)

  /** The state after handing every entry to `h` in turn, paying no attention to errors. */
  function Apply<S>(es: seq<Entry>, h: (S, Entry) -> Step<S>, s: S): S
    decreases |es|
  {
    if |es| == 0 then s else Apply(es[1..], h, h(s, es[0]).state)
  }

  /** The `i`-th handler call when the earlier ones all ran. */
  function StepAt<S>(es: seq<Entry>, h: (S, Entry) -> Step<S>, s: S, i: nat): Step<S>
    requires i < |es|
  {
    h(Apply(es[..i], h, s), es[i])
  }

  lemma ApplyCons<S>(es: seq<Entry>, h: (S, Entry) -> Step<S>, s: S, k: nat)
    requires 0 < |es| && k < |es|
    ensures Apply(es[..k + 1], h, s) == Apply(es[1..][..k], h, h(s, es[0]).state)
    ensures k + 1 < |es| ==> StepAt(es, h, s, k + 1) == StepAt(es[1..], h, h(s, es[0]).state, k)
  {
    assert es[..k + 1][0] == es[0];
    assert es[..k + 1][1..] == es[1..][..k];
  }

  /** Handling one more entry extends the state of the prefix by that entry's call. */
  lemma {:induction false} ApplySnoc<S>(es: seq<Entry>, h: (S, Entry) -> Step<S>, s: S, k: nat)
    requires k < |es|
    ensures Apply(es[..k + 1], h, s) == StepAt(es, h, s, k).state
    decreases k
  {
    var s1 := h(s, es[0]).state;
    ApplyCons(es, h, s, k);
    if k == 0 {
      assert es[..0] == [] && es[1..][..0] == [];
    } else {
      ApplySnoc(es[1..], h, s1, k - 1);
      ApplyCons(es, h, s, k - 1);
    }
  }

  /** The handler protocol of ProcessFiles: entries go to the handler one at a time, in order;
      the first error stops the enumeration and is returned, and no later entry is handled. */
  function Drive<S>(es: seq<Entry>, h: (S, Entry) -> Step<S>, s: S): (r: Walked<S>)
    ensures r.handled <= |es|
    ensures r.state == Apply(es[..r.handled], h, s)
    ensures forall i :: 0 <= i < r.handled ==>
              StepAt(es, h, s, i).failure == (if i == r.handled - 1 then r.failure else None)
    ensures r.failure.None? ==> r.handled == |es|
    ensures r.failure.Some? ==> r.handled > 0
    decreases |es|
  {
    if |es| == 0 then Walked(s, 0, None)
    else
      var first := h(s, es[0]);
      assert StepAt(es, h, s, 0) == first by { assert es[..0] == []; }
      if first.failure.Some? then
        assert Apply(es[..1], h, s) == first.state by { ApplyCons(es, h, s, 0); }
        Walked(first.state, 1, first.failure)
      else
        var rest := Drive(es[1..], h, first.state);
        ApplyCons(es, h, s, rest.handled);
        assert forall i :: 0 < i < rest.handled + 1 ==>
                 StepAt(es, h, s, i) == StepAt(es[1..], h, first.state, i - 1) by {
          forall i | 0 < i < rest.handled + 1
            ensures StepAt(es, h, s, i) == StepAt(es[1..], h, first.state, i - 1)
          {
            ApplyCons(es, h, s, i - 1);
          }
        }
        Walked(rest.state, rest.handled + 1, rest.failure)
  }

  /** The calls for a prefix of the entries are the calls for the whole. */
  lemma StepAtPrefix<S>(es: seq<Entry>, h: (S, Entry) -> Step<S>, s: S, i: nat, j: nat)
    requires j < i <= |es|
    ensures StepAt(es[..i], h, s, j) == StepAt(es, h, s, j)
  {
    assert es[..i][..j] == es[..j];
  }

  /** The first handler error ends the enumeration: the entries up to and including the failing
      one were handled, and that error is the one returned. */
  lemma DriveStopsAtFirstError<S>(es: seq<Entry>, h: (S, Entry) -> Step<S>, s: S, i: nat)
    requires i < |es|
    requires forall j :: 0 <= j < i ==> StepAt(es, h, s, j).failure == None
    requires StepAt(es, h, s, i).failure.Some?
    ensures Drive(es, h, s) == Walked(Apply(es[..i + 1], h, s), i + 1, StepAt(es, h, s, i).failure)
  {
    var r := Drive(es, h, s);
    var failing := StepAt(es, h, s, i);
    if 0 < r.handled {
      var last := StepAt(es, h, s, r.handled - 1);
    }
  }

  /** When no handler call fails, every entry is handled and no error is reported. */
  lemma DriveCompletes<S>(es: seq<Entry>, h: (S, Entry) -> Step<S>, s: S)
    requires forall i :: 0 <= i < |es| ==> StepAt(es, h, s, i).failure == None
    ensures Drive(es, h, s) == Walked(Apply(es, h, s), |es|, None)
  {
    var r := Drive(es, h, s);
    if 0 < r.handled {
      var last := StepAt(es, h, s, r.handled - 1);
    }
    assert es[..|es|] == es;
  }

  /** Any failing handler call means the enumeration reports an error. */
  lemma DriveFailsIfAnyStepFails<S>(es: seq<Entry>, h: (S, Entry) -> Step<S>, s: S, i: nat)
    requires i < |es| && StepAt(es, h, s, i).failure.Some?
    ensures Drive(es, h, s).failure.Some?
  {
    var r := Drive(es, h, s);
    var failing := StepAt(es, h, s, i);
  }

  /** The handler does not see directories or any file named bp.yaml, at whatever depth. */
  predicate Handled(fs: FileSystem, p: Path) {
    p in fs && fs[p].File? && BaseName(p) != ConfigFileName
  }

  /** The walked paths that reach the handler, in walk order. */
  function HandledPaths(fs: FileSystem, w: seq<Path>): (r: seq<Path>)
    ensures forall p :: p in r <==> p in w && Handled(fs, p)
    ensures forall i :: 0 <= i < |r| ==> Handled(fs, r[i])
    ensures Increasing(w, PathLess) ==> Increasing(r, PathLess)
    decreases |w|
  {
    if |w| == 0 then []
    else
      var rest := HandledPaths(fs, w[1..]);
      assert forall p :: p in w <==> p == w[0] || p in w[1..] by {
        assert w == [w[0]] + w[1..];
      }
      assert Increasing(w, PathLess) ==> Increasing(w[1..], PathLess);
      HeadPrecedesRest(w, rest);
      if Handled(fs, w[0]) then
        PrependIncreasing(w[0], rest);
        [w[0]] + rest
      else rest
  }

  lemma PrependIncreasing(x: Path, rest: seq<Path>)
    ensures Increasing(rest, PathLess) && (forall q :: q in rest ==> PathLess(x, q)) ==>
              Increasing([x] + rest, PathLess)
  {
    if Increasing(rest, PathLess) && (forall q :: q in rest ==> PathLess(x, q)) {
      var r := [x] + rest;
      forall i, j | 0 <= i < j < |r| ensures PathLess(r[i], r[j]) {
        assert r[j] == rest[j - 1];
        if i == 0 {
          assert rest[j - 1] in rest;
        } else {
          assert r[i] == rest[i - 1];
        }
      }
    }
  }

  lemma HeadPrecedesRest(w: seq<Path>, rest: seq<Path>)
    requires |w| > 0 && forall q :: q in rest ==> q in w[1..]
    ensures Increasing(w, PathLess) ==> forall q :: q in rest ==> PathLess(w[0], q)
  {
    if Increasing(w, PathLess) {
      forall q | q in rest ensures PathLess(w[0], q) {
        var j :| 0 <= j < |w[1..]| && w[1..][j] == q;
        assert w[j + 1] == q;
      }
    }
  }

  /** The handler arguments for the file at `p`: path.Dir of its path relative to the project
      folder, and its base name. */
  function EntryAt(root: Path, p: Path, content: string): (e: Entry)
    requires IsPrefix(root, p)
    ensures e.name == BaseName(p) && e.content == content
    ensures p != root ==> root + RelPath(e) == p
  {
    var rel := p[|root|..];
    var e := Entry(DirName(rel), BaseName(p), content);
    assert p != root ==> root + RelPath(e) == p by {
      if p != root {
        assert |rel| > 0;
        assert RelPath(e) == DirName(rel) + [rel[|rel| - 1]] == rel;
        assert root + rel == p;
      }
    }
    e
  }

  /** `e` is what the handler receives for the file at `p` below `root`: that file's content under
      a name other than bp.yaml, and a relative path that leads back to `p`. */
  predicate EntryFacts(fs: FileSystem, root: Path, p: Path, e: Entry) {
    && p in fs && fs[p] == File(e.content) && e.name != ConfigFileName
    && (p != root ==> root + RelPath(e) == p)
  }

  /** A project read from a directory of an explicit filesystem value. */
  datatype FileSystemProvider = FileSystemProvider(fs: FileSystem, projectFolder: Path) {

    function ConfigPath(): Path {
      projectFolder + [ConfigFileName]
    }

    /** ReadConfig: the text of bp.yaml in the project folder. */
    function ReadConfig(): (r: Result<string, Error>)
      ensures r == Failure(ConfigNotFound) <==> ConfigPath() !in fs
      ensures r.Success? <==> ConfigPath() in fs && fs[ConfigPath()].File?
      ensures r.Success? ==> r.value == fs[ConfigPath()].content
    {
      if ConfigPath() !in fs then Failure(ConfigNotFound)
      else match fs[ConfigPath()]
        case File(content) => Success(content)
        case Dir => Failure(ConfigReadFailed)
    }

    /** The files that reach the handler, in walk order. */
    ghost function Sources(): (r: seq<Path>)
      ensures forall p :: p in r <==> p in fs && IsPrefix(projectFolder, p) && Handled(fs, p)
      ensures forall i :: 0 <= i < |r| ==> IsPrefix(projectFolder, r[i]) && Handled(fs, r[i])
      ensures Increasing(r, PathLess)
    {
      var r := HandledPaths(fs, Walk(fs, projectFolder));
      assert forall i :: 0 <= i < |r| ==> r[i] in r;
      r
    }

    /** The handler calls ProcessFiles makes, in order. */
    ghost function Entries(): (es: seq<Entry>)
      ensures |es| == |Sources()|
      ensures forall i :: 0 <= i < |es| ==> EntryFacts(fs, projectFolder, Sources()[i], es[i])
    {
      var src := Sources();
      var es := seq(|src|, i requires 0 <= i < |src| =>
        EntryAt(projectFolder, src[i], fs[src[i]].content));
      assert forall i :: 0 <= i < |es| ==> EntryFacts(fs, projectFolder, src[i], es[i]) by {
        forall i | 0 <= i < |es| ensures EntryFacts(fs, projectFolder, src[i], es[i]) {
          assert IsPrefix(projectFolder, src[i]) && Handled(fs, src[i]);
          assert es[i] == EntryAt(projectFolder, src[i], fs[src[i]].content);
        }
      }
      es
    }

    /** ProcessFiles: walk the project folder and hand each remaining file to `h`. */
    ghost function ProcessFiles<S>(h: (S, Entry) -> Step<S>, s: S): (r: Walked<S>)
      requires projectFolder in fs
      ensures r.handled <= |Entries()|
      ensures r.failure.None? ==> r.handled == |Entries()|
      ensures r.failure.Some? ==> r.handled > 0
      ensures r.state == Apply(Entries()[..r.handled], h, s)
      ensures forall i :: 0 <= i < r.handled ==>
                StepAt(Entries(), h, s, i).failure == (if i == r.handled - 1 then r.failure else None)
    {
      Drive(Entries(), h, s)
    }
  }

  /** The project folder is a directory, as it is whenever bp.yaml exists in a closed tree. */
  predicate FolderIsDir(p: FileSystemProvider) {
    p.projectFolder in p.fs && p.fs[p.projectFolder] == Dir
  }

  lemma ConfigFoundMeansFolderIsDir(p: FileSystemProvider)
    requires Closed(p.fs) && p.ReadConfig().Success?
    ensures FolderIsDir(p)
  {
    var c := p.ConfigPath();
    assert DirName(c) == p.projectFolder;
  }

  /** The handler never receives the configuration file or a directory. */
  lemma EntriesAreFilesNotConfig(p: FileSystemProvider, i: int)
    requires 0 <= i < |p.Entries()|
    ensures p.Entries()[i].name != ConfigFileName
    ensures p.Sources()[i] in p.fs && p.fs[p.Sources()[i]] == File(p.Entries()[i].content)
    ensures p.Sources()[i] != p.ConfigPath()
  {
    assert Handled(p.fs, p.Sources()[i]);
  }

  /** The handler's directory and name join to the file's path relative to the project folder. */
  lemma EntryReconstructsPath(p: FileSystemProvider, i: int)
    requires FolderIsDir(p)
    requires 0 <= i < |p.Entries()|
    ensures p.projectFolder + RelPath(p.Entries()[i]) == p.Sources()[i]
  {
    var q := p.Sources()[i];
    assert q in p.Sources();
    assert IsPrefix(p.projectFolder, q) && Handled(p.fs, q);
    assert q != p.projectFolder;
  }

  /** Every file below the project folder except bp.yaml reaches the handler, with its content. */
  lemma EveryFileIsHandled(p: FileSystemProvider, q: Path)
    requires FolderIsDir(p)
    requires IsPrefix(p.projectFolder, q) && Handled(p.fs, q)
    ensures exists i :: 0 <= i < |p.Entries()| &&
              p.projectFolder + RelPath(p.Entries()[i]) == q && p.Entries()[i].content == p.fs[q].content
  {
    var i :| 0 <= i < |p.Sources()| && p.Sources()[i] == q;
    EntryReconstructsPath(p, i);
  }

  /** The handler sees the files in walk order, each once. */
  lemma EntriesInWalkOrder(p: FileSystemProvider, i: int, j: int)
    requires FolderIsDir(p)
    requires 0 <= i < j < |p.Entries()|
    ensures PathLess(RelPath(p.Entries()[i]), RelPath(p.Entries()[j]))
    ensures RelPath(p.Entries()[i]) != RelPath(p.Entries()[j])
  {
    var root := p.projectFolder;
    EntryReconstructsPath(p, i);
    EntryReconstructsPath(p, j);
    LexCommonPrefix(root, RelPath(p.Entries()[i]), RelPath(p.Entries()[j]), NameLess);
    assert PathLess(p.Sources()[i], p.Sources()[j]);
    LexIrreflexive(RelPath(p.Entries()[i]), NameLess);
  }

  /** In a tree no handled file lies inside another, so no output path is a prefix of another. */
  lemma EntriesPrefixFree(p: FileSystemProvider, i: int, j: int)
    requires WellFormed(p.fs) && FolderIsDir(p)
    requires 0 <= i < |p.Entries()| && 0 <= j < |p.Entries()| && i != j
    ensures !IsPrefix(RelPath(p.Entries()[i]), RelPath(p.Entries()[j]))
  {
    var root, src := p.projectFolder, p.Sources();
    var a, b := RelPath(p.Entries()[i]), RelPath(p.Entries()[j]);
    EntryReconstructsPath(p, i);
    EntryReconstructsPath(p, j);
    PathLessIsStrictTotal();
    IncreasingDistinct(src, PathLess, i, j);
    assert Handled(p.fs, src[i]) && Handled(p.fs, src[j]);
    if IsPrefix(a, b) {
      PrefixUnderRoot(root, a, b);
      NoFileInsideFile(p.fs, src[i], src[j]);
    }
  }

  lemma PrefixUnderRoot(root: Path, a: Path, b: Path)
    requires IsPrefix(a, b)
    ensures IsPrefix(root + a, root + b)
  {
    assert (root + b)[..|root + a|] == root + b[..|a|];
  }

  /** In a closed filesystem a file has nothing below it. */
  lemma NoFileInsideFile(fs: FileSystem, f: Path, q: Path)
    requires Closed(fs) && f in fs && fs[f].File? && q in fs && f != q
    ensures !IsPrefix(f, q)
  {
    if IsPrefix(f, q) {
      AncestorIsDir(fs, q, |f|);
    }
  }
}
