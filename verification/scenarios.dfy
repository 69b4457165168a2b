/** Concrete runs and lookups matching the repository's own examples: a nested template, a
    template that does not parse, and the accessors over a small document. */
module Scenarios {
  import opened Wrappers
  import opened Errors
  import opened Text
  import opened Paths
  import opened FileSystems
  import opened TemplateData
  import opened ProjectProvider
  import opened Codex

  const ProjectPath: Path := ["project"]
  const NestedPath: Path := ["project", "sub", "a", "template.txt"]
  const RootPath: Path := ["project", "template.txt"]

  /** A project folder holding only bp.yaml with the given text. */
  function ConfigOnlyProject(config: string): (fs: FileSystem)
    ensures WellFormed(fs)
    ensures ["project"] in fs && fs[["project"]] == Dir
    ensures ["project", "bp.yaml"] in fs && fs[["project", "bp.yaml"]] == File(config)
    ensures NestedPath !in fs && ["project", "sub"] !in fs && RootPath !in fs
  {
    SegmentNames();
    var fs0: FileSystem := map[[] := Dir];
    assert WellFormed(fs0);
    var fs1 := AddNode(fs0, ["project"], Dir);
    assert DirName(["project", "bp.yaml"]) == ["project"];
    AddNode(fs1, ["project", "bp.yaml"], File(config))
  }

  /** A project folder holding bp.yaml and one template two directories down. */
  function NestedProject(config: string, template: string): (fs: FileSystem)
    ensures WellFormed(fs)
    ensures ["project", "bp.yaml"] in fs && fs[["project", "bp.yaml"]] == File(config)
    ensures NestedPath in fs && fs[NestedPath] == File(template)
  {
    var fs2 := ConfigOnlyProject(config);
    var fs4 := WithNestedDirs(fs2);
    assert DirName(NestedPath) == ["project", "sub", "a"];
    SegmentNames();
    AddNode(fs4, NestedPath, File(template))
  }

  /** Adds the directories sub and sub/a below the project folder. */
  function WithNestedDirs(fs: FileSystem): (r: FileSystem)
    requires WellFormed(fs) && ["project"] in fs && fs[["project"]] == Dir
    requires ["project", "sub"] !in fs && NestedPath !in fs
    ensures WellFormed(r) && r == fs[["project", "sub"] := Dir][["project", "sub", "a"] := Dir]
    ensures ["project", "sub", "a"] in r && r[["project", "sub", "a"]] == Dir && NestedPath !in r
  {
    SegmentNames();
    assert DirName(["project", "sub"]) == ["project"];
    var fs3 := AddNode(fs, ["project", "sub"], Dir);
    assert DirName(["project", "sub", "a"]) == ["project", "sub"];
    assert ["project", "sub", "a"] !in fs by {
      assert Closed(fs);
    }
    AddNode(fs3, ["project", "sub", "a"], Dir)
  }

  /** Adds a node whose parent directory exists, keeping the tree well formed. */
  function AddNode(fs: FileSystem, p: Path, n: Node): (r: FileSystem)
    requires WellFormed(fs) && |p| > 0 && p !in fs && IsSegment(BaseName(p))
    requires DirName(p) in fs && fs[DirName(p)] == Dir
    ensures WellFormed(r) && r == fs[p := n]
  {
    AddKeepsClosed(fs, p, n);
    AddKeepsSegments(fs, p, n);
    fs[p := n]
  }

  lemma AddKeepsClosed(fs: FileSystem, p: Path, n: Node)
    requires Closed(fs) && |p| > 0 && p !in fs
    requires DirName(p) in fs && fs[DirName(p)] == Dir
    ensures Closed(fs[p := n])
  {
    forall q | q in fs[p := n] && |q| > 0
      ensures DirName(q) in fs[p := n] && fs[p := n][DirName(q)] == Dir
    {
      if q != p {
        assert q in fs;
      }
    }
  }

  lemma AddKeepsSegments(fs: FileSystem, p: Path, n: Node)
    requires WellFormed(fs) && |p| > 0 && IsSegment(BaseName(p)) && DirName(p) in fs
    ensures forall q :: q in fs[p := n] ==> Segments(q)
  {
    assert Segments(DirName(p));
    forall i | 0 <= i < |p| ensures IsSegment(p[i]) {
      if i < |p| - 1 {
        assert p[i] == DirName(p)[i];
      }
    }
  }

  /** An engine whose templates are their own text and which reads every document as empty. */
  function Verbatim(): Engine<string> {
    Engine(_ => Success(map[]), (_, content) => Success(content), (tpl, _) => Rendered(tpl, None))
  }

  /** An engine that rejects a template with an unclosed action. */
  function Strict(): Engine<string> {
    Engine(_ => Success(map[]),
           (_, content) => if content == "{{" then Failure("unclosed action") else Success(content),
           (tpl, _) => Rendered(tpl, None))
  }

  lemma BuildConcat()
    ensures ["build"] + ["sub", "a", "template.txt"] == ["build", "sub", "a", "template.txt"]
  {
  }

  lemma VerbatimOutput(data: Data, e: Entry)
    ensures Output(Verbatim(), data, e) == e.content
  {
  }

  lemma SegmentNames()
    ensures IsSegment("project") && IsSegment("bp.yaml") && IsSegment("sub") && IsSegment("a")
    ensures IsSegment("template.txt")
  {
    assert forall i :: 0 <= i < |"project"| ==> "project"[i] != '/';
    assert forall i :: 0 <= i < |"bp.yaml"| ==> "bp.yaml"[i] != '/';
    assert forall i :: 0 <= i < |"sub"| ==> "sub"[i] != '/';
    assert forall i :: 0 <= i < |"template.txt"| ==> "template.txt"[i] != '/';
  }

  lemma BuildParses()
    ensures Parse(DefaultBuildPath) == ["build"]
  {
    assert forall i :: 0 <= i < |DefaultBuildPath| ==> DefaultBuildPath[i] != '/';
    SplitWithoutSep(DefaultBuildPath, '/');
  }

  /** A file at the top of the project folder has "." as its directory, so it lands directly
      in the build root: in any well-formed tree holding bp.yaml, whatever its text, and
      template.txt, a run under the verbatim engine writes the template's text at
      build/template.txt. */
  lemma RootTemplateLandsInBuild(fs: FileSystem, env: Environment, template: string)
    requires WellFormed(fs)
    requires ["project", "bp.yaml"] in fs && fs[["project", "bp.yaml"]].File?
    requires RootPath in fs && fs[RootPath] == File(template)
    ensures var r := ProcessChecked(FileSystemProvider(fs, ProjectPath), env, Verbatim(), map[]);
            && r.failure == None
            && ["build", "template.txt"] in r.out
            && r.out[["build", "template.txt"]] == File(template)
  {
    var provider := FileSystemProvider(fs, ProjectPath);
    var data := RunData(env, map[]);
    assert provider.ConfigPath() == ["project", "bp.yaml"];
    RootIsBelowProject();
    VerbatimRendersCleanly(provider.Entries(), data);
    SourceFileRendered(provider, env, Verbatim(), map[], RootPath);
    RootDestination(env);
    VerbatimOutput(data, EntryAt(ProjectPath, RootPath, template));
  }

  lemma RootIsBelowProject()
    ensures IsPrefix(ProjectPath, RootPath) && BaseName(RootPath) == "template.txt"
    ensures RootPath[|ProjectPath|..] == ["template.txt"]
  {
    assert RootPath[..1] == ProjectPath;
  }

  /** The top-level file's place below the default build root. */
  lemma RootDestination(env: Environment)
    ensures Parse(BuildRoot(RunData(env, map[]))) + RootPath[|ProjectPath|..] == ["build", "template.txt"]
  {
    DefaultBuildRoot(env, map[]);
    BuildParses();
    RootIsBelowProject();
  }

  /** The tree the repository's template tests write: bp.yaml with the test's configuration
      and template.txt in /project. */
  function RootProject(config: string, template: string): (fs: FileSystem)
    ensures WellFormed(fs)
    ensures ["project", "bp.yaml"] in fs && fs[["project", "bp.yaml"]] == File(config)
    ensures RootPath in fs && fs[RootPath] == File(template)
  {
    SegmentNames();
    assert DirName(RootPath) == ["project"];
    AddNode(ConfigOnlyProject(config), RootPath, File(template))
  }

  /** That tree, for every configuration text the tests write, meets the lemma above. */
  lemma RootProjectRuns(env: Environment, config: string, template: string)
    ensures var r := ProcessChecked(FileSystemProvider(RootProject(config, template), ProjectPath), env, Verbatim(), map[]);
            && r.failure == None
            && ["build", "template.txt"] in r.out
            && r.out[["build", "template.txt"]] == File(template)
  {
    RootTemplateLandsInBuild(RootProject(config, template), env, template);
  }

  /** In any well-formed tree holding bp.yaml, whatever its text, and sub/a/template.txt, a run
      under the verbatim engine renders the template to build/sub/a/template.txt, where it
      reads "template" back. */
  lemma NestedFileLandsUnderBuild(fs: FileSystem, env: Environment)
    requires WellFormed(fs)
    requires ["project", "bp.yaml"] in fs && fs[["project", "bp.yaml"]].File?
    requires NestedPath in fs && fs[NestedPath] == File("template")
    ensures var r := ProcessChecked(FileSystemProvider(fs, ProjectPath), env, Verbatim(), map[]);
            && r.failure == None
            && ["build", "sub", "a", "template.txt"] in r.out
            && r.out[["build", "sub", "a", "template.txt"]] == File("template")
  {
    var provider := FileSystemProvider(fs, ProjectPath);
    var data := RunData(env, map[]);
    assert provider.ConfigPath() == ["project", "bp.yaml"];
    NestedIsBelowProject();
    VerbatimRendersCleanly(provider.Entries(), data);
    SourceFileRendered(provider, env, Verbatim(), map[], NestedPath);
    NestedDestination(env);
    VerbatimOutput(data, EntryAt(ProjectPath, NestedPath, "template"));
  }

  lemma NestedIsBelowProject()
    ensures IsPrefix(ProjectPath, NestedPath) && BaseName(NestedPath) == "template.txt"
    ensures NestedPath[|ProjectPath|..] == ["sub", "a", "template.txt"]
  {
    assert NestedPath[..1] == ProjectPath;
  }

  /** The nested file's place below the default build root. */
  lemma NestedDestination(env: Environment)
    ensures Parse(BuildRoot(RunData(env, map[]))) + NestedPath[|ProjectPath|..] == ["build", "sub", "a", "template.txt"]
  {
    DefaultBuildRoot(env, map[]);
    BuildParses();
    NestedIsBelowProject();
    BuildConcat();
  }

  lemma VerbatimRendersCleanly(es: seq<Entry>, data: Data)
    ensures forall i :: 0 <= i < |es| ==> RendersCleanly(Verbatim(), data, es[i])
  {
  }

  /** The tree of the nested-files example, for any configuration text, meets the lemma above. */
  lemma NestedProjectRuns(env: Environment, config: string)
    ensures var r := ProcessChecked(FileSystemProvider(NestedProject(config, "template"), ProjectPath), env, Verbatim(), map[]);
            && r.failure == None
            && ["build", "sub", "a", "template.txt"] in r.out
            && r.out[["build", "sub", "a", "template.txt"]] == File("template")
  {
    NestedFileLandsUnderBuild(NestedProject(config, "template"), env);
  }

  /** In any well-formed tree holding bp.yaml and a sub/a/template.txt with an unclosed action,
      the run as written reports success although the template never rendered. */
  lemma UnparsableTemplateReportsNothing(fs: FileSystem, env: Environment)
    requires WellFormed(fs)
    requires ["project", "bp.yaml"] in fs && fs[["project", "bp.yaml"]].File?
    requires NestedPath in fs && fs[NestedPath] == File("{{")
    ensures var provider := FileSystemProvider(fs, ProjectPath);
            && Process(provider, env, Strict(), map[]).failure == None
            && ProcessChecked(provider, env, Strict(), map[]).failure.Some?
  {
    var provider := FileSystemProvider(fs, ProjectPath);
    assert provider.ConfigPath() == ["project", "bp.yaml"];
    assert BaseName(NestedPath) == "template.txt";
    assert IsPrefix(ProjectPath, NestedPath) by {
      assert NestedPath[..1] == ProjectPath;
    }
    ConfigFoundMeansFolderIsDir(provider);
    EveryFileIsHandled(provider, NestedPath);
    var es := provider.Entries();
    var i :| 0 <= i < |es| && ProjectPath + RelPath(es[i]) == NestedPath && es[i].content == "{{";
    TemplateErrorIsDropped(provider, env, Strict(), map[], map[], i);
  }

  /** The nested-files tree with a broken template, for any configuration text, meets the
      lemma above. */
  lemma BrokenNestedProjectReportsNothing(env: Environment, config: string)
    ensures var provider := FileSystemProvider(NestedProject(config, "{{"), ProjectPath);
            && Process(provider, env, Strict(), map[]).failure == None
            && ProcessChecked(provider, env, Strict(), map[]).failure.Some?
  {
    UnparsableTemplateReportsNothing(NestedProject(config, "{{"), env);
  }

  /** The document of the accessor examples: a scalar and a nested scalar. */
  function Sample(): Data {
    Load(NewData(map["codex-test" := "123"]), map[
      "test" := Scalar("123"),
      "root" := Tree(map["nested" := Tree(map["item" := Scalar("421")])])])
  }

  /** The document of the iteration example: `root` is a list of two items. */
  function ListSample(): Data {
    Load(NewData(map[]), map["root" := List(["item1", "item2"])])
  }

  /** A top-level scalar. */
  lemma SampleScalar()
    ensures Get(Sample(), "test") == "123"
  {
    var d := Sample();
    assert Find(Tree(d.config), ["test"]) == Some(Scalar("123"));
    assert '.' !in "test";
    GetFollowsDottedKey(d, ["test"], "123");
    assert JoinWith(["test"], '.') == "test";
  }

  /** A scalar two mappings down, by dotted key. */
  lemma SampleNestedScalar()
    ensures Get(Sample(), "root.nested.item") == "421"
  {
    var keys := ["root", "nested", "item"];
    SampleNestedFind();
    NestedKeysHaveNoDot();
    NestedKeyJoins();
    GetFollowsDottedKey(Sample(), keys, "421");
  }

  lemma NestedKeysHaveNoDot()
    ensures forall i :: 0 <= i < |["root", "nested", "item"]| ==> '.' !in ["root", "nested", "item"][i]
  {
    assert '.' !in "root" && '.' !in "nested" && '.' !in "item";
  }

  lemma NestedKeyJoins()
    ensures JoinWith(["root", "nested", "item"], '.') == "root.nested.item"
  {
    assert JoinWith(["item"], '.') == "item";
    assert JoinWith(["nested", "item"], '.') == "nested.item" by {
      assert ["nested", "item"][1..] == ["item"];
    }
    assert ["root", "nested", "item"][1..] == ["nested", "item"];
  }

  lemma SampleNestedFind()
    ensures Find(Tree(Sample().config), ["root", "nested", "item"]) == Some(Scalar("421"))
  {
    var inner := map["item" := Scalar("421")];
    var root := Tree(map["nested" := Tree(inner)]);
    assert Find(Tree(Sample().config), ["root"]) == Some(root);
    assert Find(Tree(inner), ["item"]) == Some(Scalar("421"));
    assert Find(root, ["nested", "item"]) == Some(Scalar("421"));
    FindConcat(Tree(Sample().config), ["root"], ["nested", "item"]);
    assert ["root"] + ["nested", "item"] == ["root", "nested", "item"];
  }

  /** A list keeps its items in document order. */
  lemma SampleList()
    ensures GetStrings(ListSample(), "root") == ["item1", "item2"]
  {
    var d := ListSample();
    assert Find(Tree(d.config), ["root"]) == Some(List(["item1", "item2"]));
    assert '.' !in "root";
    GetStringsFollowsDottedKey(d, ["root"], ["item1", "item2"]);
    assert JoinWith(["root"], '.') == "root";
  }

  /** The environment variable set for the run. */
  lemma SampleEnvironment()
    ensures Env(Sample(), "codex-test") == "123"
    ensures Env(Sample(), "unset") == ""
  {
  }

  /** Without build_path in the document the build root is the default. */
  lemma SampleBuildRoot()
    ensures BuildRoot(Sample()) == "build"
  {
    var d := Sample();
    assert BuildPathKey !in d.config;
    DefaultBuildRoot(map["codex-test" := "123"], d.config);
  }
}
