/** The process loop: load the configuration into a fresh context, then render every file the
    provider yields into the mirrored place under the build root. The YAML parser and the
    template engine are outside the model and arrive as an Engine of opaque functions. */
module Codex {
  import opened Wrappers
  import opened Errors
  import opened Paths
  import opened FileSystems
  import opened TemplateData
  import opened ProjectProvider

  /** What executing a template leaves: the text written before it stopped, and its error. */
  datatype Rendered = Rendered(text: string, failure: Option<string>)

  /** The configuration parser and the template engine, as functions of their inputs. */
  datatype Engine<!T> = Engine(
    parseConfig: string -> Result<Config, string>,
    parseTemplate: (string, string) -> Result<T, string>,
    execute: (T, Data) -> Rendered)

  /** The outcome of a run: the output filesystem and the error Process returns, if any. */
  datatype Run = Run(out: FileSystem, failure: Option<Error>)

  /** path.Join(buildRoot, dir), as segments: the entry's directory below the build root. */
  function OutputDir(buildRoot: string, dir: Path): (r: Path)
    ensures Segments(dir) ==> r == Parse(buildRoot) + dir
  {
    var r := Parse(JoinText(buildRoot, Format(dir)));
    assert Segments(dir) ==> r == Parse(buildRoot) + dir by {
      if Segments(dir) {
        JoinIsConcat(buildRoot, Format(dir));
        ParseFormat(dir);
      }
    }
    r
  }

  /** path.Join(buildRoot, dir, name), as segments: the entry's relative path below the build
      root. */
  function OutputPath(buildRoot: string, dir: Path, name: string): (r: Path)
    ensures Segments(dir) && IsSegment(name) ==> r == Parse(buildRoot) + dir + [name]
  {
    var r := Parse(JoinText(JoinText(buildRoot, Format(dir)), name));
    assert Segments(dir) && IsSegment(name) ==> r == Parse(buildRoot) + dir + [name] by {
      if Segments(dir) && IsSegment(name) {
        JoinIsConcat(buildRoot, Format(dir));
        ParseFormat(dir);
        JoinIsConcat(JoinText(buildRoot, Format(dir)), name);
        ParseFormat([name]);
        assert Format([name]) == name;
      }
    }
    r
  }

  /** The handler Process passes to ProcessFiles, for one entry: parse the content as a
      template named after the file, then place its rendering under the build root. */
  function Handle<T>(eng: Engine<T>, data: Data, out: FileSystem, e: Entry): (r: Step<FileSystem>)
    ensures eng.parseTemplate(e.name, e.content).Failure? ==>
              r == Step(out, Some(TemplateParseError(e.name, eng.parseTemplate(e.name, e.content).error)))
    ensures forall q :: q in out && q != OutputPath(BuildRoot(data), e.dir, e.name) ==>
              q in r.state && r.state[q] == out[q]
  {
    var buildRoot := BuildRoot(data);
    match eng.parseTemplate(e.name, e.content)
    case Failure(message) => Step(out, Some(TemplateParseError(e.name, message)))
    case Success(tpl) =>
      Place(eng, data, tpl, out, OutputDir(buildRoot, e.dir), OutputPath(buildRoot, e.dir, e.name))
  }

  /** Make the output directory, create the output file and execute the template into it. The
      error of making the directory is ignored; bytes written before an execution error stay. */
  function Place<T>(eng: Engine<T>, data: Data, tpl: T, out: FileSystem, dir: Path, dst: Path): (r: Step<FileSystem>)
    ensures forall q :: q in out && q != dst ==> q in r.state && r.state[q] == out[q]
    ensures Create(MkdirAll(out, dir), dst).Failure? ==>
              r == Step(MkdirAll(out, dir), Some(CreateFailed(dst)))
    ensures Create(MkdirAll(out, dir), dst).Success? ==>
              var rendered := eng.execute(tpl, data);
              r.state == MkdirAll(out, dir)[dst := File(rendered.text)] &&
              (r.failure.Some? <==> rendered.failure.Some?) &&
              (rendered.failure.Some? ==> r.failure == Some(ExecError(rendered.failure.value)))
  {
    var created := MkdirAll(out, dir);
    match Create(created, dst)
    case Failure(err) => Step(created, Some(err))
    case Success(truncated) =>
      var rendered := eng.execute(tpl, data);
      Step(truncated[dst := File(rendered.text)], ExecFailure(rendered))
  }

  /** The error Place returns for an execution: the engine's message as an ExecError. */
  function ExecFailure(rendered: Rendered): Option<Error> {
    if rendered.failure.Some? then Some(ExecError(rendered.failure.value)) else None
  }

  /** The handler as the function value ProcessFiles receives. */
  function Handler<T>(eng: Engine<T>, data: Data): (h: (FileSystem, Entry) -> Step<FileSystem>)
    ensures forall o: FileSystem, e: Entry :: eng.parseTemplate(e.name, e.content).Failure? ==>
              h(o, e) == Step(o, Some(TemplateParseError(e.name, eng.parseTemplate(e.name, e.content).error)))
    ensures forall o: FileSystem, e: Entry, q :: q in o && q != OutputPath(BuildRoot(data), e.dir, e.name) ==>
              q in h(o, e).state && h(o, e).state[q] == o[q]
  {
    (o: FileSystem, e: Entry) => Handle(eng, data, o, e)
  }

  /** The context every template of a run sees: defaults, then the parsed document. */
  function RunData(env: Environment, config: Config): Data {
    Load(NewData(env), config)
  }

  /** Process as written: after the configuration has loaded, the result of ProcessFiles is
      dropped and the run reports no error. */
  ghost function Process<T>(provider: FileSystemProvider, env: Environment, eng: Engine<T>,
                            out: FileSystem): (r: Run)
    requires Closed(provider.fs)
    ensures provider.ReadConfig().Failure? ==> r == Run(out, Some(provider.ReadConfig().error))
    ensures provider.ReadConfig().Success? && eng.parseConfig(provider.ReadConfig().value).Failure? ==>
              r == Run(out, Some(ConfigParseError(eng.parseConfig(provider.ReadConfig().value).error)))
    ensures provider.ReadConfig().Success? && eng.parseConfig(provider.ReadConfig().value).Success? ==>
              r.failure == None
  {
    match provider.ReadConfig()
    case Failure(err) => Run(out, Some(err))
    case Success(text) =>
      match eng.parseConfig(text)
      case Failure(message) => Run(out, Some(ConfigParseError(message)))
      case Success(config) =>
        var data := RunData(env, config);
        ConfigFoundMeansFolderIsDir(provider);
        var walked := provider.ProcessFiles(Handler(eng, data), out);
        Run(walked.state, None)
  }

  /** Process with the enumeration's error returned, as the design intends. */
  ghost function ProcessChecked<T>(provider: FileSystemProvider, env: Environment, eng: Engine<T>,
                                   out: FileSystem): (r: Run)
    requires Closed(provider.fs)
    ensures provider.ReadConfig().Failure? ==> r == Run(out, Some(provider.ReadConfig().error))
    ensures provider.ReadConfig().Success? && eng.parseConfig(provider.ReadConfig().value).Failure? ==>
              r == Run(out, Some(ConfigParseError(eng.parseConfig(provider.ReadConfig().value).error)))
    ensures r.out == Process(provider, env, eng, out).out
    ensures r.failure.None? ==> Process(provider, env, eng, out).failure.None?
    ensures provider.ReadConfig().Success? && eng.parseConfig(provider.ReadConfig().value).Success? ==>
              var data := RunData(env, eng.parseConfig(provider.ReadConfig().value).value);
              r.failure == Drive(provider.Entries(), Handler(eng, data), out).failure
  {
    match provider.ReadConfig()
    case Failure(err) => Run(out, Some(err))
    case Success(text) =>
      match eng.parseConfig(text)
      case Failure(message) => Run(out, Some(ConfigParseError(message)))
      case Success(config) =>
        var data := RunData(env, config);
        ConfigFoundMeansFolderIsDir(provider);
        var walked := provider.ProcessFiles(Handler(eng, data), out);
        Run(walked.state, walked.failure)
  }

  /** Where a run puts an entry: its relative path below the build root. */
  function Destination(root: Path, e: Entry): Path {
    root + RelPath(e)
  }

  /** The entry's template parses and executes without error. */
  predicate RendersCleanly<T>(eng: Engine<T>, data: Data, e: Entry) {
    eng.parseTemplate(e.name, e.content).Success? &&
    eng.execute(eng.parseTemplate(e.name, e.content).value, data).failure.None?
  }

  /** The text the entry's template renders to. */
  function Output<T>(eng: Engine<T>, data: Data, e: Entry): string {
    match eng.parseTemplate(e.name, e.content)
    case Success(tpl) => eng.execute(tpl, data).text
    case Failure(_) => ""
  }

  /** Every handled entry's rendered text is at its destination. */
  ghost predicate Written<T>(out: FileSystem, root: Path, eng: Engine<T>, data: Data, done: seq<Entry>) {
    forall i :: 0 <= i < |done| ==>
      Destination(root, done[i]) in out && out[Destination(root, done[i])] == File(Output(eng, data, done[i]))
  }

  /** Every file is the destination of a handled entry. */
  ghost predicate OnlyDestinations(out: FileSystem, root: Path, done: seq<Entry>) {
    forall q :: q in out && out[q].File? ==> exists i :: 0 <= i < |done| && q == Destination(root, done[i])
  }

  /** Every directory is on the way to a handled entry's output directory. */
  ghost predicate OnlyOnTheWay(out: FileSystem, root: Path, done: seq<Entry>) {
    forall q :: q in out && out[q] == Dir ==> exists i :: 0 <= i < |done| && IsPrefix(q, root + done[i].dir)
  }

  /** `out` holds exactly the rendered `done` entries below `root`, plus the directories on the
      way to them. */
  ghost predicate Mirrored<T>(out: FileSystem, root: Path, eng: Engine<T>, data: Data, done: seq<Entry>) {
    && Closed(out)
    && Written(out, root, eng, data, done)
    && OnlyDestinations(out, root, done)
    && OnlyOnTheWay(out, root, done)
  }

  /** `e` has proper names and neither contains nor lies inside an entry already handled. */
  ghost predicate Fits(done: seq<Entry>, e: Entry) {
    && Segments(e.dir) && IsSegment(e.name)
    && forall i :: 0 <= i < |done| ==>
         !IsPrefix(RelPath(done[i]), RelPath(e)) && !IsPrefix(RelPath(e), RelPath(done[i]))
  }

  lemma PrefixBelowRoot(root: Path, a: Path, b: Path)
    requires IsPrefix(root + a, root + b)
    ensures IsPrefix(a, b)
  {
    assert (root + b)[|root|..] == b;
    assert (root + b)[..|root + a|][|root|..] == b[..|a|];
  }

  lemma PrefixTransitive(a: Path, b: Path, c: Path)
    requires IsPrefix(a, b) && IsPrefix(b, c)
    ensures IsPrefix(a, c)
  {
    assert c[..|b|][..|a|] == c[..|a|];
  }

  /** No file of an earlier entry lies on the way to a fitting entry's output directory. */
  lemma NoFileOnOutputDir(out: FileSystem, root: Path, done: seq<Entry>, e: Entry)
    requires OnlyDestinations(out, root, done) && Fits(done, e)
    ensures NoFileOnPath(out, root + e.dir)
  {
    var dirPath := root + e.dir;
    assert IsPrefix(e.dir, RelPath(e));
    forall k | 0 <= k <= |dirPath| && dirPath[..k] in out
      ensures out[dirPath[..k]] == Dir
    {
      if out[dirPath[..k]].File? {
        var i :| 0 <= i < |done| && dirPath[..k] == Destination(root, done[i]);
        assert IsPrefix(root + RelPath(done[i]), root + e.dir);
        PrefixBelowRoot(root, RelPath(done[i]), e.dir);
        PrefixTransitive(RelPath(done[i]), e.dir, RelPath(e));
        assert false;
      }
    }
  }

  /** After the output directory is made, the destination is not a directory. */
  lemma DestinationNotDir(out: FileSystem, root: Path, done: seq<Entry>, e: Entry)
    requires OnlyOnTheWay(out, root, done) && Fits(done, e)
    ensures var created := MkdirAll(out, root + e.dir);
            Destination(root, e) in created ==> created[Destination(root, e)].File?
  {
    var dst := Destination(root, e);
    var created := MkdirAll(out, root + e.dir);
    if dst in out && out[dst] == Dir {
      var i :| 0 <= i < |done| && IsPrefix(dst, root + done[i].dir);
      PrefixBelowRoot(root, RelPath(e), done[i].dir);
      assert IsPrefix(done[i].dir, RelPath(done[i]));
      PrefixTransitive(RelPath(e), done[i].dir, RelPath(done[i]));
      assert false;
    }
  }

  /** For a fitting entry, Place makes the output directory and writes the rendered text at
      the destination, failing only if execution fails. */
  lemma PlaceWrites<T>(eng: Engine<T>, data: Data, tpl: T, out: FileSystem, root: Path, done: seq<Entry>, e: Entry)
    requires Closed(out) && OnlyDestinations(out, root, done) && OnlyOnTheWay(out, root, done)
    requires Fits(done, e)
    ensures var created := MkdirAll(out, root + e.dir);
            && root + e.dir in created && created[root + e.dir] == Dir
            && Place(eng, data, tpl, out, root + e.dir, Destination(root, e)) ==
                 Step(created[Destination(root, e) := File(eng.execute(tpl, data).text)],
                      ExecFailure(eng.execute(tpl, data)))
  {
    assert Destination(root, e) == root + e.dir + [e.name];
    NoFileOnOutputDir(out, root, done, e);
    DestinationNotDir(out, root, done, e);
    PlaceWritesAt(eng, data, tpl, out, root + e.dir, e.name);
  }

  /** Place with no file on the way to `dirPath` and no directory at the destination. */
  lemma PlaceWritesAt<T>(eng: Engine<T>, data: Data, tpl: T, out: FileSystem, dirPath: Path, name: string)
    requires Closed(out) && NoFileOnPath(out, dirPath)
    requires var created := MkdirAll(out, dirPath);
             dirPath + [name] in created ==> created[dirPath + [name]].File?
    ensures var created := MkdirAll(out, dirPath);
            && dirPath in created && created[dirPath] == Dir
            && Place(eng, data, tpl, out, dirPath, dirPath + [name]) ==
                 Step(created[dirPath + [name] := File(eng.execute(tpl, data).text)],
                      ExecFailure(eng.execute(tpl, data)))
  {
    var dst := dirPath + [name];
    var created := MkdirAll(out, dirPath);
    MkdirAllMakesDir(out, dirPath);
    assert DirName(dst) == dirPath;
    assert Create(created, dst) == Success(created[dst := File("")]);
    var text := eng.execute(tpl, data).text;
    assert created[dst := File("")][dst := File(text)] == created[dst := File(text)];
  }

  /** A fitting entry whose template parses makes the handler create its directory and write
      its rendered text at its destination; the only error left is the execution's. */
  lemma HandleWrites<T>(eng: Engine<T>, data: Data, out: FileSystem, root: Path, done: seq<Entry>, e: Entry)
    requires root == Parse(BuildRoot(data))
    requires Closed(out) && OnlyDestinations(out, root, done) && OnlyOnTheWay(out, root, done)
    requires Fits(done, e) && eng.parseTemplate(e.name, e.content).Success?
    ensures var created := MkdirAll(out, root + e.dir);
            && root + e.dir in created && created[root + e.dir] == Dir
            && Handle(eng, data, out, e) ==
                 Step(created[Destination(root, e) := File(Output(eng, data, e))],
                      ExecFailure(eng.execute(eng.parseTemplate(e.name, e.content).value, data)))
  {
    var tpl := eng.parseTemplate(e.name, e.content).value;
    HandleIsPlace(eng, data, out, root, e);
    PlaceWrites(eng, data, tpl, out, root, done, e);
  }

  /** For proper names, the handler places a parsed template at the mirrored paths. */
  lemma HandleIsPlace<T>(eng: Engine<T>, data: Data, out: FileSystem, root: Path, e: Entry)
    requires root == Parse(BuildRoot(data))
    requires Segments(e.dir) && IsSegment(e.name) && eng.parseTemplate(e.name, e.content).Success?
    ensures Handle(eng, data, out, e) ==
              Place(eng, data, eng.parseTemplate(e.name, e.content).value, out, root + e.dir, Destination(root, e))
  {
    var buildRoot := BuildRoot(data);
    assert OutputDir(buildRoot, e.dir) == root + e.dir;
    assert OutputPath(buildRoot, e.dir, e.name) == Destination(root, e);
  }

  /** Writing a fitting entry's destination after making its directory keeps the mirror. */
  lemma MirrorGrows<T>(eng: Engine<T>, data: Data, out: FileSystem, created: FileSystem,
                       root: Path, done: seq<Entry>, e: Entry)
    requires Mirrored(out, root, eng, data, done) && Fits(done, e)
    requires Closed(created) && root + e.dir in created && created[root + e.dir] == Dir
    requires forall q :: q in out ==> q in created && created[q] == out[q]
    requires forall q :: q in created && q !in out ==> IsPrefix(q, root + e.dir) && created[q] == Dir
    requires Destination(root, e) in created ==> created[Destination(root, e)].File?
    ensures Mirrored(created[Destination(root, e) := File(Output(eng, data, e))], root, eng, data, done + [e])
  {
    var dirPath := root + e.dir;
    assert Destination(root, e) == dirPath + [e.name];
    ClosedAfterWrite(created, dirPath, e.name, Output(eng, data, e));
    WrittenGrows(eng, data, out, created, root, done, e);
    OnlyDestinationsGrow(out, created, root, done, e, Output(eng, data, e));
    OnlyOnTheWayGrows(out, created, root, done, e, Output(eng, data, e));
  }

  lemma ClosedAfterWrite(created: FileSystem, dirPath: Path, name: string, text: string)
    requires Closed(created) && dirPath in created && created[dirPath] == Dir
    requires dirPath + [name] in created ==> created[dirPath + [name]].File?
    ensures Closed(created[dirPath + [name] := File(text)])
  {
    var dst := dirPath + [name];
    var r := created[dst := File(text)];
    assert DirName(dst) == dirPath;
    forall q | q in r && |q| > 0 ensures DirName(q) in r && r[DirName(q)] == Dir {
      if q != dst {
        assert DirName(q) in created && created[DirName(q)] == Dir;
      }
    }
  }

  lemma WrittenGrows<T>(eng: Engine<T>, data: Data, out: FileSystem, created: FileSystem,
                        root: Path, done: seq<Entry>, e: Entry)
    requires Written(out, root, eng, data, done) && Fits(done, e)
    requires forall q :: q in out ==> q in created && created[q] == out[q]
    ensures Written(created[Destination(root, e) := File(Output(eng, data, e))], root, eng, data, done + [e])
  {
    var dst := Destination(root, e);
    var r := created[dst := File(Output(eng, data, e))];
    var done' := done + [e];
    forall i | 0 <= i < |done'|
      ensures Destination(root, done'[i]) in r && r[Destination(root, done'[i])] == File(Output(eng, data, done'[i]))
    {
      if i < |done| {
        assert done'[i] == done[i];
        assert RelPath(done[i]) != RelPath(e);
        assert Destination(root, done[i])[|root|..] == RelPath(done[i]);
        assert dst[|root|..] == RelPath(e);
      }
    }
  }

  lemma OnlyDestinationsGrow(out: FileSystem, created: FileSystem, root: Path, done: seq<Entry>,
                             e: Entry, text: string)
    requires OnlyDestinations(out, root, done)
    requires forall q :: q in created && q !in out ==> created[q] == Dir
    requires forall q :: q in out ==> q in created && created[q] == out[q]
    ensures OnlyDestinations(created[Destination(root, e) := File(text)], root, done + [e])
  {
    var dst := Destination(root, e);
    var r := created[dst := File(text)];
    var done' := done + [e];
    forall q | q in r && r[q].File?
      ensures exists i :: 0 <= i < |done'| && q == Destination(root, done'[i])
    {
      if q == dst {
        assert done'[|done|] == e;
      } else {
        assert q in out;
        var i :| 0 <= i < |done| && q == Destination(root, done[i]);
        assert done'[i] == done[i];
      }
    }
  }

  lemma OnlyOnTheWayGrows(out: FileSystem, created: FileSystem, root: Path, done: seq<Entry>,
                          e: Entry, text: string)
    requires OnlyOnTheWay(out, root, done)
    requires forall q :: q in created && q !in out ==> IsPrefix(q, root + e.dir)
    requires forall q :: q in out ==> q in created && created[q] == out[q]
    ensures OnlyOnTheWay(created[Destination(root, e) := File(text)], root, done + [e])
  {
    var r := created[Destination(root, e) := File(text)];
    var done' := done + [e];
    forall q | q in r && r[q] == Dir
      ensures exists i :: 0 <= i < |done'| && IsPrefix(q, root + done'[i].dir)
    {
      if q in out {
        var i :| 0 <= i < |done| && IsPrefix(q, root + done[i].dir);
        assert done'[i] == done[i];
      } else {
        assert done'[|done|] == e;
      }
    }
  }

  /** Handling a fitting entry that renders cleanly writes its output and keeps the mirror. */
  lemma HandleExtendsMirror<T>(eng: Engine<T>, data: Data, out: FileSystem, root: Path, done: seq<Entry>, e: Entry)
    requires root == Parse(BuildRoot(data))
    requires Mirrored(out, root, eng, data, done) && Fits(done, e) && RendersCleanly(eng, data, e)
    ensures Handle(eng, data, out, e).failure == None
    ensures Mirrored(Handle(eng, data, out, e).state, root, eng, data, done + [e])
  {
    HandleWrites(eng, data, out, root, done, e);
    DestinationNotDir(out, root, done, e);
    MirrorGrows(eng, data, out, MkdirAll(out, root + e.dir), root, done, e);
  }

  /** Entries with proper names of which none lies inside another. */
  ghost predicate Disjoint(es: seq<Entry>) {
    && (forall i :: 0 <= i < |es| ==> Segments(es[i].dir) && IsSegment(es[i].name))
    && (forall i, j :: 0 <= i < |es| && 0 <= j < |es| && i != j ==> !IsPrefix(RelPath(es[i]), RelPath(es[j])))
  }

  lemma TakeOneMore<X>(s: seq<X>, k: nat)
    requires k < |s|
    ensures s[..k] + [s[k]] == s[..k + 1]
  {
  }

  /** One more handled entry of a disjoint, cleanly rendering sequence keeps the mirror. */
  lemma HandlingStep<T>(eng: Engine<T>, data: Data, root: Path, es: seq<Entry>, k: nat)
    requires root == Parse(BuildRoot(data))
    requires k < |es| && Disjoint(es) && RendersCleanly(eng, data, es[k])
    requires Mirrored(Apply(es[..k], Handler(eng, data), map[]), root, eng, data, es[..k])
    ensures Mirrored(Apply(es[..k + 1], Handler(eng, data), map[]), root, eng, data, es[..k + 1])
    ensures StepAt(es, Handler(eng, data), map[], k).failure == None
  {
    var h := Handler(eng, data);
    var out := Apply(es[..k], h, map[]);
    FitsAt(es, k);
    HandleExtendsMirror(eng, data, out, root, es[..k], es[k]);
    HandlerStepAt(eng, data, es, k);
    TakeOneMore(es, k);
  }

  /** A disjoint sequence's entry fits after the entries before it. */
  lemma FitsAt(es: seq<Entry>, k: nat)
    requires k < |es| && Disjoint(es)
    ensures Fits(es[..k], es[k])
  {
    var done := es[..k];
    forall i | 0 <= i < |done|
      ensures !IsPrefix(RelPath(done[i]), RelPath(es[k])) && !IsPrefix(RelPath(es[k]), RelPath(done[i]))
    {
      assert done[i] == es[i];
    }
  }

  /** The k-th handler call sees the output of the calls before it and leaves the next one's. */
  lemma HandlerStepAt<T>(eng: Engine<T>, data: Data, es: seq<Entry>, k: nat)
    requires k < |es|
    ensures StepAt(es, Handler(eng, data), map[], k) == Handle(eng, data, Apply(es[..k], Handler(eng, data), map[]), es[k])
    ensures Apply(es[..k + 1], Handler(eng, data), map[]) == Handle(eng, data, Apply(es[..k], Handler(eng, data), map[]), es[k]).state
  {
    ApplySnoc(es, Handler(eng, data), map[], k);
  }

  /** Handling disjoint entries that all render cleanly, from an empty output, fails nowhere
      and leaves exactly their renderings below the build root. */
  lemma {:induction false} HandlingMirrors<T>(eng: Engine<T>, data: Data, root: Path, es: seq<Entry>, k: nat)
    requires root == Parse(BuildRoot(data))
    requires k <= |es| && Disjoint(es)
    requires forall i :: 0 <= i < |es| ==> RendersCleanly(eng, data, es[i])
    ensures Mirrored(Apply(es[..k], Handler(eng, data), map[]), root, eng, data, es[..k])
    ensures forall i :: 0 <= i < k ==> StepAt(es, Handler(eng, data), map[], i).failure == None
    decreases k
  {
    if k == 0 {
      assert es[..0] == [];
    } else {
      HandlingMirrors(eng, data, root, es, k - 1);
      assert RendersCleanly(eng, data, es[k - 1]);
      HandlingStep(eng, data, root, es, k - 1);
      var h := Handler(eng, data);
      forall i | 0 <= i < k ensures StepAt(es, h, map[], i).failure == None {
        if i < k - 1 {
          assert StepAt(es, h, map[], i).failure == None;
        }
      }
    }
  }

  /** The same for a prefix: entries before `i` that render cleanly are handled without error
      and leave their renderings, whatever comes after them. */
  lemma CleanPrefixMirrors<T>(eng: Engine<T>, data: Data, root: Path, es: seq<Entry>, i: nat)
    requires root == Parse(BuildRoot(data))
    requires i <= |es| && Disjoint(es)
    requires forall j :: 0 <= j < i ==> RendersCleanly(eng, data, es[j])
    ensures Mirrored(Apply(es[..i], Handler(eng, data), map[]), root, eng, data, es[..i])
    ensures forall j :: 0 <= j < i ==> StepAt(es, Handler(eng, data), map[], j).failure == None
  {
    var h := Handler(eng, data);
    var pre := es[..i];
    DisjointPrefix(es, i);
    HandlingMirrors(eng, data, root, pre, i);
    assert pre[..i] == pre;
    forall j | 0 <= j < i ensures StepAt(es, h, map[], j).failure == None {
      StepAtPrefix(es, h, map[], i, j);
    }
  }

  lemma DisjointPrefix(es: seq<Entry>, i: nat)
    requires i <= |es| && Disjoint(es)
    ensures Disjoint(es[..i])
  {
    var pre := es[..i];
    assert forall x :: 0 <= x < |pre| ==> pre[x] == es[x];
  }

  /** The handler's entries in a well-formed project are disjoint. */
  lemma ProjectEntriesDisjoint(provider: FileSystemProvider)
    requires WellFormed(provider.fs) && FolderIsDir(provider)
    ensures Disjoint(provider.Entries())
  {
    EntriesHaveProperNames(provider);
    NoEntryInsideAnother(provider);
  }

  lemma EntriesHaveProperNames(provider: FileSystemProvider)
    requires WellFormed(provider.fs) && FolderIsDir(provider)
    ensures forall i :: 0 <= i < |provider.Entries()| ==>
              Segments(provider.Entries()[i].dir) && IsSegment(provider.Entries()[i].name)
  {
    forall i | 0 <= i < |provider.Entries()|
      ensures Segments(provider.Entries()[i].dir) && IsSegment(provider.Entries()[i].name)
    {
      EntryHasProperNames(provider, i);
    }
  }

  lemma NoEntryInsideAnother(provider: FileSystemProvider)
    requires WellFormed(provider.fs) && FolderIsDir(provider)
    ensures forall i, j :: 0 <= i < |provider.Entries()| && 0 <= j < |provider.Entries()| && i != j ==>
              !IsPrefix(RelPath(provider.Entries()[i]), RelPath(provider.Entries()[j]))
  {
    var es := provider.Entries();
    forall i, j | 0 <= i < |es| && 0 <= j < |es| && i != j
      ensures !IsPrefix(RelPath(es[i]), RelPath(es[j]))
    {
      EntriesPrefixFree(provider, i, j);
    }
  }

  /** In a well-formed project each handler call gets proper names. */
  lemma EntryHasProperNames(provider: FileSystemProvider, i: int)
    requires WellFormed(provider.fs) && FolderIsDir(provider)
    requires 0 <= i < |provider.Entries()|
    ensures Segments(provider.Entries()[i].dir) && IsSegment(provider.Entries()[i].name)
  {
    var e := provider.Entries()[i];
    var q := provider.Sources()[i];
    EntryReconstructsPath(provider, i);
    assert q in provider.fs;
    SuffixSegments(provider.projectFolder, RelPath(e));
  }

  /** The tail of a path of proper names is made of proper names. */
  lemma SuffixSegments(root: Path, rel: Path)
    requires |rel| > 0 && Segments(root + rel)
    ensures Segments(rel[..|rel| - 1]) && IsSegment(rel[|rel| - 1])
  {
    forall k | 0 <= k < |rel| ensures IsSegment(rel[k]) {
      assert rel[k] == (root + rel)[|root| + k];
    }
  }

  /** A run over a well-formed project whose templates all render cleanly succeeds, writes
      each file's rendering at its relative path below the build root, and writes no other
      file. Every output shares the one build root of the one loaded context. */
  lemma RunMirrorsProject<T>(provider: FileSystemProvider, env: Environment, eng: Engine<T>, config: Config)
    requires WellFormed(provider.fs)
    requires provider.ReadConfig().Success?
    requires eng.parseConfig(provider.ReadConfig().value) == Success(config)
    requires forall i :: 0 <= i < |provider.Entries()| ==>
               RendersCleanly(eng, RunData(env, config), provider.Entries()[i])
    ensures var r := ProcessChecked(provider, env, eng, map[]);
            var data := RunData(env, config);
            var root := Parse(BuildRoot(data));
            var es := provider.Entries();
            && r.failure == None
            && (forall i :: 0 <= i < |es| ==>
                  Destination(root, es[i]) in r.out && r.out[Destination(root, es[i])] == File(Output(eng, data, es[i])))
            && (forall q :: q in r.out && r.out[q].File? ==>
                  exists i :: 0 <= i < |es| && q == Destination(root, es[i]))
  {
    var data := RunData(env, config);
    var root := Parse(BuildRoot(data));
    var es := provider.Entries();
    var h := Handler(eng, data);
    ConfigFoundMeansFolderIsDir(provider);
    ProjectEntriesDisjoint(provider);
    HandlingMirrors(eng, data, root, es, |es|);
    assert es[..|es|] == es;
    var out := Apply(es, h, map[]);
    assert Mirrored(out, root, eng, data, es);
    DriveCompletes(es, h, map[]);
    LoadedRun(provider, env, eng, map[], config);
    assert ProcessChecked(provider, env, eng, map[]) == Run(out, None);
  }

  /** Once bp.yaml is read and parsed, both runs are the enumeration with the run's handler;
      they differ only in the error they report. */
  lemma LoadedRun<T>(provider: FileSystemProvider, env: Environment, eng: Engine<T>, out: FileSystem, config: Config)
    requires Closed(provider.fs) && provider.ReadConfig().Success?
    requires eng.parseConfig(provider.ReadConfig().value) == Success(config)
    ensures var walked := Drive(provider.Entries(), Handler(eng, RunData(env, config)), out);
            && ProcessChecked(provider, env, eng, out) == Run(walked.state, walked.failure)
            && Process(provider, env, eng, out) == Run(walked.state, None)
  {
    ConfigFoundMeansFolderIsDir(provider);
  }

  /** Without bp.yaml in the project folder the run stops before the walk and touches nothing. */
  lemma MissingConfigAbortsRun<T>(provider: FileSystemProvider, env: Environment, eng: Engine<T>, out: FileSystem)
    requires Closed(provider.fs) && provider.ConfigPath() !in provider.fs
    ensures Process(provider, env, eng, out) == Run(out, Some(ConfigNotFound))
    ensures ProcessChecked(provider, env, eng, out) == Run(out, Some(ConfigNotFound))
  {
  }

  /** A configuration the parser rejects stops the run with the parser's message. */
  lemma BadConfigAbortsRun<T>(provider: FileSystemProvider, env: Environment, eng: Engine<T>, out: FileSystem,
                              message: string)
    requires Closed(provider.fs) && provider.ReadConfig().Success?
    requires eng.parseConfig(provider.ReadConfig().value) == Failure(message)
    ensures Process(provider, env, eng, out) == Run(out, Some(ConfigParseError(message)))
    ensures ProcessChecked(provider, env, eng, out) == Run(out, Some(ConfigParseError(message)))
  {
  }

  /** A bp.yaml that exists but cannot be read as a file stops the run with the read error,
      before the walk and with the output untouched. */
  lemma UnreadableConfigAbortsRun<T>(provider: FileSystemProvider, env: Environment, eng: Engine<T>, out: FileSystem)
    requires Closed(provider.fs)
    requires provider.ConfigPath() in provider.fs && provider.fs[provider.ConfigPath()] == Dir
    ensures Process(provider, env, eng, out) == Run(out, Some(ConfigReadFailed))
    ensures ProcessChecked(provider, env, eng, out) == Run(out, Some(ConfigReadFailed))
  {
  }

  /** A template that does not parse fails its handler call, so the checked run reports an
      error, while Process as written still reports none. */
  lemma TemplateErrorIsDropped<T>(provider: FileSystemProvider, env: Environment, eng: Engine<T>, out: FileSystem,
                                  config: Config, i: int)
    requires Closed(provider.fs) && provider.ReadConfig().Success?
    requires eng.parseConfig(provider.ReadConfig().value) == Success(config)
    requires 0 <= i < |provider.Entries()|
    requires eng.parseTemplate(provider.Entries()[i].name, provider.Entries()[i].content).Failure?
    ensures ProcessChecked(provider, env, eng, out).failure.Some?
    ensures Process(provider, env, eng, out).failure == None
  {
    var data := RunData(env, config);
    var h := Handler(eng, data);
    var es := provider.Entries();
    LoadedRun(provider, env, eng, out, config);
    assert StepAt(es, h, out, i).failure.Some? by {
      assert StepAt(es, h, out, i) == Handle(eng, data, Apply(es[..i], h, out), es[i]);
    }
    DriveFailsIfAnyStepFails(es, h, out, i);
  }

  /** Every file below the project folder other than bp.yaml is rendered at its relative path
      below the build root. */
  lemma SourceFileRendered<T>(provider: FileSystemProvider, env: Environment, eng: Engine<T>, config: Config,
                              q: Path)
    requires WellFormed(provider.fs)
    requires provider.ReadConfig().Success?
    requires eng.parseConfig(provider.ReadConfig().value) == Success(config)
    requires forall i :: 0 <= i < |provider.Entries()| ==>
               RendersCleanly(eng, RunData(env, config), provider.Entries()[i])
    requires IsPrefix(provider.projectFolder, q) && Handled(provider.fs, q)
    ensures var r := ProcessChecked(provider, env, eng, map[]);
            var data := RunData(env, config);
            var dst := Parse(BuildRoot(data)) + q[|provider.projectFolder|..];
            r.failure == None && dst in r.out &&
            r.out[dst] == File(Output(eng, data, EntryAt(provider.projectFolder, q, provider.fs[q].content)))
  {
    var pf := provider.projectFolder;
    var es := provider.Entries();
    ConfigFoundMeansFolderIsDir(provider);
    RunMirrorsProject(provider, env, eng, config);
    EveryFileIsHandled(provider, q);
    var i :| 0 <= i < |es| && pf + RelPath(es[i]) == q && es[i].content == provider.fs[q].content;
    EntryReconstructsPath(provider, i);
    assert q[|pf|..] == RelPath(es[i]);
    assert es[i] == EntryAt(pf, q, provider.fs[q].content);
  }

  /** No file a clean run writes is named bp.yaml. */
  lemma ConfigNeverWritten<T>(provider: FileSystemProvider, env: Environment, eng: Engine<T>, config: Config)
    requires WellFormed(provider.fs)
    requires provider.ReadConfig().Success?
    requires eng.parseConfig(provider.ReadConfig().value) == Success(config)
    requires forall i :: 0 <= i < |provider.Entries()| ==>
               RendersCleanly(eng, RunData(env, config), provider.Entries()[i])
    ensures var r := ProcessChecked(provider, env, eng, map[]);
            forall q :: q in r.out && r.out[q].File? ==> BaseName(q) != ConfigFileName
  {
    var data := RunData(env, config);
    var root := Parse(BuildRoot(data));
    var es := provider.Entries();
    var h := Handler(eng, data);
    ConfigFoundMeansFolderIsDir(provider);
    ProjectEntriesDisjoint(provider);
    HandlingMirrors(eng, data, root, es, |es|);
    assert es[..|es|] == es;
    var out := Apply(es, h, map[]);
    assert OnlyDestinations(out, root, es);
    DriveCompletes(es, h, map[]);
    LoadedRun(provider, env, eng, map[], config);
    assert ProcessChecked(provider, env, eng, map[]).out == out;
    assert forall i :: 0 <= i < |es| ==> es[i].name != ConfigFileName by {
      forall i | 0 <= i < |es| ensures es[i].name != ConfigFileName {
        assert EntryFacts(provider.fs, provider.projectFolder, provider.Sources()[i], es[i]);
      }
    }
    NoConfigNamedFile(out, root, es);
  }

  /** Output holding only destinations of entries not named bp.yaml holds no file so named. */
  lemma NoConfigNamedFile(out: FileSystem, root: Path, es: seq<Entry>)
    requires OnlyDestinations(out, root, es)
    requires forall i :: 0 <= i < |es| ==> es[i].name != ConfigFileName
    ensures forall q :: q in out && out[q].File? ==> BaseName(q) != ConfigFileName
  {
    forall q | q in out && out[q].File? ensures BaseName(q) != ConfigFileName {
      var i :| 0 <= i < |es| && q == Destination(root, es[i]);
      assert q[|q| - 1] == es[i].name;
    }
  }

  /** An execution error in a file, after every earlier file rendered cleanly, ends the run:
      the corrected run reports that error and keeps the text written before it, while the
      run as written reports nothing. */
  lemma ExecErrorIsReported<T>(provider: FileSystemProvider, env: Environment, eng: Engine<T>, config: Config,
                               i: nat, message: string)
    requires WellFormed(provider.fs)
    requires provider.ReadConfig().Success?
    requires eng.parseConfig(provider.ReadConfig().value) == Success(config)
    requires i < |provider.Entries()|
    requires forall j :: 0 <= j < i ==> RendersCleanly(eng, RunData(env, config), provider.Entries()[j])
    requires var e := provider.Entries()[i];
             && eng.parseTemplate(e.name, e.content).Success?
             && eng.execute(eng.parseTemplate(e.name, e.content).value, RunData(env, config)).failure == Some(message)
    ensures var r := ProcessChecked(provider, env, eng, map[]);
            var data := RunData(env, config);
            var dst := Destination(Parse(BuildRoot(data)), provider.Entries()[i]);
            && r.failure == Some(ExecError(message))
            && dst in r.out && r.out[dst] == File(Output(eng, data, provider.Entries()[i]))
    ensures Process(provider, env, eng, map[]).failure == None
  {
    var data := RunData(env, config);
    var root := Parse(BuildRoot(data));
    var es := provider.Entries();
    var h := Handler(eng, data);
    ConfigFoundMeansFolderIsDir(provider);
    ProjectEntriesDisjoint(provider);
    CleanPrefixMirrors(eng, data, root, es, i);
    FailingStep(eng, data, root, es, i);
    DriveStopsAtFirstError(es, h, map[], i);
    ApplySnoc(es, h, map[], i);
    var walked := Drive(es, h, map[]);
    LoadedRun(provider, env, eng, map[], config);
  }

  /** The handler call for a fitting entry whose execution fails, after a mirrored prefix. */
  lemma FailingStep<T>(eng: Engine<T>, data: Data, root: Path, es: seq<Entry>, i: nat)
    requires root == Parse(BuildRoot(data))
    requires i < |es| && Disjoint(es)
    requires Mirrored(Apply(es[..i], Handler(eng, data), map[]), root, eng, data, es[..i])
    requires eng.parseTemplate(es[i].name, es[i].content).Success?
    ensures var step := StepAt(es, Handler(eng, data), map[], i);
            && step.failure == ExecFailure(eng.execute(eng.parseTemplate(es[i].name, es[i].content).value, data))
            && Destination(root, es[i]) in step.state
            && step.state[Destination(root, es[i])] == File(Output(eng, data, es[i]))
  {
    var out := Apply(es[..i], Handler(eng, data), map[]);
    FitsAt(es, i);
    HandleWrites(eng, data, out, root, es[..i], es[i]);
    HandlerStepAt(eng, data, es, i);
  }
}
