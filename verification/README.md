# blueprint rendering pipeline, modelled in Dafny

blueprint renders a project folder of text templates into a build directory. `Process` sets the
`build_path` default to `"build"`, reads `bp.yaml` through a `ProjectProvider` and loads it as
YAML. It then asks the provider to hand it every project file. For each file it parses the
content as a Go template named after the file, creates `build_path/<dir>`, creates
`build_path/<dir>/<name>` and executes the template into that file. The data the template sees
is a `TemplateData` with three read-only accessors: `Get`, `GetStrings` and `Env`.

The model is functional:

- **Filesystems** (`filesystems.dfy`) are explicit values: a `map<Path, Node>` from segment
  sequences to `Dir` or `File(content)`.
  - `Walk` lists the keys under a root in lexical pre-order, the order afero's `Walk` visits them.
  - `MkdirAll` and `Create` are the two operations the renderer writes through.
- **The provider** (`project_provider.dfy`) is a `FileSystemProvider` over such a value.
  - `ReadConfig` reads `bp.yaml` in the project folder.
  - `Entries` lists the handler calls `ProcessFiles` makes, in walk order: directory, name and content.
  - `ProcessFiles` folds a handler over them and stops at the first error (`Drive`).
- **The template data** (`template_data.dfy`) is an immutable `Data`: the loaded document, the
  defaults set before loading, and the environment as a plain map. `Get` and `GetStrings` split
  the key on `.` and descend through nested mappings, looking in the document first and then in
  the defaults. Being pure functions of an immutable value, the accessors cannot change what
  later calls see.
- **The process loop** (`codex.dfy`) is `Process`. The YAML parser and the template engine
  arrive as an `Engine` of uninterpreted functions: `parseConfig`, `parseTemplate` and
  `execute`.
  - `Handle` is the per-file handler. `Place` is its mkdir/create/execute tail.
  - The main theorem is `RunMirrorsProject`. Take a well-formed project whose templates all
    render cleanly. Then the run succeeds and writes each file's rendering at its relative path
    below the build root, and no other file.
- **Concrete instances** (`scenarios.dfy`) restate the repository's test cases as lemmas: the
  nested file, the root-level file, `Get` on nested keys, `GetStrings` and `Env`. One more
  instance, a template that does not parse, exhibits the finding below.
- `paths.dfy` and `text.dfy` hold Go's `path.Join`, `path.Dir`, `path.Base` and `strings.Split`
  on segment sequences. `orders.dfy` holds the lexical order and a sort.

## Model

| member | source | states |
|---|---|---|
| `ProjectProvider.FileSystemProvider.ReadConfig` | bp/project_provider.go:37-47 | Reports "configuration file not found" exactly when bp.yaml is missing from the project folder. It succeeds exactly when bp.yaml is a file, and then returns that file's content unchanged. |
| `ProjectProvider.FileSystemProvider.Sources` | bp/project_provider.go:51-60 | The paths that reach the handler are exactly the files at or below the project folder whose base name is not bp.yaml, in strictly increasing walk order. |
| `ProjectProvider.FileSystemProvider.ProcessFiles` | bp/project_provider.go:51-64 | At most one handler call per entry. Without an error every entry was handled. An error is the error of the last call made, and every call before it returned nil. The final state is the handler applied in walk order to exactly the entries handled. |
| `ProjectProvider.Drive` | bp/project_provider.go:52-63 | The walk's fold. The final state is the handler applied in order to exactly the entries handled, and no later entry is touched. Every call before the last returned nil. The walk returns the last call's error, and returns nil only when every entry was handled. An error means at least one call was made. |
| `ProjectProvider.DriveStopsAtFirstError` | bp/project_provider.go:52-63 | If every call before entry i returns nil and entry i's call returns an error, exactly the entries up to i are handled and the walk returns that error. |
| `ProjectProvider.DriveCompletes` | bp/project_provider.go:52-63 | If no call returns an error, every entry is handled, in order, and the walk returns nil. |
| `ProjectProvider.DriveFailsIfAnyStepFails` | bp/project_provider.go:52-63 | If the call for some entry would fail after its predecessors ran, the walk returns an error. |
| `ProjectProvider.EntryAt` | bp/project_provider.go:53-62 | The handler's name is the file's base name and its content is the file's content. For a file strictly below the project folder, the folder joined with `path.Dir` of the relative path and the name gives back the file's path. |
| `ProjectProvider.FileSystemProvider.Entries` | bp/project_provider.go:52-62 | One handler call per handled file, in walk order. Each carries the content of an existing file, a name other than bp.yaml, and a relative path that leads back to the file. |
| `ProjectProvider.HandledPaths` | bp/project_provider.go:55-60 | Dropping directories and bp.yaml files keeps exactly the other files and keeps their walk order. |
| `ProjectProvider.EntriesAreFilesNotConfig` | bp/project_provider.go:55-61 | No handler call is for a directory or for a file named bp.yaml. Each call carries the content of the file it names. |
| `ProjectProvider.EntryReconstructsPath` | bp/project_provider.go:53-62 | The project folder joined with the handler's `path.Dir` argument and name gives back the walked file's path. |
| `ProjectProvider.EveryFileIsHandled` | bp/project_provider.go:51-62 | Every file below the project folder that is not named bp.yaml gets a handler call with its relative path and its content. |
| `ProjectProvider.EntriesInWalkOrder` | bp/project_provider.go:52 | Handler calls come in strictly increasing path order, so no file is handed over twice. |
| `ProjectProvider.EntriesPrefixFree` | bp/project_provider.go:58-62 | In a tree, no handled file's relative path lies inside another's. |
| `ProjectProvider.ConfigFoundMeansFolderIsDir` | bp/project_provider.go:38-41 | A readable bp.yaml means the project folder exists as a directory, so the walk has a root. |
| `FileSystems.Walk` | bp/project_provider.go:52 | The walk visits exactly the paths at or below the root, in strictly increasing lexical order. |
| `FileSystems.WalkIsPreOrder` | bp/project_provider.go:52 | A directory is visited before everything inside it. |
| `FileSystems.WalkVisitsOnce` | bp/project_provider.go:52 | No path is visited twice. |
| `FileSystems.MkdirAll` | bp/codex.go:43 | Existing entries are kept. Every new entry is a directory on the way to the requested path. A tree stays a tree. With no file in the way, every prefix of the path ends up a directory. |
| `FileSystems.MkdirAllMakesDir` | bp/codex.go:43-45 | With no file in the way, the output directory exists as a directory before the file is created. |
| `FileSystems.MkdirAllIdempotent` | bp/codex.go:43 | Creating the output directory a second time changes nothing. |
| `FileSystems.Create` | bp/codex.go:45-48 | Creation succeeds exactly when the parent is a directory and the path is not a directory. It leaves an empty file, and its failure names the path. |
| `Paths.JoinIsConcat` | bp/codex.go:43-44 | `path.Join` of two path texts is the concatenation of their segments. |
| `Paths.ParseFormat` | bp/codex.go:43-44 | Writing a relative directory as text (with "." for none) and parsing it back gives the same segments. |
| `TemplateData.NewData` | bp/codex.go:22-25 | A fresh context has no document loaded and the default `build_path` set to "build". |
| `TemplateData.Load` | bp/codex.go:31-35 | Reading the document replaces the loaded configuration and keeps the defaults and the environment. |
| `TemplateData.Get` | bp/template_data.go:20-22 | Returns the text of the scalar at the key, document before defaults. A non-empty result is always such a scalar. |
| `TemplateData.GetStrings` | bp/template_data.go:25-27 | Returns the items of the list at the key, document before defaults. A non-empty result is always such a list. |
| `TemplateData.Env` | bp/template_data.go:30-32 | Returns a set variable's value. A non-empty result is always the value of a set variable. |
| `TemplateData.GetFollowsDottedKey` | bp/template_data.go:20-22 | `Get` on the dotted form of a key path returns the scalar found by descending through the document's nested mappings. |
| `TemplateData.GetStringsFollowsDottedKey` | bp/template_data.go:25-27 | `GetStrings` on a dotted key returns the list's items, in document order. |
| `TemplateData.ConfigOverridesDefaults` | bp/codex.go:25-35 | A key present in the loaded document wins over any default set before loading. |
| `TemplateData.DefaultBuildRoot` | bp/codex.go:25 | Without `build_path` in the document, the build root is "build". |
| `TemplateData.ExplicitBuildRoot` | bp/codex.go:25-38 | An explicit `build_path` overrides the default, because the default is set before the document is read. |
| `TemplateData.EnvIgnoresConfig` | bp/template_data.go:30-32 | `Env` depends on the environment only. It agrees across documents and returns the variable's value when the variable is set. |
| `Codex.OutputDir` | bp/codex.go:43 | For proper segments, the output directory is the build root followed by the entry's directory. |
| `Codex.OutputPath` | bp/codex.go:44 | For proper segments, the output file is the build root, then the entry's directory, then the entry's name. |
| `Codex.Handler` | bp/codex.go:37-51 | The handler passed to `ProcessFiles` returns a template's parse error without touching the output. It changes no existing path other than the entry's destination. |
| `Codex.Handle` | bp/codex.go:39-42 | A template that does not parse returns its parse error before anything is created, and leaves the output untouched. No existing path other than the entry's destination changes. |
| `Codex.Place` | bp/codex.go:43-50 | Making the directory and writing the file changes no existing path except the destination. If `Create` fails, the call returns `CreateFailed` for the destination, and only the directories made remain. Otherwise the destination holds the text the execution wrote, even when it stopped early. The call returns the execution's error, if any, as an `ExecError`. |
| `Codex.PlaceWritesAt` | bp/codex.go:43-50 | Suppose no file is in the way. Then the directory exists and `Create` succeeds. The destination holds the text the execution wrote, and the call returns the execution's error or nil. |
| `Codex.HandleWrites` | bp/codex.go:38-50 | A fitting entry whose template parses is written at build root + dir + name. The only error it can return is the execution's. |
| `Codex.HandleIsPlace` | bp/codex.go:38-44 | The handler reads the build root from the loaded data and places the parsed template at the mirrored directory and file. |
| `Codex.Process` | bp/codex.go:19-54 | A `ReadConfig` error is returned as it is, and a document the parser rejects returns the parser's error; in both cases nothing is enumerated and the output is untouched. As written: once the configuration has loaded, the run reports no error, whatever the walk returned. |
| `Codex.ProcessChecked` | bp/codex.go:27-53 | A `ReadConfig` error or a parser error is returned before any enumeration, with the output untouched, as in `Process`. The corrected run writes the same output as `Process`. Once the configuration has loaded, it returns exactly the error the enumeration of `ProcessFiles` returns (`Drive` over `Entries`, which is the body of `ProcessFiles`). Whenever it reports no error, `Process` does not either. |
| `Codex.LoadedRun` | bp/codex.go:27-53 | Once bp.yaml is read and parsed, both runs leave the output of the enumeration. The corrected run returns its error; `Process` returns nil. |
| `Codex.ExecErrorIsReported` | bp/codex.go:37-53 | Take a well-formed project whose files before entry i render cleanly, while entry i's template parses but fails to execute. The corrected run returns that `ExecError`, and entry i's destination keeps the text written before the failure. `Process` returns nil. |
| `Codex.MissingConfigAbortsRun` | bp/codex.go:27-30 | Without bp.yaml the run returns "not found" before enumerating anything, and the output is untouched. |
| `Codex.BadConfigAbortsRun` | bp/codex.go:31-35 | A document the parser rejects ends both runs with the parser's error before any enumeration, with the output untouched. |
| `Codex.UnreadableConfigAbortsRun` | bp/codex.go:27-30 | A bp.yaml that exists but cannot be read as a file ends both runs with the read error before any enumeration, with the output untouched. |
| `Codex.TemplateErrorIsDropped` | bp/codex.go:37-53 | A template that does not parse makes the walk fail, yet `Process` reports success. |
| `Codex.HandlingMirrors` | bp/codex.go:37-51 | Handling disjoint, cleanly rendering entries in order never fails. The output then holds exactly their renderings and the directories leading to them. |
| `Codex.CleanPrefixMirrors` | bp/codex.go:37-51 | The same for the entries before a given one: if they render cleanly, their calls return nil and the output holds exactly their renderings, whatever the later entries do. |
| `Codex.ProjectEntriesDisjoint` | bp/project_provider.go:53-62 | In a well-formed project the handler's arguments are proper names, and no entry lies inside another. |
| `Codex.RunMirrorsProject` | bp/codex.go:19-54 | Take a well-formed project whose templates render cleanly. The run succeeds. Every file's rendering sits at its relative path below the single build root. No other file is written. |
| `Codex.SourceFileRendered` | bp/codex.go:37-51 | Every non-config file below the project folder is rendered at the build root followed by its path relative to the project folder. |
| `Codex.ConfigNeverWritten` | bp/project_provider.go:55-57 | No output file is named bp.yaml. |
| `Codex.NoConfigNamedFile` | bp/project_provider.go:55-57 | Output that holds only destinations of entries not named bp.yaml holds no file of that name. |
| `Scenarios.NestedFileLandsUnderBuild` | bp/codex_test.go:77-98 | Take any well-formed tree that holds a `/project/bp.yaml` file, whatever its text, and `/project/sub/a/template.txt` with content "template". Under an engine that renders each template as its own text, the run succeeds and writes "template" at `build/sub/a/template.txt`. |
| `Scenarios.NestedProjectRuns` | bp/codex_test.go:77-98 | The tree of the nested-files test, for any bp.yaml text, meets the lemma above. |
| `Scenarios.RootTemplateLandsInBuild` | bp/codex_test.go:18-36 | Take any well-formed tree holding a `/project/bp.yaml` file, whatever its text, and `/project/template.txt`. Under an engine that renders each template as its own text, a run succeeds and writes the template's text at `build/template.txt`: a top-level file, whose directory is ".", lands directly in the build root. |
| `Scenarios.RootProjectRuns` | bp/codex_test.go:12-21 | The tree the template tests write, `/project` with bp.yaml holding any of the tests' configuration texts and template.txt, meets the lemma above. |
| `Scenarios.UnparsableTemplateReportsNothing` | bp/codex.go:37-53 | Take any well-formed tree holding a `/project/bp.yaml` file and a `/project/sub/a/template.txt` with an unclosed action, under an engine that rejects that action. `Process` reports no error, while the corrected run reports one (the finding below). |
| `Scenarios.BrokenNestedProjectReportsNothing` | bp/codex.go:37-53 | The nested-files tree with `{{` as its template, for any bp.yaml text, meets the lemma above. |
| `Scenarios.SampleScalar` | bp/template_data_test.go:30-42 | `Get("test")` of a document holding `test: 123` is "123". |
| `Scenarios.SampleNestedScalar` | bp/template_data_test.go:43-45 | `Get("root.nested.item")` reaches the nested "421". |
| `Scenarios.SampleList` | bp/codex_test.go:62-75 | For the document `root: [item1, item2]`, `GetStrings("root")` returns `item1`, `item2` in document order. |
| `Scenarios.SampleEnvironment` | bp/codex_test.go:48-59 | `Env("codex-test")` returns the environment's "123". An unset variable reads as empty. |
| `Scenarios.SampleBuildRoot` | bp/codex.go:25 | A document without `build_path` leaves the build root at "build". |

## Left out

- `GitProvider` (bp/project_provider.go:66-113) clones over the network. Only the filesystem provider is modelled.
- The YAML parser and Go's `text/template` are uninterpreted functions of an `Engine`.
  - viper's coercion of numbers to strings is not modelled: scalars are held as the text the document gave.
  - viper's case-insensitive keys are not modelled.
  - viper's splitting of a scalar into a string slice is not modelled.
- `Scenarios.RootTemplateLandsInBuild`: the template tests' expected texts ("variable is 123", " 0 is item1 1 is item2") come from `text/template` and are not derived. The lemma runs an engine that renders each template as its own text and reads every document as empty. The accessors those templates call are covered by `SampleEnvironment` and `SampleList`.
- `Scenarios.RootProjectRuns`: the same verbatim engine, so any bp.yaml text is covered but none of the tests' rendered strings.
- `Scenarios.NestedFileLandsUnderBuild`: stated under the same verbatim engine. The nested test's template "template" has no actions, so `text/template` renders it as its own text too.
- `Get` and `GetStrings` return "" and [] for an absent key or a value of another kind. This is viper's zero value; the repository's code does not state it. The model claims it: the second ensures of each accessor says a non-empty result is a value of the right kind at the key.
- `TemplateData.Get`, `TemplateData.GetStrings`: a document key that itself contains a dot, such as a top-level `a.b: x`, is not found. The model splits the key on `.` first and descends, so `Get("a.b")` returns "". viper's path-prefix search would also find the literal key. Documents with dotted keys are not modelled.
- The process-wide afero filesystem (bp/codex.go:15) is split in two. The provider reads a source tree, and the renderer writes a separate output tree that starts empty. In the repository both live in one filesystem, so a build directory inside the project folder would be walked again. The model does not cover that.
- File modes, `defer f.Close()` and other MemMapFs details are left out. `MkdirAll` and `Create` follow POSIX behaviour: creating a file fails on a directory or a missing parent.
- `MkdirAll`'s error is ignored in the source, and so it is in the model. A file in the way leaves the directory missing, and `Create` then fails.
- The walk's error argument and the `ReadFile` error in `ProcessFiles` (bp/project_provider.go:52,61) are ignored in the source. Reads are total in the model.
- afero's `SkipDir` is not modelled; the handler is never asked to skip.
- `..` and absolute build paths are not modelled. Segments are cleaned of "" and "." only.
- Environment variables are a map fixed for the run.
- The walk, the entries and `Process` are ghost functions. The walk order is defined by sorting a finite set, which cannot be executed.
- `ProjectProvider.FileSystemProvider.ProcessFiles`: it requires the project folder to exist. With a missing folder the source dereferences a nil `FileInfo` (bp/project_provider.go:58) and panics. `Process` reaches `ProcessFiles` only after bp.yaml was read, which rules that case out.
- `Codex.Process`, `Codex.ProcessChecked`: they require a closed filesystem, in which every non-root path has a directory as its parent. Any real filesystem is closed.
- `Codex.RunMirrorsProject`, `Codex.SourceFileRendered`, `Codex.ConfigNeverWritten`: they are stated for runs in which every template parses and executes cleanly. They start from an empty output tree. When a template fails, only the error behaviour is stated (`Codex.TemplateErrorIsDropped`, `Codex.ExecErrorIsReported`).
- `Codex.ExecErrorIsReported`: covers execution errors only. In a well-formed project, starting from an empty output, `Create` cannot fail (`Codex.HandleWrites`), so no create error can surface there.

## Findings

| source | as written | input that shows it | evidently intended | confidence | as-written member | corrected member |
|---|---|---|---|---|---|---|
| bp/codex.go:37-53 | `Process` drops the error `ProcessFiles` returns and always returns nil after the configuration has loaded | a project whose only template is `{{` (an unclosed action): parsing fails and the walk stops with that error, but `Process` returns nil | return the error of `ProcessFiles`: the handler returns the parse, create and execute errors (bp/codex.go:41,47,50) and `ProcessFiles` passes them on (bp/project_provider.go:52), yet `Process` discards them | not executed | `Codex.Process` (with `Scenarios.UnparsableTemplateReportsNothing`, `Codex.TemplateErrorIsDropped`) | `Codex.ProcessChecked` |
