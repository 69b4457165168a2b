/** The data a template sees: the loaded configuration, the defaults set before loading, and the
    process environment, behind three read-only accessors. */
module TemplateData {
  import opened Wrappers
  import opened Text

  /** A configuration value; scalars are held as the text the document gave them. */
  datatype Value = Scalar(text: string) | List(items: seq<string>) | Tree(entries: map<string, Value>)

  type Config = map<string, Value>

  type Environment = map<string, string>

  datatype Data = Data(config: Config, defaults: Config, env: Environment)

  const BuildPathKey: string := "build_path"
  const DefaultBuildPath: string := "build"

  /** A fresh context with the build_path default in place and nothing loaded yet. */
  function NewData(env: Environment): (d: Data)
    ensures d.config == map[] && d.env == env
    ensures BuildPathKey in d.defaults && d.defaults[BuildPathKey] == Scalar(DefaultBuildPath)
  {
    Data(map[], map[BuildPathKey := Scalar(DefaultBuildPath)], env)
  }

  /** Reading a parsed document into the context; the defaults stay underneath it. */
  function Load(d: Data, config: Config): (d': Data)
    ensures d'.config == config && d'.defaults == d.defaults && d'.env == d.env
  {
    d.(config := config)
  }

  /** The value reached from `v` by descending through nested mappings along `keys`. */
  function Find(v: Value, keys: seq<string>): Option<Value>
    decreases |keys|
  {
    if |keys| == 0 then Some(v)
    else match v
      case Tree(m) => if keys[0] in m then Find(m[keys[0]], keys[1..]) else None
      case _ => None
  }

  /** A dotted key: the loaded document first, then the defaults. */
  function Lookup(d: Data, key: string): Option<Value> {
    var keys := Split(key, '.');
    var fromConfig := Find(Tree(d.config), keys);
    if fromConfig.Some? then fromConfig else Find(Tree(d.defaults), keys)
  }

  /** The scalar at `key`; the empty string when it is absent or not a scalar. */
  function Get(d: Data, key: string): (r: string)
    ensures Lookup(d, key).Some? && Lookup(d, key).value.Scalar? ==> r == Lookup(d, key).value.text
    ensures r != "" ==> Lookup(d, key) == Some(Scalar(r))
  {
    match Lookup(d, key)
    case Some(Scalar(s)) => s
    case _ => ""
  }

  /** The list at `key`, in document order; empty when it is absent or not a list. */
  function GetStrings(d: Data, key: string): (r: seq<string>)
    ensures Lookup(d, key).Some? && Lookup(d, key).value.List? ==> r == Lookup(d, key).value.items
    ensures r != [] ==> Lookup(d, key) == Some(List(r))
  {
    match Lookup(d, key)
    case Some(List(items)) => items
    case _ => []
  }

  /** The environment variable `name`; empty when unset. */
  function Env(d: Data, name: string): (r: string)
    ensures name in d.env ==> r == d.env[name]
    ensures r != "" ==> name in d.env && d.env[name] == r
  {
    if name in d.env then d.env[name] else ""
  }

  /** The build root text, as the renderer reads it for every file. */
  function BuildRoot(d: Data): string {
    Get(d, BuildPathKey)
  }

  /** Resolution along a dotted path is resolution of its first part, then of the rest. */
  lemma {:induction false} FindConcat(v: Value, a: seq<string>, b: seq<string>)
    ensures Find(v, a + b) == (match Find(v, a) case Some(u) => Find(u, b) case None => None)
    decreases |a|
  {
    if |a| > 0 {
      assert (a + b)[0] == a[0] && (a + b)[1..] == a[1..] + b;
      if v.Tree? && a[0] in v.entries {
        FindConcat(v.entries[a[0]], a[1..], b);
      }
    } else {
      assert a + b == b;
    }
  }

  /** Get follows a dotted key through nested mappings of the loaded document, so
      `root.nested.item` reaches the item inside `root` and `nested`. */
  lemma GetFollowsDottedKey(d: Data, keys: seq<string>, s: string)
    requires |keys| >= 1 && forall i :: 0 <= i < |keys| ==> '.' !in keys[i]
    requires Find(Tree(d.config), keys) == Some(Scalar(s))
    ensures Get(d, JoinWith(keys, '.')) == s
  {
    SplitJoin(keys, '.');
  }

  /** GetStrings follows a dotted key the same way and yields the list's items in order. */
  lemma GetStringsFollowsDottedKey(d: Data, keys: seq<string>, items: seq<string>)
    requires |keys| >= 1 && forall i :: 0 <= i < |keys| ==> '.' !in keys[i]
    requires Find(Tree(d.config), keys) == Some(List(items))
    ensures GetStrings(d, JoinWith(keys, '.')) == items
  {
    SplitJoin(keys, '.');
  }

  /** A key present in the loaded document wins over any default. */
  lemma ConfigOverridesDefaults(d: Data, keys: seq<string>, v: Value)
    requires |keys| >= 1 && forall i :: 0 <= i < |keys| ==> '.' !in keys[i]
    requires Find(Tree(d.config), keys) == Some(v)
    ensures Lookup(d, JoinWith(keys, '.')) == Some(v)
  {
    SplitJoin(keys, '.');
  }

  /** Without build_path in the document the build root is "build". */
  lemma DefaultBuildRoot(env: Environment, config: Config)
    requires BuildPathKey !in config
    ensures BuildRoot(Load(NewData(env), config)) == DefaultBuildPath
  {
    var d := Load(NewData(env), config);
    BuildPathKeyIsOneKey();
    assert Find(Tree(d.config), [BuildPathKey]) == None;
    assert Find(Tree(d.defaults), [BuildPathKey]) == Some(Scalar(DefaultBuildPath));
  }

  /** An explicit build_path overrides the default, since the default was set before loading. */
  lemma ExplicitBuildRoot(env: Environment, config: Config, s: string)
    requires BuildPathKey in config && config[BuildPathKey] == Scalar(s)
    ensures BuildRoot(Load(NewData(env), config)) == s
  {
    var d := Load(NewData(env), config);
    BuildPathKeyIsOneKey();
    assert Find(Tree(d.config), [BuildPathKey]) == Some(Scalar(s));
  }

  lemma BuildPathKeyIsOneKey()
    ensures Split(BuildPathKey, '.') == [BuildPathKey]
  {
    assert forall i :: 0 <= i < |BuildPathKey| ==> BuildPathKey[i] != '.';
    SplitWithoutSep(BuildPathKey, '.');
  }

  /** Env reads only the environment: two contexts over the same environment agree on it,
      whatever their documents hold. */
  lemma EnvIgnoresConfig(d1: Data, d2: Data, name: string)
    requires d1.env == d2.env
    ensures Env(d1, name) == Env(d2, name)
    ensures name in d1.env ==> Env(d1, name) == d1.env[name]
  {
  }
}
