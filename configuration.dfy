/**
 * Locating the configuration file (onliner/configuration.py).
 *
 * The file system is abstracted as the set `existing` of paths for which
 * `os.path.exists` holds; the working directory and the home directory are
 * parameters, and reading and parsing the YAML file is a parameter `load`.
 */
module Configuration {
  import opened Wrappers

  /** `DEFAULT_CONFIG_NAME`. */
  const DEFAULT_CONFIG_NAME := "onliner.yml"

  /** `os.path.join(a, b)` for two components on POSIX. */
  function Join(a: string, b: string): (r: string)
    ensures |b| > 0 && b[0] == '/' ==> r == b
    ensures !(|b| > 0 && b[0] == '/') ==>
              && |r| == |a| + |b| + (if a == [] || a[|a| - 1] == '/' then 0 else 1)
              && r[..|a|] == a
              && r[|r| - |b|..] == b
              && (|r| > |a| + |b| ==> r[|a|] == '/')
  {
    if |b| > 0 && b[0] == '/' then b
    else if a == [] || a[|a| - 1] == '/' then a + b
    else a + "/" + b
  }

  /** `s.rstrip('/')`. */
  function RStripSlashes(s: string): (r: string)
    ensures |r| <= |s| && r == s[..|r|]
    ensures r == [] || r[|r| - 1] != '/'
    ensures forall i :: |r| <= i < |s| ==> s[i] == '/'
  {
    if s == [] || s[|s| - 1] != '/' then s else RStripSlashes(s[..|s| - 1])
  }

  /** Whether `name` is the last part of `path`, after a '/' or as the whole path. */
  predicate EndsWithName(path: string, name: string)
  {
    path == name || (|path| > |name| && path[|path| - |name| - 1] == '/' && path[|path| - |name|..] == name)
  }

  /** `os.path.join(os.getcwd(), DEFAULT_CONFIG_NAME)`: the file in the working directory. */
  function CwdConfigPath(cwd: string): (p: string)
    ensures EndsWithName(p, DEFAULT_CONFIG_NAME)
    ensures |p| >= |cwd| && p[..|cwd|] == cwd
    ensures cwd != [] && cwd[|cwd| - 1] != '/' ==> p == cwd + "/" + DEFAULT_CONFIG_NAME
    ensures cwd != [] && cwd[|cwd| - 1] == '/' ==> p == cwd + DEFAULT_CONFIG_NAME
  {
    var p := Join(cwd, DEFAULT_CONFIG_NAME);
    assert cwd != [] ==> p[|p| - |DEFAULT_CONFIG_NAME| - 1] == '/';
    p
  }

  /**
   * `os.path.expanduser(os.path.join('~', DEFAULT_CONFIG_NAME))` where `home`
   * is the home directory it looks up: that directory with its trailing
   * slashes removed, then "/onliner.yml".
   */
  function HomeConfigPath(home: string): (p: string)
    ensures EndsWithName(p, DEFAULT_CONFIG_NAME)
    ensures |p| == |RStripSlashes(home)| + 1 + |DEFAULT_CONFIG_NAME|
    ensures p[..|RStripSlashes(home)|] == RStripSlashes(home)
  {
    var p := RStripSlashes(home) + "/" + DEFAULT_CONFIG_NAME;
    assert p[|p| - |DEFAULT_CONFIG_NAME|..] == DEFAULT_CONFIG_NAME;
    p
  }

  /**
   * `config_preference`: the file in the working directory, then the one in
   * the home directory, then the relative path `etc/onliner.yml`.
   */
  function ConfigPreference(cwd: string, home: string): (prefs: seq<string>)
    ensures |prefs| == 3
    ensures forall p :: p in prefs ==> EndsWithName(p, DEFAULT_CONFIG_NAME)
    ensures |prefs[0]| >= |cwd| && prefs[0][..|cwd|] == cwd
    ensures cwd != [] && cwd[|cwd| - 1] != '/' ==> prefs[0] == cwd + "/" + DEFAULT_CONFIG_NAME
    ensures cwd != [] && cwd[|cwd| - 1] == '/' ==> prefs[0] == cwd + DEFAULT_CONFIG_NAME
    ensures prefs[1] == RStripSlashes(home) + "/" + DEFAULT_CONFIG_NAME
    ensures prefs[2] == "etc/onliner.yml" && prefs[2][0] != '/'
  {
    var c, h, e := CwdConfigPath(cwd), HomeConfigPath(home), Join("etc", DEFAULT_CONFIG_NAME);
    EtcConfigPath();
    assert h == RStripSlashes(home) + "/" + DEFAULT_CONFIG_NAME;
    [c, h, e]
  }

  /** `os.path.join('etc', DEFAULT_CONFIG_NAME)` is the relative path "etc/onliner.yml". */
  lemma EtcConfigPath()
    ensures Join("etc", DEFAULT_CONFIG_NAME) == "etc/onliner.yml"
    ensures EndsWithName("etc/onliner.yml", DEFAULT_CONFIG_NAME)
  {
  }

  /** The loop over `config_preference`: the first path, in list order, that exists. */
  function FirstExisting(paths: seq<string>, existing: set<string>): (r: Option<string>)
    ensures r.None? <==> forall i :: 0 <= i < |paths| ==> paths[i] !in existing
    ensures r.Some? ==>
              exists i :: 0 <= i < |paths| && paths[i] == r.value && r.value in existing
                          && forall j :: 0 <= j < i ==> paths[j] !in existing
  {
    if paths == [] then None
    else if paths[0] in existing then Some(paths[0])
    else
      var r := FirstExisting(paths[1..], existing);
      assert r.Some? ==> exists i :: 0 <= i < |paths[1..]| && paths[1..][i] == r.value && r.value in existing
                          && forall j :: 0 <= j < i ==> paths[1..][j] !in existing;
      r
  }

  /**
   * `get_config_path`: the given path when it exists, otherwise the first
   * existing path of `prefs`, otherwise `None`.
   */
  function GetConfigPath(cfgPath: Option<string>, prefs: seq<string>, existing: set<string>): (r: Option<string>)
    ensures cfgPath.Some? && cfgPath.value in existing ==> r == cfgPath
    ensures r.Some? ==> r.value in existing && (r == cfgPath || r.value in prefs)
    ensures r.None? <==>
              && (cfgPath.None? || cfgPath.value !in existing)
              && forall p :: p in prefs ==> p !in existing
  {
    if cfgPath.Some? && cfgPath.value in existing then cfgPath
    else FirstExisting(prefs, existing)
  }

  /**
   * A given path that does not exist is ignored, not reported: the answer is
   * the one obtained with no path given.
   */
  lemma MissingPathFallsBack(cfgPath: string, prefs: seq<string>, existing: set<string>)
    requires cfgPath !in existing
    ensures GetConfigPath(Some(cfgPath), prefs, existing) == GetConfigPath(None, prefs, existing)
    ensures forall i :: 0 <= i < |prefs| && prefs[i] in existing ==>
              GetConfigPath(Some(cfgPath), prefs, existing).Some?
  {
  }

  /**
   * When the given path is missing or absent, the answer is the preference
   * entry at the smallest index that exists.
   */
  lemma FallbackIsEarliest(cfgPath: Option<string>, prefs: seq<string>, existing: set<string>, k: nat)
    requires cfgPath.None? || cfgPath.value !in existing
    requires k < |prefs| && prefs[k] in existing
    requires forall j :: 0 <= j < k ==> prefs[j] !in existing
    ensures GetConfigPath(cfgPath, prefs, existing) == Some(prefs[k])
  {
  }

  /** What `read_configuration` produces: the loaded configuration, or a `RuntimeError`. */
  datatype Loaded<T> = Config(value: T) | RuntimeError(message: string)

  const NOT_FOUND := "No configuration file has been found."

  /**
   * `read_configuration`: resolve the path and load it, or raise
   * `RuntimeError` when no configuration file was found.
   */
  function ReadConfiguration<T>(path: Option<string>, prefs: seq<string>, existing: set<string>, load: string -> T)
    : (r: Loaded<T>)
    ensures r.RuntimeError? <==>
              && (path.None? || path.value !in existing)
              && forall p :: p in prefs ==> p !in existing
    ensures r.RuntimeError? ==> r.message == NOT_FOUND
    ensures r.Config? ==>
              && GetConfigPath(path, prefs, existing).Some?
              && r.value == load(GetConfigPath(path, prefs, existing).value)
  {
    var cfgPath := GetConfigPath(path, prefs, existing);
    if cfgPath.None? then RuntimeError(NOT_FOUND)
    else Config(load(cfgPath.value))
  }
}
