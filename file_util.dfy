/**
 The string and path helpers of the file utilities of the Hyper server:
 the case-insensitive suffix test and the file-kind predicates built on it,
 the absolute-path heuristic, the application-directory choice, home-directory
 resolution and the three application directories derived from it.

 The path library is passed in: `sep` stands for the platform separator,
 `dirname` and `join` for the library's functions of those names. The process
 state is passed in as well: the platform name, a snapshot of the environment
 and the user id.
 */
module FileUtil {
  import opened Js

  datatype Option<T> = None | Some(value: T)

  /** The path library's `join`; assumed to return a non-empty path, as the
      library does whenever one of its segments is non-empty. */
  type Join = (string, string) -> string

  ghost predicate JoinNonEmpty(join: Join) {
    forall a, b :: join(a, b) != ""
  }

  // ---------------------------------------------------------------------
  // Case-insensitive suffix test
  // ---------------------------------------------------------------------

  /** `stringEndsWith(aString, subString)`: the lower-cased suffix equals the
      tail of the lower-cased string cut with `substr(-(subString.length))`. */
  function StringEndsWith(aString: string, subString: string): bool {
    ToLowerCase(subString) == Substr(ToLowerCase(aString), -|subString|)
  }

  /** Reference definition: the last |t| characters of `s` are those of `t`,
      up to ASCII case. */
  predicate EndsWithIgnoringCase(s: string, t: string) {
    |t| <= |s| && forall i :: 0 <= i < |t| ==> LowerChar(s[|s| - |t| + i]) == LowerChar(t[i])
  }

  /** The empty suffix: `substr(-0)` is the whole string, so only the empty
      string ends with "". */
  lemma EmptySuffix(s: string)
    ensures StringEndsWith(s, "") <==> s == ""
  {
    assert ToLowerCase("") == "";
  }

  /** A suffix longer than the string never matches. */
  lemma LongerSuffix(s: string, t: string)
    requires |s| < |t|
    ensures !StringEndsWith(s, t)
  {
  }

  /** For a non-empty suffix the test is exactly the reference definition. */
  lemma NonEmptySuffix(s: string, t: string)
    requires t != ""
    ensures StringEndsWith(s, t) <==> EndsWithIgnoringCase(s, t)
  {
    if |t| <= |s| {
      var ls, lt := ToLowerCase(s), ToLowerCase(t);
      var tail := Substr(ls, -|t|);
      assert tail == ls[|s| - |t|..];
      if EndsWithIgnoringCase(s, t) {
        assert forall i :: 0 <= i < |t| ==> tail[i] == lt[i];
      }
      if tail == lt {
        forall i | 0 <= i < |t| ensures LowerChar(s[|s| - |t| + i]) == LowerChar(t[i]) {
          assert tail[i] == lt[i];
        }
      }
    } else {
      LongerSuffix(s, t);
    }
  }

  /** Changing the ASCII case of any character of either argument does not
      change the answer. */
  lemma StringEndsWithIgnoresCase(s: string, s': string, t: string, t': string)
    requires SameIgnoringCase(s, s') && SameIgnoringCase(t, t')
    ensures StringEndsWith(s, t) == StringEndsWith(s', t')
  {
    ToLowerCaseIgnoresCase(s, s');
    ToLowerCaseIgnoresCase(t, t');
  }

  /** `fileIsHTML(path)`: the path ends with ".html" or ".htm". */
  predicate FileIsHTML(path: string) {
    StringEndsWith(path, ".html") || StringEndsWith(path, ".htm")
  }

  /** `fileIsEvothingsSettings(path)`: the path ends with "evothings.json". */
  predicate FileIsEvothingsSettings(path: string) {
    StringEndsWith(path, "evothings.json")
  }

  lemma FileIsHTMLSuffix(path: string)
    ensures FileIsHTML(path) <==>
      EndsWithIgnoringCase(path, ".html") || EndsWithIgnoringCase(path, ".htm")
  {
    NonEmptySuffix(path, ".html");
    NonEmptySuffix(path, ".htm");
  }

  lemma FileIsEvothingsSettingsSuffix(path: string)
    ensures FileIsEvothingsSettings(path) <==> EndsWithIgnoringCase(path, "evothings.json")
  {
    NonEmptySuffix(path, "evothings.json");
  }

  /** Worked cases of the suffix tests. */
  lemma SettingsSuffixExamples()
    ensures StringEndsWith("Evothings.JSON", "evothings.json")
    ensures !StringEndsWith("foo.json", "evothings.json")
  {
    assert EndsWithIgnoringCase("Evothings.JSON", "evothings.json");
    NonEmptySuffix("Evothings.JSON", "evothings.json");
    LongerSuffix("foo.json", "evothings.json");
  }

  lemma HtmlSuffixExample()
    ensures FileIsHTML("/a/b/Index.HTML")
  {
    assert EndsWithIgnoringCase("/a/b/Index.HTML", ".html");
    FileIsHTMLSuffix("/a/b/Index.HTML");
  }

  lemma NotHtmlSuffixExample()
    ensures !FileIsHTML("/a/b/index.txt")
  {
    assert "/a/b/index.txt"[9] != ".html"[0];
    assert "/a/b/index.txt"[11] != ".htm"[1];
    FileIsHTMLSuffix("/a/b/index.txt");
  }

  // ---------------------------------------------------------------------
  // Absolute paths and application directories
  // ---------------------------------------------------------------------

  /** `isPathAbsolute(path)`: character 0 is "/" or the separator, or
      character 1 is ":"; an index past the end is `undefined` and matches
      nothing. */
  predicate IsPathAbsolute(path: string, sep: string) {
    CharAt(path, 0) == Str("/") || CharAt(path, 0) == Str(sep) || CharAt(path, 1) == Str(":")
  }

  lemma IsPathAbsoluteChars(path: string, sep: string)
    ensures IsPathAbsolute(path, sep) <==>
      (|path| >= 1 && (path[0] == '/' || sep == [path[0]])) || (|path| >= 2 && path[1] == ':')
  {
  }

  lemma EmptyPathIsRelative(sep: string)
    ensures !IsPathAbsolute("", sep)
  {
  }

  /** Only the first two characters take part in the decision. */
  lemma IsPathAbsoluteLooksAtTwoChars(path: string, rest: string, sep: string)
    requires |path| >= 2
    ensures IsPathAbsolute(path + rest, sep) == IsPathAbsolute(path[..2], sep)
  {
    assert (path + rest)[0] == path[..2][0];
    assert (path + rest)[1] == path[..2][1];
  }

  lemma IsPathAbsoluteExamples(sep: string)
    requires sep == "/" || sep == "\\"
    ensures IsPathAbsolute("/usr/bin", sep)
    ensures IsPathAbsolute("C:\\Users", sep)
    ensures IsPathAbsolute("\\Windows", "\\")
    ensures !IsPathAbsolute("relative/path", sep)
  {
  }

  /** `getAppDirectory(path)`: the containing directory of an HTML file,
      otherwise the path itself, taken to be a directory. */
  function GetAppDirectory(path: string, dirname: string -> string): string {
    if FileIsHTML(path) then dirname(path) else path
  }

  lemma GetAppDirectoryCases(path: string, dirname: string -> string)
    ensures GetAppDirectory(path, dirname) ==
      if EndsWithIgnoringCase(path, ".html") || EndsWithIgnoringCase(path, ".htm")
      then dirname(path) else path
  {
    FileIsHTMLSuffix(path);
  }

  lemma GetAppDirectoryExamples(dirname: string -> string)
    ensures GetAppDirectory("/a/b/index.html", dirname) == dirname("/a/b/index.html")
    ensures GetAppDirectory("/a/b", dirname) == "/a/b"
  {
    assert EndsWithIgnoringCase("/a/b/index.html", ".html");
    FileIsHTMLSuffix("/a/b/index.html");
    assert "/a/b"[0] != ".htm"[0];
    FileIsHTMLSuffix("/a/b");
  }

  // ---------------------------------------------------------------------
  // Home directory
  // ---------------------------------------------------------------------

  /** A snapshot of the process environment. */
  type Env = map<string, string>

  /** `env.NAME`: the variable's text, or `undefined` when it is not set. */
  function EnvGet(env: Env, name: string): (r: Value)
    ensures IsUndefinedOrString(r)
  {
    if name in env then Str(env[name]) else Undefined
  }

  predicate NonEmpty(env: Env, name: string) {
    name in env && env[name] != ""
  }

  /** The variables that may hold the user name, in the order they are tried. */
  const UserVariables: seq<string> := ["LOGNAME", "USER", "LNAME", "USERNAME"]

  /** The user name: the first truthy one of LOGNAME, USER, LNAME and
      USERNAME, else the value of the last of them. */
  function UserName(env: Env): (r: Value)
    ensures IsUndefinedOrString(r)
  {
    Or(Or(Or(EnvGet(env, "LOGNAME"), EnvGet(env, "USER")), EnvGet(env, "LNAME")), EnvGet(env, "USERNAME"))
  }

  /** Reference definition: the value of the first variable in `names` that
      is set to a non-empty text. */
  function FirstNonEmpty(env: Env, names: seq<string>): (r: Option<string>)
    ensures r.Some? ==> r.value != ""
  {
    if names == [] then None
    else if NonEmpty(env, names[0]) then Some(env[names[0]])
    else FirstNonEmpty(env, names[1..])
  }

  /** The user name is the first non-empty one of LOGNAME, USER, LNAME and
      USERNAME; with none of them non-empty it is falsy. */
  lemma UserNameIsFirstNonEmpty(env: Env)
    ensures Truthy(UserName(env)) <==> FirstNonEmpty(env, UserVariables).Some?
    ensures Truthy(UserName(env)) ==> UserName(env) == Str(FirstNonEmpty(env, UserVariables).value)
  {
    var v := UserVariables;
    assert FirstNonEmpty(env, v[3..]) == FirstNonEmpty(env, ["USERNAME"]);
    assert FirstNonEmpty(env, v[2..]) == if NonEmpty(env, "LNAME") then Some(env["LNAME"]) else FirstNonEmpty(env, v[3..]);
    assert FirstNonEmpty(env, v[1..]) == if NonEmpty(env, "USER") then Some(env["USER"]) else FirstNonEmpty(env, v[2..]);
  }

  /** `getHomeDir()` for the given platform, environment and user id. */
  function GetHomeDir(platform: string, env: Env, uid: int): (r: Value)
    ensures r.Null? || Truthy(r)
  {
    var home := EnvGet(env, "HOME");
    var user := UserName(env);
    if platform == "win32" then
      Or(Or(Or(EnvGet(env, "USERPROFILE"), Plus(EnvGet(env, "HOMEDRIVE"), EnvGet(env, "HOMEPATH"))), home), Null)
    else if platform == "darwin" then
      Or(home, if Truthy(user) then Plus(Str("/Users/"), user) else Null)
    else if platform == "linux" then
      Or(home, if uid == 0 then Str("/root") else if Truthy(user) then Plus(Str("/home/"), user) else Null)
    else
      Or(home, Null)
  }

  /** What `env.NAME` turns into when it is concatenated: its text, or
      "undefined" when it is not set. */
  function ConcatText(env: Env, name: string): string {
    if name in env then env[name] else "undefined"
  }

  /** On win32 the concatenation HOMEDRIVE + HOMEPATH is used when at least
      one of the two is set and the joined text is not empty. */
  predicate DriveAndPathUsable(env: Env) {
    ("HOMEDRIVE" in env || "HOMEPATH" in env) && ConcatText(env, "HOMEDRIVE") + ConcatText(env, "HOMEPATH") != ""
  }

  /** The win32 decision table: a non-empty USERPROFILE first, then the
      drive-and-path concatenation (where an unset half reads "undefined"),
      then a non-empty HOME, else null. */
  lemma Win32HomeDir(env: Env, uid: int)
    ensures GetHomeDir("win32", env, uid) ==
      if NonEmpty(env, "USERPROFILE") then Str(env["USERPROFILE"])
      else if DriveAndPathUsable(env) then Str(ConcatText(env, "HOMEDRIVE") + ConcatText(env, "HOMEPATH"))
      else if NonEmpty(env, "HOME") then Str(env["HOME"])
      else Null
  {
    var drive, path := EnvGet(env, "HOMEDRIVE"), EnvGet(env, "HOMEPATH");
    assert ToString(drive) == ConcatText(env, "HOMEDRIVE");
    assert ToString(path) == ConcatText(env, "HOMEPATH");
  }

  /** With HOMEPATH set and HOMEDRIVE unset, the home directory on win32
      starts with the text "undefined". */
  lemma Win32UnsetDriveReadsUndefined(uid: int)
    ensures GetHomeDir("win32", map["HOMEPATH" := "\\Users\\ann"], uid) == Str("undefined\\Users\\ann")
  {
    Win32HomeDir(map["HOMEPATH" := "\\Users\\ann"], uid);
  }

  /** Off win32 a non-empty HOME is the answer as it is. */
  lemma HomeFirstOffWin32(platform: string, env: Env, uid: int)
    requires platform != "win32" && NonEmpty(env, "HOME")
    ensures GetHomeDir(platform, env, uid) == Str(env["HOME"])
  {
  }

  /** darwin: HOME, else /Users/<user>, else null. */
  lemma DarwinHomeDir(env: Env, uid: int)
    ensures GetHomeDir("darwin", env, uid) ==
      if NonEmpty(env, "HOME") then Str(env["HOME"])
      else match FirstNonEmpty(env, UserVariables)
        case Some(user) => Str("/Users/" + user)
        case None => Null
  {
    UserNameIsFirstNonEmpty(env);
  }

  /** linux: HOME, else /root for user id 0, else /home/<user>, else null. */
  lemma LinuxHomeDir(env: Env, uid: int)
    ensures GetHomeDir("linux", env, uid) ==
      if NonEmpty(env, "HOME") then Str(env["HOME"])
      else if uid == 0 then Str("/root")
      else match FirstNonEmpty(env, UserVariables)
        case Some(user) => Str("/home/" + user)
        case None => Null
  {
    UserNameIsFirstNonEmpty(env);
  }

  /** Every other platform: HOME or null. */
  lemma OtherPlatformHomeDir(platform: string, env: Env, uid: int)
    requires platform != "win32" && platform != "darwin" && platform != "linux"
    ensures GetHomeDir(platform, env, uid) == if NonEmpty(env, "HOME") then Str(env["HOME"]) else Null
  {
  }

  // ---------------------------------------------------------------------
  // Application directories under the home directory
  // ---------------------------------------------------------------------

  /** The segment joined onto the base when the base is truthy, else
      `undefined`, which is what the getters' unassigned local holds. */
  function JoinIfTruthy(base: Value, segment: string, join: Join): Value {
    if Truthy(base) then Str(join(base.s, segment)) else Undefined
  }

  /** `getEvothingsHomePath()`: <home>/Evothings. */
  function GetEvothingsHomePath(platform: string, env: Env, uid: int, join: Join): Value {
    JoinIfTruthy(GetHomeDir(platform, env, uid), "Evothings", join)
  }

  /** `getOldEvothingsHomePath()`: <home>/EvothingsStudio. */
  function GetOldEvothingsHomePath(platform: string, env: Env, uid: int, join: Join): Value {
    JoinIfTruthy(GetHomeDir(platform, env, uid), "EvothingsStudio", join)
  }

  /** `getEvothingsMyAppsPath()`: <home>/Evothings/MyApps. */
  function GetEvothingsMyAppsPath(platform: string, env: Env, uid: int, join: Join): Value {
    JoinIfTruthy(GetEvothingsHomePath(platform, env, uid, join), "MyApps", join)
  }

  /** The Evothings home path is defined exactly when a home directory
      is found, and then lies directly under it. */
  lemma EvothingsHomePathDefined(platform: string, env: Env, uid: int, join: Join)
    ensures var home := GetHomeDir(platform, env, uid);
      GetEvothingsHomePath(platform, env, uid, join) ==
        if home.Null? then Undefined else Str(join(home.s, "Evothings"))
  {
  }

  lemma OldEvothingsHomePathDefined(platform: string, env: Env, uid: int, join: Join)
    ensures var home := GetHomeDir(platform, env, uid);
      GetOldEvothingsHomePath(platform, env, uid, join) ==
        if home.Null? then Undefined else Str(join(home.s, "EvothingsStudio"))
  {
  }

  /** The MyApps path is defined exactly when the Evothings home path is,
      and then it is <home>/Evothings/MyApps. */
  lemma MyAppsPathDefined(platform: string, env: Env, uid: int, join: Join)
    requires JoinNonEmpty(join)
    ensures var evothings := GetEvothingsHomePath(platform, env, uid, join);
      GetEvothingsMyAppsPath(platform, env, uid, join) ==
        if evothings.Undefined? then Undefined else Str(join(evothings.s, "MyApps"))
    ensures var home := GetHomeDir(platform, env, uid);
      GetEvothingsMyAppsPath(platform, env, uid, join) ==
        if home.Null? then Undefined else Str(join(join(home.s, "Evothings"), "MyApps"))
  {
    EvothingsHomePathDefined(platform, env, uid, join);
  }
}
