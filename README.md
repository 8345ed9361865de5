# File helpers of the Hyper server, modelled in Dafny

This project models the string and path logic of `app/hyper/server/file-util.js`, the helper module of the Evothings Studio Hyper server. It covers four groups of helpers.

- The case-insensitive suffix test `stringEndsWith`, and the predicates built on it: `fileIsHTML` and `fileIsEvothingsSettings`.
- The absolute-path heuristic `isPathAbsolute`, and `getAppDirectory`, which picks a directory for an app path.
- Home-directory resolution `getHomeDir`.
- The three application directories under the home directory: `getEvothingsHomePath`, `getOldEvothingsHomePath` and `getEvothingsMyAppsPath`.

Two modules:

- `Js` (`js.dfy`) holds the part of JavaScript's semantics that this code depends on:
  - the values the code produces: `undefined`, `null`, `NaN` and strings;
  - truthiness, `||`, and `+` on strings and `undefined` (so `undefined` reads as the text "undefined");
  - `s[i]`, where an index past the end gives `undefined`;
  - `s.substr(start)`, where `substr(-0)` gives the whole string;
  - in both, indexes and lengths count Unicode scalar values, not UTF-16 code units. For the `substr` and `length` of `stringEndsWith` this gives the same answer on well-formed strings; for `s[i]` see "## Left out";
  - `toLowerCase` on ASCII.
- `FileUtil` (`file_util.dfy`) holds the helpers themselves. Each one is a function, because the source helpers are expressions with no loops and no state. Beside each function sit lemmas that tie it to a reference definition or to a decision table.

The model takes as parameters what the source reads from outside:

- the path separator `PATH.sep`, as a string;
- `PATH.dirname`, as a function `string -> string`;
- `PATH.join`, as a function `(string, string) -> string`. The lemmas that need it assume it never returns the empty string;
- `process.platform`, as a string;
- `process.env`, as a map from names to strings. For each of the eight names the code reads (HOME, USERPROFILE, HOMEDRIVE, HOMEPATH, LOGNAME, USER, LNAME, USERNAME), the map holds exactly what `env.NAME` yields, so an exact-key lookup matches the source. On win32, Node looks names up without regard to case; the map is taken to hold the result of that lookup;
- `process.getuid()`, as an integer.

On win32, `getHomeDir` is usually described as "USERPROFILE, else HOMEDRIVE + HOMEPATH, else HOME". The code does not quite do that, and the model follows the code. The code joins the two variables with JavaScript `+`. With both of them unset, this gives `NaN`, which is falsy, so the next choice is tried. With only one of them set, the unset one reads as the text "undefined", and the result is truthy. `Win32HomeDir` states the full table, and `Win32UnsetDriveReadsUndefined` shows a concrete case.

## Model

| member | source | states |
|---|---|---|
| Js.CharAt | app/hyper/server/file-util.js:74 | `path[i]`: the one-character string at index i, or `undefined` past the end. It has no contract of its own; `FileUtil.IsPathAbsoluteChars` and `FileUtil.EmptyPathIsRelative` pin its use |
| Js.Substr | app/hyper/server/file-util.js:80 | `substr(start)` returns a suffix of the string. For a negative start its length is min(-start, length). For a start of 0 or more its length is max(length - start, 0), so `substr(-0)` is the whole string |
| Js.ToLowerCase | app/hyper/server/file-util.js:80 | lower-casing keeps the length and lowers each character on its own (ASCII) |
| Js.ToLowerCaseIgnoresCase | app/hyper/server/file-util.js:80 | two strings have the same lower-case form iff they differ only in ASCII case |
| Js.Truthy | app/hyper/server/file-util.js:147 | JavaScript ToBoolean: `undefined`, `null`, `NaN` and "" are falsy, every other string is truthy. It has no contract of its own; it decides every `if (home)`, `?:` and logical or at :147, :173 and :188-198, and `Js.Or`, `FileUtil.GetHomeDir` and the home-directory table lemmas pin its use |
| Js.ToString | app/hyper/server/file-util.js:190 | JavaScript ToString on these values, with `undefined` giving the text "undefined", as `+` applies it at :190, :193 and :196. It has no contract of its own; `Js.Plus` and `FileUtil.Win32HomeDir` pin its use |
| Js.Or | app/hyper/server/file-util.js:188 | JavaScript logical or yields one of its two operands, and it is truthy iff either operand is truthy |
| Js.Plus | app/hyper/server/file-util.js:190 | `a + b` on strings and `undefined` is `NaN` iff both are `undefined`; otherwise it is the concatenation of their ToStrings |
| FileUtil.StringEndsWith | app/hyper/server/file-util.js:78-81 | computes `stringEndsWith`. It has no contract of its own; `FileUtil.EmptySuffix`, `FileUtil.LongerSuffix`, `FileUtil.NonEmptySuffix` and `FileUtil.StringEndsWithIgnoresCase` pin it |
| FileUtil.EmptySuffix | app/hyper/server/file-util.js:78-81 | `stringEndsWith(s, "")` holds iff `s` is empty |
| FileUtil.LongerSuffix | app/hyper/server/file-util.js:78-81 | a suffix longer than the string never matches |
| FileUtil.NonEmptySuffix | app/hyper/server/file-util.js:78-81 | for a non-empty suffix `t`, `stringEndsWith(s, t)` holds iff `t` is no longer than `s` and the last characters of `s`, as many as `t` has, equal those of `t` up to ASCII case |
| FileUtil.StringEndsWithIgnoresCase | app/hyper/server/file-util.js:78-81 | the answer does not change when the ASCII case of any character of either argument changes |
| FileUtil.FileIsHTML | app/hyper/server/file-util.js:83-86 | computes `fileIsHTML`. It has no contract of its own; `FileUtil.FileIsHTMLSuffix` pins it |
| FileUtil.FileIsEvothingsSettings | app/hyper/server/file-util.js:101-104 | computes `fileIsEvothingsSettings`. It has no contract of its own; `FileUtil.FileIsEvothingsSettingsSuffix` pins it |
| FileUtil.FileIsHTMLSuffix | app/hyper/server/file-util.js:83-86 | `fileIsHTML(p)` holds iff `p` ends with ".html" or ".htm", ignoring case |
| FileUtil.FileIsEvothingsSettingsSuffix | app/hyper/server/file-util.js:101-104 | `fileIsEvothingsSettings(p)` holds iff `p` ends with "evothings.json", ignoring case |
| FileUtil.SettingsSuffixExamples | app/hyper/server/file-util.js:78-81 | "Evothings.JSON" ends with "evothings.json"; "foo.json" does not |
| FileUtil.HtmlSuffixExample | app/hyper/server/file-util.js:83-86 | "/a/b/Index.HTML" is an HTML file |
| FileUtil.NotHtmlSuffixExample | app/hyper/server/file-util.js:83-86 | "/a/b/index.txt" is not an HTML file |
| FileUtil.IsPathAbsolute | app/hyper/server/file-util.js:71-75 | computes `isPathAbsolute` with the separator as a parameter. It has no contract of its own; `FileUtil.IsPathAbsoluteChars`, `FileUtil.EmptyPathIsRelative` and `FileUtil.IsPathAbsoluteLooksAtTwoChars` pin it |
| FileUtil.IsPathAbsoluteChars | app/hyper/server/file-util.js:71-75 | a path is absolute iff it has a character 0 that is '/' or the separator, or a character 1 that is ':' |
| FileUtil.EmptyPathIsRelative | app/hyper/server/file-util.js:71-75 | the empty path is never absolute |
| FileUtil.IsPathAbsoluteLooksAtTwoChars | app/hyper/server/file-util.js:71-75 | characters after index 1 never change the answer |
| FileUtil.IsPathAbsoluteExamples | app/hyper/server/file-util.js:71-75 | "/usr/bin" and "C:\\Users" are absolute and "relative/path" is not, with either separator "/" or "\\" |
| FileUtil.GetAppDirectory | app/hyper/server/file-util.js:106-111 | computes `getAppDirectory` with `dirname` as a parameter. It has no contract of its own; `FileUtil.GetAppDirectoryCases` pins it |
| FileUtil.GetAppDirectoryCases | app/hyper/server/file-util.js:106-111 | `getAppDirectory(p)` is `dirname(p)` when `p` ends with ".html" or ".htm", ignoring case; otherwise it is `p` unchanged |
| FileUtil.GetAppDirectoryExamples | app/hyper/server/file-util.js:106-111 | "/a/b/index.html" maps to its dirname and "/a/b" maps to itself |
| FileUtil.EnvGet | app/hyper/server/file-util.js:187-190 | `env.NAME`: the variable's text when it is set, otherwise `undefined`. Its contract says the result is `undefined` or a string; `FileUtil.Win32HomeDir`, `FileUtil.DarwinHomeDir` and `FileUtil.LinuxHomeDir` pin which one |
| FileUtil.UserName | app/hyper/server/file-util.js:188 | computes `user`. Its contract says only that the result is `undefined` or a string; `FileUtil.UserNameIsFirstNonEmpty` pins which one |
| FileUtil.UserNameIsFirstNonEmpty | app/hyper/server/file-util.js:188 | the user is the first non-empty value among LOGNAME, USER, LNAME and USERNAME; when there is none, the user is falsy |
| FileUtil.GetHomeDir | app/hyper/server/file-util.js:185-199 | the home directory is either null or a non-empty string, never "" |
| FileUtil.Win32HomeDir | app/hyper/server/file-util.js:189-191 | on win32 the result is a non-empty USERPROFILE; else HOMEDRIVE + HOMEPATH, when one is set and the text is not empty, with "undefined" for an unset half; else a non-empty HOME; else null |
| FileUtil.Win32UnsetDriveReadsUndefined | app/hyper/server/file-util.js:190 | with only HOMEPATH set to "\\Users\\ann", the win32 home directory is "undefined\\Users\\ann" |
| FileUtil.HomeFirstOffWin32 | app/hyper/server/file-util.js:192-198 | on every platform except win32, a non-empty HOME is returned as it is |
| FileUtil.DarwinHomeDir | app/hyper/server/file-util.js:192-194 | on darwin the result is a non-empty HOME; else "/Users/" + the user; else null when there is no user |
| FileUtil.LinuxHomeDir | app/hyper/server/file-util.js:195-197 | on linux the result is a non-empty HOME; else "/root" for uid 0; else "/home/" + the user; else null when there is no user |
| FileUtil.OtherPlatformHomeDir | app/hyper/server/file-util.js:198 | on any other platform the result is a non-empty HOME, else null |
| FileUtil.JoinIfTruthy | app/hyper/server/file-util.js:144-153 | the body the three getters share: join the segment onto a truthy base, otherwise leave the result `undefined` (also :157-166 and :170-181). It has no contract of its own; `FileUtil.EvothingsHomePathDefined`, `FileUtil.OldEvothingsHomePathDefined` and `FileUtil.MyAppsPathDefined` pin it |
| FileUtil.GetEvothingsHomePath | app/hyper/server/file-util.js:143-154 | computes `getEvothingsHomePath`. It has no contract of its own; `FileUtil.EvothingsHomePathDefined` pins it |
| FileUtil.GetOldEvothingsHomePath | app/hyper/server/file-util.js:156-167 | computes `getOldEvothingsHomePath`. It has no contract of its own; `FileUtil.OldEvothingsHomePathDefined` pins it |
| FileUtil.GetEvothingsMyAppsPath | app/hyper/server/file-util.js:169-182 | computes `getEvothingsMyAppsPath`. It has no contract of its own; `FileUtil.MyAppsPathDefined` pins it |
| FileUtil.EvothingsHomePathDefined | app/hyper/server/file-util.js:143-154 | the Evothings home path is defined iff the home directory is non-null, and then it is join(home, "Evothings") |
| FileUtil.OldEvothingsHomePathDefined | app/hyper/server/file-util.js:156-167 | the old Evothings home path is defined iff the home directory is non-null, and then it is join(home, "EvothingsStudio") |
| FileUtil.MyAppsPathDefined | app/hyper/server/file-util.js:169-182 | the MyApps path is defined iff the Evothings home path is, and then it is join(that path, "MyApps"), that is join(join(home, "Evothings"), "MyApps") |

## Left out

- `readFileSync`, `writeFileSync`, `pathExists`, `statSync`, `fileIsDirectory` and `directoryHasEvothingsJson` (file-util.js:28-69, 88-99): these are file-system input and output behind try/catch. They have no logic beyond turning an exception into null.
- `downloadAsString` (file-util.js:116-141): an asynchronous HTTP request with callbacks, which is network input and output.
- The try/catch blocks and the `HYPER.log` calls in the three path getters: the logging is a global side effect. None of the modelled operations can throw, so the catch branches are never reached in the model.
- The normalisation done by `PATH.join` and `PATH.dirname`: these are library calls, so the model takes them as parameters and leaves them unspecified. The only assumption is that `join` never returns "".
- Js.ToLowerCase: lowers ASCII letters only and keeps every other character. JavaScript also lowers non-ASCII letters, and for a few code points this changes the length.
- FileUtil.IsPathAbsoluteChars: the model's characters are Unicode scalar values, while JavaScript's `path[0]` and `path[1]` index UTF-16 code units. A path whose first character lies outside the Basic Multilingual Plane is therefore judged differently: for an emoji followed by ":", the model reads ":" as character 1 and says absolute, while the source reads the low surrogate and says not absolute.
- Js.CharAt: indexes Unicode scalar values, while JavaScript's `s[i]` indexes UTF-16 code units, so the two differ at and after any character outside the Basic Multilingual Plane.
- Js.Plus: covers only operands that are strings or `undefined`, the only kinds the source adds.
- Reading `process.env`, `process.platform` and `process.getuid()`: the model takes them as parameters. `getuid` is called only on linux, and the model ignores the parameter on every other platform.
