# Plugin installer, modelled in Dafny

This project models the core of a Cloudify agent's plugin-installer task
module. That module takes the plugin descriptors of a deployment blueprint,
one after another. For each one it:

- resolves the plugin's source to a package URL;
- installs the package into the agent's virtualenv with `pip install <url>`;
- reads the name the installed package declares;
- registers the plugin with the agent daemon (`cloudify-agent daemon register --queue=<target> --plugin=<name>`).

Beside it sits the parser for pip's version string (`major.minor[.micro]`).
The parser feeds the "pip 6 or higher" check that chooses how a package is
unpacked.

Files:

- `wrappers.dfy` (module `Wrappers`): `Option` and `Result`, shared by the
  other modules.
- `strings.dfy` (module `Strings`): the Python string operations the code
  relies on. These are `pat in s`, `s.split(sep)` (left to right,
  non-overlapping), `isdigit` over ASCII, and `int()` of a digit string.
  Two helpers support them: the first-occurrence search that `split`
  performs, and the join that undoes `split`. It proves that join undoes
  split and that no piece of a split holds the separator.
- `utils.dfy` (module `Utils`): `parse_pip_version`, `is_pip6_or_higher`,
  and their error messages.
- `tasks.dfy` (module `Tasks`): `get_url`, `os.path.join`, the tool paths
  `_virtualenv`/`_pip`/`_python`/`_cloudify_agent`, the two command lines,
  `install_plugin` as a description of its effects, and `install` as a
  method whose loop runs the plugins in list order.

Modelling choices:

- The process environment and the task context become one `Config` value.
  It holds the blueprints root URL, the blueprint id, the virtualenv
  directory and the task target.
- The command runner becomes a parameter `runs: string -> bool`: does the
  command exit with status zero?
- The helper that reads the installed package's name becomes a parameter
  `extract: string -> Option<string>`. `None` means the helper raised.
- What the installer does to the outside world is an effect log:
  `Ran(command)` or `Extracted(url)`.
- Python exceptions become `Err` values. Their kinds are `InvalidSchema`,
  `CommandFailed`, `ExtractFailed`, and the four `VersionError` cases.

The model follows the code. `get_url` does not check that the source is
non-empty. No install arguments are passed to pip. Registration always uses
`--queue=`.

The URL test cases in plugin_installer/tests/test_installer.py:80-104 are
instances of three general lemmas: `HttpReturnedUnchanged` covers `http://`
and `https://`, `SchemeDecides` covers the scheme `bla`, and
`RelativeRoundTrip` covers `plugin`. The tests have no version strings.
As illustrations of the version lemmas:
- `ParseRender` accepts `6.0.1` and `6.0.rc1` as they are.
- `ParseAccepts` accepts `6.0.`.
- `ParseIgnoresTail` accepts `10.0.0.dev0`.
- `MajorCheckedFirst` rejects `a.b` for its major.
- `MinorChecked` rejects `6.` and `6.x` for their minor.
- `Pip6Check` with `LeadingDigit` fixes the answers for `5.9` (false) and
  `10.0` (true). `MultiDigitMajorIsPip6` gives `10.0` without computing.

## Model

| member | source | states |
|---|---|---|
| `Strings.Contains` | plugin_installer/tasks.py:103 | Python's `pat in s`: `pat` occurs at some index of `s` (also `'.' in version` at plugin_installer/utils.py:40, through `Strings.ContainsChar`) |
| `Strings.ContainsChar` | plugin_installer/utils.py:40 | for a one-character pattern, substring membership is exactly membership of the character |
| `Strings.Find` | plugin_installer/tasks.py:103-104 | the result is -1 exactly when the pattern does not occur; otherwise it is an index where the pattern occurs, and no earlier index has an occurrence |
| `Strings.Split` | plugin_installer/tasks.py:104 | `split` gives at least one piece, and two or more exactly when the separator occurs |
| `Strings.JoinSplit` | plugin_installer/utils.py:46 | joining the pieces of a split with the same separator gives back the original string |
| `Strings.SplitPiecesFree` | plugin_installer/tasks.py:104-105 | no piece of a split contains the separator |
| `Strings.SplitAtFirst` | plugin_installer/utils.py:46-48 | when `a` has no `c`, splitting `a + c + b` at `c` gives `a` followed by the pieces of `b` |
| `Strings.IsDigits` | plugin_installer/utils.py:53 | Python's `isdigit` on ASCII text: non-empty and every character is `0`-`9` (used for major at line 53 and minor at line 59) |
| `Strings.DecimalValue` | plugin_installer/utils.py:100 | Python's `int()` of a digit string, read from the last digit; a number of k digits is below 10^k |
| `Strings.LeadingDigit` | plugin_installer/utils.py:100 | the same value read from the first digit: the value of `d` followed by `s` is d times 10^(length of `s`) plus the value of `s`; with the last-digit definition this fixes `int()` on every digit string |
| `Strings.LeadingZero` | plugin_installer/utils.py:100 | `int()` of a digit string ignores a leading zero |
| `Strings.NoLeadingZeroBound` | plugin_installer/utils.py:100 | a number of k digits with no leading zero is at least 10^(k-1) |
| `Tasks.GetUrl` | plugin_installer/tasks.py:100-120 | a rejected source begins with the named scheme followed by `://`; the scheme holds no `://` and is neither `http` nor `https` |
| `Tasks.SchemeBeforeFirst` | plugin_installer/tasks.py:104-105 | the scheme (the first piece of the split at `://`) is followed by `://` in the source and holds no `://` |
| `Tasks.FirstSeparator` | plugin_installer/tasks.py:104-105 | in `scheme://rest`, where the scheme holds no `://`, the scheme is the text before the first separator, whatever `rest` holds |
| `Tasks.SchemeDecides` | plugin_installer/tasks.py:103-110 | `scheme://rest` is returned unchanged when the scheme is exactly `http` or `https`; otherwise it is rejected with an error naming the scheme (the empty scheme of `://x` too); `http://a://b` is accepted |
| `Tasks.HttpReturnedUnchanged` | plugin_installer/tasks.py:106-108 | every source that begins with `http://` or `https://` is returned as it is |
| `Tasks.ReturnedUnchanged` | plugin_installer/tasks.py:103-120 | the source comes back unchanged if and only if it begins with `http://` or `https://` |
| `Tasks.SchemaMessage` | plugin_installer/tasks.py:110 | the message raised with `InvalidSchema(s)` is `Invalid schema: ` followed by the scheme, so the scheme can be read back from it |
| `Tasks.RelativeSource` | plugin_installer/tasks.py:116-120 | the inverse of relative resolution: a source that is found gives back the URL as `<root>/<blueprint id>/plugins/<source>.zip` |
| `Tasks.RelativeRoundTrip` | plugin_installer/tasks.py:116-120 | a source without `://` never fails. It resolves to `<root>/<blueprint id>/plugins/<source>.zip`, which starts with the root and ends with `.zip`; removing the fixed prefix and suffix gives the source back |
| `Tasks.RelativeInjective` | plugin_installer/tasks.py:116-120 | two relative sources of one blueprint that resolve to the same URL are equal |
| `Tasks.PathJoin` | plugin_installer/tasks.py:136-138 | `os.path.join` gives a result that ends with the second part. When that part is relative, the result starts with the first part, and exactly one `/` separates them, or none when the first part is empty or already ends with `/` |
| `Tasks.Virtualenv` | plugin_installer/tasks.py:135-138 | a relative command's path is the bin directory followed by the command name |
| `Tasks.PlainPrefixToolPath` | plugin_installer/tasks.py:135-138 | for a virtualenv directory without a trailing slash, the path is `<dir>/bin/<command>` |
| `Tasks.SlashPrefixToolPath` | plugin_installer/tasks.py:135-138 | for a virtualenv directory with a trailing slash, the path is `<dir>bin/<command>`, with no doubled slash |
| `Tasks.Python` | plugin_installer/tasks.py:123-124 | the path is the bin directory followed by `python` |
| `Tasks.Pip` | plugin_installer/tasks.py:127-128 | the path is the bin directory followed by `pip` |
| `Tasks.CloudifyAgent` | plugin_installer/tasks.py:131-132 | the path is the bin directory followed by `cloudify-agent` |
| `Tasks.InstallCommand` | plugin_installer/tasks.py:66 | the command starts with pip's path followed by ` install `, and the URL can be read back from the rest |
| `Tasks.RegisterCommand` | plugin_installer/tasks.py:53-55 | the command starts with the agent's path, ` daemon register --queue=` and the target, ends with ` --plugin=` and the plugin name, and has no other text between them |
| `Tasks.InstallPlugin` | plugin_installer/tasks.py:46-55 | an unresolvable source fails with no effect at all. Otherwise the install command for the resolved URL runs first, and if it fails the plugin stops there with that command's error. If the name cannot be read from the resolved URL, the plugin stops with that error. If the registration command fails, all three effects (the install, the extraction and the registration) are logged and the error names the registration command. The plugin succeeds if and only if the URL resolves, the install command runs, the name is read and the registration command for that name runs. On success there are exactly three effects: the install, the extraction of the resolved URL, and the registration |
| `Tasks.InstallAll` | plugin_installer/tasks.py:42-43 | success means that every plugin installed successfully; a failure is the failure of some plugin in the list |
| `Tasks.Install` | plugin_installer/tasks.py:31-43 | the loop's result equals `InstallAll`. The first `done` plugins succeeded. If there is no error, every plugin was done. On an error, the plugin at `done` raised it and the log ends with that plugin's effects, so no later plugin ran |
| `Tasks.ThenAssociative` | plugin_installer/tasks.py:42-43 | running outcomes one after another is associative |
| `Tasks.InstallAllAppend` | plugin_installer/tasks.py:42-43 | installing `ps + qs` means installing `ps`, then `qs` only if nothing failed |
| `Tasks.FailureStopsInstall` | plugin_installer/tasks.py:42-43 | once a plugin fails, the plugins after it change nothing: not the log and not the error |
| `Utils.Message` | plugin_installer/utils.py:32-63 | every error message except the first names the version string. The dot error says `expected dot-delimited numbers`. The major and minor errors say `major version is` or `minor version is` and name the offending component |
| `Utils.NotANumber` | plugin_installer/utils.py:53-63 | the message for a non-numeric component names the version, the component and which component it is |
| `Utils.ParsePipVersion` | plugin_installer/utils.py:24-65 | the input is empty exactly when the error is "missing". It is non-empty with no dot exactly when the error is "not dot-delimited". On success, major and minor are digit strings, and no component holds a dot |
| `Utils.IsPip6OrHigher` | plugin_installer/utils.py:98-103 | the check fails exactly when parsing fails, with the same error; otherwise its answer is whether the decimal value of the parsed major is at least 6 |
| `Utils.ParseRender` | plugin_installer/utils.py:46-65 | a version with numeric major and minor and a dot-free micro (checked or not) is parsed back from `major.minor[.micro]` unchanged |
| `Utils.ParseAccepts` | plugin_installer/utils.py:46-65 | a numeric major and minor followed by nothing or by a dot are always accepted with those components, so the major and minor errors arise only for a non-numeric component |
| `Utils.ParseIgnoresTail` | plugin_installer/utils.py:46-65 | components past the third are ignored: `major.minor.micro.<anything>` with numeric major and minor and a dot-free micro is accepted as exactly `(major, minor, micro)` (for example `10.0.0.dev0`) |
| `Utils.RenderParse` | plugin_installer/utils.py:46-51 | every accepted input begins with the rendering of what was parsed. Anything after it starts with a dot, so components past the third are ignored |
| `Utils.SplitRender` | plugin_installer/utils.py:46-51 | `major.minor[.micro]` splits into exactly its two or three components |
| `Utils.ComponentsRoundTrip` | plugin_installer/utils.py:46-51 | with exactly two components, `major + "." + minor` is the input; with exactly three, `major + "." + minor + "." + micro` is the input |
| `Utils.MajorCheckedFirst` | plugin_installer/utils.py:53-57 | a non-numeric or empty major is reported as the major error, whatever follows the first dot |
| `Utils.MinorChecked` | plugin_installer/utils.py:59-63 | a numeric major with a non-numeric or empty minor is reported as the minor error, naming the minor |
| `Utils.SplitMajorMinor` | plugin_installer/utils.py:46-48 | in `major.minor` followed by nothing or by `.`, the first two pieces are major and minor |
| `Utils.Pip6Check` | plugin_installer/utils.py:98-103 | for a well-formed version, the check is the decimal value of major compared with 6 |
| `Utils.MultiDigitMajorIsPip6` | plugin_installer/utils.py:100 | a major of two or more digits without a leading zero always passes, because the comparison is numeric and not textual |

## Left out

- `extract_plugin_name` (plugin_installer/tasks.py:70-97): it calls pip's download and unpack internals, creates and removes a temporary directory, and changes the working directory. It is the `extract` parameter, and its own commands and temporary directory are not modelled.
- `extract_plugin_dir` (plugin_installer/utils.py:68-95): the same kind of foreign calls and filesystem effects. It is not modelled.
- The command runner's output and its exception type are not modelled. Only whether a command succeeds is modelled.
- Logging (plugin_installer/tasks.py:48, 50) is not modelled.
- The fallback to `pip.__version__` when no version is passed (plugin_installer/utils.py:25-30) is foreign state. An empty input stands for "no version available".
- The `basestring` type check (plugin_installer/utils.py:35-38) is not modelled, because the input is always a Dafny string.
- `isdigit` is ASCII `0`-`9` only. Unicode digits are not modelled.
- Reading the environment variables (the virtualenv path and the blueprints root URL) is replaced by `Config` fields, so a missing variable (a `KeyError`) is not modelled.
- `runs` and `extract` are functions, so the same command or URL always gets the same outcome (two plugins that resolve to one URL behave alike). Retries, and a command whose outcome varies between runs, are not modelled.
- A descriptor missing its `name` or `source` key is not modelled, because `Plugin` always has both.
- plugin_installer/extract_package_name.py and plugin_installer/tests/file_server.py are not part of this model (setuptools monkey-patching, an HTTP server).
- `update_includes`, which the tests import, does not appear in plugin_installer/tasks.py and is not part of this model.
