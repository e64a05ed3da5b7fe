# Source-build orchestration and toolchain probing, modelled in Dafny

This project models two parts of sapphire's source-build subsystem.

- **Build strategies** (`sapphire-core/src/build/formula/source/make.rs`):
  - the Autotools classifier for `./configure` scripts;
  - `configure_and_make`: `./configure --prefix=<dir> [autotools flags]`, then `make`, then `make install`;
  - `simple_make`: `make`, then a lenient `make install PREFIX=<dir>`, then the check that `<install>/bin` is populated, with the manual-install fallback.
- **Toolchain and platform probes** (`sapphire-core/src/build/devtools.rs`):
  - compiler resolution: the `CC`/`CXX` override, then `xcrun --find`, then PATH;
  - the macOS SDK path;
  - the macOS version shortened to `major.minor`;
  - the `-arch` flag.

The operating system is replaced by a `World` record of answers (module `Oracle`):
- set environment variables;
- which paths exist and which are regular files;
- the text of readable files and the permission bits of files;
- the result of each command line, either "could not be started" or an exit code with stdout;
- the install directory each command leaves behind;
- what the two PATH searches find.

The target platform and architecture, which the original fixes at compile time, are parameters (`Platform`, `Arch`).

The modules are:
- `DevTools` holds the probes as pure functions.
- `Make` holds the classifier and the strategies twice. Once as specification functions (`ConfigureAndMakeRun`, `SimpleMakeRun`, `VerifyInstall`), which give everything a build does: outcome, commands issued, install directory left, and lines printed about `config.log`. Once as the imperative class `SourceBuild`, whose methods issue commands through `Spawn`, append them to `trace`, update `install` in place and append to `stderr`; each method is proved to do exactly what its specification function says.
- `Text` models the standard-library string operations the code relies on: `trim`, `split('.')`, `lines`, `contains`, and `rev().take(n)`.

Where the component's comments and its code disagree, the model follows the code:
- The classifier's comments speak of reading the first 4 KB, but it reads the whole script (`read_to_string`). The 4096-byte `READ_BUFFER_SIZE` does not bound the search (`Make.MarkerFoundAnywhere`).
- The doc comment of `find_sdk_path` says it returns "/" when detection fails. On macOS the code returns an error instead; it returns "/" only off macOS.

Two further facts about the code that the model keeps:
- A failed compiler search is a `BuildEnvError`.
- The `Generic` error of a failed step carries only the exit status. The `config.log` tail is printed to stderr (the `stderr` field), not attached to the error.

## Model

| member | source | states |
|---|---|---|
| `Text.Trim` | sapphire-core/src/build/devtools.rs:51 | the trimmed output is a contiguous piece of the raw output, with only whitespace cut from each side, and it neither starts nor ends with whitespace |
| `Text.TrimIdempotent` | sapphire-core/src/build/devtools.rs:155 | trimming an already trimmed output changes nothing |
| `Text.Split` | sapphire-core/src/build/devtools.rs:157 | `split('.')` gives at least one piece, and no piece contains the separator |
| `Text.SplitThenJoin` | sapphire-core/src/build/devtools.rs:157 | joining the pieces of a split with the separator restores the string |
| `Text.JoinThenSplit` | sapphire-core/src/build/devtools.rs:157 | splitting a join of separator-free pieces gives the same pieces back |
| `Text.SeparatorIffSeveralPieces` | sapphire-core/src/build/devtools.rs:158 | there are two or more pieces exactly when the string contains the separator |
| `Text.LinesOfPieces` | sapphire-core/src/build/formula/source/make.rs:106 | from the n '\n'-pieces of a text, n-1 or n lines, none containing a newline; `LinesOfPiecesPointwise` says which |
| `Text.LinesOfPiecesPointwise` | sapphire-core/src/build/formula/source/make.rs:106 | every piece a '\n' ended is a line that lost at most one trailing '\r'; the piece after the last '\n' is one more line, unchanged, exactly when it is not empty |
| `Text.LinesPointwise` | sapphire-core/src/build/formula/source/make.rs:106 | each line of `content.lines()` by position: one per '\n' with one '\r' before that '\n' dropped, then the rest after the last '\n', with a trailing '\r' kept, exactly when that rest is not empty |
| `Text.UnterminatedLineKept` | sapphire-core/src/build/formula/source/make.rs:106 | a text without '\n' is a single line as it stands, a trailing '\r' included, or no line when empty |
| `Text.Lines` | sapphire-core/src/build/formula/source/make.rs:106 | no line of `content.lines()` contains a newline; the lemmas below say which lines it gives, position by position and for "\n" and "\r\n" endings |
| `Text.LinesOfPlainPieces` | sapphire-core/src/build/formula/source/make.rs:106 | when no line ends in a carriage return, `lines()` is the text cut at each '\n', with an empty last piece dropped |
| `Text.LinesOfTerminated` | sapphire-core/src/build/formula/source/make.rs:106 | lines each written out with a following '\n' are read back as exactly those lines, empty ones included, when none ends in '\r' |
| `Text.LinesOfCrlfTerminated` | sapphire-core/src/build/formula/source/make.rs:106 | lines each written out with a following "\r\n" are read back as exactly those lines: each loses exactly the one '\r' before its '\n' |
| `Text.LinesOfJoin` | sapphire-core/src/build/formula/source/make.rs:106 | lines written with '\n' between them and a non-empty last line are read back as exactly those lines |
| `Text.LinesThenJoin` | sapphire-core/src/build/formula/source/make.rs:106 | for text without carriage returns that does not end in '\n', joining its lines with '\n' restores the text, and a final '\n' adds no line |
| `Text.ReverseTakeReverse` | sapphire-core/src/build/formula/source/make.rs:106-107 | `rev().take(n)` printed in reverse gives the last n lines (all of them if fewer) in their original order |
| `Text.Contains` | sapphire-core/src/build/formula/source/make.rs:30 | `contains` is true exactly when the pattern occurs at some index |
| `Make.AnyMarkerIn` | sapphire-core/src/build/formula/source/make.rs:29-38 | the marker loop with early return is true exactly when some marker of the list occurs in the text |
| `Make.IsGnuAutotoolsConfigure` | sapphire-core/src/build/formula/source/make.rs:15-54 | true exactly when the script can be read and contains "Generated by GNU Autoconf", "generated by autoconf" or "config.status:"; an unreadable script gives false, not an error |
| `Make.MarkerFoundAnywhere` | sapphire-core/src/build/formula/source/make.rs:16-30 | a marker is detected wherever it stands in the script, however much text comes before it, so the 4096 buffer size does not bound the search |
| `Make.Display` | sapphire-core/src/build/formula/source/make.rs:80 | an absolute install directory displays with a leading '/' |
| `Make.DisplaySplitsIntoComponents` | sapphire-core/src/build/formula/source/make.rs:80 | the displayed path cut at '/' gives back the components, after one empty piece for an absolute path |
| `Make.PackageName` | sapphire-core/src/build/formula/source/make.rs:290-294 | a non-empty name is the install directory's second-to-last component and never ".."; `Make.PackageNameOfCellarPath` gives the Cellar case |
| `Make.PackageNameOfCellarPath` | sapphire-core/src/build/formula/source/make.rs:290-294 | the fallback's name is the install directory's parent's base name (`.../Cellar/doggo/1.0.5` gives "doggo") |
| `Make.ConfigureArgs` | sapphire-core/src/build/formula/source/make.rs:79-85 | the first argument is `--prefix=<install dir>`; the rest are the two Autotools flags when the script is Autotools, and nothing otherwise |
| `Make.ConfigureArgsShape` | sapphire-core/src/build/formula/source/make.rs:79-85 | the first configure argument is `--prefix=<install dir>`; `--disable-dependency-tracking` and `--disable-silent-rules` are present exactly when the classifier said Autotools |
| `Make.FindMake` | sapphire-core/src/build/formula/source/make.rs:130-136 | `make` comes from the build environment's PATH first, then the process's PATH; if neither finds it, the result is `BuildEnvError` |
| `Make.ConfigLogTail` | sapphire-core/src/build/formula/source/make.rs:105-110 | the loop prints exactly the last 50 lines of `config.log` (fewer if the file is shorter), in file order |
| `Make.ConfigLogSection` | sapphire-core/src/build/formula/source/make.rs:102-112 | nothing is printed exactly when `config.log` does not exist; otherwise the header first, the footer last, and at most 50 lines between; `Make.ConfigLogSectionIsTail` says which lines |
| `Make.ConfigLogUnreadable` | sapphire-core/src/build/formula/source/make.rs:103-111 | a `config.log` that exists but cannot be read prints the header and the footer and nothing between |
| `Make.ConfigLogSectionIsTail` | sapphire-core/src/build/formula/source/make.rs:102-112 | the lines shown between the header and footer are the end of the log: at most 50 lines, a suffix of its lines |
| `Make.BinPopulated` | sapphire-core/src/build/formula/source/make.rs:279-280 | true exactly when `<install>/bin` is a directory that has some entry |
| `Make.ManuallyInstalled` | sapphire-core/src/build/formula/source/make.rs:304-326 | after the manual install, `bin` is populated and holds `<name>` with mode 0o755; it keeps every entry it had and gains no other; a `bin` that was missing or empty holds `<name>` alone; every other entry of the install directory is unchanged |
| `Make.VerifyInstall` | sapphire-core/src/build/formula/source/make.rs:279-361 | a plain success leaves `bin` populated; the install directory changes only through the manual copy, and only after an artifact was found; the warning comes only after a successful `make install`; "no artifacts" fails only after a failed one |
| `Make.ConfigureAndMakeRun` | sapphire-core/src/build/formula/source/make.rs:57-188 | at most three commands and never a warning; no command means an untouched install directory; `config.log` is printed only on a `Generic` failure. The lemmas below give the step order, the failures, the log and the install directory |
| `Make.AfterAll` | sapphire-core/src/build/formula/source/make.rs:87-188 | the install directory after commands run in order; commands that write nothing leave it as it was |
| `Make.ConfigureAndMakeInstallIsCommands` | sapphire-core/src/build/formula/source/make.rs:57-188 | the configure build has no fallback: the install directory it leaves is exactly what its issued commands leave, in order, whatever the outcome |
| `Make.ConfigureMissingIssuesNothing` | sapphire-core/src/build/formula/source/make.rs:61-67 | without `./configure`, the result is `BuildEnvError`, no command is issued, and the install directory is untouched |
| `Make.ConfigureAndMakeStepOrder` | sapphire-core/src/build/formula/source/make.rs:88-187 | configure, make and make install are issued in that order, each only after all earlier steps exited 0; success happens exactly when all three exit 0; otherwise the error is the last issued step's failure (`Generic` with its status, or `CommandExecError`) |
| `Make.ConfigureSpawnFailure` | sapphire-core/src/build/formula/source/make.rs:87-90 | a configure that cannot be started gives `CommandExecError` at once, whether or not `make` exists: only configure issued, install directory untouched, nothing printed about `config.log` |
| `Make.ConfigureAndMakeWithoutMake` | sapphire-core/src/build/formula/source/make.rs:130-136 | after a successful configure with no `make` found, only configure was issued and the result is `BuildEnvError` |
| `Make.ConfigLogShownOnlyOnConfigureFailure` | sapphire-core/src/build/formula/source/make.rs:92-116 | `config.log` is printed only when configure ran and exited non-zero |
| `Make.ConfigLogShownOnConfigureFailure` | sapphire-core/src/build/formula/source/make.rs:92-116 | when configure exits non-zero, exactly the `config.log` section is printed, only configure was issued, and the result is `Generic` with its status |
| `Make.SimpleMakeRun` | sapphire-core/src/build/formula/source/make.rs:190-362 | at most two commands and nothing printed about `config.log`; a warning only after both were issued and `make install` exited 0. The lemmas below give the decision table |
| `Make.SimpleMakeWithoutMake` | sapphire-core/src/build/formula/source/make.rs:195-201 | without `make`, the bare-make build fails with `BuildEnvError` before issuing anything and leaves the install directory untouched |
| `Make.SimpleMakeStopsOnMakeFailure` | sapphire-core/src/build/formula/source/make.rs:212-225 | a failing `make` returns `Generic` with its status, `make install PREFIX=<dir>` is never issued, and the install directory is what `make` left |
| `Make.SimpleMakeSpawnFailures` | sapphire-core/src/build/formula/source/make.rs:204-248 | a `make` that cannot be started gives `CommandExecError` of make with the install directory untouched; a `make install PREFIX=` that cannot be started gives `CommandExecError` of make install after both commands; in neither case is `bin` checked or anything copied |
| `Make.SimpleMakeInstallIsCommandsOrCopy` | sapphire-core/src/build/formula/source/make.rs:190-362 | the install directory left is what the issued commands leave, except after both commands and a plain success with `bin` empty, where it is that plus the manual copy |
| `Make.SimpleMakeOutcomeTable` | sapphire-core/src/build/formula/source/make.rs:250-361 | the decision table after the lenient install. Populated `bin`: success whatever the install status. Otherwise, artifact found: success, with `bin/<name>` at 0o755 (an `Io` error if `bin` is a file). Otherwise, install failed: `Generic`. Otherwise: success with warning. |
| `Make.SimpleMakeSuccessPopulatesBin` | sapphire-core/src/build/formula/source/make.rs:279-361 | whenever the bare-make build succeeds without a warning, `<install>/bin` is non-empty afterwards |
| `Make.SourceBuild.Spawn` | sapphire-core/src/build/formula/source/make.rs:87-90 | issuing a command appends it to the trace, returns the world's answer, and leaves the install directory as the command does |
| `Make.SourceBuild.ShowConfigLog` | sapphire-core/src/build/formula/source/make.rs:102-112 | prints the header, the log tail (if readable) and the footer when `config.log` exists, and nothing otherwise |
| `Make.SourceBuild.ConfigureAndMake` | sapphire-core/src/build/formula/source/make.rs:57-188 | its outcome, the commands it appends to the trace, the install directory and the printed lines are those of `ConfigureAndMakeRun` |
| `Make.SourceBuild.InstallManually` | sapphire-core/src/build/formula/source/make.rs:304-326 | creates `bin` when missing, then copies `<name>` and sets it to 0o755; fails with `Io` and changes nothing when `bin` is a file |
| `Make.SourceBuild.SimpleMake` | sapphire-core/src/build/formula/source/make.rs:190-362 | its outcome, the commands it appends to the trace, and the install directory it leaves are those of `SimpleMakeRun` |
| `DevTools.OverrideVariable` | sapphire-core/src/build/devtools.rs:15-19 | "cc" maps to `CC`; "c++" and "cxx" map to `CXX`; every other name has no override (both directions) |
| `DevTools.FromOverride` | sapphire-core/src/build/devtools.rs:20-37 | an override is used only when it names a regular file |
| `DevTools.FromXcrun` | sapphire-core/src/build/devtools.rs:41-82 | `xcrun --find` answers only on macOS, and only with its trimmed output after exiting 0, which must be a non-empty path to a regular file; such an answer is always taken |
| `DevTools.FindCompiler` | sapphire-core/src/build/devtools.rs:13-89 | a resolved compiler is a regular file or the PATH hit; resolution fails exactly when override, `xcrun` and PATH all fail, and then with `BuildEnvError` |
| `DevTools.XcrunAnswerPrecedesPath` | sapphire-core/src/build/devtools.rs:49-56 | on macOS without a usable override, a usable `xcrun` answer is the result, whatever PATH holds |
| `DevTools.PathIsLastResort` | sapphire-core/src/build/devtools.rs:84-88 | when neither the override nor `xcrun` answers, the PATH hit is the result |
| `DevTools.OverrideBypassesOtherSources` | sapphire-core/src/build/devtools.rs:20-29 | an override naming a file is returned as is, whatever `xcrun` and PATH would say |
| `DevTools.OverrideToNonFileFallsThrough` | sapphire-core/src/build/devtools.rs:30-36 | an override naming a non-file resolves as if the variable were unset |
| `DevTools.OtherNamesIgnoreEnvironment` | sapphire-core/src/build/devtools.rs:15-20 | names other than cc, c++ and cxx resolve the same whatever the environment |
| `DevTools.XcrunOnlyOnMacOS` | sapphire-core/src/build/devtools.rs:41 | off macOS, no command's answer affects resolution |
| `DevTools.XcrunFailureFallsThroughToPath` | sapphire-core/src/build/devtools.rs:49-86 | on macOS, each `xcrun` failure leads to the PATH search, exactly as off macOS: not started, non-zero exit, empty trimmed output, or a non-file path |
| `DevTools.ResolvedCompilerIsFile` | sapphire-core/src/build/devtools.rs:86-88 | when PATH searches only find regular files, every resolved compiler is a regular file |
| `DevTools.FindSdkPath` | sapphire-core/src/build/devtools.rs:93-141 | off macOS, "/" without failing; on macOS, a result is the trimmed `xcrun --show-sdk-path` output, which is a present path other than "" and "/", and such an output is always returned; errors are `BuildEnvError` on macOS only |
| `DevTools.SdkPathFailures` | sapphire-core/src/build/devtools.rs:101-135 | on macOS, each of these has its own `BuildEnvError`: not started, non-zero exit, empty or "/" output, a non-existent path |
| `DevTools.ShortVersion` | sapphire-core/src/build/devtools.rs:157-162 | the result is the full version or keeps a '.'; the three lemmas below state that it is a prefix, that it keeps exactly the first two pieces, and that shortening twice changes nothing |
| `DevTools.ShortVersionIsPrefix` | sapphire-core/src/build/devtools.rs:157-162 | the short version is a prefix of the full version |
| `DevTools.ShortVersionKeepsTwoPieces` | sapphire-core/src/build/devtools.rs:157-162 | with a '.', the short version is exactly the first two '.'-pieces; without one, it is the whole string |
| `DevTools.ShortVersionIdempotent` | sapphire-core/src/build/devtools.rs:157-162 | shortening a short version changes nothing |
| `DevTools.GetMacosVersion` | sapphire-core/src/build/devtools.rs:145-189 | off macOS, "0.0"; on macOS, success exactly when `sw_vers` exits 0, and then the short form of its trimmed output; otherwise `BuildEnvError` |
| `DevTools.MacosVersionIsShortPrefix` | sapphire-core/src/build/devtools.rs:154-167 | the reported version is a prefix of what `sw_vers` printed and is already in short form |
| `DevTools.ArchFlag` | sapphire-core/src/build/devtools.rs:192-215 | never fails: non-empty exactly on macOS with x86_64 or aarch64, and then "-arch x86_64" or "-arch arm64"; empty otherwise |

## Left out

- Process spawning (`Command::output`, `xcrun`, `sw_vers`, `./configure`, `make`) is replaced by the world's answer per command line. Environment application (`BuildEnvironment::apply_to_command`) and `get_path_string` are not part of this model, so a command line is only its program and arguments.
- Exit statuses are integer codes, with success exactly at 0. A process killed by a signal counts as a non-zero code. The formatted status text in error messages is not modelled; errors carry a structured reason and the code.
- Captured stdout and stderr are not modelled: their printing, UTF-8 lossy decoding, and all `println!`/`eprintln!`/tracing output. The exceptions are the `config.log` section and, for the probes, the trimmed stdout.
- The `which` crate's PATH searches are lookups in the world.
- File-system failures other than one are not modelled: the `read_dir` error while checking `bin`, `fs::copy`, `metadata` and `set_permissions` errors in the fallback. The one kept is `create_dir_all` failing because `bin` exists as a file.
- File contents in the install directory are not tracked, only entries and permission bits.
- The install directory is given by its normalised path components. Names that are not valid UTF-8 (`to_str` failing) are not modelled.
- The probes' results do not depend on hidden state, so calling a probe twice on the same world gives the same answer by construction.
- `cfg!(target_os)` and `cfg!(target_arch)` are explicit parameters. Real macOS behaviour is not modelled.
