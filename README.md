# NDK build orchestration, modelled in Dafny

This project models the decision logic and list building of the NDK build
driver `checkbuild.py`, of the `no_platform_gaps` build test, and of the
build script for GNU make. It then proves what those scripts promise.

- **checkbuild.py**
  - `main` picks the modules to build: all of them, the one named with
    `--module`, or the host-only set.
  - It decides whether to package and whether to run the tests.
  - It submits one job per selected module, in the order of its `module_builds`
    table.
  - It consumes the results fail-fast and exits with `not good`.
  - `dev-cleanup.sh` and `package.py` run through `subprocess.check_call`. An
    exception from either is not caught and ends the process with status 1.
  - `launch_build` turns a build function that returns or raises into a
    `(name, ok, log_path)` result.
  - `common_build_args`, `package_ndk` and `package_host_tools` build argument
    lists.
  - `group_by_test` and `make_test_report` turn per-ABI test results into a
    failure report.
- **tests/build/no_platform_gaps/test.py**
  - `run_test` scans the sysroot library directory for integer-named
    directories and computes the levels missing between the lowest and the
    highest.
  - It builds each missing level, stopping at the first failure.
  - `build` assembles the `ndk-build` command line.
- **sources/host-tools/make-3.81/build.py**
  - `main` assembles the `build-make.sh` command line.

Modules:

- `Wrappers`: `Option`, `Result`.
- `SeqUtil`: distinctness, strict order, the first-failure index.
- `Text`: prefix tests, `str.join`, `str(n)`, `int(s)`.
- `Paths`: `os.path.join` of two POSIX paths.
- `BuildArgs`: the argument builders.
- `TestReport`: grouping and the report.
- `Orchestrator`: `main` and `launch_build`.
- `PlatformGaps`: the gap test.
- `MakeBuild`: the make build command.

Code that runs things step by step in Python, including the functions that
append to a list, is modelled as methods with loops or step-by-step updates,
each proved against a specification function. Code that only computes a value
is modelled as functions.

Anything the scripts get from outside becomes a parameter of the model:

- how each module's build function ends;
- the order in which the worker pool hands back results;
- the directory listing;
- the `ndk-build` process;
- `host_to_tag`;
- `TestResult.to_string`;
- `os.linesep`;
- whether `test_ndk` passes.

Two facts of the code that the model keeps as written:

- **terminate/join.** On the failure path the code terminates and joins the
  pool twice: inside the loop before the log is printed (checkbuild.py:894-895)
  and again in `finally` (checkbuild.py:912-913). `CollectResults` records both.
- **`common_build_args`.** Line 268 rebinds the list, so `--out-dir=` is never
  passed on. `CommonBuildArgs` proves that, as written.

## Model

| member | source | states |
|---|---|---|
| `MakeBuild.MakeBuildCommand` | sources/host-tools/make-3.81/build.py:32-40 | the command is `bash build-make.sh --try-64`, then `--mingw` iff the host is Windows (right after `--try-64`), then `--build-dir=<out_dir>/make` last; length 5 on Windows, 4 otherwise; it reads back through `ParseMakeCommand` as exactly that request |
| `MakeBuild.MakeCommandRoundTrip` | sources/host-tools/make-3.81/build.py:32-40 | every command of the shape `main` builds, with or without `--mingw`, reads back through `ParseMakeCommand` as its Windows flag and build directory |
| `MakeBuild.ParseMakeCommand` | sources/host-tools/make-3.81/build.py:33-40 | a command line it accepts has the fixed three-word prefix and length 4, or length 5 with `--mingw` |
| `BuildArgs.CommonBuildArgs` | checkbuild.py:266-270 | the result is exactly `[--dist-dir=<dist_dir>, --host=<system>]`, and no element starts with `--out-dir=` because the list is rebound |
| `BuildArgs.PackageNdk` | checkbuild.py:144-154 | the common arguments, then `dist_dir`, then `--build-number=` only when a build number is given, then `--arch=` only when an arch is given; length 3 plus the optional flags; `ParsePackageArgs` recovers exactly those values |
| `BuildArgs.PackageHostTools` | checkbuild.py:364-414 | the 7 base packages and 3 base files, in order, plus `toolbox` and `ndk-gdb.cmd` exactly when the host is `windows` or `windows64`; one `tar xf <out_dir>/<pkg>-<tag>.tar.bz2 -C <out_dir>` per package, in list order; each archive name maps back to its package; the package made is `host-tools-<tag>` |
| `TestReport.GroupByTest` | checkbuild.py:157-175 | the three nested loops build exactly `Group` of all results, taken ABI by ABI, suite by suite, test by test |
| `TestReport.GroupFacts` | checkbuild.py:166-175 | the keys are exactly the `suite.test_name` of failed results; each key holds the `(abi, result)` pairs of its failures in visiting order; every stored result failed; the number of stored pairs equals the number of failed results |
| `TestReport.GroupKeys` | checkbuild.py:170-173 | a name is a key exactly when some failed result has that `suite.test_name` |
| `TestReport.GroupAt` | checkbuild.py:172-174 | the list under a key is the failures with that name, in order |
| `TestReport.EmptyWhenAbsent` | checkbuild.py:170-173 | a name that is not a key has no failures |
| `TestReport.FailuresNamedSound` | checkbuild.py:170-174 | every pair listed under a name is a failed result whose key is that name |
| `TestReport.GroupTotal` | checkbuild.py:166-175 | the sizes of all lists add up to the number of failed results |
| `TestReport.FailureLines` | checkbuild.py:193-195 | two lines per failure |
| `TestReport.AppendFailureLines` | checkbuild.py:193-195 | the inner loop appends, for each `(abi, result)` pair in list order, `FAILED <abi>` and the rendered result, and keeps the lines already written |
| `TestReport.AppendBlock` | checkbuild.py:190-195 | one key's block is appended after the lines already written: the `BEGIN TEST RESULT: ` header, the rule of 80 `=`, then that key's failure lines |
| `TestReport.ReportLines` | checkbuild.py:189-195 | the report for a key order has at least two lines per key and contains the `BEGIN TEST RESULT: ` header of every key it lists |
| `TestReport.ReportLineCount` | checkbuild.py:189-195 | a report that lists every key once has two lines per key plus two per stored failure |
| `TestReport.ReportLinesFrame` | checkbuild.py:190-195 | the report depends only on the lists of the keys it lists |
| `TestReport.MakeTestReport` | checkbuild.py:178-196 | the keys are visited in some order that lists each key exactly once; the report is the `os.linesep` join of each key's header, rule and failure lines; it has `2*keys + 2*failures` lines; the report is the empty string exactly when no result failed |
| `TestReport.ReportEmpty` | checkbuild.py:189-196 | a report listing every key once is the empty string exactly when there is no key |
| `TestReport.ReportLinesHead` | checkbuild.py:190-192 | a report over at least one key starts with `BEGIN TEST RESULT: ` and the first key, followed by at least one more line |
| `TestReport.AddResult` | checkbuild.py:169-174 | a passing result leaves the dict unchanged; a failed one adds its key if missing and appends its `(abi, result)` pair to that key's list, which keeps its previous pairs before it; every other key keeps its list |
| `TestReport.Group` | checkbuild.py:166-175 | every list in the dict is non-empty and holds only failed results |
| `TestReport.AddFailure` | checkbuild.py:169-174 | the body of the innermost loop updates the dict exactly as `AddResult` says |
| `TestReport.GroupSuite` | checkbuild.py:168-174 | the innermost loop extends the grouping of the entries seen so far by exactly one suite's results |
| `TestReport.GroupAbi` | checkbuild.py:167-174 | the middle loop extends the grouping of the entries seen so far by exactly one ABI's suites |
| `Orchestrator.ModuleTableIsAllModules` | checkbuild.py:845-869 | the `module_builds` table names every module of `ALL_MODULES` exactly once and no other |
| `Orchestrator.SelectModules` | checkbuild.py:794-808 | `--host-only` gives exactly the 7 host modules; otherwise `--module m` gives `{m}` and no module gives `ALL_MODULES`; all modules are selected exactly when neither option is given |
| `Orchestrator.MakePlan` | checkbuild.py:794-821 | packaging happens iff `force_package`, or `package` with all modules selected; tests run iff asked for, packaging happens and the system does not start with `windows` |
| `Orchestrator.SubmitJobs` | checkbuild.py:882-886 | the loop over a table such as `module_builds` submits `Selected(table, modules)`, the table entries whose module is selected, in table order |
| `Orchestrator.SelectedMembers` | checkbuild.py:882-884 | an entry is submitted exactly when it is in the table and its module is selected |
| `Orchestrator.SelectedNames` | checkbuild.py:882-884 | the names of the submitted entries are exactly the selected names the table lists |
| `Orchestrator.SelectedOrdered` | checkbuild.py:882-884 | submitted entries keep the table's order |
| `Orchestrator.SelectionFacts` | checkbuild.py:882-886 | filtering a table that lists each module once submits exactly the selected modules, each once, in table order |
| `Orchestrator.Selected` | checkbuild.py:882-884 | the table entries whose module is in `modules`, in table order; with `SelectedMembers`, `SelectedOrdered` and `SelectionFacts` it is the specification of the `add_task` loop |
| `Orchestrator.SubmitAll` | checkbuild.py:882-886 | one `Submitted` event per entry of `Selected(table, modules)`, in table order, so every submission is of a selected module |
| `Orchestrator.SubmissionOrder` | checkbuild.py:845-886 | the submitted jobs are exactly the selected modules that exist, each once, with strictly increasing position in `module_builds` |
| `Orchestrator.LaunchBuild` | checkbuild.py:763-778 | the result carries the build's name and `<log_dir>/<name>.log`; it is ok exactly when the build function returned, and an `Exception` it raises becomes a false result |
| `Orchestrator.LogPathsDistinct` | checkbuild.py:764 | two different modules log to two different files |
| `Orchestrator.CollectResults` | checkbuild.py:888-913 | its events are exactly `LoopTrace` of the delivered results: every result before the first failure is reported `BUILD SUCCESSFUL`; at the first failure the pool is terminated and joined, `BUILD FAILED` is reported, nothing more is consumed and the exit code is 1; terminate and join run again in `finally` on every path; the loop exits iff some result failed |
| `Orchestrator.DeliverAllOk` | checkbuild.py:888-890 | some delivered result is false exactly when some delivered module's build function raised |
| `Orchestrator.BuildModules` | checkbuild.py:878-913 | the events of the build phase are exactly one `Submitted` event per selected table entry, in table order (each once), followed by the result loop's `LoopTrace` over the results in delivery order: the `BUILD SUCCESSFUL` reports, the terminate, join and `BUILD FAILED` at the first failure, and the `terminate` and `join` of `finally`; it stops with exit status 1 exactly when some delivered module's build function raised |
| `Orchestrator.RunStages` | checkbuild.py:915-943 | `package_ndk` runs exactly when packaging was decided; `test_ndk` runs exactly when testing was decided and `package.py`, if called, did not raise; the exit code is 0 or 1, and 0 exactly when `package.py`, if called, returned and the tests, if run, passed; the arguments passed to `package.py` read back as `dist_dir`, the host, `dist_dir`, the build number and the arch; the package step, when it runs, comes first and once, and the test run, when it happens, comes last and once, with nothing else in between |
| `Orchestrator.CheckBuild` | checkbuild.py:794-943 | `dev-cleanup.sh` runs first, and if it raises the process exits with 1 and nothing else happens; otherwise its events are the cleanup, then exactly the build-phase events of `BuildModules` over `module_builds`, the selected modules and `<dist_dir>/logs`, then nothing more when a build raised, and otherwise exactly the package and test stages of `RunStages`; the exit code is 0 or 1; it is 0 exactly when the cleanup returned, every submitted build returned, `package.py` returned if packaging was decided, and the tests passed if they ran; `package_ndk` runs exactly when the cleanup and every build returned and packaging was decided; the tests run exactly when, in addition, testing was decided and `package.py` returned |
| `Text.Join` | checkbuild.py:196 | joining nothing gives the empty string, one line gives that line, and the result starts with the first line |
| `Text.NatToString` | tests/build/no_platform_gaps/test.py:44 | `str(n)` of a natural number is a non-empty string of digits, `"0"` for zero and without a leading zero otherwise |
| `Text.IntToString` | tests/build/no_platform_gaps/test.py:44 | `str(n)` is non-empty, all digits for `n >= 0`, and a minus sign then digits for `n < 0`; it is `"0"` for zero and has no leading zero otherwise |
| `Text.ParseInt` | tests/build/no_platform_gaps/test.py:66-70 | `int()` rejects the empty string and all-whitespace strings, reads a non-empty digit string as its decimal value, and a minus sign followed by digits as the negated value |
| `Text.ParseIntToString` | tests/build/no_platform_gaps/test.py:67 | `int(str(n)) == n` |
| `Paths.PathJoin` | checkbuild.py:389 | joining an absolute name gives that name; otherwise the result starts with the directory and ends with the name |
| `Paths.PathJoinInjective` | checkbuild.py:764 | joining different relative names onto one directory gives different paths |
| `SeqUtil.StrictlyIncreasingUnique` | tests/build/no_platform_gaps/test.py:78 | two strictly ascending lists with the same elements are equal, so `sorted` of a set has exactly one answer |
| `PlatformGaps.NdkBuildExecutable` | tests/build/no_platform_gaps/test.py:37-39 | the executable starts with `os.path.join(ndk_dir, 'ndk-build')` (POSIX join), and ends in `.cmd` exactly on win32 |
| `PlatformGaps.BuildCommand` | tests/build/no_platform_gaps/test.py:47 | the command is the executable, `-C`, `project`, then the `ndk-build` arguments; it has 7 elements more than the caller's flags |
| `PlatformGaps.NdkArgs` | tests/build/no_platform_gaps/test.py:41-46 | the caller's flags come first and unchanged, followed by exactly `APP_ABI=<abi>`, `APP_LD=<linker>`, `APP_PLATFORM=android-<str(platform)>` and `V=1`, in that order |
| `PlatformGaps.NdkArgsSettings` | tests/build/no_platform_gaps/test.py:41-46 | the last `APP_ABI=`, `APP_LD=`, `APP_PLATFORM=android-` and `V=` arguments are the requested ABI, linker, `str(platform)` and `1`, whatever the caller's flags say; the level reads back with `int()` |
| `PlatformGaps.Build` | tests/build/no_platform_gaps/test.py:36-50 | the build passed exactly when `ndk-build` exited with status 0; its output comes back either way |
| `PlatformGaps.ApiOf` | tests/build/no_platform_gaps/test.py:63-70 | a file gives no level; a directory gives `int()` of its name, or nothing when `int()` raises |
| `PlatformGaps.Apis` | tests/build/no_platform_gaps/test.py:62-72 | the scan collects at most one level per entry |
| `PlatformGaps.ApisMembers` | tests/build/no_platform_gaps/test.py:62-72 | the collected levels are exactly the values of directories whose names `int()` accepts; files and lettered releases are skipped |
| `PlatformGaps.SeqMin` | tests/build/no_platform_gaps/test.py:73-74 | the running minimum is a collected level, and no collected level is smaller |
| `PlatformGaps.SeqMax` | tests/build/no_platform_gaps/test.py:75-76 | the running maximum is a collected level, and no collected level is larger |
| `PlatformGaps.ScanLevels` | tests/build/no_platform_gaps/test.py:62-76 | the scan collects the levels in listing order; `min_api` and `max_api` stay `None` when there are none, and otherwise end as their minimum and maximum |
| `PlatformGaps.Missing` | tests/build/no_platform_gaps/test.py:78 | the missing levels lie in `[min_api, max_api)`, are absent from the listing, and number at most `max_api - min_api` |
| `PlatformGaps.MissingFacts` | tests/build/no_platform_gaps/test.py:78 | the missing levels are strictly ascending and are exactly the levels in `[min_api, max_api)` that were not collected |
| `PlatformGaps.MissingIsSortedDifference` | tests/build/no_platform_gaps/test.py:78 | any ascending, repeat-free list of `set(range(min_api, max_api)) - set(apis)` is the computed list |
| `PlatformGaps.BuildLevels` | tests/build/no_platform_gaps/test.py:79-84 | the result passes exactly when every level builds, and is then `(True, '')`; a failing result is the verdict of some level all of whose predecessors built; the levels are built in order; the first failing build's `(False, out)` is returned and later levels are not attempted; with no failure the result is `(True, '')` and every level was attempted |
| `PlatformGaps.RunTest` | tests/build/no_platform_gaps/test.py:53-84 | without any integer-named directory `range(None, None)` raises (an error result); otherwise the result passes exactly when every missing level builds, and the result and the levels attempted are those of building the missing levels fail-fast, lowest first |
| `PlatformGaps.RunTestAttempts` | tests/build/no_platform_gaps/test.py:78-82 | the levels attempted are strictly ascending, lie in `[min_api, max_api)`, and are absent from the listing |

## Left out

- The worker pool (`ndk.workqueue`) is not part of this model, and neither are
  its processes, queues and blocking.
  - The model takes the order in which results arrive as an input: any ordering
    of the submitted modules.
  - Terminate and join appear only as events.
- The I/O of `launch_build` is left out: the `tee` subprocess, the `os.dup2`
  redirection and the printed traceback. Only the returned tuple is modelled.
- Printing the failing log and appending it to `logs/build_error.log` is
  recorded as one `BuildFailed` event. File contents are not modelled.
- Timers, the summary printed at the end, `notify-send`, `os.setpgrp`,
  `os.chdir`, environment variables, cleaning the temporary directory and
  `argparse` are left out. The parsed arguments are an input record.
- The build functions of the individual modules are left out, and so are the
  subprocess calls and file copies in `package_host_tools`, the licence merging
  and `make_package`. `build_support.build`, `host_to_tag`, `ndk.hosts` and
  `ndk.abis` are not part of this model either.
  - The model records the lists these calls receive.
  - The host tag and the sysroot directory listing are inputs.
- `test_ndk` is reduced to its boolean result.
- The ordering of Python dicts is left out.
  - `details` is a sequence of ABIs and suites in any order.
  - `make_test_report` visits the keys in an unspecified order, which the model
    leaves open.
- `TestResult.to_string` and `os.linesep` are parameters.
- Text is a sequence of characters. `out.decode('utf-8')` is left out: the
  process output arrives already decoded.
- `os.path.join` is modelled for POSIX paths with two arguments only.
- `Text.ParseInt`: models `int()` on ASCII whitespace, an optional sign and
  ASCII digits. Underscores between digits and non-ASCII digits and spaces are
  left out. Its own contract covers the empty string, all-whitespace strings
  and plain digit strings. What the model relies on is `Text.ParseIntToString`.
- `PlatformGaps.RunTest`: the unused `_platform` argument is dropped. The host
  and triple that locate the directory are computed by foreign helpers, so the
  model receives the directory listing instead. `attempted` is a ghost record
  of the levels built.
- `Orchestrator.CheckBuild`: when the loop exits with status 1, `sys.exit` is
  modelled as the method returning that code. An exception that `main` does
  not catch, from the `check_call` of `dev-cleanup.sh` or `package.py`, is
  modelled the same way, as a return with code 1. The traceback Python prints
  is left out.
- `Orchestrator.LaunchBuild`: only an `Exception` raised by the build function
  is modelled (`except Exception` at checkbuild.py:773). A `BaseException` that
  is not an `Exception`, such as `KeyboardInterrupt` or `SystemExit`, escapes
  `launch_build` after its `finally` runs. The model does not capture that case.
- `PlatformGaps.NdkBuildExecutable`: the path is joined with POSIX
  `os.path.join`. On win32, where the `.cmd` suffix is added, Python uses
  `ntpath.join`, which puts `\` between the directory and `ndk-build`. The
  model's `<ndk_dir>/ndk-build.cmd` therefore differs from the real Windows
  path unless `ndk_dir` already ends in a separator.
