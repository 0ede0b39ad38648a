/** The `no_platform_gaps` build test: every API level between the lowest and the
    highest level the toolchain's sysroot ships libraries for must build with
    `ndk-build`. The directory listing and the `ndk-build` subprocess are inputs. */
module PlatformGaps {
  import opened Wrappers
  import opened Text
  import opened Paths
  import opened SeqUtil

  /** One entry of the sysroot library directory: its base name and whether it is a directory. */
  datatype DirEntry = DirEntry(name: string, isDir: bool)

  /** How the `ndk-build` subprocess ended: its return code and its combined output. */
  datatype Proc = Proc(returncode: int, out: string)

  /** The `(result, out)` pair that `build` and `run_test` return. */
  datatype Verdict = Verdict(passed: bool, out: string)

  /** What `run_test` hands on to every `build` call unchanged; `win32` stands for
      `sys.platform == 'win32'` and `exec` for running a command line to completion. */
  datatype Config = Config(ndkDir: string, abi: string, linker: string, buildFlags: seq<string>,
                           win32: bool, exec: seq<string> -> Proc)

  const ProjectPath := "project"
  const AbiPrefix := "APP_ABI="
  const LinkerPrefix := "APP_LD="
  const PlatformPrefix := "APP_PLATFORM=android-"
  const VerbosePrefix := "V="

  // ---------------------------------------------------------------------------
  // build

  /** The `ndk-build` script at the top of the NDK, the `.cmd` wrapper on Windows. */
  function NdkBuildExecutable(ndkDir: string, win32: bool): (exe: string)
    ensures StartsWith(exe, PathJoin(ndkDir, "ndk-build"))
    ensures EndsWith(exe, ".cmd") <==> win32
  {
    var ndkBuild := PathJoin(ndkDir, "ndk-build");
    assert EndsWith(ndkBuild, "ndk-build");
    assert !EndsWith(ndkBuild, ".cmd") by {
      assert ndkBuild[|ndkBuild| - 9..] == "ndk-build";
      assert ndkBuild[|ndkBuild| - 4] == 'u';
    }
    if win32 then ndkBuild + ".cmd" else ndkBuild
  }

  /** `ndk_args`: the caller's flags, then the ABI, linker, platform and verbosity settings. */
  function NdkArgs(abi: string, platform: int, linker: string, buildFlags: seq<string>): (args: seq<string>)
    ensures |args| == |buildFlags| + 4 && args[..|buildFlags|] == buildFlags
    ensures args[|buildFlags|..] ==
      [AbiPrefix + abi, LinkerPrefix + linker, PlatformPrefix + IntToString(platform), VerbosePrefix + "1"]
  {
    buildFlags + [AbiPrefix + abi, LinkerPrefix + linker, PlatformPrefix + IntToString(platform), VerbosePrefix + "1"]
  }

  /** The value the last `NAME=value` argument with the given `NAME=` prefix sets; as in
      make, a later assignment on the command line overrides an earlier one. */
  function LastValue(args: seq<string>, prefix: string): (v: Option<string>)
    ensures v.Some? ==> exists i :: 0 <= i < |args| && args[i] == prefix + v.value
    ensures v.None? ==> forall i :: 0 <= i < |args| ==> !StartsWith(args[i], prefix)
  {
    if args == [] then None
    else
      var last := args[|args| - 1];
      if StartsWith(last, prefix) then
        assert last == prefix + last[|prefix|..];
        Some(last[|prefix|..])
      else LastValue(args[..|args| - 1], prefix)
  }

  /** Arguments that do not set a variable leave its last value as it was. */
  lemma {:induction false} LastValueSkip(args: seq<string>, extra: seq<string>, prefix: string)
    requires forall i :: 0 <= i < |extra| ==> !StartsWith(extra[i], prefix)
    ensures LastValue(args + extra, prefix) == LastValue(args, prefix)
    decreases |extra|
  {
    if extra != [] {
      var init := extra[..|extra| - 1];
      assert (args + extra)[..|args + extra| - 1] == args + init;
      assert (args + extra)[|args + extra| - 1] == extra[|extra| - 1];
      LastValueSkip(args, init, prefix);
    } else {
      assert args + extra == args;
    }
  }

  /** The last assignment of a variable decides its value. */
  lemma LastValueOf(args: seq<string>, prefix: string, value: string)
    ensures LastValue(args + [prefix + value], prefix) == Some(value)
  {
    var last := prefix + value;
    assert (args + [last])[|args + [last]| - 1] == last;
    assert last[|prefix|..] == value;
  }

  /** The settings `build` appends win over anything the caller's flags set: the
      platform is `str(platform)` exactly, and it reads back as the level that was
      asked for. */
  lemma NdkArgsSettings(abi: string, platform: int, linker: string, buildFlags: seq<string>)
    ensures LastValue(NdkArgs(abi, platform, linker, buildFlags), AbiPrefix) == Some(abi)
    ensures LastValue(NdkArgs(abi, platform, linker, buildFlags), LinkerPrefix) == Some(linker)
    ensures LastValue(NdkArgs(abi, platform, linker, buildFlags), VerbosePrefix) == Some("1")
    ensures LastValue(NdkArgs(abi, platform, linker, buildFlags), PlatformPrefix) == Some(IntToString(platform))
    ensures ParseInt(LastValue(NdkArgs(abi, platform, linker, buildFlags), PlatformPrefix).value) == Some(platform)
  {
    var args := NdkArgs(abi, platform, linker, buildFlags);
    var level := IntToString(platform);
    var abiArg, ldArg, platArg, vArg := AbiPrefix + abi, LinkerPrefix + linker, PlatformPrefix + level, VerbosePrefix + "1";
    assert args == buildFlags + [abiArg, ldArg, platArg, vArg];
    assert abiArg[0] == 'A' && abiArg[4] == 'A';
    assert ldArg[0] == 'A' && ldArg[4] == 'L';
    assert platArg[0] == 'A' && platArg[4] == 'P';
    assert vArg[0] == 'V';

    LastValueOf(buildFlags, AbiPrefix, abi);
    assert args == (buildFlags + [abiArg]) + [ldArg, platArg, vArg];
    LastValueSkip(buildFlags + [abiArg], [ldArg, platArg, vArg], AbiPrefix);

    LastValueOf(buildFlags + [abiArg], LinkerPrefix, linker);
    assert args == (buildFlags + [abiArg, ldArg]) + [platArg, vArg];
    LastValueSkip(buildFlags + [abiArg, ldArg], [platArg, vArg], LinkerPrefix);

    LastValueOf(buildFlags + [abiArg, ldArg], PlatformPrefix, level);
    assert args == (buildFlags + [abiArg, ldArg, platArg]) + [vArg];
    LastValueSkip(buildFlags + [abiArg, ldArg, platArg], [vArg], PlatformPrefix);

    LastValueOf(buildFlags + [abiArg, ldArg, platArg], VerbosePrefix, "1");
    ParseIntToString(platform);
  }

  /** `[ndk_build, '-C', project_path] + ndk_args`. */
  function BuildCommand(cfg: Config, platform: int): (cmd: seq<string>)
    ensures |cmd| == 3 + |cfg.buildFlags| + 4
    ensures cmd[0] == NdkBuildExecutable(cfg.ndkDir, cfg.win32) && cmd[1] == "-C" && cmd[2] == ProjectPath
    ensures cmd[3..] == NdkArgs(cfg.abi, platform, cfg.linker, cfg.buildFlags)
  {
    [NdkBuildExecutable(cfg.ndkDir, cfg.win32), "-C", ProjectPath]
    + NdkArgs(cfg.abi, platform, cfg.linker, cfg.buildFlags)
  }

  /** `build`: run `ndk-build` for one platform level; it passed exactly when the
      process exited with status 0, and its output comes back either way. */
  function Build(cfg: Config, platform: int): (v: Verdict)
    ensures v.passed <==> cfg.exec(BuildCommand(cfg, platform)).returncode == 0
    ensures v.out == cfg.exec(BuildCommand(cfg, platform)).out
  {
    var proc := cfg.exec(BuildCommand(cfg, platform));
    Verdict(proc.returncode == 0, proc.out)
  }

  // ---------------------------------------------------------------------------
  // The levels the sysroot provides.

  /** The level a directory entry names: directories whose name `int()` accepts. */
  function ApiOf(e: DirEntry): (r: Option<int>)
    ensures !e.isDir ==> r.None?
    ensures e.isDir ==> r == ParseInt(e.name)
  {
    if e.isDir then ParseInt(e.name) else None
  }

  /** `apis` after the scan: the levels of the listing, in listing order. */
  function Apis(entries: seq<DirEntry>): (apis: seq<int>)
    ensures |apis| <= |entries|
  {
    if entries == [] then []
    else
      var init := Apis(entries[..|entries| - 1]);
      match ApiOf(entries[|entries| - 1])
      case None => init
      case Some(x) => init + [x]
  }

  /** The collected levels are those of the integer-named directories; files and
      lettered releases contribute nothing. */
  lemma {:induction false} ApisMembers(entries: seq<DirEntry>)
    ensures forall x :: x in Apis(entries) <==> exists e :: e in entries && ApiOf(e) == Some(x)
  {
    if entries != [] {
      var init := entries[..|entries| - 1];
      ApisMembers(init);
      assert entries == init + [entries[|entries| - 1]];
    }
  }

  function SeqMin(s: seq<int>): (m: int)
    requires s != []
    ensures m in s && forall x :: x in s ==> m <= x
  {
    if |s| == 1 then s[0]
    else
      var init := s[..|s| - 1];
      assert s == init + [s[|s| - 1]];
      var m := SeqMin(init);
      if s[|s| - 1] < m then s[|s| - 1] else m
  }

  function SeqMax(s: seq<int>): (m: int)
    requires s != []
    ensures m in s && forall x :: x in s ==> x <= m
  {
    if |s| == 1 then s[0]
    else
      var init := s[..|s| - 1];
      assert s == init + [s[|s| - 1]];
      var m := SeqMax(init);
      if s[|s| - 1] > m then s[|s| - 1] else m
  }

  // ---------------------------------------------------------------------------
  // The missing levels.

  /** The levels of `[lo, hi)` that `apis` lacks, lowest first. */
  function Missing(lo: int, hi: int, apis: seq<int>): (m: seq<int>)
    ensures |m| <= if lo < hi then hi - lo else 0
    ensures forall x :: x in m ==> lo <= x < hi && x !in apis
    decreases hi - lo
  {
    if lo >= hi then []
    else (if lo in apis then [] else [lo]) + Missing(lo + 1, hi, apis)
  }

  /** `Missing` is strictly ascending and holds exactly `set(range(lo, hi)) - set(apis)`. */
  lemma {:induction false} MissingFacts(lo: int, hi: int, apis: seq<int>)
    ensures StrictlyIncreasing(Missing(lo, hi, apis))
    ensures forall x :: x in Missing(lo, hi, apis) <==> lo <= x < hi && x !in apis
    decreases hi - lo
  {
    if lo < hi {
      MissingFacts(lo + 1, hi, apis);
      var head := if lo in apis then [] else [lo];
      var rest := Missing(lo + 1, hi, apis);
      assert Missing(lo, hi, apis) == head + rest;
      assert forall x :: x in rest ==> lo < x;
      forall i, j | 0 <= i < j < |head + rest| ensures (head + rest)[i] < (head + rest)[j] {
        if i < |head| {
          assert (head + rest)[j] in rest;
        }
      }
    }
  }

  /** `sorted(list(set(range(lo, hi)) - set(apis)))` is `Missing(lo, hi, apis)`: any
      ascending listing of that difference, without repeats, is this one. */
  lemma MissingIsSortedDifference(lo: int, hi: int, apis: seq<int>, sorted: seq<int>)
    requires StrictlyIncreasing(sorted)
    requires forall x :: x in sorted <==> lo <= x < hi && x !in apis
    ensures sorted == Missing(lo, hi, apis)
  {
    MissingFacts(lo, hi, apis);
    StrictlyIncreasingUnique(sorted, Missing(lo, hi, apis));
  }

  // ---------------------------------------------------------------------------
  // run_test

  /** `build` with everything but the platform level fixed by `run_test`'s arguments. */
  function BuildFor(cfg: Config): int -> Verdict {
    platform => Build(cfg, platform)
  }

  /** What building each of the given levels gives, in order. */
  function Attempts(build: int -> Verdict, levels: seq<int>): (vs: seq<Verdict>)
    ensures |vs| == |levels| && forall i :: 0 <= i < |levels| ==> vs[i] == build(levels[i])
  {
    seq(|levels|, i requires 0 <= i < |levels| => build(levels[i]))
  }

  function Passes(vs: seq<Verdict>): (ps: seq<bool>)
    ensures |ps| == |vs| && forall i :: 0 <= i < |vs| ==> ps[i] == vs[i].passed
  {
    seq(|vs|, i requires 0 <= i < |vs| => vs[i].passed)
  }

  /** The levels `run_test` tries to build for a directory listing that holds at least
      one level. */
  function MissingOf(entries: seq<DirEntry>): seq<int>
    requires Apis(entries) != []
  {
    var apis := Apis(entries);
    Missing(SeqMin(apis), SeqMax(apis), apis)
  }

  /** The `for path in lib_dir.iterdir()` loop: collects the levels and keeps their
      running minimum and maximum, which stay `None` while no level was seen. */
  method ScanLevels(entries: seq<DirEntry>) returns (apis: seq<int>, minApi: Option<int>, maxApi: Option<int>)
    ensures apis == Apis(entries)
    ensures apis == [] ==> minApi.None? && maxApi.None?
    ensures apis != [] ==> minApi == Some(SeqMin(apis)) && maxApi == Some(SeqMax(apis))
  {
    minApi, maxApi := None, None;
    apis := [];
    for i := 0 to |entries|
      invariant apis == Apis(entries[..i])
      invariant apis == [] ==> minApi.None? && maxApi.None?
      invariant apis != [] ==> minApi == Some(SeqMin(apis)) && maxApi == Some(SeqMax(apis))
    {
      var path := entries[i];
      assert entries[..i + 1][..i] == entries[..i];
      if !path.isDir {
        continue;
      }
      var api := ParseInt(path.name);
      if api.None? {
        // a lettered release
        continue;
      }
      apis := apis + [api.value];
      if minApi.None? || api.value < minApi.value {
        minApi := Some(api.value);
      }
      if maxApi.None? || api.value > maxApi.value {
        maxApi := Some(api.value);
      }
    }
    assert entries[..|entries|] == entries;
  }

  /** The verdict and the levels attempted when `levels` are built in order and the
      first failure stops the run: that failure's verdict, or `(True, '')`. */
  ghost predicate FailFast(build: int -> Verdict, levels: seq<int>, v: Verdict, attempted: seq<int>) {
    match FirstFalse(Passes(Attempts(build, levels)))
    case None => v == Verdict(true, "") && attempted == levels
    case Some(k) => v == build(levels[k]) && !v.passed && attempted == levels[..k + 1]
  }

  /** The `for api in missing_platforms` loop: builds the levels in order and returns
      the first failing verdict at once, `(True, '')` when none fails. */
  method BuildLevels(build: int -> Verdict, levels: seq<int>) returns (v: Verdict, ghost attempted: seq<int>)
    ensures v.passed <==> forall i :: 0 <= i < |levels| ==> build(levels[i]).passed
    ensures v.passed ==> v.out == ""
    ensures !v.passed ==> exists k :: 0 <= k < |levels| && v == build(levels[k])
                                      && forall t :: 0 <= t < k ==> build(levels[t]).passed
    ensures FailFast(build, levels, v, attempted)
  {
    attempted := [];
    for j := 0 to |levels|
      invariant attempted == levels[..j]
      invariant forall t :: 0 <= t < j ==> build(levels[t]).passed
    {
      attempted := attempted + [levels[j]];
      var result := build(levels[j]);
      if !result.passed {
        FirstFalseAt(Passes(Attempts(build, levels)), j);
        return result, attempted;
      }
    }
    assert attempted == levels;
    v := Verdict(true, "");
  }

  /** `run_test`. A listing without any level makes `range(None, None)` raise, here
      `Err`. Otherwise the missing levels are built lowest first; the first failure's
      verdict is returned at once, and `(True, '')` when none fails. `attempted` lists
      the levels built, in order. */
  method RunTest(cfg: Config, entries: seq<DirEntry>)
    returns (r: Result<Verdict, string>, ghost attempted: seq<int>)
    ensures r.Err? <==> Apis(entries) == []
    ensures r.Ok? ==> (r.value.passed <==>
      forall i :: 0 <= i < |MissingOf(entries)| ==> BuildFor(cfg)(MissingOf(entries)[i]).passed)
    ensures r.Ok? ==> FailFast(BuildFor(cfg), MissingOf(entries), r.value, attempted)
  {
    var apis, minApi, maxApi := ScanLevels(entries);
    if minApi.None? || maxApi.None? {
      return Err("TypeError"), [];
    }
    var missingPlatforms := Missing(minApi.value, maxApi.value, apis);
    assert missingPlatforms == MissingOf(entries);
    var v;
    v, attempted := BuildLevels(BuildFor(cfg), missingPlatforms);
    r := Ok(v);
  }

  /** Whatever `run_test` builds is a level inside the scanned range that the sysroot
      lacks, in ascending order, and it passes exactly when every such level builds. */
  lemma RunTestAttempts(entries: seq<DirEntry>, attempted: seq<int>)
    requires Apis(entries) != []
    requires attempted <= MissingOf(entries)
    ensures StrictlyIncreasing(attempted)
    ensures forall x :: x in attempted ==>
      SeqMin(Apis(entries)) <= x < SeqMax(Apis(entries)) && x !in Apis(entries)
  {
    var apis := Apis(entries);
    MissingFacts(SeqMin(apis), SeqMax(apis), apis);
    var m := MissingOf(entries);
    assert forall x :: x in attempted ==> x in m by {
      forall x | x in attempted ensures x in m {
        var i :| 0 <= i < |attempted| && attempted[i] == x;
        assert m[i] == x;
      }
    }
  }
}
