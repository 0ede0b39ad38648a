/** The argument lists that `checkbuild.py` builds for the per-module build scripts
    and for packaging: `common_build_args`, `package_ndk` and `package_host_tools`. */
module BuildArgs {
  import opened Wrappers
  import opened Text
  import opened Paths

  /** The parsed command line of `checkbuild.py` (the `ArgParser` result). Strings
      that argparse leaves as None when an option is absent are Options here. */
  datatype Args = Args(
    arch: Option<string>,
    jobs: int,
    package: bool,
    forcePackage: bool,
    test: bool,
    buildNumber: Option<string>,
    system: string,
    moduleName: Option<string>,
    hostOnly: bool)

  const DistDirFlag: string := "--dist-dir="
  const HostFlag: string := "--host="
  const OutDirFlag: string := "--out-dir="
  const BuildNumberFlag: string := "--build-number="
  const ArchFlag: string := "--arch="

  /** `common_build_args`. The list is first bound to the `--out-dir=` entry and then
      rebound to a fresh `--dist-dir=` list, so the output directory never reaches
      the build scripts. */
  function CommonBuildArgs(outDir: string, distDir: string, args: Args): (r: seq<string>)
    ensures r == [DistDirFlag + distDir, HostFlag + args.system]
    ensures forall i :: 0 <= i < |r| ==> !StartsWith(r[i], OutDirFlag)
  {
    var buildArgs := [OutDirFlag + outDir];
    var buildArgs := [DistDirFlag + distDir];
    assert (DistDirFlag + distDir)[2] == 'd';
    assert (HostFlag + args.system)[2] == 'h';
    buildArgs + [HostFlag + args.system]
  }

  /** What `package.py` is told: the common arguments, the positional distribution
      directory and the two optional flags. */
  datatype PackageRequest = PackageRequest(
    distDir: string,
    host: string,
    positional: string,
    buildNumber: Option<string>,
    arch: Option<string>)

  /** The value of `arg` after `flag`, when `arg` starts with `flag`. */
  function FlagValue(arg: string, flag: string): Option<string> {
    if StartsWith(arg, flag) then Some(arg[|flag|..]) else None
  }

  /** The inverse of `PackageNdk`: recovers the request from an argument list of the
      shape it builds (`--dist-dir=`, `--host=`, the positional directory, then
      `--build-number=` and `--arch=`, each at most once and in that order), and
      rejects every other list. */
  function ParsePackageArgs(argv: seq<string>): Option<PackageRequest> {
    if |argv| < 3 || FlagValue(argv[0], DistDirFlag).None? || FlagValue(argv[1], HostFlag).None? then None
    else
      var rest := argv[3..];
      var buildNumber := if rest != [] then FlagValue(rest[0], BuildNumberFlag) else None;
      var rest := if buildNumber.Some? then rest[1..] else rest;
      var arch := if rest != [] then FlagValue(rest[0], ArchFlag) else None;
      var rest := if arch.Some? then rest[1..] else rest;
      if rest != [] then None
      else Some(PackageRequest(
        FlagValue(argv[0], DistDirFlag).value, FlagValue(argv[1], HostFlag).value,
        argv[2], buildNumber, arch))
  }

  lemma FlagValueOf(flag: string, value: string)
    ensures FlagValue(flag + value, flag) == Some(value)
  {
    assert (flag + value)[..|flag|] == flag;
  }

  /** `package_ndk` up to the call of `package.py`: the list it appends to step by step. */
  method PackageNdk(outDir: string, distDir: string, args: Args) returns (packageArgs: seq<string>)
    ensures |packageArgs| == 3 + (if args.buildNumber.Some? then 1 else 0) + (if args.arch.Some? then 1 else 0)
    ensures packageArgs[..2] == CommonBuildArgs(outDir, distDir, args)
    ensures packageArgs[2] == distDir
    ensures args.buildNumber.Some? ==> packageArgs[3] == BuildNumberFlag + args.buildNumber.value
    ensures args.arch.Some? ==> packageArgs[|packageArgs| - 1] == ArchFlag + args.arch.value
    ensures ParsePackageArgs(packageArgs)
            == Some(PackageRequest(distDir, args.system, distDir, args.buildNumber, args.arch))
  {
    packageArgs := CommonBuildArgs(outDir, distDir, args);
    packageArgs := packageArgs + [distDir];
    ghost var base := packageArgs;
    if args.buildNumber.Some? {
      packageArgs := packageArgs + [BuildNumberFlag + args.buildNumber.value];
    }
    if args.arch.Some? {
      packageArgs := packageArgs + [ArchFlag + args.arch.value];
    }

    FlagValueOf(DistDirFlag, distDir);
    FlagValueOf(HostFlag, args.system);
    var rest := packageArgs[3..];
    if args.buildNumber.Some? {
      FlagValueOf(BuildNumberFlag, args.buildNumber.value);
      assert rest[0] == BuildNumberFlag + args.buildNumber.value;
    } else if args.arch.Some? {
      assert rest[0] == ArchFlag + args.arch.value;
      assert rest[0][2] == 'a';
      assert FlagValue(rest[0], BuildNumberFlag).None?;
    }
    if args.arch.Some? {
      FlagValueOf(ArchFlag, args.arch.value);
    }
  }

  predicate IsWindowsHost(host: string) {
    host == "windows" || host == "windows64"
  }

  const BasePackages: seq<string> :=
    ["gdb-multiarch-7.11", "ndk-awk", "ndk-depends", "ndk-make", "ndk-python", "ndk-stack", "ndk-yasm"]
  const BaseFiles: seq<string> := ["ndk-gdb", "ndk-gdb.py", "ndk-which"]
  const ArchiveSuffix: string := ".tar.bz2"

  /** The archive a host-tools package was staged in: `<pkg>-<host_tag>.tar.bz2`. */
  function ArchiveName(pkg: string, hostTag: string): string {
    pkg + "-" + hostTag + ArchiveSuffix
  }

  /** The package an archive name belongs to, if it is an archive for `hostTag`. */
  function ArchivePackage(archive: string, hostTag: string): Option<string> {
    var suffix := "-" + hostTag + ArchiveSuffix;
    if EndsWith(archive, suffix) then Some(archive[..|archive| - |suffix|]) else None
  }

  /** `package_host_tools` up to its foreign calls: the packages and files it picks, the
      archive it extracts for each package with `tar xf <out_dir>/<archive> -C <out_dir>`,
      and the name of the package it makes. `hostTag` is `build_support.host_to_tag(host)`. */
  method PackageHostTools(outDir: string, distDir: string, host: string, hostTag: string)
    returns (packages: seq<string>, files: seq<string>, extractCommands: seq<seq<string>>, packageName: string)
    ensures |packages| == |BasePackages| + (if IsWindowsHost(host) then 1 else 0)
    ensures |files| == |BaseFiles| + (if IsWindowsHost(host) then 1 else 0)
    ensures packages[..|BasePackages|] == BasePackages && files[..|BaseFiles|] == BaseFiles
    ensures ("toolbox" in packages) <==> IsWindowsHost(host)
    ensures ("ndk-gdb.cmd" in files) <==> IsWindowsHost(host)
    ensures |extractCommands| == |packages|
    ensures forall i :: 0 <= i < |packages| ==>
      && extractCommands[i] == ["tar", "xf", PathJoin(outDir, ArchiveName(packages[i], hostTag)), "-C", outDir]
      && ArchivePackage(ArchiveName(packages[i], hostTag), hostTag) == Some(packages[i])
    ensures packageName == "host-tools-" + hostTag
  {
    packages := BasePackages;
    files := BaseFiles;
    if host == "windows" || host == "windows64" {
      packages := packages + ["toolbox"];
      files := files + ["ndk-gdb.cmd"];
    }

    var packageNames := seq(|packages|, i requires 0 <= i < |packages| => ArchiveName(packages[i], hostTag));
    extractCommands := [];
    for k := 0 to |packageNames|
      invariant |extractCommands| == k
      invariant forall i :: 0 <= i < k ==>
        extractCommands[i] == ["tar", "xf", PathJoin(outDir, packageNames[i]), "-C", outDir]
    {
      var packagePath := PathJoin(outDir, packageNames[k]);
      extractCommands := extractCommands + [["tar", "xf", packagePath, "-C", outDir]];
    }

    forall i | 0 <= i < |packages|
      ensures ArchivePackage(ArchiveName(packages[i], hostTag), hostTag) == Some(packages[i])
    {
      var suffix := "-" + hostTag + ArchiveSuffix;
      assert ArchiveName(packages[i], hostTag) == packages[i] + suffix;
    }
    packageName := "host-tools-" + hostTag;
  }
}
