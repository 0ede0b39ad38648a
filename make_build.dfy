/** The command line that `sources/host-tools/make-3.81/build.py` hands to
    `build_support.build` to build GNU make for a host. */
module MakeBuild {
  import opened Wrappers
  import opened Text
  import opened Paths

  /** The host of the parsed arguments; the script only asks whether it is Windows. */
  datatype Host = Host(isWindows: bool)

  /** The parsed command line the script receives (`args.host`, `args.out_dir`). */
  datatype MakeArgs = MakeArgs(host: Host, outDir: string)

  /** What `build-make.sh` learns from its command line. */
  datatype MakeRequest = MakeRequest(mingw: bool, buildDir: string)

  const Prefix: seq<string> := ["bash", "build-make.sh", "--try-64"]
  const BuildDirFlag: string := "--build-dir="

  /** The inverse of `MakeBuildCommand`: recovers the request from a command line of
      the shape it builds (the fixed prefix, an optional `--mingw`, then exactly one
      `--build-dir=`), and rejects every other list. */
  function ParseMakeCommand(cmd: seq<string>): (r: Option<MakeRequest>)
    ensures r.Some? ==> |cmd| == (if r.value.mingw then 5 else 4) && cmd[..3] == Prefix
  {
    if |cmd| < 4 || cmd[..3] != Prefix then None
    else
      var mingw := cmd[3] == "--mingw";
      var rest := if mingw then cmd[4..] else cmd[3..];
      if |rest| == 1 && StartsWith(rest[0], BuildDirFlag) then
        Some(MakeRequest(mingw, rest[0][|BuildDirFlag|..]))
      else None
  }

  /** The `--build-dir=` argument is not `--mingw` and gives its directory back. */
  lemma BuildDirArg(dir: string)
    ensures StartsWith(BuildDirFlag + dir, BuildDirFlag)
    ensures (BuildDirFlag + dir)[|BuildDirFlag|..] == dir
    ensures BuildDirFlag + dir != "--mingw"
  {
    assert (BuildDirFlag + dir)[2] == 'b';
  }

  /** A command of the shape `main` builds reads back as its request. */
  lemma MakeCommandRoundTrip(mingw: bool, dir: string)
    ensures var cmd := Prefix + (if mingw then ["--mingw"] else []) + [BuildDirFlag + dir];
      ParseMakeCommand(cmd) == Some(MakeRequest(mingw, dir))
  {
    BuildDirArg(dir);
    var cmd := Prefix + (if mingw then ["--mingw"] else []) + [BuildDirFlag + dir];
    assert cmd[..3] == Prefix;
    assert cmd[3..] == (if mingw then ["--mingw"] else []) + [BuildDirFlag + dir];
  }

  /** `main(args)` up to the call of `build_support.build`: the list that is built. */
  method MakeBuildCommand(args: MakeArgs) returns (buildCmd: seq<string>)
    ensures |buildCmd| == (if args.host.isWindows then 5 else 4)
    ensures buildCmd[..3] == Prefix
    ensures ("--mingw" in buildCmd) <==> args.host.isWindows
    ensures args.host.isWindows ==> buildCmd[3] == "--mingw"
    ensures buildCmd[|buildCmd| - 1] == BuildDirFlag + PathJoin(args.outDir, "make")
    ensures ParseMakeCommand(buildCmd) == Some(MakeRequest(args.host.isWindows, PathJoin(args.outDir, "make")))
  {
    buildCmd := ["bash", "build-make.sh", "--try-64"];
    if args.host.isWindows {
      buildCmd := buildCmd + ["--mingw"];
    }
    var buildDir := BuildDirFlag + PathJoin(args.outDir, "make");
    buildCmd := buildCmd + [buildDir];
    BuildDirArg(PathJoin(args.outDir, "make"));
    MakeCommandRoundTrip(args.host.isWindows, PathJoin(args.outDir, "make"));
    assert buildCmd == Prefix + (if args.host.isWindows then ["--mingw"] else []) + [buildDir];
  }
}
