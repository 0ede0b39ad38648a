/** The driver of `checkbuild.py` (`main` and `launch_build`): which modules are
    built, whether the result is packaged and tested, the order in which build jobs
    are submitted, and the fail-fast loop that consumes their results. The worker
    pool itself is not modelled; the order in which it delivers results is an input. */
module Orchestrator {
  import opened Wrappers
  import opened Text
  import opened Paths
  import opened SeqUtil
  import opened BuildArgs

  const ALL_MODULES: set<string> := {
    "clang", "cpufeatures", "gabi++", "gcc", "gdbserver", "gnustl", "gtest",
    "host-tools", "libandroid_support", "libc++", "libc++abi", "libshaderc",
    "native_app_glue", "ndk-build", "ndk_helper", "platforms", "python-packages",
    "shader_tools", "simpleperf", "stlport", "sysroot", "system-stl", "vulkan"
  }

  /** The modules `--host-only` builds. */
  const HOST_ONLY_MODULES: set<string> := {
    "clang", "gcc", "host-tools", "ndk-build", "python-packages", "shader_tools", "simpleperf"
  }

  /** The build function registered for each module; what each one does is not modelled. */
  datatype BuildFunc =
    | BuildClang | BuildCpufeatures | BuildGabixx | BuildGcc | BuildGdbserver
    | BuildGnustl | BuildGtest | BuildHostTools | BuildLibandroidSupport | BuildLibcxx
    | BuildLibcxxabi | BuildLibshaderc | BuildNativeAppGlue | BuildNdkBuild | BuildNdkHelper
    | BuildPlatforms | BuildPythonPackages | BuildShaderTools | BuildSimpleperf | BuildStlport
    | BuildSysroot | BuildSystemStl | BuildVulkan

  type Job = (string, BuildFunc)

  /** `module_builds`, the ordered table that fixes the submission order. */
  const MODULE_BUILDS: seq<Job> := [
    ("clang", BuildClang), ("cpufeatures", BuildCpufeatures), ("gabi++", BuildGabixx),
    ("gcc", BuildGcc), ("gdbserver", BuildGdbserver), ("gnustl", BuildGnustl),
    ("gtest", BuildGtest), ("host-tools", BuildHostTools),
    ("libandroid_support", BuildLibandroidSupport), ("libc++", BuildLibcxx),
    ("libc++abi", BuildLibcxxabi), ("libshaderc", BuildLibshaderc),
    ("native_app_glue", BuildNativeAppGlue), ("ndk-build", BuildNdkBuild),
    ("ndk_helper", BuildNdkHelper), ("platforms", BuildPlatforms),
    ("python-packages", BuildPythonPackages), ("shader_tools", BuildShaderTools),
    ("simpleperf", BuildSimpleperf), ("stlport", BuildStlport), ("sysroot", BuildSysroot),
    ("system-stl", BuildSystemStl), ("vulkan", BuildVulkan)
  ]

  function Names(jobs: seq<Job>): (names: seq<string>)
    ensures |names| == |jobs| && forall i :: 0 <= i < |jobs| ==> names[i] == jobs[i].0
  {
    seq(|jobs|, i requires 0 <= i < |jobs| => jobs[i].0)
  }

  /** The module names of `module_builds`, in table order. */
  const TABLE_NAMES: seq<string> := Names(MODULE_BUILDS)

  /** A list of names in strictly ascending order names nothing twice. */
  lemma SortedNamesDistinct(s: seq<string>)
    requires forall i :: 0 <= i < |s| - 1 ==> LexLess(s[i], s[i + 1])
    ensures Distinct(s)
  {
    forall i, j | 0 <= i < j < |s| ensures LexLess(s[i], s[j]) {
      var k := i + 1;
      while k < j
        invariant i < k <= j && LexLess(s[i], s[k])
      {
        LexLessTransitive(s[i], s[k], s[k + 1]);
        k := k + 1;
      }
    }
    forall i, j | 0 <= i < j < |s| ensures s[i] != s[j] {
      LexLessIrreflexive(s[i]);
    }
  }

  lemma TableNamesSortedFrom0()
    ensures forall i :: 0 <= i < 6 ==> LexLess(TABLE_NAMES[i], TABLE_NAMES[i + 1])
  {
    assert LessAt(TABLE_NAMES[0], TABLE_NAMES[1], 1);
    assert LessAt(TABLE_NAMES[1], TABLE_NAMES[2], 0);
    assert LessAt(TABLE_NAMES[2], TABLE_NAMES[3], 1);
    assert LessAt(TABLE_NAMES[3], TABLE_NAMES[4], 1);
    assert LessAt(TABLE_NAMES[4], TABLE_NAMES[5], 1);
    assert LessAt(TABLE_NAMES[5], TABLE_NAMES[6], 1);
  }

  lemma TableNamesSortedFrom6()
    ensures forall i :: 6 <= i < 12 ==> LexLess(TABLE_NAMES[i], TABLE_NAMES[i + 1])
  {
    assert LessAt(TABLE_NAMES[6], TABLE_NAMES[7], 0);
    assert LessAt(TABLE_NAMES[7], TABLE_NAMES[8], 0);
    assert LessAt(TABLE_NAMES[8], TABLE_NAMES[9], 3);
    assert LessAt(TABLE_NAMES[9], TABLE_NAMES[10], 6);
    assert LessAt(TABLE_NAMES[10], TABLE_NAMES[11], 3);
    assert LessAt(TABLE_NAMES[11], TABLE_NAMES[12], 0);
  }

  lemma TableNamesSortedFrom12()
    ensures forall i :: 12 <= i < 17 ==> LexLess(TABLE_NAMES[i], TABLE_NAMES[i + 1])
  {
    assert LessAt(TABLE_NAMES[12], TABLE_NAMES[13], 1);
    assert LessAt(TABLE_NAMES[13], TABLE_NAMES[14], 3);
    assert LessAt(TABLE_NAMES[14], TABLE_NAMES[15], 0);
    assert LessAt(TABLE_NAMES[15], TABLE_NAMES[16], 1);
    assert LessAt(TABLE_NAMES[16], TABLE_NAMES[17], 0);
  }

  lemma TableNamesSortedFrom17()
    ensures forall i :: 17 <= i < 22 ==> LexLess(TABLE_NAMES[i], TABLE_NAMES[i + 1])
  {
    assert LessAt(TABLE_NAMES[17], TABLE_NAMES[18], 1);
    assert LessAt(TABLE_NAMES[18], TABLE_NAMES[19], 1);
    assert LessAt(TABLE_NAMES[19], TABLE_NAMES[20], 1);
    assert LessAt(TABLE_NAMES[20], TABLE_NAMES[21], 3);
    assert LessAt(TABLE_NAMES[21], TABLE_NAMES[22], 0);
  }

  /** `module_builds` happens to list its modules in ascending order. */
  lemma TableNamesSorted()
    ensures forall i :: 0 <= i < |TABLE_NAMES| - 1 ==> LexLess(TABLE_NAMES[i], TABLE_NAMES[i + 1])
  {
    TableNamesSortedFrom0();
    TableNamesSortedFrom6();
    TableNamesSortedFrom12();
    TableNamesSortedFrom17();
  }

  lemma TableNamesDistinct()
    ensures Distinct(TABLE_NAMES)
  {
    TableNamesSorted();
    SortedNamesDistinct(TABLE_NAMES);
  }

  lemma TableNamesAreAllModules()
    ensures forall n :: n in TABLE_NAMES <==> n in ALL_MODULES
  {
    var names := Names(MODULE_BUILDS);
    assert names == [
      MODULE_BUILDS[0].0, MODULE_BUILDS[1].0, MODULE_BUILDS[2].0, MODULE_BUILDS[3].0,
      MODULE_BUILDS[4].0, MODULE_BUILDS[5].0, MODULE_BUILDS[6].0, MODULE_BUILDS[7].0,
      MODULE_BUILDS[8].0, MODULE_BUILDS[9].0, MODULE_BUILDS[10].0, MODULE_BUILDS[11].0,
      MODULE_BUILDS[12].0, MODULE_BUILDS[13].0, MODULE_BUILDS[14].0, MODULE_BUILDS[15].0,
      MODULE_BUILDS[16].0, MODULE_BUILDS[17].0, MODULE_BUILDS[18].0, MODULE_BUILDS[19].0,
      MODULE_BUILDS[20].0, MODULE_BUILDS[21].0, MODULE_BUILDS[22].0];
  }

  /** The table registers every module exactly once and nothing else. */
  lemma ModuleTableIsAllModules()
    ensures Distinct(Names(MODULE_BUILDS))
    ensures forall n :: n in Names(MODULE_BUILDS) <==> n in ALL_MODULES
  {
    TableNamesDistinct();
    TableNamesAreAllModules();
  }

  // ---------------------------------------------------------------------------
  // Module selection and gating.

  /** The `modules` set of `main`: all modules, or the one given with `--module`;
      `--host-only` overrides both. */
  function SelectModules(moduleName: Option<string>, hostOnly: bool): (modules: set<string>)
    ensures hostOnly ==> modules == HOST_ONLY_MODULES
    ensures !hostOnly && moduleName.Some? ==> modules == {moduleName.value}
    ensures (moduleName.None? || moduleName.value in ALL_MODULES) ==> modules <= ALL_MODULES
    ensures ALL_MODULES <= modules <==> !hostOnly && moduleName.None?
  {
    var modules := if moduleName.None? then ALL_MODULES else {moduleName.value};
    assert "clang" in ALL_MODULES && "cpufeatures" in ALL_MODULES && "cpufeatures" !in HOST_ONLY_MODULES;
    if hostOnly then HOST_ONLY_MODULES else modules
  }

  /** The decisions `main` takes before building anything. */
  datatype Plan = Plan(modules: set<string>, doPackage: bool, runTests: bool)

  function MakePlan(args: Args): (plan: Plan)
    ensures plan.modules == SelectModules(args.moduleName, args.hostOnly)
    ensures plan.doPackage <==> args.forcePackage || (args.package && !args.hostOnly && args.moduleName.None?)
    ensures plan.runTests <==> args.test && plan.doPackage && !StartsWith(args.system, "windows")
    ensures plan.runTests ==> plan.doPackage
  {
    var modules := SelectModules(args.moduleName, args.hostOnly);
    var requiredPackageModules := ALL_MODULES;
    var haveRequiredModules := requiredPackageModules <= modules;
    var doPackage := (args.package && haveRequiredModules) || args.forcePackage;
    var test := if StartsWith(args.system, "windows") || !doPackage then false else args.test;
    Plan(modules, doPackage, test)
  }

  // ---------------------------------------------------------------------------
  // Submission.

  /** The position of a name in a table. */
  function IndexOf(names: seq<string>, n: string): (i: nat)
    requires n in names
    ensures i < |names| && names[i] == n
    ensures forall j :: 0 <= j < i ==> names[j] != n
  {
    if names[0] == n then 0 else 1 + IndexOf(names[1..], n)
  }

  /** The entries of `table` whose module is in `modules`, in table order. */
  function Selected(table: seq<Job>, modules: set<string>): seq<Job> {
    if table == [] then []
    else Selected(table[..|table| - 1], modules)
         + (if table[|table| - 1].0 in modules then [table[|table| - 1]] else [])
  }

  lemma {:induction false} SelectedMembers(table: seq<Job>, modules: set<string>)
    ensures forall j :: j in Selected(table, modules) <==> j in table && j.0 in modules
  {
    if table != [] {
      var init := table[..|table| - 1];
      SelectedMembers(init, modules);
      assert table == init + [table[|table| - 1]];
    }
  }

  /** Looking a name up in a longer table finds it where the shorter one did. */
  lemma IndexOfPrefix(names: seq<string>, k: nat, n: string)
    requires k <= |names| && n in names[..k]
    ensures IndexOf(names, n) == IndexOf(names[..k], n)
  {
    var r := IndexOf(names[..k], n);
    assert names[r] == n;
    var r' := IndexOf(names, n);
    assert r' <= r;
  }

  lemma NamesPrefix(table: seq<Job>, k: nat)
    requires k <= |table|
    ensures Names(table[..k]) == Names(table)[..k]
  {
  }

  /** Every selected entry comes from the table. */
  lemma SelectedFromTable(table: seq<Job>, modules: set<string>)
    ensures forall j :: j in Selected(table, modules) ==> j.0 in Names(table)
  {
    SelectedMembers(table, modules);
    forall j | j in Selected(table, modules) ensures j.0 in Names(table) {
      var i :| 0 <= i < |table| && table[i] == j;
      assert Names(table)[i] == j.0;
    }
  }

  /** The entries selected from all but the last row sit before the last row. */
  lemma SelectedInitBelow(table: seq<Job>, modules: set<string>)
    requires table != [] && Distinct(Names(table))
    ensures var k := |table| - 1;
      forall a :: 0 <= a < |Selected(table[..k], modules)| ==>
        Selected(table[..k], modules)[a].0 in Names(table[..k]) &&
        Selected(table[..k], modules)[a].0 in Names(table) &&
        IndexOf(Names(table), Selected(table[..k], modules)[a].0)
          == IndexOf(Names(table[..k]), Selected(table[..k], modules)[a].0) < k
  {
    var k := |table| - 1;
    var init := table[..k];
    NamesPrefix(table, k);
    SelectedFromTable(init, modules);
    var s0 := Selected(init, modules);
    forall a | 0 <= a < |s0|
      ensures s0[a].0 in Names(init) && s0[a].0 in Names(table)
      ensures IndexOf(Names(table), s0[a].0) == IndexOf(Names(init), s0[a].0) < k
    {
      assert s0[a] in s0;
      IndexOfPrefix(Names(table), k, s0[a].0);
    }
  }

  /** Filtering a table whose names are distinct keeps the table's order. */
  lemma {:induction false} SelectedOrdered(table: seq<Job>, modules: set<string>)
    requires Distinct(Names(table))
    ensures forall j :: j in Selected(table, modules) ==> j.0 in Names(table)
    ensures forall a, b :: 0 <= a < b < |Selected(table, modules)| ==>
      IndexOf(Names(table), Selected(table, modules)[a].0) < IndexOf(Names(table), Selected(table, modules)[b].0)
  {
    SelectedFromTable(table, modules);
    if table != [] {
      var k := |table| - 1;
      var init := table[..k];
      var names := Names(table);
      NamesPrefix(table, k);
      assert Distinct(Names(init));
      SelectedOrdered(init, modules);
      SelectedInitBelow(table, modules);
      if table[k].0 in modules {
        assert IndexOf(names, table[k].0) == k by {
          var r := IndexOf(names, table[k].0);
          assert names[r] == names[k];
        }
      }
    }
  }

  /** A module's place in `module_builds`. */
  function TableRank(n: string): nat
    requires n in ALL_MODULES
  {
    ModuleTableIsAllModules();
    IndexOf(Names(MODULE_BUILDS), n)
  }

  /** The `add_task` loop of `main`, which walks the table (`module_builds`) and
      submits the entries whose module was selected. */
  method SubmitJobs(table: seq<Job>, modules: set<string>) returns (jobs: seq<Job>)
    ensures jobs == Selected(table, modules)
    ensures forall j :: j in jobs ==> j.0 in modules
  {
    jobs := [];
    for i := 0 to |table|
      invariant jobs == Selected(table[..i], modules)
      invariant forall j :: j in jobs ==> j.0 in modules
    {
      var (name, buildFunc) := table[i];
      assert table[..i + 1][..i] == table[..i];
      if name in modules {
        jobs := jobs + [(name, buildFunc)];
      }
    }
    assert table[..|table|] == table;
  }

  /** The names a filter keeps are the selected names the table lists. */
  lemma SelectedNames(table: seq<Job>, all: set<string>, modules: set<string>)
    requires forall n :: n in Names(table) <==> n in all
    ensures forall n :: n in Names(Selected(table, modules)) <==> n in modules && n in all
  {
    var jobs := Selected(table, modules);
    SelectedMembers(table, modules);
    forall n ensures n in Names(jobs) <==> n in modules && n in all {
      if n in Names(jobs) {
        var a :| 0 <= a < |jobs| && Names(jobs)[a] == n;
        assert jobs[a] in jobs;
      }
      if n in modules && n in all {
        var i :| 0 <= i < |table| && Names(table)[i] == n;
        assert table[i] in jobs;
        var a :| 0 <= a < |jobs| && jobs[a] == table[i];
        assert Names(jobs)[a] == n;
      }
    }
  }

  /** Filtering a table that lists the modules of `all` once each. */
  lemma SelectionFacts(table: seq<Job>, all: set<string>, modules: set<string>)
    requires Distinct(Names(table))
    requires forall n :: n in Names(table) <==> n in all
    ensures forall n :: n in Names(Selected(table, modules)) <==> n in modules && n in all
    ensures forall a, b :: 0 <= a < b < |Selected(table, modules)| ==>
      IndexOf(Names(table), Selected(table, modules)[a].0) < IndexOf(Names(table), Selected(table, modules)[b].0)
    ensures Distinct(Names(Selected(table, modules)))
  {
    var jobs := Selected(table, modules);
    SelectedNames(table, all, modules);
    SelectedOrdered(table, modules);
    forall a, b | 0 <= a < b < |jobs| ensures Names(jobs)[a] != Names(jobs)[b] {
      assert IndexOf(Names(table), jobs[a].0) < IndexOf(Names(table), jobs[b].0);
    }
  }

  /** The submitted jobs are the selected modules, each once, in table order. */
  lemma SubmissionOrder(modules: set<string>)
    ensures forall n :: n in Names(Selected(MODULE_BUILDS, modules)) <==> n in modules && n in ALL_MODULES
    ensures forall a, b :: 0 <= a < b < |Selected(MODULE_BUILDS, modules)| ==>
      TableRank(Selected(MODULE_BUILDS, modules)[a].0) < TableRank(Selected(MODULE_BUILDS, modules)[b].0)
    ensures Distinct(Names(Selected(MODULE_BUILDS, modules)))
  {
    ModuleTableIsAllModules();
    SelectionFacts(MODULE_BUILDS, ALL_MODULES, modules);
  }

  // ---------------------------------------------------------------------------
  // launch_build

  /** How a call ended: it returned, or it raised an `Exception`. Used for a module's
      build function and for the `check_call` of a build script. */
  datatype BuildOutcome = Returned | Raised(traceback: string)

  /** The tuple a job puts on the result queue: `(build_name, ok, log_path)`. */
  datatype LaunchResult = LaunchResult(name: string, ok: bool, logPath: string)

  function LogPath(logDir: string, buildName: string): string {
    PathJoin(logDir, buildName) + ".log"
  }

  /** `launch_build`: the exception of a failing build function is caught (its trace
      goes to the log), so a result is always returned. */
  function LaunchBuild(buildName: string, outcome: BuildOutcome, logDir: string): (r: LaunchResult)
    ensures r.name == buildName && r.logPath == LogPath(logDir, buildName)
    ensures r.ok <==> outcome.Returned?
  {
    var logPath := LogPath(logDir, buildName);
    match outcome
    case Returned => LaunchResult(buildName, true, logPath)
    case Raised(_) => LaunchResult(buildName, false, logPath)
  }

  /** Jobs with different module names write different log files. */
  lemma LogPathsDistinct(logDir: string, n1: string, n2: string)
    requires n1 in ALL_MODULES && n2 in ALL_MODULES && n1 != n2
    ensures LogPath(logDir, n1) != LogPath(logDir, n2)
  {
    assert !IsAbsolute(n1) && !IsAbsolute(n2);
    var p1, p2 := PathJoin(logDir, n1), PathJoin(logDir, n2);
    assert p1 == (p1 + ".log")[..|p1|];
    assert p2 == (p2 + ".log")[..|p2|];
  }

  // ---------------------------------------------------------------------------
  // The fail-fast result loop.

  /** What the loop does that can be observed: lines printed, pool calls made. */
  datatype Event =
    /** `invoke_build('dev-cleanup.sh')` */
    | Cleanup
    | Submitted(name: string)
    /** `BUILD SUCCESSFUL: <name>` */
    | BuildSuccessful(name: string)
    /** `BUILD FAILED: <name>`, then the log is printed and appended to `logs/build_error.log` */
    | BuildFailed(name: string, logPath: string)
    | Terminate
    | Join
    | Packaged(packageArgs: seq<string>)
    | TestsRun

  datatype LoopExit = Proceed | Exit(code: int)

  /** Events of the build phase, before anything is packaged or tested. */
  predicate BuildPhase(e: Event) {
    !e.Packaged? && !e.TestsRun?
  }

  function Oks(rs: seq<LaunchResult>): (oks: seq<bool>)
    ensures |oks| == |rs| && forall i :: 0 <= i < |rs| ==> oks[i] == rs[i].ok
  {
    seq(|rs|, i requires 0 <= i < |rs| => rs[i].ok)
  }

  function SuccessEvents(rs: seq<LaunchResult>): (es: seq<Event>)
    ensures |es| == |rs| && forall i :: 0 <= i < |rs| ==> es[i] == BuildSuccessful(rs[i].name)
  {
    seq(|rs|, i requires 0 <= i < |rs| => BuildSuccessful(rs[i].name))
  }

  /** The events of the result loop and its `finally` for results delivered in this
      order: a `BUILD SUCCESSFUL` per result up to the first failure; at that failure
      the pool is terminated and joined and `BUILD FAILED` is reported; and the
      `finally` terminates and joins the pool once more on every path. */
  function LoopTrace(delivered: seq<LaunchResult>): seq<Event> {
    match FirstFalse(Oks(delivered))
    case None => SuccessEvents(delivered) + [Terminate, Join]
    case Some(k) =>
      SuccessEvents(delivered[..k])
      + [Terminate, Join, BuildFailed(delivered[k].name, delivered[k].logPath)]
      + [Terminate, Join]
  }

  /** The `while not workqueue.finished()` loop and its `finally`. `delivered` is the
      order in which the pool hands out results; the loop stops taking results at the
      first failure, and the pool is terminated and joined on the way out whatever
      happened (on the failure path also inside the loop, before the log is printed). */
  method CollectResults(delivered: seq<LaunchResult>) returns (exit: LoopExit, consumed: nat, events: seq<Event>)
    ensures exit.Exit? <==> exists i :: 0 <= i < |delivered| && !delivered[i].ok
    ensures exit.Exit? ==> exit.code == 1
    ensures FirstFalse(Oks(delivered)).None? ==>
      consumed == |delivered| && events == SuccessEvents(delivered) + [Terminate, Join]
    ensures FirstFalse(Oks(delivered)).Some? ==>
      var k := FirstFalse(Oks(delivered)).value;
      consumed == k + 1 &&
      events == SuccessEvents(delivered[..k])
                + [Terminate, Join, BuildFailed(delivered[k].name, delivered[k].logPath)]
                + [Terminate, Join]
    ensures events == LoopTrace(delivered)
    ensures forall e :: e in events ==> BuildPhase(e)
    ensures |events| >= 2 && events[|events| - 2..] == [Terminate, Join]
  {
    exit := Proceed;
    consumed := 0;
    events := [];
    while consumed < |delivered|
      invariant consumed <= |delivered|
      invariant forall i :: 0 <= i < consumed ==> delivered[i].ok
      invariant events == SuccessEvents(delivered[..consumed])
    {
      var r := delivered[consumed];
      consumed := consumed + 1;
      if r.ok {
        events := events + [BuildSuccessful(r.name)];
        assert SuccessEvents(delivered[..consumed]) == SuccessEvents(delivered[..consumed - 1]) + [BuildSuccessful(r.name)];
      } else {
        events := events + [Terminate, Join, BuildFailed(r.name, r.logPath)];
        exit := Exit(1);
        break;
      }
    }
    // finally:
    events := events + [Terminate, Join];
    if exit == Proceed {
      assert delivered[..consumed] == delivered;
    }
  }

  /** Every job's `launch_build` result, in the order the pool delivers them. */
  function Deliver(delivery: seq<string>, outcome: string -> BuildOutcome, logDir: string): (rs: seq<LaunchResult>)
    ensures |rs| == |delivery|
    ensures forall i :: 0 <= i < |delivery| ==> rs[i] == LaunchBuild(delivery[i], outcome(delivery[i]), logDir)
  {
    seq(|delivery|, i requires 0 <= i < |delivery| => LaunchBuild(delivery[i], outcome(delivery[i]), logDir))
  }

  /** All delivered results are successes exactly when every delivered module's build
      function returned. */
  lemma DeliverAllOk(delivery: seq<string>, outcome: string -> BuildOutcome, logDir: string)
    ensures (exists i :: 0 <= i < |delivery| && !Deliver(delivery, outcome, logDir)[i].ok)
            <==> !(forall n :: n in delivery ==> outcome(n).Returned?)
  {
    var rs := Deliver(delivery, outcome, logDir);
    if forall i :: 0 <= i < |delivery| ==> rs[i].ok {
      forall n | n in delivery ensures outcome(n).Returned? {
        var i :| 0 <= i < |delivery| && delivery[i] == n;
        assert rs[i].ok;
      }
    }
  }

  /** The request `package.py` reads back from the arguments `package_ndk` passes. */
  function PackageRequestOf(args: Args, distDir: string): PackageRequest {
    PackageRequest(distDir, args.system, distDir, args.buildNumber, args.arch)
  }

  /** The stage events after a build phase in which every build returned: one package
      step first when packaging was decided, then one test run when testing was decided
      and the package step (if any) returned, and nothing else. */
  predicate StageTrace(stages: seq<Event>, plan: Plan, packageReturned: bool, request: PackageRequest) {
    var tested := plan.runTests && (plan.doPackage ==> packageReturned);
    |stages| == (if plan.doPackage then 1 else 0) + (if tested then 1 else 0) &&
    (plan.doPackage ==> stages[0].Packaged? && ParsePackageArgs(stages[0].packageArgs) == Some(request)) &&
    (tested ==> stages[|stages| - 1] == TestsRun)
  }

  /** The steps after a build phase in which every build returned: `package_ndk`
      when packaging was decided, then `test_ndk` when testing was decided, then
      `sys.exit(not good)`. `packageOutcome` is how the `check_call` of `package.py`
      ends; an exception it raises is not caught, so the process exits with status 1
      before any test runs. */
  method RunStages(args: Args, plan: Plan, outDir: string, distDir: string,
                   packageOutcome: BuildOutcome, testsGood: bool)
    returns (exitCode: int, stages: seq<Event>)
    ensures forall e :: e in stages ==> !BuildPhase(e)
    ensures (exists e :: e in stages && e.Packaged?) <==> plan.doPackage
    ensures TestsRun in stages <==> plan.runTests && (plan.doPackage ==> packageOutcome.Returned?)
    ensures exitCode == 0 || exitCode == 1
    ensures exitCode == 0 <==> (plan.doPackage ==> packageOutcome.Returned?) && (plan.runTests ==> testsGood)
    ensures forall e :: e in stages && e.Packaged? ==>
      ParsePackageArgs(e.packageArgs) == Some(PackageRequestOf(args, distDir))
    ensures |stages| == (if plan.doPackage then 1 else 0) + (if TestsRun in stages then 1 else 0)
    ensures plan.doPackage ==> stages[0].Packaged?
    ensures TestsRun in stages ==> stages[|stages| - 1] == TestsRun
    ensures StageTrace(stages, plan, packageOutcome.Returned?, PackageRequestOf(args, distDir))
  {
    var packaged: seq<Event> := [];
    if plan.doPackage {
      var packageArgs := PackageNdk(outDir, distDir, args);
      packaged := [Packaged(packageArgs)];
      if packageOutcome.Raised? {
        stages := packaged;
        exitCode := 1;
        assert packaged[0] in stages;
        return;
      }
    }
    var tested: seq<Event> := [];
    var good := true;
    if plan.runTests {
      good := testsGood;
      tested := [TestsRun];
    }
    stages := packaged + tested;
    if plan.doPackage {
      assert packaged[0] in stages;
    }
    exitCode := if good then 0 else 1;
  }

  /** Events of the build phase are neither a package step nor a test run. */
  lemma StageEvents(built: seq<Event>, stages: seq<Event>)
    requires forall e :: e in built ==> BuildPhase(e)
    ensures (exists e :: e in built + stages && e.Packaged?) <==> (exists e :: e in stages && e.Packaged?)
    ensures TestsRun in built + stages <==> TestsRun in stages
  {
  }

  // ---------------------------------------------------------------------------
  // main

  /** One `Submitted` event per job, in job order. */
  function Submissions(jobs: seq<Job>): (es: seq<Event>)
    ensures |es| == |jobs| && forall i :: 0 <= i < |jobs| ==> es[i] == Submitted(jobs[i].0)
  {
    seq(|jobs|, i requires 0 <= i < |jobs| => Submitted(jobs[i].0))
  }

  /** The `Submitted` events of the `add_task` loop: one per selected table entry,
      in table order. */
  method SubmitAll(table: seq<Job>, modules: set<string>) returns (events: seq<Event>)
    ensures events == Submissions(Selected(table, modules))
    ensures forall e :: e in events ==> e.Submitted? && e.name in modules
  {
    var jobs := SubmitJobs(table, modules);
    events := Submissions(jobs);
    forall e | e in events ensures e.Submitted? && e.name in modules {
      var i :| 0 <= i < |events| && events[i] == e;
      assert jobs[i] in jobs;
    }
  }

  /** The events of the build phase: one submission per selected table entry, in
      table order, then the events of the result loop over the delivered results. */
  function BuildEvents(table: seq<Job>, modules: set<string>, outcome: string -> BuildOutcome,
                       delivery: seq<string>, logDir: string): seq<Event> {
    Submissions(Selected(table, modules)) + LoopTrace(Deliver(delivery, outcome, logDir))
  }

  /** The `with build_timer:` block: submit the selected jobs in table order, then take
      results until the first failure, and terminate and join the pool in `finally`. It
      exits exactly when some delivered module's build raised. */
  method BuildModules(table: seq<Job>, modules: set<string>, outcome: string -> BuildOutcome,
                      delivery: seq<string>, logDir: string)
    returns (exit: LoopExit, events: seq<Event>)
    ensures exit.Exit? <==> !(forall n :: n in delivery ==> outcome(n).Returned?)
    ensures exit.Exit? ==> exit.code == 1
    ensures forall e :: e in events ==> BuildPhase(e)
    ensures events == BuildEvents(table, modules, outcome, delivery, logDir)
  {
    var submitted := SubmitAll(table, modules);
    var delivered := Deliver(delivery, outcome, logDir);
    DeliverAllOk(delivery, outcome, logDir);
    var consumed, loopEvents;
    exit, consumed, loopEvents := CollectResults(delivered);
    events := submitted + loopEvents;
  }

  /** `main` from the module selection to `sys.exit`. `cleanupOutcome` is how the
      `check_call` of `dev-cleanup.sh` ends, `outcome` how each module's build function
      ends, `delivery` the order in which the pool returns the submitted jobs' results
      (each submitted module once), `packageOutcome` how the `check_call` of
      `package.py` ends, and `testsGood` what `test_ndk` returns if it runs. An
      exception from a `check_call` is not caught and ends the process with status 1. */
  method CheckBuild(args: Args, outDir: string, distDir: string, cleanupOutcome: BuildOutcome,
                    outcome: string -> BuildOutcome, delivery: seq<string>,
                    packageOutcome: BuildOutcome, testsGood: bool)
    returns (exitCode: int, events: seq<Event>)
    requires Distinct(delivery)
    requires forall n :: n in delivery <==> n in SelectModules(args.moduleName, args.hostOnly) && n in ALL_MODULES
    ensures exitCode == 0 || exitCode == 1
    ensures events != [] && events[0] == Cleanup
    ensures cleanupOutcome.Raised? ==> exitCode == 1 && events == [Cleanup]
    ensures cleanupOutcome.Returned? ==>
      var built := BuildEvents(MODULE_BUILDS, MakePlan(args).modules, outcome, delivery, PathJoin(distDir, "logs"));
      |events| >= 1 + |built| && events[..1 + |built|] == [Cleanup] + built &&
      ((forall n :: n in delivery ==> outcome(n).Returned?) ==>
         StageTrace(events[1 + |built|..], MakePlan(args), packageOutcome.Returned?, PackageRequestOf(args, distDir))) &&
      (!(forall n :: n in delivery ==> outcome(n).Returned?) ==> |events| == 1 + |built|)
    ensures exitCode == 0 <==>
      cleanupOutcome.Returned? && (forall n :: n in delivery ==> outcome(n).Returned?) &&
      (MakePlan(args).doPackage ==> packageOutcome.Returned?) && (MakePlan(args).runTests ==> testsGood)
    ensures (exists e :: e in events && e.Packaged?) <==>
      cleanupOutcome.Returned? && (forall n :: n in delivery ==> outcome(n).Returned?) && MakePlan(args).doPackage
    ensures TestsRun in events <==>
      cleanupOutcome.Returned? && (forall n :: n in delivery ==> outcome(n).Returned?) &&
      MakePlan(args).runTests && packageOutcome.Returned?
  {
    var plan := MakePlan(args);
    var logDir := PathJoin(distDir, "logs");

    events := [Cleanup];
    if cleanupOutcome.Raised? {
      exitCode := 1;
      return;
    }
    var exit, built := BuildModules(MODULE_BUILDS, plan.modules, outcome, delivery, logDir);
    events := events + built;
    assert forall e :: e in events ==> BuildPhase(e);
    if exit.Exit? {
      exitCode := exit.code;
      assert !exists e :: e in events && e.Packaged?;
      assert TestsRun !in events;
      return;
    }
    ghost var before := events;
    var stages;
    exitCode, stages := RunStages(args, plan, outDir, distDir, packageOutcome, testsGood);
    events := events + stages;
    assert events[..|before|] == before;
    assert events[|before|..] == stages;
    StageEvents(before, stages);
  }
}
