/** The failure report of `checkbuild.py`'s host tests: `group_by_test` gathers the
    failed results of every ABI and suite under `<suite>.<test name>`, and
    `make_test_report` renders one block per group. */
module TestReport {
  import opened Text
  import opened SeqUtil

  /** One test result as the test runner reports it: its name, whether `failed()`
      holds, and whatever else `to_string` renders. */
  datatype TestResult = TestResult(testName: string, failed: bool, detail: string)

  /** The results of one suite, and the suites run for one ABI. A Python dict is
      iterated in an order the program does not choose; each sequence is that order. */
  datatype SuiteResults = SuiteResults(suite: string, results: seq<TestResult>)
  datatype AbiResults = AbiResults(abi: string, suites: seq<SuiteResults>)
  type Details = seq<AbiResults>

  /** One result together with the ABI and suite it was found under. */
  datatype Entry = Entry(abi: string, suite: string, test: TestResult)

  /** A `(abi, result)` pair as stored in the grouped dict. */
  type Failure = (string, TestResult)
  type Grouped = map<string, seq<Failure>>

  /** The key a failed result is grouped under: `'.'.join([suite, test.test_name])`. */
  function TestKey(e: Entry): string {
    e.suite + "." + e.test.testName
  }

  // ---------------------------------------------------------------------------
  // Every result, in the order the three nested loops visit them.

  function SuiteEntries(abi: string, suite: string, rs: seq<TestResult>): (es: seq<Entry>)
    ensures |es| == |rs|
  {
    if rs == [] then []
    else SuiteEntries(abi, suite, rs[..|rs| - 1]) + [Entry(abi, suite, rs[|rs| - 1])]
  }

  function AbiEntries(abi: string, ss: seq<SuiteResults>): seq<Entry> {
    if ss == [] then []
    else AbiEntries(abi, ss[..|ss| - 1]) + SuiteEntries(abi, ss[|ss| - 1].suite, ss[|ss| - 1].results)
  }

  function AllEntries(details: Details): seq<Entry> {
    if details == [] then []
    else AllEntries(details[..|details| - 1]) + AbiEntries(details[|details| - 1].abi, details[|details| - 1].suites)
  }

  /** How many of the entries are failed results. */
  function CountFailed(es: seq<Entry>): nat {
    if es == [] then 0
    else CountFailed(es[..|es| - 1]) + (if es[|es| - 1].test.failed then 1 else 0)
  }

  // ---------------------------------------------------------------------------
  // The dict that group_by_test builds, one visited result at a time.

  /** The step of the innermost loop body: a failed result is appended to the list
      of its key, which is created empty on first use; a passing one is ignored. */
  function AddResult(byTest: Grouped, e: Entry): (r: Grouped)
    ensures !e.test.failed ==> r == byTest
    ensures e.test.failed ==> r.Keys == byTest.Keys + {TestKey(e)}
    ensures e.test.failed ==> |r[TestKey(e)]| >= 1 && r[TestKey(e)][|r[TestKey(e)]| - 1] == (e.abi, e.test)
    ensures e.test.failed ==>
      r[TestKey(e)][..|r[TestKey(e)]| - 1] == (if TestKey(e) in byTest then byTest[TestKey(e)] else [])
    ensures forall k :: k in byTest && (k != TestKey(e) || !e.test.failed) ==> r[k] == byTest[k]
  {
    if e.test.failed then
      var name := TestKey(e);
      var old_list := if name in byTest then byTest[name] else [];
      byTest[name := old_list + [(e.abi, e.test)]]
    else byTest
  }

  /** The dict after visiting `es` from an empty one. */
  function Group(es: seq<Entry>): (g: Grouped)
    ensures forall k :: k in g ==> g[k] != [] && forall p :: p in g[k] ==> p.1.failed
  {
    if es == [] then map[] else AddResult(Group(es[..|es| - 1]), es[|es| - 1])
  }

  /** The failed results of `es` under key `name`, in visiting order. */
  function FailuresNamed(es: seq<Entry>, name: string): seq<Failure> {
    if es == [] then []
    else
      var e := es[|es| - 1];
      FailuresNamed(es[..|es| - 1], name) + (if e.test.failed && TestKey(e) == name then [(e.abi, e.test)] else [])
  }

  lemma {:induction false} GroupKeys(es: seq<Entry>)
    ensures forall name :: name in Group(es) <==> exists e :: e in es && e.test.failed && TestKey(e) == name
  {
    if es != [] {
      var init := es[..|es| - 1];
      GroupKeys(init);
      forall name ensures name in Group(es) <==> exists e :: e in es && e.test.failed && TestKey(e) == name {
        if name in Group(init) {
          var e :| e in init && e.test.failed && TestKey(e) == name;
          assert e in es;
        }
        if e :| e in es && e.test.failed && TestKey(e) == name {
          if e != es[|es| - 1] {
            assert e in init by {
              var i :| 0 <= i < |es| && es[i] == e;
              assert i < |es| - 1;
              assert init[i] == e;
            }
          }
        }
      }
    }
  }

  lemma {:induction false} GroupAt(es: seq<Entry>, name: string)
    requires name in Group(es)
    ensures Group(es)[name] == FailuresNamed(es, name)
  {
    var init := es[..|es| - 1];
    if name in Group(init) {
      GroupAt(init, name);
    } else {
      assert FailuresNamed(init, name) == [] by { EmptyWhenAbsent(init, name); }
    }
  }

  lemma {:induction false} EmptyWhenAbsent(es: seq<Entry>, name: string)
    requires name !in Group(es)
    ensures FailuresNamed(es, name) == []
  {
    if es != [] {
      var init := es[..|es| - 1];
      EmptyWhenAbsent(init, name);
    }
  }

  /** Every pair stored under a key is a failed result that was visited under that key. */
  lemma {:induction false} FailuresNamedSound(es: seq<Entry>, name: string)
    ensures forall p :: p in FailuresNamed(es, name) ==>
      p.1.failed && exists suite :: Entry(p.0, suite, p.1) in es && suite + "." + p.1.testName == name
  {
    if es != [] {
      var init := es[..|es| - 1];
      FailuresNamedSound(init, name);
      forall p | p in FailuresNamed(es, name)
        ensures p.1.failed && exists suite :: Entry(p.0, suite, p.1) in es && suite + "." + p.1.testName == name
      {
        if p in FailuresNamed(init, name) {
          var suite :| Entry(p.0, suite, p.1) in init && suite + "." + p.1.testName == name;
          assert Entry(p.0, suite, p.1) in es;
        } else {
          assert Entry(p.0, es[|es| - 1].suite, p.1) == es[|es| - 1];
        }
      }
    }
  }

  // ---------------------------------------------------------------------------
  // The total number of stored pairs.

  /** Some key of a non-empty dict. */
  ghost function Pick(m: Grouped): (k: string)
    requires m != map[]
    ensures k in m
  {
    var k :| k in m; k
  }

  /** The sum of the list lengths of a grouped dict, in no particular key order. */
  ghost function SumSizes(m: Grouped): nat
    decreases |m|
  {
    if m == map[] then 0
    else
      var k := Pick(m);
      assert |m - {k}| == |m| - 1 by { assert (m - {k}).Keys == m.Keys - {k}; }
      |m[k]| + SumSizes(m - {k})
  }

  /** The sum does not depend on which key is taken first. */
  lemma {:induction false} SumSizesRemove(m: Grouped, k: string)
    requires k in m
    ensures SumSizes(m) == |m[k]| + SumSizes(m - {k})
    decreases |m|
  {
    var k' := Pick(m);
    if k' != k {
      var m1 := m - {k'};
      var m2 := m - {k};
      assert |m1| == |m| - 1 by { assert m1.Keys == m.Keys - {k'}; }
      assert |m2| == |m| - 1 by { assert m2.Keys == m.Keys - {k}; }
      SumSizesRemove(m1, k);
      SumSizesRemove(m2, k');
      assert m1 - {k} == m2 - {k'};
    }
  }

  lemma SumSizesUpdate(m: Grouped, k: string, v: seq<Failure>)
    ensures SumSizes(m[k := v]) == SumSizes(m) - (if k in m then |m[k]| else 0) + |v|
  {
    SumSizesRemove(m[k := v], k);
    assert m[k := v] - {k} == m - {k};
    if k in m {
      SumSizesRemove(m, k);
    } else {
      assert m - {k} == m;
    }
  }

  /** The dict holds exactly as many pairs as there were failed results. */
  lemma {:induction false} GroupTotal(es: seq<Entry>)
    ensures SumSizes(Group(es)) == CountFailed(es)
  {
    if es != [] {
      var init := es[..|es| - 1];
      var e := es[|es| - 1];
      GroupTotal(init);
      if e.test.failed {
        var g := Group(init);
        var name := TestKey(e);
        SumSizesUpdate(g, name, (if name in g then g[name] else []) + [(e.abi, e.test)]);
      }
    }
  }

  // ---------------------------------------------------------------------------
  // group_by_test

  lemma GroupSnoc(es: seq<Entry>, e: Entry)
    ensures Group(es + [e]) == AddResult(Group(es), e)
  {
    var s := es + [e];
    assert s[..|s| - 1] == es && s[|s| - 1] == e;
    assert Group(s) == AddResult(Group(s[..|s| - 1]), s[|s| - 1]);
  }

  lemma SuiteStep(prefix: seq<Entry>, abi: string, suite: string, rs: seq<TestResult>, k: nat)
    requires k < |rs|
    ensures prefix + SuiteEntries(abi, suite, rs[..k + 1]) == (prefix + SuiteEntries(abi, suite, rs[..k])) + [Entry(abi, suite, rs[k])]
  {
    assert rs[..k + 1][..k] == rs[..k];
  }

  lemma AbiStep(before: seq<Entry>, abi: string, ss: seq<SuiteResults>, j: nat)
    requires j < |ss|
    ensures before + AbiEntries(abi, ss[..j + 1]) == (before + AbiEntries(abi, ss[..j])) + SuiteEntries(abi, ss[j].suite, ss[j].results)
  {
    assert ss[..j + 1][..j] == ss[..j];
  }

  lemma DetailsStep(details: Details, i: nat)
    requires i < |details|
    ensures AllEntries(details[..i + 1]) == AllEntries(details[..i]) + AbiEntries(details[i].abi, details[i].suites)
  {
    assert details[..i + 1][..i] == details[..i];
  }

  /** What `group_by_test` promises of the dict built from `es`: its keys are exactly
      the keys of the failed results, each key holds exactly that key's failures in
      visiting order, no passing result is stored, and the number of stored pairs is
      the number of failed results. */
  lemma GroupFacts(es: seq<Entry>)
    ensures forall name :: name in Group(es) <==> exists e :: e in es && e.test.failed && TestKey(e) == name
    ensures forall name :: name in Group(es) ==> Group(es)[name] == FailuresNamed(es, name)
    ensures forall name, p :: name in Group(es) && p in Group(es)[name] ==> p.1.failed
    ensures SumSizes(Group(es)) == CountFailed(es)
  {
    GroupKeys(es);
    forall name | name in Group(es)
      ensures Group(es)[name] == FailuresNamed(es, name)
      ensures forall p :: p in Group(es)[name] ==> p.1.failed
    {
      GroupAt(es, name);
      FailuresNamedSound(es, name);
    }
    GroupTotal(es);
  }

  /** The body of the innermost loop: a failed result is appended to the list under
      its key, which is created empty first when missing. */
  method AddFailure(byTest: Grouped, abi: string, suite: string, test: TestResult) returns (grouped: Grouped)
    ensures grouped == AddResult(byTest, Entry(abi, suite, test))
  {
    grouped := byTest;
    if test.failed {
      var name := suite + "." + test.testName;
      if name !in grouped {
        grouped := grouped[name := []];
      }
      grouped := grouped[name := grouped[name] + [(abi, test)]];
    }
  }

  /** The innermost loop of `group_by_test`: the results of one suite of one ABI. */
  method GroupSuite(byTest: Grouped, ghost prefix: seq<Entry>, abi: string, suite: string, testResults: seq<TestResult>)
    returns (grouped: Grouped)
    requires byTest == Group(prefix)
    ensures grouped == Group(prefix + SuiteEntries(abi, suite, testResults))
  {
    grouped := byTest;
    assert testResults[..0] == [] && prefix + [] == prefix;
    for k := 0 to |testResults|
      invariant grouped == Group(prefix + SuiteEntries(abi, suite, testResults[..k]))
    {
      var test := testResults[k];
      SuiteStep(prefix, abi, suite, testResults, k);
      GroupSnoc(prefix + SuiteEntries(abi, suite, testResults[..k]), Entry(abi, suite, test));
      grouped := AddFailure(grouped, abi, suite, test);
    }
    assert testResults[..|testResults|] == testResults;
  }

  /** The middle loop of `group_by_test`: the suites of one ABI. */
  method GroupAbi(byTest: Grouped, ghost before: seq<Entry>, abi: string, suites: seq<SuiteResults>)
    returns (grouped: Grouped)
    requires byTest == Group(before)
    ensures grouped == Group(before + AbiEntries(abi, suites))
  {
    grouped := byTest;
    assert suites[..0] == [] && before + [] == before;
    for j := 0 to |suites|
      invariant grouped == Group(before + AbiEntries(abi, suites[..j]))
    {
      grouped := GroupSuite(grouped, before + AbiEntries(abi, suites[..j]), abi, suites[j].suite, suites[j].results);
      AbiStep(before, abi, suites, j);
    }
    assert suites[..|suites|] == suites;
  }

  /** `group_by_test(details)`: the dict of failures by `<suite>.<test name>`. */
  method GroupByTest(details: Details) returns (byTest: Grouped)
    ensures byTest == Group(AllEntries(details))
  {
    byTest := map[];
    for i := 0 to |details|
      invariant byTest == Group(AllEntries(details[..i]))
    {
      byTest := GroupAbi(byTest, AllEntries(details[..i]), details[i].abi, details[i].suites);
      DetailsStep(details, i);
    }
    assert details[..|details|] == details;
  }

  // ---------------------------------------------------------------------------
  // make_test_report

  /** `'=' * 80`. */
  const Rule: string := "================================================================================"

  /** The two lines written for each `(abi, result)` of a group. */
  function FailureLines(fs: seq<Failure>, useColor: bool, render: (TestResult, bool) -> string): (lines: seq<string>)
    ensures |lines| == 2 * |fs|
  {
    if fs == [] then []
    else
      var (abi, result) := fs[|fs| - 1];
      FailureLines(fs[..|fs| - 1], useColor, render) + ["FAILED " + abi, render(result, useColor)]
  }

  /** The block written for one group: a header, a rule of 80 `=`, the failures. */
  function Block(name: string, fs: seq<Failure>, useColor: bool, render: (TestResult, bool) -> string): seq<string> {
    ["BEGIN TEST RESULT: " + name, Rule] + FailureLines(fs, useColor, render)
  }

  /** The lines of the report when the grouped dict is iterated in `order`. */
  function ReportLines(order: seq<string>, g: Grouped, useColor: bool, render: (TestResult, bool) -> string): (lines: seq<string>)
    requires forall k :: k in order ==> k in g
    ensures |lines| >= 2 * |order|
    ensures forall i :: 0 <= i < |order| ==> "BEGIN TEST RESULT: " + order[i] in lines
  {
    if order == [] then []
    else
      var name := order[|order| - 1];
      ReportLines(order[..|order| - 1], g, useColor, render) + Block(name, g[name], useColor, render)
  }

  /** `order` lists every key of `g` exactly once: an iteration order of the dict. */
  ghost predicate Enumerates(order: seq<string>, g: Grouped) {
    Distinct(order) && forall k :: k in order <==> k in g
  }

  /** The report depends only on the groups it lists. */
  lemma {:induction false} ReportLinesFrame(order: seq<string>, g: Grouped, g': Grouped, useColor: bool, render: (TestResult, bool) -> string)
    requires forall k :: k in order ==> k in g && k in g' && g[k] == g'[k]
    ensures ReportLines(order, g, useColor, render) == ReportLines(order, g', useColor, render)
  {
    if order != [] {
      ReportLinesFrame(order[..|order| - 1], g, g', useColor, render);
    }
  }

  /** Whatever the iteration order, the report has a header and a rule for each group
      and two lines for each stored failure. */
  lemma {:induction false} ReportLineCount(order: seq<string>, g: Grouped, useColor: bool, render: (TestResult, bool) -> string)
    requires Enumerates(order, g)
    ensures |ReportLines(order, g, useColor, render)| == 2 * |g| + 2 * SumSizes(g)
    decreases |order|
  {
    if order == [] {
    } else {
      var init := order[..|order| - 1];
      var name := order[|order| - 1];
      var g' := g - {name};
      assert name in g;
      forall k ensures k in init <==> k in g' {
        if k in init {
          var i :| 0 <= i < |init| && init[i] == k;
          assert order[i] == k && order[|order| - 1] == name;
        }
        if k in g' {
          assert k in order && k != name;
          var i :| 0 <= i < |order| && order[i] == k;
          assert init[i] == k;
        }
      }
      ReportLinesFrame(init, g, g', useColor, render);
      ReportLineCount(init, g', useColor, render);
      SumSizesRemove(g, name);
      assert |g'| == |g| - 1 by { assert g'.Keys == g.Keys - {name}; }
    }
  }

  /** A report that lists at least one group starts with that group's header. */
  lemma {:induction false} ReportLinesHead(order: seq<string>, g: Grouped, useColor: bool, render: (TestResult, bool) -> string)
    requires forall k :: k in order ==> k in g
    requires order != []
    ensures |ReportLines(order, g, useColor, render)| >= 2
    ensures ReportLines(order, g, useColor, render)[0] == "BEGIN TEST RESULT: " + order[0]
  {
    var init := order[..|order| - 1];
    if init != [] {
      ReportLinesHead(init, g, useColor, render);
    }
  }

  /** The report is empty exactly when there is no group to report. */
  lemma ReportEmpty(order: seq<string>, g: Grouped, useColor: bool, render: (TestResult, bool) -> string, lineSep: string)
    requires Enumerates(order, g)
    ensures Join(ReportLines(order, g, useColor, render), lineSep) == "" <==> g == map[]
  {
    if order != [] {
      assert order[0] in order;
    }
    if g != map[] {
      var k :| k in g;
      assert k in order;
      ReportLinesHead(order, g, useColor, render);
    }
  }

  lemma FailureLinesStep(fs: seq<Failure>, t: nat, useColor: bool, render: (TestResult, bool) -> string)
    requires t < |fs|
    ensures FailureLines(fs[..t + 1], useColor, render)
            == FailureLines(fs[..t], useColor, render) + ["FAILED " + fs[t].0, render(fs[t].1, useColor)]
  {
    assert fs[..t + 1][..t] == fs[..t];
  }

  lemma ReportLinesStep(order: seq<string>, name: string, g: Grouped, useColor: bool, render: (TestResult, bool) -> string)
    requires forall k :: k in order ==> k in g
    requires name in g
    ensures ReportLines(order + [name], g, useColor, render)
            == ReportLines(order, g, useColor, render) + Block(name, g[name], useColor, render)
  {
    assert (order + [name])[..|order|] == order;
  }

  /** The inner loop of `make_test_report`: two lines appended per `(abi, result)`. */
  method AppendFailureLines(lines: seq<string>, testFailures: seq<Failure>, useColor: bool, render: (TestResult, bool) -> string)
    returns (extended: seq<string>)
    ensures extended == lines + FailureLines(testFailures, useColor, render)
  {
    extended := lines;
    for t := 0 to |testFailures|
      invariant extended == lines + FailureLines(testFailures[..t], useColor, render)
    {
      var (abi, result) := testFailures[t];
      FailureLinesStep(testFailures, t, useColor, render);
      extended := extended + ["FAILED " + abi, render(result, useColor)];
    }
    assert testFailures[..|testFailures|] == testFailures;
  }

  /** One pass of the outer loop of `make_test_report`: a group's header, rule and
      failure lines. */
  method AppendBlock(lines: seq<string>, testName: string, testFailures: seq<Failure>, useColor: bool,
                     render: (TestResult, bool) -> string)
    returns (extended: seq<string>)
    ensures extended == lines + Block(testName, testFailures, useColor, render)
  {
    extended := lines + ["BEGIN TEST RESULT: " + testName, Rule];
    extended := AppendFailureLines(extended, testFailures, useColor, render);
  }

  lemma NotYetListed(order: seq<string>, name: string)
    requires Distinct(order) && name !in order
    ensures Distinct(order + [name])
  {
  }

  /** `make_test_report(details, use_color)`: the failure report, its lines joined with
      the platform's line separator. `render` is `result.to_string(colored=...)`; the
      ghost `order` is the order in which the grouped dict happened to be iterated. */
  method MakeTestReport(details: Details, useColor: bool, render: (TestResult, bool) -> string, lineSep: string)
    returns (report: string, ghost order: seq<string>)
    ensures Enumerates(order, Group(AllEntries(details)))
    ensures report == Join(ReportLines(order, Group(AllEntries(details)), useColor, render), lineSep)
    ensures |ReportLines(order, Group(AllEntries(details)), useColor, render)|
            == 2 * |Group(AllEntries(details))| + 2 * CountFailed(AllEntries(details))
    ensures report == "" <==> forall e :: e in AllEntries(details) ==> !e.test.failed
  {
    var groupedDetails := GroupByTest(details);
    var lines: seq<string> := [];
    var remaining := groupedDetails.Keys;
    order := [];
    while remaining != {}
      invariant remaining <= groupedDetails.Keys
      invariant Distinct(order)
      invariant forall k :: k in order ==> k in groupedDetails && k !in remaining
      invariant forall k :: k in groupedDetails ==> k in order || k in remaining
      invariant lines == ReportLines(order, groupedDetails, useColor, render)
      decreases remaining
    {
      var testName :| testName in remaining;
      var testFailures := groupedDetails[testName];
      lines := AppendBlock(lines, testName, testFailures, useColor, render);
      ReportLinesStep(order, testName, groupedDetails, useColor, render);
      NotYetListed(order, testName);
      order := order + [testName];
      remaining := remaining - {testName};
    }
    report := Join(lines, lineSep);
    ReportLineCount(order, groupedDetails, useColor, render);
    GroupTotal(AllEntries(details));
    ReportEmpty(order, groupedDetails, useColor, render, lineSep);
    GroupKeys(AllEntries(details));
    if exists e :: e in AllEntries(details) && e.test.failed {
      var e :| e in AllEntries(details) && e.test.failed;
      assert TestKey(e) in groupedDetails;
    }
  }
}
