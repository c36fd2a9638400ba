/**
 * `InfluenceMapper` of codemon/codemon.py: it builds the influence map by running each
 * test under coverage and recording the lines it executed, and it runs the tests a change
 * affects.
 *
 * The subclass hooks have no behaviour of their own: `index_tests` becomes the list it
 * returns, `run_coverage` (coverage.py around `map_test`) becomes an input function from
 * a test name to its coverage data, and `setup`, `cleanup` and the writing of the file
 * appear only as steps in the trace `Run` returns.
 */
module Mapping {
  import opened Wrappers
  import opened LineMaps
  import opened Configuration
  import Codec
  import opened DataStructures

  /**
   * One entry of `coverage_data.line_counts(fullpath=True)`: the file, its count of
   * executed lines, and `coverage_data.lines(filename)`.
   */
  datatype FileCoverage = FileCoverage(filename: string, count: nat, lines: seq<int>)

  /** The coverage data of one test, its files in the order `items()` gives them. */
  type CoverageData = seq<FileCoverage>

  /** The hooks and the file write of `run`, in the order they happen. */
  datatype Step = Setup | IndexTests | MapTests | Cleanup | WriteToFile

  // ---- Specification functions ----

  /** The tests `filter_omitted_tests` keeps: those not omitted, in their order. */
  function Kept(c: Config, tests: seq<string>): (r: seq<string>)
    ensures |r| <= |tests|
    decreases |tests|
  {
    if tests == [] then []
    else (if IsOmittedTest(c, tests[0]) then [] else [tests[0]]) + Kept(c, tests[1..])
  }

  /**
   * The loop body of `record_affected_files` for one file: a file with no executed line is
   * touched, then `source_map[f] = (test, lines)`.
   */
  function RecordFile(s: Snapshot, e: FileCoverage, test: string): (Snapshot, Outcome) {
    if e.count == 0 then
      match Touch(s, e.filename)
      case Failure(err) => (s, Fail(err))
      case Success(s1) => SetItem(s1, e.filename, test, e.lines)
    else SetItem(s, e.filename, test, e.lines)
  }

  /** `record_affected_files(coverage, test)`: each file in turn; an exception ends it. */
  function Record(s: Snapshot, cov: CoverageData, test: string): (Snapshot, Outcome)
    decreases |cov|
  {
    if cov == [] then (s, Pass)
    else
      var (s1, out) := RecordFile(s, cov[0], test);
      if out.Fail? then (s1, out) else Record(s1, cov[1..], test)
  }

  /** `match_tests_to_source(tests)`: the left fold of `record_affected_files` over the tests. */
  function MatchAll(s: Snapshot, tests: seq<string>, probe: string -> CoverageData): (Snapshot, Outcome)
    decreases |tests|
  {
    if tests == [] then (s, Pass)
    else
      var (s1, out) := Record(s, probe(tests[0]), tests[0]);
      if out.Fail? then (s1, out) else MatchAll(s1, tests[1..], probe)
  }

  // ---- Filtering ----

  /** `filter_omitted_tests` keeps exactly the tests that are not omitted, each as often as given. */
  lemma {:induction false} KeptSpec(c: Config, tests: seq<string>)
    ensures forall t :: t in Kept(c, tests) <==> t in tests && !IsOmittedTest(c, t)
    ensures forall t :: multiset(Kept(c, tests))[t] == if IsOmittedTest(c, t) then 0 else multiset(tests)[t]
    decreases |tests|
  {
    if tests != [] {
      KeptSpec(c, tests[1..]);
      assert tests == [tests[0]] + tests[1..];
      assert forall t :: t in tests <==> t == tests[0] || t in tests[1..];
    }
  }

  /** The tests kept in order: keeping distributes over concatenation. */
  lemma {:induction false} KeptConcat(c: Config, a: seq<string>, b: seq<string>)
    ensures Kept(c, a + b) == Kept(c, a) + Kept(c, b)
    decreases |a|
  {
    if a == [] {
      assert a + b == b;
    } else {
      assert (a + b)[0] == a[0] && (a + b)[1..] == a[1..] + b;
      KeptConcat(c, a[1..], b);
    }
  }

  /** With no omit-test patterns every test is kept. */
  lemma {:induction false} KeptAllByDefault(omit: Option<seq<string>>, source: Option<Source>, tests: seq<string>)
    ensures Kept(NewConfig(omit, source, None), tests) == tests
    decreases |tests|
  {
    if tests != [] {
      NothingOmittedByDefault(omit, source, tests[0]);
      KeptAllByDefault(omit, source, tests[1..]);
      assert tests == [tests[0]] + tests[1..];
    }
  }

  // ---- What recording adds ----

  /** The files of a coverage report. */
  ghost function CovFiles(cov: CoverageData): set<string> {
    set i | 0 <= i < |cov| :: cov[i].filename
  }

  /** The (file, line) pairs a coverage report says were executed. */
  ghost function CovKeys(cov: CoverageData): set<(string, int)> {
    set i, n | 0 <= i < |cov| && n in cov[i].lines :: (cov[i].filename, n)
  }

  /** Each pair with the test that executed it. */
  ghost function Tagged(keys: set<(string, int)>, test: string): set<(string, int, string)> {
    set p | p in keys :: (p.0, p.1, test)
  }

  /** The files every test of `tests` covers. */
  ghost function RunFiles(tests: seq<string>, probe: string -> CoverageData): set<string>
    decreases |tests|
  {
    if tests == [] then {} else CovFiles(probe(tests[0])) + RunFiles(tests[1..], probe)
  }

  ghost function RunKeys(tests: seq<string>, probe: string -> CoverageData): set<(string, int)>
    decreases |tests|
  {
    if tests == [] then {} else CovKeys(probe(tests[0])) + RunKeys(tests[1..], probe)
  }

  ghost function RunHits(tests: seq<string>, probe: string -> CoverageData): set<(string, int, string)>
    decreases |tests|
  {
    if tests == [] then {}
    else Tagged(CovKeys(probe(tests[0])), tests[0]) + RunHits(tests[1..], probe)
  }

  /**
   * `s'` is `s` with the files `files` made present (as defaultdicts), the (file, line)
   * pairs `keys` made present, and the (file, line, test) triples `hits` recorded; every
   * other file as it was.
   */
  ghost predicate Extends(s: Snapshot, s': Snapshot, files: set<string>,
                          keys: set<(string, int)>, hits: set<(string, int, string)>)
  {
    && WellFormed(s')
    && (forall p :: p in keys ==> p.0 in files)
    && (forall q :: q in hits ==> (q.0, q.1) in keys)
    && (forall f :: f in s'.files <==> f in s.files || f in files)
    && (forall f :: f in s.files && f !in files ==> s'.files[f] == s.files[f])
    && (forall f :: f in files && f in s'.files ==> s'.files[f].defaulting)
    && (forall f, n :: f in s'.files ==> (n in s'.files[f].lines <==> n in LinesOf(s, f) || (f, n) in keys))
    && (forall f, n, t :: f in s'.files && n in s'.files[f].lines ==>
         (t in s'.files[f].lines[n] <==> (n in LinesOf(s, f) && t in LinesOf(s, f)[n]) || (f, n, t) in hits))
  }

  /** The files of `cov` that are already present are defaultdicts, so `add` cannot raise. */
  ghost predicate Ready(s: Snapshot, cov: CoverageData) {
    forall i :: 0 <= i < |cov| && cov[i].filename in s.files ==> s.files[cov[i].filename].defaulting
  }

  /** No file of `cov` has the empty (falsy) name. */
  predicate Named(cov: CoverageData) {
    forall i :: 0 <= i < |cov| ==> cov[i].filename != ""
  }

  lemma ExtendsRefl(s: Snapshot)
    requires WellFormed(s)
    ensures Extends(s, s, {}, {}, {})
  { }

  /** Two extensions in a row are one. */
  lemma ExtendsCompose(s0: Snapshot, s1: Snapshot, s2: Snapshot,
                       f1: set<string>, k1: set<(string, int)>, h1: set<(string, int, string)>,
                       f2: set<string>, k2: set<(string, int)>, h2: set<(string, int, string)>)
    requires WellFormed(s0) && Extends(s0, s1, f1, k1, h1) && Extends(s1, s2, f2, k2, h2)
    ensures Extends(s0, s2, f1 + f2, k1 + k2, h1 + h2)
  {
    forall f, n | f in s2.files
      ensures n in s2.files[f].lines <==> n in LinesOf(s0, f) || (f, n) in k1 + k2
    {
      if f !in s1.files {
        assert f !in s0.files;
        assert (f, n) !in k1;
      }
    }
    forall f, n, t | f in s2.files && n in s2.files[f].lines
      ensures t in s2.files[f].lines[n] <==>
        (n in LinesOf(s0, f) && t in LinesOf(s0, f)[n]) || (f, n, t) in h1 + h2
    {
      if f !in s1.files || n !in s1.files[f].lines {
        assert n !in LinesOf(s0, f) && (f, n) !in k1;
        assert (f, n, t) !in h1;
      }
    }
  }

  /** The (file, line) pairs of line numbers `nums` of file `f`. */
  ghost function LineKeys(f: string, nums: seq<int>): set<(string, int)> {
    set n | n in nums :: (f, n)
  }

  /** The keys one coverage entry contributes. */
  ghost function EntryKeys(e: FileCoverage): set<(string, int)> {
    LineKeys(e.filename, e.lines)
  }

  /** `map[f] = (test, nums)` on a usable file extends the map by exactly those lines. */
  lemma SetItemExtends(s: Snapshot, f: string, test: string, nums: seq<int>)
    requires WellFormed(s) && f != ""
    requires f in s.files ==> s.files[f].defaulting
    ensures SetItem(s, f, test, nums).1 == Pass
    ensures Extends(s, SetItem(s, f, test, nums).0, {f}, LineKeys(f, nums), Tagged(LineKeys(f, nums), test))
  {
    SetItemSpec(s, f, test, nums);
    AddLinesSpec(LinesOf(s, f), nums, test);
    var s' := SetItem(s, f, test, nums).0;
    var keys := LineKeys(f, nums);
    var hits := Tagged(keys, test);
    forall g, n | g in s'.files ensures n in s'.files[g].lines <==> n in LinesOf(s, g) || (g, n) in keys {
      if g == f {
        assert (g, n) in keys <==> n in nums;
      } else {
        assert (g, n) !in keys;
      }
    }
    forall g, n, t | g in s'.files && n in s'.files[g].lines
      ensures t in s'.files[g].lines[n] <==> (n in LinesOf(s, g) && t in LinesOf(s, g)[n]) || (g, n, t) in hits
    {
      if g == f {
        assert (g, n, t) in hits <==> n in nums && t == test;
      } else {
        assert (g, n) !in keys;
        assert (g, n, t) !in hits;
      }
    }
  }

  /** An extension of a map that only added empty files to `s` within `files` extends `s` too. */
  lemma ExtendsShift(s: Snapshot, s0: Snapshot, s': Snapshot, files: set<string>,
                     keys: set<(string, int)>, hits: set<(string, int, string)>)
    requires Extends(s0, s', files, keys, hits)
    requires forall g :: g in s0.files ==> g in s.files || g in files
    requires forall g :: g in s.files ==> g in s0.files && (g !in files ==> s0.files[g] == s.files[g])
    requires forall g :: LinesOf(s0, g) == LinesOf(s, g)
    ensures Extends(s, s', files, keys, hits)
  { }

  /** `touch(f)` on an absent file and then `map[f] = (test, nums)`: the same extension. */
  lemma TouchSetItemExtends(s: Snapshot, f: string, test: string, nums: seq<int>)
    requires WellFormed(s) && f != "" && f !in s.files
    ensures Touch(s, f).Success?
    ensures var s0 := Touch(s, f).value;
      && SetItem(s0, f, test, nums).1 == Pass
      && Extends(s, SetItem(s0, f, test, nums).0, {f}, LineKeys(f, nums), Tagged(LineKeys(f, nums), test))
  {
    var s0 := Touch(s, f).value;
    assert s0 == Snapshot(s.order + [f], s.files[f := NewFileMap(f)]);
    Ordering.NoDupAppend(s.order, f);
    assert WellFormed(s0);
    SetItemExtends(s0, f, test, nums);
    assert forall g :: LinesOf(s0, g) == LinesOf(s, g);
    ExtendsShift(s, s0, SetItem(s0, f, test, nums).0, {f}, LineKeys(f, nums), Tagged(LineKeys(f, nums), test));
  }

  /** Recording one file with a usable name extends the map by exactly that file's lines. */
  lemma RecordFileExtends(s: Snapshot, e: FileCoverage, test: string)
    requires WellFormed(s) && e.filename != ""
    requires e.filename in s.files ==> s.files[e.filename].defaulting
    ensures RecordFile(s, e, test).1 == Pass
    ensures Extends(s, RecordFile(s, e, test).0, {e.filename}, EntryKeys(e), Tagged(EntryKeys(e), test))
  {
    if e.count == 0 && e.filename !in s.files {
      TouchSetItemExtends(s, e.filename, test, e.lines);
    } else {
      SetItemExtends(s, e.filename, test, e.lines);
    }
  }

  lemma CovSplit(cov: CoverageData, test: string)
    requires cov != []
    ensures CovFiles(cov) == {cov[0].filename} + CovFiles(cov[1..])
    ensures CovKeys(cov) == EntryKeys(cov[0]) + CovKeys(cov[1..])
    ensures Tagged(CovKeys(cov), test) == Tagged(EntryKeys(cov[0]), test) + Tagged(CovKeys(cov[1..]), test)
  {
    assert forall i :: 0 < i < |cov| ==> cov[i] == cov[1..][i - 1];
    forall p | p in CovKeys(cov) ensures p in EntryKeys(cov[0]) + CovKeys(cov[1..]) {
      var i, n :| 0 <= i < |cov| && n in cov[i].lines && p == (cov[i].filename, n);
      if i > 0 { assert cov[1..][i - 1] == cov[i]; }
    }
    forall p | p in CovKeys(cov[1..]) ensures p in CovKeys(cov) {
      var i, n :| 0 <= i < |cov[1..]| && n in cov[1..][i].lines && p == (cov[1..][i].filename, n);
      assert cov[1..][i] == cov[i + 1];
    }
  }

  /**
   * `record_affected_files(cov, test)` on a map where `cov`'s present files are
   * defaultdicts and no file name is empty: it succeeds, every file of `cov` ends up
   * present, each of its executed lines gains `test`, and nothing else changes.
   */
  lemma {:induction false} RecordExtends(s: Snapshot, cov: CoverageData, test: string)
    requires WellFormed(s) && Named(cov) && Ready(s, cov)
    ensures Record(s, cov, test).1 == Pass
    ensures Extends(s, Record(s, cov, test).0, CovFiles(cov), CovKeys(cov), Tagged(CovKeys(cov), test))
    decreases |cov|
  {
    if cov == [] {
      assert CovFiles(cov) == {} && CovKeys(cov) == {} && Tagged(CovKeys(cov), test) == {};
      ExtendsRefl(s);
    } else {
      var e := cov[0];
      RecordFileExtends(s, e, test);
      var s1 := RecordFile(s, e, test).0;
      assert Named(cov[1..]) by {
        forall i | 0 <= i < |cov[1..]| ensures cov[1..][i].filename != "" { assert cov[1..][i] == cov[i + 1]; }
      }
      assert Ready(s1, cov[1..]) by {
        forall i | 0 <= i < |cov[1..]| && cov[1..][i].filename in s1.files
          ensures s1.files[cov[1..][i].filename].defaulting
        {
          assert cov[1..][i] == cov[i + 1];
        }
      }
      RecordExtends(s1, cov[1..], test);
      ExtendsCompose(s, s1, Record(s1, cov[1..], test).0,
        {e.filename}, EntryKeys(e), Tagged(EntryKeys(e), test),
        CovFiles(cov[1..]), CovKeys(cov[1..]), Tagged(CovKeys(cov[1..]), test));
      CovSplit(cov, test);
    }
  }

  /** The loop of `record_affected_files` one file at a time. */
  lemma RecordStep(s: Snapshot, cov: CoverageData, test: string)
    requires cov != []
    ensures var (s1, out) := RecordFile(s, cov[0], test);
      Record(s, cov, test) == if out.Fail? then (s1, out) else Record(s1, cov[1..], test)
  { }

  /** The loop of `match_tests_to_source` one test at a time. */
  lemma MatchAllStep(s: Snapshot, tests: seq<string>, probe: string -> CoverageData)
    requires tests != []
    ensures var (s1, out) := Record(s, probe(tests[0]), tests[0]);
      MatchAll(s, tests, probe) == if out.Fail? then (s1, out) else MatchAll(s1, tests[1..], probe)
  { }

  /** Every coverage report of the tests is usable on `s`. */
  ghost predicate AllReady(s: Snapshot, tests: seq<string>, probe: string -> CoverageData) {
    forall k :: 0 <= k < |tests| ==> Named(probe(tests[k])) && Ready(s, probe(tests[k]))
  }

  /**
   * `match_tests_to_source(tests)` when every report is usable: it succeeds, and the map
   * gains exactly each test's covered files, lines and the test on those lines.
   */
  lemma {:induction false} MatchAllExtends(s: Snapshot, tests: seq<string>, probe: string -> CoverageData)
    requires WellFormed(s) && AllReady(s, tests, probe)
    ensures MatchAll(s, tests, probe).1 == Pass
    ensures Extends(s, MatchAll(s, tests, probe).0, RunFiles(tests, probe), RunKeys(tests, probe),
                    RunHits(tests, probe))
    decreases |tests|
  {
    if tests == [] {
      ExtendsRefl(s);
    } else {
      var t := tests[0];
      assert Named(probe(t)) && Ready(s, probe(t));
      RecordExtends(s, probe(t), t);
      var s1 := Record(s, probe(t), t).0;
      assert AllReady(s1, tests[1..], probe) by {
        forall k | 0 <= k < |tests[1..]| ensures Named(probe(tests[1..][k])) && Ready(s1, probe(tests[1..][k])) {
          var cov := probe(tests[1..][k]);
          assert tests[1..][k] == tests[k + 1];
          forall i | 0 <= i < |cov| && cov[i].filename in s1.files ensures s1.files[cov[i].filename].defaulting {
          }
        }
      }
      MatchAllExtends(s1, tests[1..], probe);
      ExtendsCompose(s, s1, MatchAll(s1, tests[1..], probe).0,
        CovFiles(probe(t)), CovKeys(probe(t)), Tagged(CovKeys(probe(t)), t),
        RunFiles(tests[1..], probe), RunKeys(tests[1..], probe), RunHits(tests[1..], probe));
    }
  }

  /** A test is recorded on a line exactly when it is one of the tests and its coverage hit that line. */
  lemma {:induction false} RunHitsMembers(tests: seq<string>, probe: string -> CoverageData,
                                         f: string, n: int, t: string)
    ensures (f, n, t) in RunHits(tests, probe) <==> t in tests && (f, n) in CovKeys(probe(t))
    decreases |tests|
  {
    if tests != [] {
      RunHitsMembers(tests[1..], probe, f, n, t);
      assert t in tests <==> t == tests[0] || t in tests[1..];
    }
  }

  /**
   * After `match_tests_to_source(tests)` a line of a file holds a test exactly when it
   * held it before, or the test is one of `tests` and its coverage executed that line.
   */
  lemma MatchAllRecords(s: Snapshot, tests: seq<string>, probe: string -> CoverageData,
                        f: string, n: int, t: string)
    requires WellFormed(s) && AllReady(s, tests, probe)
    ensures var s' := MatchAll(s, tests, probe).0;
      f in s'.files && n in s'.files[f].lines ==>
        (t in s'.files[f].lines[n] <==>
          (n in LinesOf(s, f) && t in LinesOf(s, f)[n]) || (t in tests && (f, n) in CovKeys(probe(t))))
  {
    MatchAllExtends(s, tests, probe);
    RunHitsMembers(tests, probe, f, n, t);
  }

  /** A file whose entries list no line contributes no key. */
  lemma NoKeysFor(cov: CoverageData, f: string)
    requires forall i :: 0 <= i < |cov| && cov[i].filename == f ==> cov[i].lines == []
    ensures forall n :: (f, n) !in CovKeys(cov)
  { }

  /**
   * After `record_affected_files`, every file of the report is present, and one that was
   * absent and that the report gives no executed line is untested.
   */
  lemma RecordedFilesPresent(s: Snapshot, cov: CoverageData, test: string, f: string)
    requires WellFormed(s) && Named(cov) && Ready(s, cov)
    requires exists i :: 0 <= i < |cov| && cov[i].filename == f
    ensures var s' := Record(s, cov, test).0;
      f in s'.files && (f !in s.files && (forall i :: 0 <= i < |cov| && cov[i].filename == f ==> cov[i].lines == [])
                        ==> IsUntested(s'.files[f]))
  {
    RecordExtends(s, cov, test);
    var s' := Record(s, cov, test).0;
    var i :| 0 <= i < |cov| && cov[i].filename == f;
    assert f in CovFiles(cov);
    if f !in s.files && (forall i :: 0 <= i < |cov| && cov[i].filename == f ==> cov[i].lines == []) {
      NoKeysFor(cov, f);
      assert forall n :: n !in s'.files[f].lines;
      assert s'.files[f].lines.Keys == {};
    }
  }

  /** A file with the empty name stops recording with the `AssertionError` of its constructor. */
  lemma EmptyNameFails(s: Snapshot, e: FileCoverage, test: string)
    requires e.filename == "" && e.filename !in s.files
    ensures RecordFile(s, e, test) == (s, Fail(AssertionError))
  { }

  /**
   * A map loaded from its file holds plain dicts, so running a test that executes a line
   * the stored map has never seen in a known file raises `KeyError` from `add`, where a
   * freshly built map would take the line in.
   */
  lemma RestoredMapRejectsNewLine(p: Codec.Payload, test: string, probe: string -> CoverageData, i: int)
    requires Codec.Deserialize(p).Success?
    requires probe(test) != [] && probe(test)[0].filename in Codec.Deserialize(p).value.files
    requires 0 <= i < |probe(test)[0].lines|
    requires probe(test)[0].lines[i] !in Codec.Deserialize(p).value.files[probe(test)[0].filename].lines
    ensures MatchAll(Codec.Deserialize(p).value, [test], probe).1 == Fail(KeyError)
  {
    var s := Codec.Deserialize(p).value;
    var e := probe(test)[0];
    Codec.DeserializedPlain(p);
    TouchPresent(s, e.filename);
    PlainFileRejectsNewLine(s, e.filename, test, e.lines, i);
    assert RecordFile(s, e, test).1 == Fail(KeyError);
    RecordStep(s, probe(test), test);
    MatchAllStep(s, [test], probe);
  }

  // ---- The class ----

  /** An `InfluenceMapper` with its configuration, its `_tests` and its influence map. */
  class InfluenceMapper {
    const config: Config
    const presetTests: seq<string>
    const sourceMap: SourceMap
    const useCached: bool

    ghost predicate Valid()
      reads this, sourceMap
    {
      sourceMap.Valid()
    }

    constructor (config: Config, sourceMap: SourceMap, useCached: bool)
      requires sourceMap.Valid()
      ensures this.config == config && this.sourceMap == sourceMap && this.useCached == useCached
      ensures presetTests == [] && Valid()
    {
      this.config := config;
      this.presetTests := [];
      this.sourceMap := sourceMap;
      this.useCached := useCached;
    }

    /**
     * `read_from_file`: `stored` is the decoded file, `None` when reading it raised
     * `IOError` or `EOFError`, which gives an empty map.
     */
    static method ReadFromFile(stored: Option<Codec.Payload>) returns (r: Result<SourceMap>)
      ensures stored.None? ==> r.Success? && r.value.Model() == EmptySnapshot()
      ensures stored.Some? ==> (r.Success? <==> Codec.Deserialize(stored.value).Success?)
      ensures stored.Some? && r.Success? ==> r.value.Model() == Codec.Deserialize(stored.value).value
      ensures r.Failure? ==> r.error == KeyError
      ensures r.Success? ==> fresh(r.value) && r.value.Valid()
    {
      if stored.None? {
        var sm := new SourceMap();
        r := Success(sm);
      } else {
        r := SourceMap.Load(stored.value);
      }
    }

    /** `InfluenceMapper(config, source_map_file, use_cached)` with `_tests = None`. */
    static method Create(config: Config, stored: Option<Codec.Payload>, useCached: bool)
      returns (r: Result<InfluenceMapper>)
      ensures r.Failure? <==> stored.Some? && Codec.Deserialize(stored.value).Failure?
      ensures r.Success? ==> fresh(r.value) && fresh(r.value.sourceMap) && r.value.Valid()
      ensures r.Success? ==> r.value.config == config && r.value.useCached == useCached
      ensures r.Success? && stored.None? ==> r.value.sourceMap.Model() == EmptySnapshot()
      ensures r.Success? && stored.Some? ==> r.value.sourceMap.Model() == Codec.Deserialize(stored.value).value
      ensures r.Success? ==> r.value.presetTests == []
    {
      var sm := ReadFromFile(stored);
      if sm.Failure? {
        r := Failure(sm.error);
        return;
      }
      var m := new InfluenceMapper(config, sm.value, useCached);
      r := Success(m);
    }

    /** `filter_omitted_tests(tests)` */
    method FilterOmittedTests(tests: seq<string>) returns (suite: seq<string>)
      ensures suite == Kept(config, tests)
    {
      suite := [];
      var i := 0;
      while i < |tests|
        invariant 0 <= i <= |tests|
        invariant Kept(config, tests) == suite + Kept(config, tests[i..])
      {
        var t := tests[i];
        var omitted := IsOmittedTest(config, t);
        assert Kept(config, tests[i..]) == (if omitted then [] else [t]) + Kept(config, tests[i + 1..]) by {
          assert tests[i..][0] == t && tests[i..][1..] == tests[i + 1..];
        }
        if !omitted {
          suite := suite + [t];
        }
        i := i + 1;
      }
      assert tests[i..] == [];
    }

    /** The list `tests` starts from: `_tests`, or what `index_tests()` gives when it is falsy. */
    function Chosen(indexed: seq<string>): seq<string>
      reads this
    {
      if presetTests == [] then indexed else presetTests
    }

    /** The `tests` property, with `indexed` the result of `index_tests()`. */
    method Tests(indexed: seq<string>) returns (ts: seq<string>)
      ensures ts == Kept(config, Chosen(indexed))
    {
      var chosen := if presetTests == [] then indexed else presetTests;
      ts := FilterOmittedTests(chosen);
    }

    /** The loop body of `record_affected_files` for one file. */
    method RecordFileStep(e: FileCoverage, test: string) returns (out: Outcome)
      requires Valid()
      modifies sourceMap, sourceMap.maps.Values
      ensures Valid()
      ensures (sourceMap.Model(), out) == RecordFile(old(sourceMap.Model()), e, test)
      ensures forall g :: g in sourceMap.maps ==>
        (g in old(sourceMap.maps) && sourceMap.maps[g] == old(sourceMap.maps[g])) || fresh(sourceMap.maps[g])
    {
      if e.count == 0 {
        out := sourceMap.Touch(e.filename);
        if out.Fail? {
          return;
        }
      }
      out := sourceMap.SetItem(e.filename, test, e.lines);
    }

    /** `record_affected_files(coverage_data, test_name)` */
    method RecordAffectedFiles(cov: CoverageData, test: string) returns (out: Outcome)
      requires Valid()
      modifies sourceMap, sourceMap.maps.Values
      ensures Valid()
      ensures (sourceMap.Model(), out) == Record(old(sourceMap.Model()), cov, test)
      ensures forall g :: g in sourceMap.maps ==> sourceMap.maps[g] in old(sourceMap.maps.Values) || fresh(sourceMap.maps[g])
    {
      out := Pass;
      var i := 0;
      while i < |cov|
        invariant 0 <= i <= |cov|
        invariant sourceMap.Valid()
        invariant Record(old(sourceMap.Model()), cov, test) == Record(sourceMap.Model(), cov[i..], test)
        invariant forall g :: g in sourceMap.maps ==>
          sourceMap.maps[g] in old(sourceMap.maps.Values) || fresh(sourceMap.maps[g])
      {
        ghost var cur := sourceMap.Model();
        assert cov[i..][0] == cov[i] && cov[i..][1..] == cov[i + 1..];
        RecordStep(cur, cov[i..], test);
        out := RecordFileStep(cov[i], test);
        if out.Fail? {
          return;
        }
        i := i + 1;
      }
      out := Pass;
    }

    /** `match_tests_to_source(tests)`: the coverage of each test in turn, recorded. */
    method MatchTestsToSource(tests: seq<string>, probe: string -> CoverageData) returns (out: Outcome)
      requires Valid()
      modifies sourceMap, sourceMap.maps.Values
      ensures Valid()
      ensures (sourceMap.Model(), out) == MatchAll(old(sourceMap.Model()), tests, probe)
    {
      out := Pass;
      var i := 0;
      while i < |tests|
        invariant 0 <= i <= |tests|
        invariant sourceMap.Valid()
        invariant MatchAll(old(sourceMap.Model()), tests, probe) == MatchAll(sourceMap.Model(), tests[i..], probe)
        invariant forall g :: g in sourceMap.maps ==>
          sourceMap.maps[g] in old(sourceMap.maps.Values) || fresh(sourceMap.maps[g])
      {
        assert tests[i..][0] == tests[i] && tests[i..][1..] == tests[i + 1..];
        MatchAllStep(sourceMap.Model(), tests[i..], probe);
        var coverage := probe(tests[i]);
        out := RecordAffectedFiles(coverage, tests[i]);
        if out.Fail? {
          return;
        }
        i := i + 1;
      }
      out := Pass;
    }

    /** `run_affected_tests(filenames)`: what it hands `test_suite`, or the `KeyError` of `suite`. */
    method RunAffectedTests(filenames: seq<string>) returns (suite: Result<seq<string>>)
      requires Valid()
      ensures suite == sourceMap.Suite(filenames)
      ensures suite.Failure? <==> exists i :: 0 <= i < |filenames| && filenames[i] !in sourceMap.maps
      ensures suite.Failure? ==> suite.error == KeyError
    {
      suite := sourceMap.Suite(filenames);
      if filenames == [] {
        forall i | 0 <= i < |sourceMap.order| ensures sourceMap.order[i] in sourceMap.maps {
          assert sourceMap.order[i] in sourceMap.order;
        }
        assert suite.Success?;
      } else {
        assert sourceMap.Requested(filenames) == filenames;
      }
    }

    /** The steps `run` takes before it has the tests: `setup`, then `index_tests` when `_tests` is falsy. */
    function Prelude(): seq<Step>
      reads this
    {
      [Setup] + (if presetTests == [] then [IndexTests] else [])
    }

    /**
     * The `else` branch of `run`: the mapping, then `cleanup` and the write of the
     * serialized map (`stored`); an exception in the mapping skips both.
     */
    method MapAndWrite(tests: seq<string>, probe: string -> CoverageData)
      returns (r: Result<seq<string>>, stored: Option<Codec.Payload>, steps: seq<Step>)
      requires Valid()
      modifies sourceMap, sourceMap.maps.Values
      ensures Valid()
      ensures var (s', out) := MatchAll(old(sourceMap.Model()), tests, probe);
        && sourceMap.Model() == s'
        && (out.Fail? ==> r == Failure(out.error) && stored.None? && steps == [MapTests])
        && (out.Pass? ==>
              r == Success(s'.order) && Codec.Serialize(s').Success? &&
              stored == Some(Codec.Serialize(s').value) && steps == [MapTests, Cleanup, WriteToFile])
    {
      steps := [MapTests];
      stored := None;
      var out := MatchTestsToSource(tests, probe);
      if out.Fail? {
        r := Failure(out.error);
        return;
      }
      steps := steps + [Cleanup, WriteToFile];
      var p := sourceMap.Serialize();
      ghost var s' := sourceMap.Model();
      sourceMap.ModelWellFormed();
      SerializeSucceeds(s');
      stored := Some(p.value);
      r := Success(sourceMap.Files());
    }

    /**
     * `run()`: the files of the map, and the steps taken. Cached: nothing else happens.
     * Otherwise `setup`, indexing, and then either the "No tests to run!" exception, before
     * any mapping, `cleanup` or write, or the mapping, `cleanup` and the write.
     */
    method Run(indexed: seq<string>, probe: string -> CoverageData)
      returns (r: Result<seq<string>>, stored: Option<Codec.Payload>, steps: seq<Step>)
      requires Valid()
      modifies sourceMap, sourceMap.maps.Values
      ensures Valid()
      ensures useCached ==>
        r == Success(old(sourceMap.order)) && stored.None? && steps == [] &&
        sourceMap.Model() == old(sourceMap.Model())
      ensures !useCached && Kept(config, Chosen(indexed)) == [] ==>
        r == Failure(NoTestsError) && stored.None? && steps == Prelude() &&
        sourceMap.Model() == old(sourceMap.Model())
      ensures !useCached && Kept(config, Chosen(indexed)) != [] ==>
        var (s', out) := MatchAll(old(sourceMap.Model()), Kept(config, Chosen(indexed)), probe);
        && sourceMap.Model() == s'
        && (out.Fail? ==> r == Failure(out.error) && stored.None? && steps == Prelude() + [MapTests])
        && (out.Pass? ==>
              r == Success(s'.order) && Codec.Serialize(s').Success? &&
              stored == Some(Codec.Serialize(s').value) &&
              steps == Prelude() + [MapTests, Cleanup, WriteToFile])
    {
      if useCached {
        r := Success(sourceMap.Files());
        stored := None;
        steps := [];
        return;
      }
      var tests := Tests(indexed);
      if |tests| == 0 {
        r := Failure(NoTestsError);
        stored := None;
        steps := Prelude();
        return;
      }
      var more;
      r, stored, more := MapAndWrite(tests, probe);
      steps := Prelude() + more;
    }
  }

  /** The corrected serializer never fails on a well-formed map. */
  lemma SerializeSucceeds(s: Snapshot)
    requires WellFormed(s)
    ensures Codec.Serialize(s).Success?
  {
    Codec.RoundTrip(s);
  }
}
