/**
 * The influence map as a value: what a `_SourceTestMap` holds (its filename, its line
 * dict and whether that dict is a `defaultdict(set)`), what a `SourceMap` holds (its
 * files, in insertion order, each with its `_SourceTestMap`), and the operations of
 * codemon/datastructures.py stated on those values. The classes in DataStructures are
 * proved to act on their state as these functions say.
 */
module LineMaps {
  import opened Wrappers
  import opened Ordering

  /** line number -> names of the tests that executed that line */
  type Lines = map<int, set<string>>

  /**
   * The state of one `_SourceTestMap`. `defaulting` is true for the `defaultdict(set)`
   * made by `_SourceTestMap(filename)` and false for the plain dict that
   * `_SourceTestMap.deserialize` passes in as `other`.
   */
  datatype FileMap = FileMap(filename: string, lines: Lines, defaulting: bool)

  /** `_SourceTestMap(filename)`: a fresh, empty, defaulting line dict. */
  function NewFileMap(filename: string): FileMap {
    FileMap(filename, map[], true)
  }

  /** `_SourceTestMap.__eq__`: same filename and same line dict; the kind of dict is ignored. */
  predicate SameContent(a: FileMap, b: FileMap) {
    a.filename == b.filename && a.lines == b.lines
  }

  /** `_SourceTestMap.is_untested` */
  predicate IsUntested(fm: FileMap) {
    |fm.lines| == 0
  }

  /** `test` added to the set of line `n`, creating the set when the line is absent. */
  function AddTest(lines: Lines, n: int, test: string): (r: Lines)
    ensures r.Keys == lines.Keys + {n}
    ensures test in r[n] && forall t :: t in r[n] ==> t == test || (n in lines && t in lines[n])
    ensures forall k :: k in lines && k != n ==> r[k] == lines[k]
  {
    lines[n := (if n in lines then lines[n] else {}) + {test}]
  }

  /**
   * `_SourceTestMap.add(n, test)`: `self._dict[n].add(test)`; on a plain dict an absent
   * line raises `KeyError`.
   */
  function Add(fm: FileMap, n: int, test: string): (r: Result<FileMap>)
    ensures r.Failure? <==> (n !in fm.lines && !fm.defaulting)
    ensures r.Success? ==> r.value == fm.(lines := AddTest(fm.lines, n, test))
  {
    if n in fm.lines || fm.defaulting then Success(fm.(lines := AddTest(fm.lines, n, test)))
    else Failure(KeyError)
  }

  /**
   * `_SourceTestMap.__getitem__(n)`: the set of line `n`. A defaultdict inserts an empty
   * set for an absent line (the returned map is the new state); a plain dict raises `KeyError`.
   */
  function GetLine(fm: FileMap, n: int): (r: Result<(FileMap, set<string>)>)
    ensures r.Failure? <==> (n !in fm.lines && !fm.defaulting)
    ensures r.Success? ==> n in r.value.0.lines && r.value.1 == r.value.0.lines[n]
    ensures r.Success? && n in fm.lines ==> r.value.0 == fm
    ensures r.Success? && n !in fm.lines ==> r.value.0 == fm.(lines := fm.lines[n := {}])
  {
    if n in fm.lines then Success((fm, fm.lines[n]))
    else if fm.defaulting then Success((fm.(lines := fm.lines[n := {}]), {}))
    else Failure(KeyError)
  }

  /** `_SourceTestMap.__delitem__(n)`: `KeyError` when the line is absent. */
  function DeleteLine(fm: FileMap, n: int): (r: Result<FileMap>)
    ensures r.Failure? <==> n !in fm.lines
    ensures r.Success? ==> r.value.lines.Keys == fm.lines.Keys - {n}
    ensures r.Success? ==> forall k :: k in r.value.lines ==> r.value.lines[k] == fm.lines[k]
  {
    if n in fm.lines then Success(fm.(lines := fm.lines - {n})) else Failure(KeyError)
  }

  /** The union of all line sets of a file, as `_SourceTestMap.all_affected_tests` computes it. */
  function Affected(lines: Lines): (r: set<string>)
    ensures forall t :: t in r <==> exists n :: n in lines && t in lines[n]
  {
    set n, t | n in lines && t in lines[n] :: t
  }

  /**
   * `_SourceTestMap.all_affected_tests`: `list(set.union(*values))`. Python leaves the
   * order of that list open; the model takes ascending string order.
   */
  function AffectedList(lines: Lines): seq<string> {
    SortedSet(Affected(lines))
  }

  /** `all_affected_tests` holds each test of the file's lines once, and no other test. */
  lemma AffectedListSpec(lines: Lines)
    ensures NoDup(AffectedList(lines))
    ensures forall t :: t in AffectedList(lines) <==> exists n :: n in lines && t in lines[n]
  {
  }

  /**
   * `AddTest` for each line number of `nums` in order: the loop of
   * `SourceMap.__setitem__` on a defaultdict.
   */
  function AddLines(lines: Lines, nums: seq<int>, test: string): Lines
    decreases |nums|
  {
    if nums == [] then lines
    else AddLines(AddTest(lines, nums[0], test), nums[1..], test)
  }

  /**
   * The loop of `SourceMap.__setitem__` on one file: `add(num, test)` for each number in
   * turn, stopping at the first `KeyError`. Gives the state reached and the outcome.
   */
  function AddAll(fm: FileMap, nums: seq<int>, test: string): (r: (FileMap, Outcome))
    ensures r.0.filename == fm.filename && r.0.defaulting == fm.defaulting
    ensures r.0.lines.Keys >= fm.lines.Keys
    ensures r.1 == Pass || r.1 == Fail(KeyError)
    decreases |nums|
  {
    if nums == [] then (fm, Pass)
    else match Add(fm, nums[0], test)
      case Failure(e) => (fm, Fail(e))
      case Success(fm') => AddAll(fm', nums[1..], test)
  }

  /** The state of one `SourceMap`: its files in insertion order and their line maps. */
  datatype Snapshot = Snapshot(order: seq<string>, files: map<string, FileMap>)

  /** The file order lists each key of the dict exactly once. */
  ghost predicate WellFormed(s: Snapshot) {
    NoDup(s.order) && forall f :: f in s.order <==> f in s.files
  }

  /** `SourceMap()`: no files. */
  function EmptySnapshot(): (s: Snapshot)
    ensures WellFormed(s) && s.files == map[]
  {
    Snapshot([], map[])
  }

  /**
   * `SourceMap.touch(f)`: adds `f` with a fresh `_SourceTestMap(f)` when absent, whose
   * `assert filename or other` fails for the empty name.
   */
  function Touch(s: Snapshot, f: string): (r: Result<Snapshot>)
    ensures r.Failure? <==> f !in s.files && f == ""
    ensures r.Failure? ==> r.error == AssertionError
    ensures r.Success? ==> f in r.value.files && r.value.files.Keys == s.files.Keys + {f}
  {
    if f in s.files then Success(s)
    else if f == "" then Failure(AssertionError)
    else Success(Snapshot(s.order + [f], s.files[f := NewFileMap(f)]))
  }

  /**
   * `SourceMap.__setitem__(f, (test, nums))`: `touch(f)`, then `add(num, test)` on that
   * file for each number of `nums`. Gives the state reached and the outcome.
   */
  function SetItem(s: Snapshot, f: string, test: string, nums: seq<int>): (Snapshot, Outcome) {
    match Touch(s, f)
    case Failure(e) => (s, Fail(e))
    case Success(s') =>
      var (fm, out) := AddAll(s'.files[f], nums, test);
      (s'.(files := s'.files[f := fm]), out)
  }

  /** The loop of `__setitem__` one step at a time: a failing `add` ends it, a passing one goes on. */
  lemma AddAllStep(fm: FileMap, nums: seq<int>, test: string)
    requires nums != []
    ensures Add(fm, nums[0], test).Failure? ==> AddAll(fm, nums, test) == (fm, Fail(KeyError))
    ensures Add(fm, nums[0], test).Success? ==>
      AddAll(fm, nums, test) == AddAll(Add(fm, nums[0], test).value, nums[1..], test)
  {
  }

  /** When `touch` succeeds, `__setitem__` runs the loop on the touched file's map. */
  lemma SetItemAfterTouch(s: Snapshot, f: string, test: string, nums: seq<int>)
    requires Touch(s, f).Success?
    ensures var s1 := Touch(s, f).value;
      && f in s1.files
      && var (fm, out) := AddAll(s1.files[f], nums, test);
      SetItem(s, f, test, nums) == (s1.(files := s1.files[f := fm]), out)
  {
  }

  /** `order` without `f`. */
  function Without(order: seq<string>, f: string): (r: seq<string>)
    ensures forall g :: g in r <==> g in order && g != f
    ensures NoDup(order) ==> NoDup(r)
  {
    if order == [] then []
    else if order[0] == f then Without(order[1..], f)
    else
      NoDupTail(order);
      [order[0]] + Without(order[1..], f)
  }

  /** `SourceMap.__delitem__(f)`: `KeyError` when absent. */
  function Delete(s: Snapshot, f: string): Result<Snapshot> {
    if f in s.files then Success(Snapshot(Without(s.order, f), s.files - {f}))
    else Failure(KeyError)
  }

  /**
   * `del self[f]` raises `KeyError` exactly for an absent file. Otherwise it drops `f` from
   * the dict and the order, keeps every other file as it was, and the map stays well formed.
   */
  lemma DeleteSpec(s: Snapshot, f: string)
    requires WellFormed(s)
    ensures Delete(s, f).Failure? <==> f !in s.files
    ensures Delete(s, f).Failure? ==> Delete(s, f).error == KeyError
    ensures Delete(s, f).Success? ==> var s' := Delete(s, f).value;
      && WellFormed(s') && s'.files.Keys == s.files.Keys - {f}
      && forall g :: g in s'.files ==> s'.files[g] == s.files[g]
  {
  }

  /** `SourceMap.__getitem__(f)`: `KeyError` when absent. */
  function Lookup(s: Snapshot, f: string): (r: Result<FileMap>)
    ensures r.Success? <==> f in s.files
    ensures r.Success? ==> r.value == s.files[f]
  {
    if f in s.files then Success(s.files[f]) else Failure(KeyError)
  }

  /** The files of `fs` that are present and untested, in the order of `fs`. */
  function UntestedAmong(files: map<string, FileMap>, fs: seq<string>): seq<string> {
    if fs == [] then []
    else if fs[0] in files && IsUntested(files[fs[0]]) then [fs[0]] + UntestedAmong(files, fs[1..])
    else UntestedAmong(files, fs[1..])
  }

  /** `SourceMap.untested_files`: the files whose line dict is empty, in file order. */
  function UntestedFiles(s: Snapshot): seq<string> {
    UntestedAmong(s.files, s.order)
  }

  /** The tests of each file of `fs` in turn, or `KeyError` at the first unknown file. */
  function SuiteOf(files: map<string, FileMap>, fs: seq<string>): Result<seq<string>> {
    if fs == [] then Success([])
    else if fs[0] !in files then Failure(KeyError)
    else
      var rest := SuiteOf(files, fs[1..]);
      if rest.Failure? then rest else Success(AffectedList(files[fs[0]].lines) + rest.value)
  }

  /**
   * `SourceMap.suite(filenames)`: an empty (falsy) list of filenames stands for all files.
   * The model takes `None` as the empty list.
   */
  function Suite(s: Snapshot, fs: seq<string>): Result<seq<string>> {
    SuiteOf(s.files, if fs == [] then s.order else fs)
  }

  /** How many files of `fs` have `test` on some line: its multiplicity in their suite. */
  function FilesHitting(files: map<string, FileMap>, fs: seq<string>, test: string): nat {
    if fs == [] then 0
    else
      var here := if fs[0] in files && test in Affected(files[fs[0]].lines) then 1 else 0;
      here + FilesHitting(files, fs[1..], test)
  }

  // ---- Properties of the mutators ----

  /** `touch` never overwrites: on a present file nothing changes. */
  lemma TouchPresent(s: Snapshot, f: string)
    requires f in s.files
    ensures Touch(s, f) == Success(s)
  {
  }

  /**
   * `touch` on an absent, non-empty name adds exactly that file, last in file order,
   * with an empty line map, so it is untested; every other file is as it was.
   */
  lemma TouchAbsent(s: Snapshot, f: string)
    requires WellFormed(s) && f !in s.files && f != ""
    ensures Touch(s, f).Success?
    ensures var s' := Touch(s, f).value;
      && WellFormed(s') && s'.order == s.order + [f]
      && s'.files.Keys == s.files.Keys + {f}
      && SameContent(s'.files[f], NewFileMap(f)) && IsUntested(s'.files[f])
      && (forall g :: g in s.files ==> s'.files[g] == s.files[g])
  {
    NoDupAppend(s.order, f);
  }

  /** `AddLines` gives each listed line the test and touches no other line. */
  lemma {:induction false} AddLinesSpec(lines: Lines, nums: seq<int>, test: string)
    ensures var r := AddLines(lines, nums, test);
      && (forall n :: n in r <==> n in lines || n in nums)
      && (forall n :: n in nums ==> r[n] == (if n in lines then lines[n] else {}) + {test})
      && (forall n :: n in lines && n !in nums ==> r[n] == lines[n])
    decreases |nums|
  {
    if nums != [] {
      AddLinesSpec(AddTest(lines, nums[0], test), nums[1..], test);
      assert forall n :: n in nums <==> n == nums[0] || n in nums[1..];
    }
  }

  /** With a defaultdict, or when every listed line is present, the whole loop runs. */
  lemma {:induction false} AddAllComplete(fm: FileMap, nums: seq<int>, test: string)
    requires fm.defaulting || forall i :: 0 <= i < |nums| ==> nums[i] in fm.lines
    ensures AddAll(fm, nums, test) == (fm.(lines := AddLines(fm.lines, nums, test)), Pass)
    decreases |nums|
  {
    if nums != [] {
      var fm' := fm.(lines := AddTest(fm.lines, nums[0], test));
      assert forall i :: 0 <= i < |nums[1..]| ==> nums[1..][i] == nums[i + 1];
      AddAllComplete(fm', nums[1..], test);
    }
  }

  /** A plain dict raises `KeyError` exactly when some listed line is absent. */
  lemma {:induction false} AddAllFails(fm: FileMap, nums: seq<int>, test: string)
    requires !fm.defaulting
    ensures AddAll(fm, nums, test).1.Fail? <==> exists i :: 0 <= i < |nums| && nums[i] !in fm.lines
    ensures AddAll(fm, nums, test).0.lines.Keys == fm.lines.Keys
    decreases |nums|
  {
    if nums != [] {
      if nums[0] in fm.lines {
        var fm' := fm.(lines := AddTest(fm.lines, nums[0], test));
        AddAllFails(fm', nums[1..], test);
        assert forall i :: 0 < i < |nums| ==> nums[i] == nums[1..][i - 1];
        assert forall i :: 0 <= i < |nums[1..]| ==> nums[1..][i] == nums[i + 1];
      }
    }
  }

  /**
   * On a plain dict whose first absent line is `nums[k]`, the loop raises `KeyError` there:
   * the lines before it have already gained the test, the later ones have not.
   */
  lemma {:induction false} AddAllStopsAt(fm: FileMap, nums: seq<int>, test: string, k: int)
    requires !fm.defaulting
    requires 0 <= k < |nums| && nums[k] !in fm.lines
    requires forall i :: 0 <= i < k ==> nums[i] in fm.lines
    ensures AddAll(fm, nums, test) == (fm.(lines := AddLines(fm.lines, nums[..k], test)), Fail(KeyError))
    decreases |nums|
  {
    if k == 0 {
      assert nums[..k] == [];
    } else {
      var fm' := fm.(lines := AddTest(fm.lines, nums[0], test));
      assert forall i :: 0 <= i < k - 1 ==> nums[1..][i] == nums[i + 1];
      AddAllStopsAt(fm', nums[1..], test, k - 1);
      assert nums[..k][1..] == nums[1..][..k - 1];
    }
  }

  /** The line dict of `f`, empty when `f` is absent. */
  function LinesOf(s: Snapshot, f: string): Lines {
    if f in s.files then s.files[f].lines else map[]
  }

  /**
   * `map[f] = (test, nums)` on a file that is absent or a defaultdict: succeeds, makes `f`
   * present (last in file order when new), gives its line dict `AddLines` of the old one
   * (see `AddLinesSpec`: every listed line gains `test`, other lines stay), and leaves
   * every other file alone.
   */
  lemma SetItemSpec(s: Snapshot, f: string, test: string, nums: seq<int>)
    requires WellFormed(s) && f != ""
    requires f in s.files ==> s.files[f].defaulting
    ensures SetItem(s, f, test, nums).1 == Pass
    ensures var s' := SetItem(s, f, test, nums).0;
      && WellFormed(s') && s'.files.Keys == s.files.Keys + {f}
      && s'.order == (if f in s.files then s.order else s.order + [f])
    ensures var s' := SetItem(s, f, test, nums).0;
      && f in s'.files
      && s'.files[f].lines == AddLines(LinesOf(s, f), nums, test)
      && s'.files[f].filename == (if f in s.files then s.files[f].filename else f)
      && s'.files[f].defaulting
    ensures var s' := SetItem(s, f, test, nums).0;
      forall g :: g in s.files && g != f ==> s'.files[g] == s.files[g]
  {
    if f !in s.files { TouchAbsent(s, f); }
    var s1 := Touch(s, f).value;
    AddAllComplete(s1.files[f], nums, test);
  }

  /**
   * `map[f] = (test, nums)` on a present file with a plain dict (one `deserialize` built)
   * raises `KeyError` when some listed line is new to it, and keeps its lines.
   */
  lemma PlainFileRejectsNewLine(s: Snapshot, f: string, test: string, nums: seq<int>, i: int)
    requires f in s.files && !s.files[f].defaulting
    requires 0 <= i < |nums| && nums[i] !in s.files[f].lines
    ensures SetItem(s, f, test, nums).1 == Fail(KeyError)
    ensures SetItem(s, f, test, nums).0.files[f].lines.Keys == s.files[f].lines.Keys
  {
    AddAllFails(s.files[f], nums, test);
  }

  /** `AddLines` twice is `AddLines` once: set insertion is idempotent. */
  lemma AddLinesIdempotent(lines: Lines, nums: seq<int>, test: string)
    ensures AddLines(AddLines(lines, nums, test), nums, test) == AddLines(lines, nums, test)
  {
    var once := AddLines(lines, nums, test);
    var twice := AddLines(once, nums, test);
    AddLinesSpec(lines, nums, test);
    AddLinesSpec(once, nums, test);
    forall n ensures n in twice <==> n in once {
      if n in nums { assert n in once; }
    }
    assert twice.Keys == once.Keys;
    forall n | n in twice ensures twice[n] == once[n] { }
  }

  /** Repeating `map[f] = (test, nums)` on a defaultdict file is a no-op. */
  /** The position of the first line of `nums` that `lines` lacks, or `|nums|` when there is none. */
  function FirstAbsent(lines: Lines, nums: seq<int>): (k: nat)
    ensures k <= |nums|
    ensures forall i :: 0 <= i < k ==> nums[i] in lines
    ensures k < |nums| ==> nums[k] !in lines
    decreases |nums|
  {
    if nums == [] || nums[0] !in lines then 0 else 1 + FirstAbsent(lines, nums[1..])
  }

  /**
   * Repeating `map[f] = (test, nums)` changes nothing and ends as the first call did: with
   * a pass, with touch's `AssertionError`, or, on a plain dict, with `KeyError` at the same
   * absent line after re-adding the test to the lines before it.
   */
  lemma SetItemIdempotent(s: Snapshot, f: string, test: string, nums: seq<int>)
    ensures var (s1, out) := SetItem(s, f, test, nums);
      SetItem(s1, f, test, nums) == (s1, out)
    ensures (f in s.files ==> s.files[f].defaulting) && f != "" ==> SetItem(s, f, test, nums).1 == Pass
  {
    if Touch(s, f).Success? {
      SetItemAfterTouch(s, f, test, nums);
      var s0 := Touch(s, f).value;
      var fm0 := s0.files[f];
      var (s1, out) := SetItem(s, f, test, nums);
      var fm1 := s1.files[f];
      TouchPresent(s1, f);
      SetItemAfterTouch(s1, f, test, nums);
      var k := FirstAbsent(fm0.lines, nums);
      if fm0.defaulting || k == |nums| {
        AddAllComplete(fm0, nums, test);
        AddLinesSpec(fm0.lines, nums, test);
        AddAllComplete(fm1, nums, test);
        AddLinesIdempotent(fm0.lines, nums, test);
      } else {
        AddAllStopsAt(fm0, nums, test, k);
        AddAllFails(fm0, nums, test);
        assert fm1 == AddAll(fm0, nums, test).0;
        AddAllStopsAt(fm1, nums, test, k);
        AddLinesIdempotent(fm0.lines, nums[..k], test);
      }
      assert s1.files[f := fm1] == s1.files;
    }
  }

  /**
   * `__eq__` does not see the order tests were added in: adding two tests in either
   * order gives the same line dict.
   */
  lemma AddTestCommutes(lines: Lines, n1: int, t1: string, n2: int, t2: string)
    ensures AddTest(AddTest(lines, n1, t1), n2, t2) == AddTest(AddTest(lines, n2, t2), n1, t1)
  {
    var a := AddTest(AddTest(lines, n1, t1), n2, t2);
    var b := AddTest(AddTest(lines, n2, t2), n1, t1);
    assert a.Keys == b.Keys;
    forall k | k in a ensures a[k] == b[k] {
      if k == n1 && k == n2 {
        assert a[k] == (if k in lines then lines[k] else {}) + {t1, t2};
      }
    }
  }

  /**
   * The `__getitem__` quirk: reading an absent line of a defaultdict inserts an empty
   * set, so an untested file is untested no more.
   */
  lemma GetLineLosesUntested(fm: FileMap, n: int)
    requires fm.defaulting && IsUntested(fm)
    ensures GetLine(fm, n).Success?
    ensures GetLine(fm, n).value.1 == {} && !IsUntested(GetLine(fm, n).value.0)
  {
    assert n in GetLine(fm, n).value.0.lines;
  }

  // ---- Properties of the queries ----

  /** `untested_files` is exactly the present files whose line dict is empty. */
  lemma {:induction false} UntestedAmongSpec(files: map<string, FileMap>, fs: seq<string>)
    ensures var r := UntestedAmong(files, fs);
      forall f :: f in r <==> f in fs && f in files && IsUntested(files[f])
    ensures NoDup(fs) ==> NoDup(UntestedAmong(files, fs))
  {
    if fs != [] {
      UntestedAmongSpec(files, fs[1..]);
      assert forall f :: f in fs <==> f == fs[0] || f in fs[1..];
      NoDupTail(fs);
    }
  }

  /** `untested_files` lists each present, empty-lined file once. */
  lemma UntestedFilesSpec(s: Snapshot)
    requires WellFormed(s)
    ensures NoDup(UntestedFiles(s))
    ensures forall f :: f in UntestedFiles(s) <==> f in s.files && IsUntested(s.files[f])
  {
    UntestedAmongSpec(s.files, s.order);
  }

  /** The suite fails with `KeyError` exactly when some listed file is absent. */
  lemma {:induction false} SuiteOfFails(files: map<string, FileMap>, fs: seq<string>)
    ensures SuiteOf(files, fs).Failure? <==> exists i :: 0 <= i < |fs| && fs[i] !in files
    ensures SuiteOf(files, fs).Failure? ==> SuiteOf(files, fs).error == KeyError
  {
    if fs != [] {
      SuiteOfFails(files, fs[1..]);
      assert forall i :: 0 < i < |fs| ==> fs[i] == fs[1..][i - 1];
      assert forall i :: 0 <= i < |fs[1..]| ==> fs[1..][i] == fs[i + 1];
    }
  }

  /**
   * `suite` repeats a test once for every listed file whose lines it executed: each test
   * once per file, duplicates across files kept; it holds no other test.
   */
  lemma {:induction false} SuiteOfCounts(files: map<string, FileMap>, fs: seq<string>, test: string)
    requires SuiteOf(files, fs).Success?
    ensures multiset(SuiteOf(files, fs).value)[test] == FilesHitting(files, fs, test)
  {
    if fs != [] {
      SuiteOfCounts(files, fs[1..], test);
      var head := AffectedList(files[fs[0]].lines);
      AffectedListSpec(files[fs[0]].lines);
      var rest := SuiteOf(files, fs[1..]).value;
      assert multiset(head + rest) == multiset(head) + multiset(rest);
      NoDupCount(head, test);
    }
  }

  /** In a list without duplicates an element occurs once or not at all. */
  lemma {:induction false} NoDupCount(s: seq<string>, x: string)
    requires NoDup(s)
    ensures multiset(s)[x] == if x in s then 1 else 0
  {
    if s != [] {
      assert s == [s[0]] + s[1..];
      NoDupTail(s);
      NoDupCount(s[1..], x);
    }
  }

  /** A test is in the suite exactly when some listed file has it on some line. */
  lemma {:induction false} SuiteOfMembers(files: map<string, FileMap>, fs: seq<string>, test: string)
    requires SuiteOf(files, fs).Success?
    ensures test in SuiteOf(files, fs).value <==>
      exists i, n :: 0 <= i < |fs| && fs[i] in files && n in files[fs[i]].lines && test in files[fs[i]].lines[n]
  {
    SuiteOfFails(files, fs);
    if fs != [] {
      SuiteOfMembers(files, fs[1..], test);
      assert forall i :: 0 < i < |fs| ==> fs[i] == fs[1..][i - 1];
      assert forall i :: 0 <= i < |fs[1..]| ==> fs[1..][i] == fs[i + 1];
    }
  }

  /**
   * `suite()` with a falsy argument covers every file: a test is in it exactly when some
   * file has it on some line, once per such file.
   */
  lemma SuiteAll(s: Snapshot, test: string)
    requires WellFormed(s)
    ensures Suite(s, []).Success?
    ensures test in Suite(s, []).value <==>
      exists f, n :: f in s.files && n in s.files[f].lines && test in s.files[f].lines[n]
    ensures multiset(Suite(s, []).value)[test] == FilesHitting(s.files, s.order, test)
  {
    SuiteOfFails(s.files, s.order);
    SuiteOfMembers(s.files, s.order, test);
    SuiteOfCounts(s.files, s.order, test);
    if exists f, n :: f in s.files && n in s.files[f].lines && test in s.files[f].lines[n] {
      var f, n :| f in s.files && n in s.files[f].lines && test in s.files[f].lines[n];
      var i :| 0 <= i < |s.order| && s.order[i] == f;
    }
  }
}
