/**
 * The index-compressed form of the influence map (`serialize` / `deserialize` in
 * codemon/datastructures.py): every test name is replaced by an integer, and a reverse
 * lookup from integer back to name travels beside the per-file records.
 */
module Codec {
  import opened Wrappers
  import opened Ordering
  import opened LineMaps

  /** line number -> ascending list of test indices */
  type Indices = map<int, seq<int>>

  /** The `(filename, d)` tuple `_SourceTestMap.serialize` returns. */
  datatype FileRecord = FileRecord(filename: string, lines: Indices)

  /**
   * The `(reverse_testname_lookup, d)` tuple of `SourceMap.serialize`: `d` maps each file
   * name to its record and is listed here in its iteration order.
   */
  datatype Payload = Payload(reverse: map<int, string>, entries: seq<(string, FileRecord)>)

  /**
   * `{testname: index for index, testname in enumerate(suite)}`: a later position of a
   * repeated name overwrites an earlier one, so each name gets its last position.
   */
  function IndexOf(suite: seq<string>): (r: map<string, int>)
    ensures forall t :: t in r <==> t in suite
    ensures forall t :: t in r ==> 0 <= r[t] < |suite| && suite[r[t]] == t
    ensures forall t :: t in r ==> forall j :: r[t] < j < |suite| ==> suite[j] != t
    decreases |suite|
  {
    if suite == [] then map[]
    else
      var last := |suite| - 1;
      var front := suite[..last];
      var r := IndexOf(front);
      assert forall t :: t in suite <==> t in front || t == suite[last];
      r[suite[last] := last]
  }

  /** Distinct names get distinct indices. */
  lemma IndexOfInjective(suite: seq<string>, t1: string, t2: string)
    requires t1 in IndexOf(suite) && t2 in IndexOf(suite) && t1 != t2
    ensures IndexOf(suite)[t1] != IndexOf(suite)[t2]
  {
  }

  /** `{index: testname for testname, index in lookup.items()}` for the lookup of `suite`. */
  function ReverseOf(suite: seq<string>): (r: map<int, string>)
    ensures var lookup := IndexOf(suite);
      forall t :: t in lookup ==> lookup[t] in r && r[lookup[t]] == t
    ensures var lookup := IndexOf(suite);
      forall i :: i in r ==> r[i] in lookup && lookup[r[i]] == i
  {
    var lookup := IndexOf(suite);
    map t | t in lookup :: lookup[t] := t
  }

  /** The indices of the names in `ts`, in the order of `ts`. */
  function IndexList(ts: seq<string>, lookup: map<string, int>): (r: seq<int>)
    requires forall k :: 0 <= k < |ts| ==> ts[k] in lookup
    ensures |r| == |ts| && forall k :: 0 <= k < |ts| ==> r[k] == lookup[ts[k]]
  {
    seq(|ts|, k requires 0 <= k < |ts| => lookup[ts[k]])
  }

  /** `i` is the index of some test of `tests`. */
  ghost predicate IndexOfSome(tests: set<string>, lookup: map<string, int>, i: int) {
    exists t :: t in tests && t in lookup && lookup[t] == i
  }

  /** The indices listed for the names of `ts` are exactly the indices of the tests of `tests`. */
  lemma IndexListMembers(tests: set<string>, ts: seq<string>, lookup: map<string, int>, i: int)
    requires forall x :: x in ts <==> x in tests
    requires forall t :: t in tests ==> t in lookup
    ensures i in IndexList(ts, lookup) <==> IndexOfSome(tests, lookup, i)
  {
    var xs := IndexList(ts, lookup);
    if i in xs {
      var k :| 0 <= k < |xs| && xs[k] == i;
      assert ts[k] in tests && lookup[ts[k]] == i;
    }
    if IndexOfSome(tests, lookup, i) {
      var t :| t in tests && t in lookup && lookup[t] == i;
      var k :| 0 <= k < |ts| && ts[k] == t;
      assert xs[k] == i;
    }
  }

  /** Sorting the indices of the names of a set keeps exactly the indices of its names. */
  lemma SortedIndexes(tests: set<string>, lookup: map<string, int>)
    requires forall t :: t in tests ==> t in lookup
    ensures var ts := SortedSet(tests);
      forall i :: i in SortInts(IndexList(ts, lookup)) <==> IndexOfSome(tests, lookup, i)
    ensures |SortInts(IndexList(SortedSet(tests), lookup))| == |tests|
  {
    var ts := SortedSet(tests);
    var xs := IndexList(ts, lookup);
    var r := SortInts(xs);
    assert |r| == |multiset(r)| == |multiset(xs)| == |xs|;
    forall i ensures i in r <==> IndexOfSome(tests, lookup, i) {
      IndexListMembers(tests, ts, lookup, i);
      assert (i in r) == (i in multiset(r));
      assert (i in xs) == (i in multiset(xs));
    }
  }

  /**
   * One line of `_SourceTestMap.serialize`: `sorted([lookup[t] for t in tests])`, raising
   * `KeyError` for a test the lookup lacks.
   */
  function EncodeLine(tests: set<string>, lookup: map<string, int>): (r: Result<seq<int>>)
    ensures r.Failure? <==> exists t :: t in tests && t !in lookup
    ensures r.Failure? ==> r.error == KeyError
  {
    if exists t :: t in tests && t !in lookup then Failure(KeyError)
    else Success(SortInts(IndexList(SortedSet(tests), lookup)))
  }

  /**
   * An encoded line is ascending, has one index per test, and holds exactly the indices of
   * the tests.
   */
  lemma EncodeLineSpec(tests: set<string>, lookup: map<string, int>)
    requires EncodeLine(tests, lookup).Success?
    ensures var v := EncodeLine(tests, lookup).value;
      IntSorted(v) && |v| == |tests| && forall i :: i in v <==> IndexOfSome(tests, lookup, i)
  {
    SortedIndexes(tests, lookup);
  }

  /** Every test of every line has an index. */
  predicate AllIndexed(lines: Lines, lookup: map<string, int>) {
    forall n, t :: n in lines && t in lines[n] ==> t in lookup
  }

  /** The line dict of `_SourceTestMap.serialize`, or the first `KeyError`. */
  function EncodeLines(lines: Lines, lookup: map<string, int>): (r: Result<Indices>)
    ensures r.Success? <==> AllIndexed(lines, lookup)
    ensures r.Success? ==> r.value.Keys == lines.Keys
    ensures r.Success? ==> forall n :: n in lines ==> EncodeLine(lines[n], lookup) == Success(r.value[n])
  {
    if AllIndexed(lines, lookup) then Success(map n | n in lines :: EncodeLine(lines[n], lookup).value)
    else Failure(KeyError)
  }

  /** A line dict whose every line is the encoding of the original's is the encoding. */
  lemma EncodeLinesOf(lines: Lines, lookup: map<string, int>, d: Indices)
    requires d.Keys == lines.Keys
    requires forall n :: n in d ==> EncodeLine(lines[n], lookup) == Success(d[n])
    ensures EncodeLines(lines, lookup) == Success(d)
  {
    assert AllIndexed(lines, lookup) by {
      forall n, t | n in lines && t in lines[n] ensures t in lookup {
        assert EncodeLine(lines[n], lookup).Success?;
      }
    }
    var enc := EncodeLines(lines, lookup).value;
    forall n | n in d ensures d[n] == enc[n] {
      assert EncodeLine(lines[n], lookup) == Success(enc[n]);
    }
    assert d == enc;
  }

  /** `_SourceTestMap.serialize(obj, lookup)`: the filename and the encoded line dict. */
  function EncodeFile(fm: FileMap, lookup: map<string, int>): (r: Result<FileRecord>)
    ensures r.Success? <==> AllIndexed(fm.lines, lookup)
    ensures r.Success? ==> r.value.filename == fm.filename && r.value.lines.Keys == fm.lines.Keys
  {
    var lines :- EncodeLines(fm.lines, lookup);
    Success(FileRecord(fm.filename, lines))
  }

  /** One line with a test the lookup lacks makes the whole file fail with `KeyError`. */
  lemma EncodeFileFails(fm: FileMap, lookup: map<string, int>, n: int)
    requires n in fm.lines && EncodeLine(fm.lines[n], lookup).Failure?
    ensures EncodeFile(fm, lookup) == Failure(KeyError)
  {
    var t :| t in fm.lines[n] && t !in lookup;
    assert !AllIndexed(fm.lines, lookup);
  }

  /** A file record whose every line is the encoding of the file's is its encoding. */
  lemma EncodeFileOf(fm: FileMap, lookup: map<string, int>, d: Indices)
    requires d.Keys == fm.lines.Keys
    requires forall n :: n in d ==> EncodeLine(fm.lines[n], lookup) == Success(d[n])
    ensures EncodeFile(fm, lookup) == Success(FileRecord(fm.filename, d))
  {
    EncodeLinesOf(fm.lines, lookup, d);
  }

  /** One line of `_SourceTestMap.deserialize`: the set of names of the indices. */
  function DecodeLine(idxs: seq<int>, reverse: map<int, string>): (r: Result<set<string>>)
    ensures r.Failure? <==> exists i :: i in idxs && i !in reverse
    ensures r.Failure? ==> r.error == KeyError
    ensures r.Success? ==> forall t :: t in r.value <==> exists i :: i in idxs && reverse[i] == t
  {
    if exists i :: i in idxs && i !in reverse then Failure(KeyError)
    else Success(set i | i in idxs :: reverse[i])
  }

  /** Every index of every line has a name. */
  predicate AllNamed(lines: Indices, reverse: map<int, string>) {
    forall n, i :: n in lines && i in lines[n] ==> i in reverse
  }

  /** The line dict of `_SourceTestMap.deserialize`, or the first `KeyError`. */
  function DecodeLines(lines: Indices, reverse: map<int, string>): (r: Result<Lines>)
    ensures r.Success? <==> AllNamed(lines, reverse)
    ensures r.Success? ==> r.value.Keys == lines.Keys
    ensures r.Success? ==> forall n :: n in lines ==> DecodeLine(lines[n], reverse) == Success(r.value[n])
  {
    if AllNamed(lines, reverse) then Success(map n | n in lines :: DecodeLine(lines[n], reverse).value)
    else Failure(KeyError)
  }

  /** A line dict whose every line is the decoding of the record's is the decoding. */
  lemma DecodeLinesOf(lines: Indices, reverse: map<int, string>, d: Lines)
    requires d.Keys == lines.Keys
    requires forall n :: n in d ==> DecodeLine(lines[n], reverse) == Success(d[n])
    ensures DecodeLines(lines, reverse) == Success(d)
  {
    assert AllNamed(lines, reverse) by {
      forall n, i | n in lines && i in lines[n] ensures i in reverse {
        NamedIfDecoded(lines[n], reverse, i);
      }
    }
    var dec := DecodeLines(lines, reverse).value;
    forall n | n in d ensures d[n] == dec[n] {
      assert DecodeLine(lines[n], reverse) == Success(dec[n]);
    }
    assert d == dec;
  }

  /**
   * `_SourceTestMap.deserialize(record, reverse)`: a `_SourceTestMap` built through
   * `other`, whose line dict is a plain dict.
   */
  function DecodeFile(rec: FileRecord, reverse: map<int, string>): (r: Result<FileMap>)
    ensures r.Success? <==> AllNamed(rec.lines, reverse)
    ensures r.Success? ==> r.value.filename == rec.filename && !r.value.defaulting
    ensures r.Success? ==> r.value.lines.Keys == rec.lines.Keys
  {
    var lines :- DecodeLines(rec.lines, reverse);
    Success(FileMap(rec.filename, lines, false))
  }

  /** One line with an index the reverse lookup lacks makes the whole record fail with `KeyError`. */
  lemma DecodeFileFails(rec: FileRecord, reverse: map<int, string>, n: int)
    requires n in rec.lines && DecodeLine(rec.lines[n], reverse).Failure?
    ensures DecodeFile(rec, reverse) == Failure(KeyError)
  {
    var i :| i in rec.lines[n] && i !in reverse;
    assert !AllNamed(rec.lines, reverse);
  }

  /** A line dict whose every line is the decoding of the record's gives the decoded file. */
  lemma DecodeFileOf(rec: FileRecord, reverse: map<int, string>, d: Lines)
    requires d.Keys == rec.lines.Keys
    requires forall n :: n in d ==> DecodeLine(rec.lines[n], reverse) == Success(d[n])
    ensures DecodeFile(rec, reverse) == Success(FileMap(rec.filename, d, false))
  {
    DecodeLinesOf(rec.lines, reverse, d);
  }

  /** The records of the files of `order`, in that order. */
  function EncodeFiles(files: map<string, FileMap>, order: seq<string>, lookup: map<string, int>)
    : (r: Result<seq<(string, FileRecord)>>)
    ensures r.Success? <==> forall k :: 0 <= k < |order| ==> order[k] in files && AllIndexed(files[order[k]].lines, lookup)
    ensures r.Failure? ==> r.error == KeyError
    ensures r.Success? ==> |r.value| == |order|
    ensures r.Success? ==> forall k :: 0 <= k < |order| ==>
      order[k] in files && r.value[k] == (order[k], EncodeFile(files[order[k]], lookup).value)
    decreases |order|
  {
    if order == [] then Success([])
    else if order[0] !in files then Failure(KeyError)
    else
      var rec :- EncodeFile(files[order[0]], lookup);
      var rest :- EncodeFiles(files, order[1..], lookup);
      Success([(order[0], rec)] + rest)
  }

  /** A list holding, in file order, each file's name and record is the encoding of the files. */
  lemma EncodeFilesOf(files: map<string, FileMap>, order: seq<string>, lookup: map<string, int>,
                      entries: seq<(string, FileRecord)>)
    requires |entries| == |order|
    requires forall k :: 0 <= k < |order| ==>
      order[k] in files && EncodeFile(files[order[k]], lookup) == Success(entries[k].1) && entries[k].0 == order[k]
    ensures EncodeFiles(files, order, lookup) == Success(entries)
  {
    var r := EncodeFiles(files, order, lookup);
    assert r.Success? by {
      forall k | 0 <= k < |order| ensures order[k] in files && AllIndexed(files[order[k]].lines, lookup) {
        assert EncodeFile(files[order[k]], lookup).Success?;
      }
    }
    forall k | 0 <= k < |order| ensures r.value[k] == entries[k] { }
    assert r.value == entries;
  }

  /**
   * `SourceMap.serialize` with each file encoded by `_SourceTestMap.serialize(v, lookup)`:
   * indices come from `enumerate(self.suite())`, records follow the file order.
   */
  function Serialize(s: Snapshot): Result<Payload> {
    var suite :- Suite(s, []);
    var lookup := IndexOf(suite);
    var entries :- EncodeFiles(s.files, s.order, lookup);
    Success(Payload(ReverseOf(suite), entries))
  }

  /** The full suite of a well-formed map never raises. */
  lemma FullSuiteSucceeds(s: Snapshot)
    requires WellFormed(s)
    ensures Suite(s, []).Success?
  {
    SuiteAll(s, "");
  }

  /** `serialize` fails with `KeyError` when one file's record does. */
  lemma SerializeFailsAt(s: Snapshot, k: int)
    requires Suite(s, []).Success? && 0 <= k < |s.order| && s.order[k] in s.files
    requires EncodeFile(s.files[s.order[k]], IndexOf(Suite(s, []).value)).Failure?
    ensures Serialize(s) == Failure(KeyError)
  {
  }

  /** `serialize` gives the reverse lookup of the suite and the records built file by file. */
  lemma SerializeOf(s: Snapshot, entries: seq<(string, FileRecord)>)
    requires Suite(s, []).Success? && |entries| == |s.order|
    requires forall k :: 0 <= k < |s.order| ==>
      && s.order[k] in s.files && entries[k].0 == s.order[k]
      && EncodeFile(s.files[s.order[k]], IndexOf(Suite(s, []).value)) == Success(entries[k].1)
    ensures Serialize(s) == Success(Payload(ReverseOf(Suite(s, []).value), entries))
  {
    EncodeFilesOf(s.files, s.order, IndexOf(Suite(s, []).value), entries);
  }

  /** `self._source_map[k] = fm` on the plain dict of a `SourceMap`. */
  function Assign(s: Snapshot, k: string, fm: FileMap): Snapshot {
    if k in s.files then s.(files := s.files[k := fm])
    else Snapshot(s.order + [k], s.files[k := fm])
  }

  /**
   * The loop of `SourceMap._deserialize` with each record decoded by
   * `_SourceTestMap.deserialize(v, reverse)`; the first `KeyError` ends it.
   */
  function DecodeInto(s: Snapshot, entries: seq<(string, FileRecord)>, reverse: map<int, string>)
    : Result<Snapshot>
    decreases |entries|
  {
    if entries == [] then Success(s)
    else
      var fm :- DecodeFile(entries[0].1, reverse);
      DecodeInto(Assign(s, entries[0].0, fm), entries[1..], reverse)
  }

  /** The loop of `_deserialize` one record at a time. */
  lemma DecodeIntoStep(s: Snapshot, entries: seq<(string, FileRecord)>, reverse: map<int, string>)
    requires entries != []
    ensures DecodeFile(entries[0].1, reverse).Failure? ==>
      DecodeInto(s, entries, reverse) == Failure(DecodeFile(entries[0].1, reverse).error)
    ensures DecodeFile(entries[0].1, reverse).Success? ==>
      DecodeInto(s, entries, reverse) ==
        DecodeInto(Assign(s, entries[0].0, DecodeFile(entries[0].1, reverse).value), entries[1..], reverse)
  { }

  /** `SourceMap(payload)`: a fresh map filled by `_deserialize`. */
  function Deserialize(p: Payload): Result<Snapshot> {
    DecodeInto(EmptySnapshot(), p.entries, p.reverse)
  }

  // ---- As written: the two calls that miss an argument ----

  /**
   * `SourceMap.serialize` as written: `v.serialize(testname_lookup)` calls the static
   * method with one argument, which raises `TypeError` at the first file.
   */
  function SerializeAsWritten(s: Snapshot): Result<Payload> {
    var suite :- Suite(s, []);
    if s.order == [] then Success(Payload(ReverseOf(suite), []))
    else Failure(TypeError)
  }

  /**
   * `SourceMap._deserialize` as written: `_SourceTestMap.deserialize(v)` omits the reverse
   * lookup, which raises `TypeError` at the first record.
   */
  function DeserializeAsWritten(p: Payload): Result<Snapshot> {
    if p.entries == [] then Success(EmptySnapshot()) else Failure(TypeError)
  }

  /** As written, a map with a file cannot be serialized, and a payload with a record cannot be loaded. */
  lemma AsWrittenFails(s: Snapshot, p: Payload)
    requires WellFormed(s) && s.files != map[] && p.entries != []
    ensures SerializeAsWritten(s) == Failure(TypeError)
    ensures DeserializeAsWritten(p) == Failure(TypeError)
  {
    SuiteAll(s, "");
    var f :| f in s.files;
    assert f in s.order;
  }

  // ---- Properties of the corrected codec ----

  /** The reverse lookup returned by `serialize` inverts the index assignment. */
  predicate Inverts(lookup: map<string, int>, reverse: map<int, string>) {
    forall t :: t in lookup ==> lookup[t] in reverse && reverse[lookup[t]] == t
  }

  /** Decoding the encoding of a test set through an inverting reverse lookup gives the set back. */
  lemma LineRoundTrip(tests: set<string>, lookup: map<string, int>, reverse: map<int, string>)
    requires forall t :: t in tests ==> t in lookup
    requires Inverts(lookup, reverse)
    ensures EncodeLine(tests, lookup).Success?
    ensures DecodeLine(EncodeLine(tests, lookup).value, reverse) == Success(tests)
  {
    var idxs := EncodeLine(tests, lookup).value;
    EncodeLineSpec(tests, lookup);
    var back := DecodeLine(idxs, reverse);
    assert back.Success? by {
      forall i | i in idxs ensures i in reverse {
        var t :| t in tests && lookup[t] == i;
      }
    }
    forall t ensures t in back.value <==> t in tests {
      if t in tests { assert lookup[t] in idxs; }
      if t in back.value {
        var i :| i in idxs && reverse[i] == t;
        var u :| u in tests && lookup[u] == i;
      }
    }
    assert back.value == tests;
  }

  /** The same for a whole line dict. */
  lemma LinesRoundTrip(lines: Lines, lookup: map<string, int>, reverse: map<int, string>)
    requires AllIndexed(lines, lookup) && Inverts(lookup, reverse)
    ensures EncodeLines(lines, lookup).Success?
    ensures DecodeLines(EncodeLines(lines, lookup).value, reverse) == Success(lines)
  {
    var enc := EncodeLines(lines, lookup).value;
    forall n | n in enc ensures DecodeLine(enc[n], reverse) == Success(lines[n]) {
      assert EncodeLine(lines[n], lookup) == Success(enc[n]);
      LineRoundTrip(lines[n], lookup, reverse);
    }
    assert AllNamed(enc, reverse) by {
      forall n, i | n in enc && i in enc[n] ensures i in reverse {
        NamedIfDecoded(enc[n], reverse, i);
      }
    }
    var dec := DecodeLines(enc, reverse).value;
    forall n | n in lines ensures dec[n] == lines[n] {
      assert DecodeLine(enc[n], reverse) == Success(dec[n]);
    }
    assert dec == lines;
  }

  /** Every index of a list that decodes has a name. */
  lemma NamedIfDecoded(idxs: seq<int>, reverse: map<int, string>, i: int)
    requires DecodeLine(idxs, reverse).Success? && i in idxs
    ensures i in reverse
  {
  }

  /** The names of all tests of a map have indices in the lookup of its full suite. */
  lemma SuiteIndexesAll(s: Snapshot)
    requires WellFormed(s)
    ensures Suite(s, []).Success?
    ensures forall f :: f in s.files ==> AllIndexed(s.files[f].lines, IndexOf(Suite(s, []).value))
  {
    SuiteAll(s, "");
    var suite := Suite(s, []).value;
    forall f, n, t | f in s.files && n in s.files[f].lines && t in s.files[f].lines[n]
      ensures t in IndexOf(suite)
    {
      SuiteAll(s, t);
    }
  }

  /**
   * Decoding records whose keys are new and distinct succeeds and appends the keys to the
   * file order.
   */
  lemma {:induction false} DecodeAll(acc: Snapshot, entries: seq<(string, FileRecord)>,
                                      order: seq<string>, reverse: map<int, string>)
    requires |entries| == |order| && NoDup(order)
    requires forall k :: 0 <= k < |order| ==> entries[k].0 == order[k] && order[k] !in acc.files
    requires forall k :: 0 <= k < |entries| ==> DecodeFile(entries[k].1, reverse).Success?
    ensures DecodeInto(acc, entries, reverse).Success?
    ensures DecodeInto(acc, entries, reverse).value.order == acc.order + order
    ensures DecodeInto(acc, entries, reverse).value.files.Keys == acc.files.Keys + (set f | f in order)
    decreases |entries|
  {
    if entries == [] {
      assert acc.order + order == acc.order;
    } else {
      var dec := DecodeFile(entries[0].1, reverse).value;
      var acc' := Assign(acc, order[0], dec);
      assert acc' == Snapshot(acc.order + [order[0]], acc.files[order[0] := dec]);
      NoDupTail(order);
      forall k | 0 <= k < |order[1..]|
        ensures entries[1..][k].0 == order[1..][k] && order[1..][k] !in acc'.files
      {
        assert order[1..][k] == order[k + 1];
      }
      DecodeAll(acc', entries[1..], order[1..], reverse);
      assert acc'.order + order[1..] == acc.order + order;
      assert forall g :: g in order <==> g == order[0] || g in order[1..];
    }
  }

  /**
   * Under the same conditions, files already present stay and each decoded record is stored
   * under its key.
   */
  lemma {:induction false} DecodeAllStores(acc: Snapshot, entries: seq<(string, FileRecord)>,
                                            order: seq<string>, reverse: map<int, string>)
    requires |entries| == |order| && NoDup(order)
    requires forall k :: 0 <= k < |order| ==> entries[k].0 == order[k] && order[k] !in acc.files
    requires forall k :: 0 <= k < |entries| ==> DecodeFile(entries[k].1, reverse).Success?
    ensures DecodeInto(acc, entries, reverse).Success?
    ensures forall f :: f in acc.files ==>
      f in DecodeInto(acc, entries, reverse).value.files &&
      DecodeInto(acc, entries, reverse).value.files[f] == acc.files[f]
    ensures forall k :: 0 <= k < |order| ==>
      order[k] in DecodeInto(acc, entries, reverse).value.files &&
      DecodeInto(acc, entries, reverse).value.files[order[k]] == DecodeFile(entries[k].1, reverse).value
    decreases |entries|
  {
    if entries != [] {
      var dec := DecodeFile(entries[0].1, reverse).value;
      var acc' := Assign(acc, order[0], dec);
      assert acc' == Snapshot(acc.order + [order[0]], acc.files[order[0] := dec]);
      NoDupTail(order);
      forall k | 0 <= k < |order[1..]|
        ensures entries[1..][k].0 == order[1..][k] && order[1..][k] !in acc'.files
      {
        assert order[1..][k] == order[k + 1];
      }
      DecodeAllStores(acc', entries[1..], order[1..], reverse);
      forall k | 0 < k < |order| ensures entries[1..][k - 1] == entries[k] && order[1..][k - 1] == order[k] { }
    }
  }

  /** Each encoded file decodes to a map with the same filename and line content. */
  lemma FileRoundTrip(fm: FileMap, lookup: map<string, int>, reverse: map<int, string>)
    requires AllIndexed(fm.lines, lookup) && Inverts(lookup, reverse)
    ensures DecodeFile(EncodeFile(fm, lookup).value, reverse).Success?
    ensures SameContent(DecodeFile(EncodeFile(fm, lookup).value, reverse).value, fm)
  {
    LinesRoundTrip(fm.lines, lookup, reverse);
  }

  /**
   * Round trip: the payload `serialize` gives `deserialize`s to the same files in the same
   * order, each with the same filename and the same line-to-test-set content (as
   * `_SourceTestMap.__eq__` compares them); only the dict kind differs.
   */
  lemma RoundTrip(s: Snapshot)
    requires WellFormed(s)
    ensures Serialize(s).Success?
    ensures var r := Deserialize(Serialize(s).value);
      && r.Success? && r.value.order == s.order && r.value.files.Keys == s.files.Keys
      && forall f :: f in s.files ==> SameContent(r.value.files[f], s.files[f])
  {
    EncodedRecordsDecode(s);
    var p := Serialize(s).value;
    DecodeAll(EmptySnapshot(), p.entries, s.order, p.reverse);
    DecodeAllStores(EmptySnapshot(), p.entries, s.order, p.reverse);
    var r := Deserialize(p).value;
    assert EmptySnapshot().order + s.order == s.order;
    forall f | f in s.files ensures SameContent(r.files[f], s.files[f]) {
      assert f in s.order;
      var k :| 0 <= k < |s.order| && s.order[k] == f;
    }
  }

  /**
   * `serialize` succeeds on a well-formed map and gives one record per file, in file order,
   * each decoding through the reverse lookup to the file's content.
   */
  lemma EncodedRecordsDecode(s: Snapshot)
    requires WellFormed(s)
    ensures Serialize(s).Success?
    ensures var p := Serialize(s).value;
      && |p.entries| == |s.order|
      && forall k :: 0 <= k < |s.order| ==>
        && p.entries[k].0 == s.order[k]
        && DecodeFile(p.entries[k].1, p.reverse).Success?
        && SameContent(DecodeFile(p.entries[k].1, p.reverse).value, s.files[s.order[k]])
  {
    SuiteIndexesAll(s);
    var suite := Suite(s, []).value;
    var lookup := IndexOf(suite);
    var reverse := ReverseOf(suite);
    forall k | 0 <= k < |s.order| ensures s.order[k] in s.files { assert s.order[k] in s.order; }
    var entries := EncodeFiles(s.files, s.order, lookup).value;
    assert Serialize(s) == Success(Payload(reverse, entries));
    forall k | 0 <= k < |entries|
      ensures DecodeFile(entries[k].1, reverse).Success?
      ensures SameContent(DecodeFile(entries[k].1, reverse).value, s.files[s.order[k]])
    {
      FileRoundTrip(s.files[s.order[k]], lookup, reverse);
    }
  }

  /** Every file `_deserialize` stores holds a plain dict, as `_SourceTestMap(other=...)` builds it. */
  lemma {:induction false} DecodeIntoPlain(s: Snapshot, entries: seq<(string, FileRecord)>, reverse: map<int, string>)
    requires forall f :: f in s.files ==> !s.files[f].defaulting
    requires DecodeInto(s, entries, reverse).Success?
    ensures forall f :: f in DecodeInto(s, entries, reverse).value.files ==>
      !DecodeInto(s, entries, reverse).value.files[f].defaulting
    decreases |entries|
  {
    if entries != [] {
      var fm := DecodeFile(entries[0].1, reverse).value;
      DecodeIntoPlain(Assign(s, entries[0].0, fm), entries[1..], reverse);
    }
  }

  /** A map loaded from a payload has no defaultdict left. */
  lemma DeserializedPlain(p: Payload)
    requires Deserialize(p).Success?
    ensures forall f :: f in Deserialize(p).value.files ==> !Deserialize(p).value.files[f].defaulting
  {
    DecodeIntoPlain(EmptySnapshot(), p.entries, p.reverse);
  }

  /** An index the reverse lookup lacks makes `deserialize` raise `KeyError`. */
  lemma MissingIndexFails(rec: FileRecord, reverse: map<int, string>, n: int, i: int)
    requires n in rec.lines && i in rec.lines[n] && i !in reverse
    ensures DecodeFile(rec, reverse) == Failure(KeyError)
  {
  }

  /** The lookup of the per-file example. */
  function ExampleLookup(): map<string, int> {
    map["test_foo" := 0, "test_bar" := 1, "test_foo_again" := 2]
  }

  /** Line 1 of the per-file example: `{test_foo, test_bar}` encodes to `[0, 1]`. */
  lemma ExampleLine1(tests: set<string>)
    requires tests == {"test_foo", "test_bar"}
    ensures EncodeLine(tests, ExampleLookup()) == Success([0, 1])
  {
    var lookup := ExampleLookup();
    assert "test_foo" != "test_bar";
    assert |tests| == 2;
    assert IndexOfSome(tests, lookup, 0) && IndexOfSome(tests, lookup, 1);
    var v := EncodeLine(tests, lookup).value;
    EncodeLineSpec(tests, lookup);
    assert |v| == 2 && 0 in v && 1 in v && IntSorted(v);
    assert v[0] <= v[1];
    assert v[0] in v && v[1] in v;
    assert forall i :: i in v ==> IndexOfSome(tests, lookup, i);
    assert v == [0, 1];
  }

  /** Line 5 of the per-file example: `{test_foo_again}` encodes to `[2]`. */
  lemma ExampleLine5(tests: set<string>)
    requires tests == {"test_foo_again"}
    ensures EncodeLine(tests, ExampleLookup()) == Success([2])
  {
    var lookup := ExampleLookup();
    assert |tests| == 1;
    var v := EncodeLine(tests, lookup).value;
    EncodeLineSpec(tests, lookup);
    assert |v| == 1 && v[0] in v;
    assert IndexOfSome(tests, lookup, v[0]);
    var t :| t in tests && t in lookup && lookup[t] == v[0];
    assert t == "test_foo_again";
    assert v == [2];
  }

  /** A two-line file whose lines encode to `i1` and `i5` serializes to those index lists. */
  lemma TwoLineFile(fm: FileMap, lookup: map<string, int>, t1: set<string>, t5: set<string>, i1: seq<int>, i5: seq<int>)
    requires fm.lines == map[1 := t1, 5 := t5]
    requires EncodeLine(t1, lookup) == Success(i1) && EncodeLine(t5, lookup) == Success(i5)
    ensures EncodeFile(fm, lookup) == Success(FileRecord(fm.filename, map[1 := i1, 5 := i5]))
  {
    var d: Indices := map[1 := i1, 5 := i5];
    assert d.Keys == fm.lines.Keys;
    EncodeFileOf(fm, lookup, d);
  }

  /**
   * The whole per-file example: `foo.py` with `test_foo` and `test_bar` on line 1 and
   * `test_foo_again` on line 5 serializes to `('foo.py', {1: [0, 1], 5: [2]})`.
   */
  lemma ExampleFile(fm: FileMap)
    requires fm.filename == "foo.py"
    requires fm.lines == map[1 := {"test_foo", "test_bar"}, 5 := {"test_foo_again"}]
    ensures EncodeFile(fm, ExampleLookup()) == Success(FileRecord("foo.py", map[1 := [0, 1], 5 := [2]]))
  {
    ExampleLine1({"test_foo", "test_bar"});
    ExampleLine5({"test_foo_again"});
    TwoLineFile(fm, ExampleLookup(), {"test_foo", "test_bar"}, {"test_foo_again"}, [0, 1], [2]);
  }
}
