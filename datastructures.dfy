/**
 * The influence map as the objects of codemon/datastructures.py: a `SourceTestMap` per
 * file whose line dict is updated in place, and a `SourceMap` holding one per filename.
 * Each method is proved against the value-level operations of `LineMaps` and `Codec`.
 */
module DataStructures {
  import opened Wrappers
  import opened Ordering
  import opened LineMaps
  import opened Codec

  /**
   * `_SourceTestMap`: the tests that ran each line of one file. `defaulting` tells a
   * `defaultdict(set)` (built from a filename) from the plain dict `deserialize` builds.
   */
  class SourceTestMap {
    const filename: string
    const defaulting: bool
    var lines: Lines

    /** The value this object holds. */
    function Model(): FileMap
      reads this
    {
      FileMap(filename, lines, defaulting)
    }

    /** `_SourceTestMap(filename)`: an empty defaultdict. */
    constructor Empty(filename: string)
      ensures Model() == NewFileMap(filename)
    {
      this.filename := filename;
      this.defaulting := true;
      this.lines := map[];
    }

    /** `_SourceTestMap(other=(filename, d))`: takes over a plain dict. */
    constructor Loaded(filename: string, lines: Lines)
      ensures Model() == FileMap(filename, lines, false)
    {
      this.filename := filename;
      this.defaulting := false;
      this.lines := lines;
    }

    /**
     * `_SourceTestMap(filename, other)`: `assert filename or other` fails when neither is
     * given; a given filename wins over `other`.
     */
    static method Create(filename: string, other: Option<(string, Lines)>) returns (r: Result<SourceTestMap>)
      ensures r.Failure? <==> filename == "" && other.None?
      ensures r.Failure? ==> r.error == AssertionError
      ensures r.Success? && filename != "" ==> fresh(r.value) && r.value.Model() == NewFileMap(filename)
      ensures r.Success? && filename == "" ==>
        fresh(r.value) && r.value.Model() == FileMap(other.value.0, other.value.1, false)
    {
      if filename != "" {
        var m := new SourceTestMap.Empty(filename);
        r := Success(m);
      } else if other.Some? {
        var m := new SourceTestMap.Loaded(other.value.0, other.value.1);
        r := Success(m);
      } else {
        r := Failure(AssertionError);
      }
    }

    /**
     * `self[n]`: the tests of line `n`. On a defaultdict an absent line is inserted with
     * an empty set; on a plain dict it raises `KeyError`.
     */
    method GetItem(n: int) returns (r: Result<set<string>>)
      modifies this
      ensures var g := GetLine(old(Model()), n);
        && (r.Success? <==> g.Success?)
        && (g.Success? ==> Model() == g.value.0 && r.value == g.value.1)
        && (g.Failure? ==> r == Failure(KeyError) && Model() == old(Model()))
    {
      if n in lines {
        r := Success(lines[n]);
      } else if defaulting {
        lines := lines[n := {}];
        r := Success({});
      } else {
        r := Failure(KeyError);
      }
    }

    /** `del self[n]`: `KeyError` when the line is absent. */
    method DelItem(n: int) returns (out: Outcome)
      modifies this
      ensures var d := DeleteLine(old(Model()), n);
        && (out.Pass? <==> d.Success?)
        && (d.Success? ==> Model() == d.value)
        && (d.Failure? ==> out == Fail(KeyError) && Model() == old(Model()))
    {
      if n in lines {
        lines := map k | k in lines && k != n :: lines[k];
        out := Pass;
      } else {
        out := Fail(KeyError);
      }
    }

    /** `add(n, test)`: `self._dict[n].add(test)`. */
    method Add(n: int, test: string) returns (out: Outcome)
      modifies this
      ensures var a := LineMaps.Add(old(Model()), n, test);
        && (out.Pass? <==> a.Success?)
        && (a.Success? ==> Model() == a.value)
        && (a.Failure? ==> out == Fail(KeyError) && Model() == old(Model()))
    {
      if n in lines || defaulting {
        lines := AddTest(lines, n, test);
        out := Pass;
      } else {
        out := Fail(KeyError);
      }
    }

    /**
     * The loop of `SourceMap.__setitem__` on this file: `add(num, test)` for each number of
     * `nums` in turn, up to the first `KeyError`.
     */
    method AddEach(nums: seq<int>, test: string) returns (out: Outcome)
      modifies this
      ensures (Model(), out) == AddAll(old(Model()), nums, test)
    {
      out := Pass;
      var i := 0;
      while i < |nums|
        invariant 0 <= i <= |nums|
        invariant out == Pass
        invariant AddAll(old(Model()), nums, test) == AddAll(Model(), nums[i..], test)
      {
        AddAllStep(Model(), nums[i..], test);
        var o := Add(nums[i], test);
        if o.Fail? {
          out := o;
          break;
        }
        assert nums[i..][1..] == nums[i + 1..];
        i := i + 1;
      }
      assert out == Pass ==> nums[i..] == [];
    }

    /** `is_untested`: the line dict is empty. */
    predicate IsUntested()
      reads this
      ensures IsUntested() <==> |lines| == 0
    {
      LineMaps.IsUntested(Model())
    }

    /** `all_affected_tests`: every test of some line, each once. */
    function AllAffectedTests(): (r: seq<string>)
      reads this
      ensures NoDup(r)
      ensures forall t :: t in r <==> exists n :: n in lines && t in lines[n]
    {
      AffectedListSpec(lines);
      AffectedList(lines)
    }

    /** `self == other`: same filename and same line-to-tests content. */
    predicate Equals(other: SourceTestMap)
      reads this, other
      ensures Equals(other) <==> filename == other.filename && lines == other.lines
    {
      SameContent(Model(), other.Model())
    }

    /**
     * `_SourceTestMap.serialize(self, lookup)`: each line's tests replaced by the ascending
     * list of their indices; `KeyError` for a test without one.
     */
    method Serialize(lookup: map<string, int>) returns (r: Result<FileRecord>)
      ensures r == EncodeFile(Model(), lookup)
    {
      var fm := Model();
      var d: Indices := map[];
      var todo := fm.lines.Keys;
      while todo != {}
        invariant todo <= fm.lines.Keys
        invariant d.Keys == fm.lines.Keys - todo
        invariant forall n :: n in d ==> EncodeLine(fm.lines[n], lookup) == Success(d[n])
        decreases |todo|
      {
        var n := Pick(todo);
        var enc := EncodeLine(fm.lines[n], lookup);
        if enc.Failure? {
          EncodeFileFails(fm, lookup, n);
          r := Failure(KeyError);
          return;
        }
        d := d[n := enc.value];
        todo := todo - {n};
      }
      EncodeFileOf(fm, lookup, d);
      r := Success(FileRecord(fm.filename, d));
    }

    /**
     * `_SourceTestMap.deserialize(record, reverse)`: each index list replaced by the set of
     * the names of its indices, in a plain dict; `KeyError` for an index without a name.
     */
    static method Deserialize(rec: FileRecord, reverse: map<int, string>) returns (r: Result<SourceTestMap>)
      ensures r.Success? <==> DecodeFile(rec, reverse).Success?
      ensures r.Failure? ==> r.error == KeyError
      ensures r.Success? ==> fresh(r.value) && r.value.Model() == DecodeFile(rec, reverse).value
    {
      var d: Lines := map[];
      var todo := rec.lines.Keys;
      while todo != {}
        invariant todo <= rec.lines.Keys
        invariant d.Keys == rec.lines.Keys - todo
        invariant forall n :: n in d ==> DecodeLine(rec.lines[n], reverse) == Success(d[n])
        decreases |todo|
      {
        var n := Pick(todo);
        var dec := DecodeLine(rec.lines[n], reverse);
        if dec.Failure? {
          DecodeFileFails(rec, reverse, n);
          r := Failure(KeyError);
          return;
        }
        d := d[n := dec.value];
        todo := todo - {n};
      }
      DecodeFileOf(rec, reverse, d);
      var m := new SourceTestMap.Loaded(rec.filename, d);
      r := Success(m);
    }
  }

  /** The value of each object of a filename-to-object dict. */
  function FilesOf(ms: map<string, SourceTestMap>): (r: map<string, FileMap>)
    reads ms.Values
    ensures r.Keys == ms.Keys && forall f :: f in ms ==> r[f] == ms[f].Model()
  {
    map f | f in ms :: ms[f].Model()
  }

  /** A map that adds at most the key `k` and differs at most at `k` is an update at `k`. */
  lemma UpdatedAt<K, V>(after: map<K, V>, before: map<K, V>, k: K)
    requires after.Keys == before.Keys + {k}
    requires forall g :: g in after && g != k ==> after[g] == before[g]
    ensures after == before[k := after[k]]
  {
  }

  /** A map that loses the key `k` and agrees elsewhere is a removal of `k`. */
  lemma RemovedAt<K, V>(after: map<K, V>, before: map<K, V>, k: K)
    requires after.Keys == before.Keys - {k}
    requires forall g :: g in after ==> after[g] == before[g]
    ensures after == before - {k}
  {
  }

  /**
   * `SourceMap`: a `SourceTestMap` per filename, kept in the dict's insertion order. Each
   * filename holds its own object.
   */
  class SourceMap {
    var order: seq<string>
    var maps: map<string, SourceTestMap>

    /** The file order lists every key once, and no two keys share an object. */
    ghost predicate Valid()
      reads this
    {
      && NoDup(order)
      && (forall f :: f in order <==> f in maps)
      && (forall f, g :: f in maps && g in maps && f != g ==> maps[f] != maps[g])
    }

    /** The value this map and its objects hold. */
    function Model(): Snapshot
      reads this, maps.Values
    {
      Snapshot(order, FilesOf(maps))
    }

    /** A valid map holds a well-formed value. */
    lemma ModelWellFormed()
      requires Valid()
      ensures WellFormed(Model())
    {
    }

    /** `SourceMap()`: no files. */
    constructor ()
      ensures Valid() && Model() == EmptySnapshot() && maps == map[]
    {
      order := [];
      maps := map[];
    }

    /**
     * `touch(f)`: adds an empty `SourceTestMap(f)` when `f` is absent. Objects already
     * present stay in place.
     */
    method Touch(f: string) returns (out: Outcome)
      requires Valid()
      modifies this
      ensures Valid()
      ensures var t := LineMaps.Touch(old(Model()), f);
        && (out.Pass? <==> t.Success?)
        && (t.Success? ==> Model() == t.value)
        && (t.Failure? ==> out == Fail(t.error) && Model() == old(Model()))
      ensures forall g :: g in old(maps) ==> g in maps && maps[g] == old(maps[g])
      ensures forall g :: g in maps ==> g in old(maps) || (g == f && fresh(maps[g]))
    {
      if f !in maps {
        if f == "" {
          out := Fail(AssertionError);
          return;
        }
        ghost var before := FilesOf(maps);
        var m := new SourceTestMap.Empty(f);
        NoDupAppend(order, f);
        maps := maps[f := m];
        order := order + [f];
        UpdatedAt(FilesOf(maps), before, f);
      }
      out := Pass;
    }

    /**
     * `self[f] = (test, nums)`: `touch(f)`, then `add(num, test)` on that file's object for
     * each number of `nums` in turn.
     */
    method SetItem(f: string, test: string, nums: seq<int>) returns (out: Outcome)
      requires Valid()
      modifies this, maps.Values
      ensures Valid()
      ensures out == LineMaps.SetItem(old(Model()), f, test, nums).1
      ensures Model() == LineMaps.SetItem(old(Model()), f, test, nums).0
      ensures forall g :: g in maps ==> (g in old(maps) && maps[g] == old(maps[g])) || fresh(maps[g])
    {
      ghost var s0 := Model();
      out := Touch(f);
      if out.Fail? {
        return;
      }
      SetItemAfterTouch(s0, f, test, nums);
      out := AddToFile(f, test, nums);
    }

    /** The loop of `__setitem__`: `add(num, test)` on the object of a present file. */
    method AddToFile(f: string, test: string, nums: seq<int>) returns (out: Outcome)
      requires Valid() && f in maps
      modifies maps[f]
      ensures var (fm, o) := AddAll(old(Model()).files[f], nums, test);
        out == o && Model() == old(Model()).(files := old(Model()).files[f := fm])
    {
      var m := maps[f];
      ghost var before := FilesOf(maps);
      out := m.AddEach(nums, test);
      forall g | g in maps && g != f ensures FilesOf(maps)[g] == before[g] {
        assert maps[g] != m;
      }
      UpdatedAt(FilesOf(maps), before, f);
    }

    /** `del self[f]`: `KeyError` when absent. */
    method Delete(f: string) returns (out: Outcome)
      requires Valid()
      modifies this
      ensures Valid()
      ensures var d := LineMaps.Delete(old(Model()), f);
        && (out.Pass? <==> d.Success?)
        && (d.Success? ==> Model() == d.value)
        && (d.Failure? ==> out == Fail(KeyError) && Model() == old(Model()))
    {
      if f in maps {
        ghost var before := FilesOf(maps);
        maps := maps - {f};
        order := Without(order, f);
        RemovedAt(FilesOf(maps), before, f);
        out := Pass;
      } else {
        out := Fail(KeyError);
      }
    }

    /** `self[f]`: the object held for `f` (the same object, not a copy), or `KeyError`. */
    function Item(f: string): (r: Result<SourceTestMap>)
      reads this, maps.Values
      ensures r.Success? <==> f in maps
      ensures r.Success? ==> r.value == maps[f] && Lookup(Model(), f) == Success(r.value.Model())
    {
      if f in maps then Success(maps[f]) else Failure(KeyError)
    }

    /** `files`: every filename once, in dict order. */
    function Files(): (r: seq<string>)
      reads this
      requires Valid()
      ensures NoDup(r) && forall f :: f in r <==> f in maps
    {
      order
    }

    /** `untested_files`: exactly the files whose line dict is empty, each once. */
    function UntestedFiles(): (r: seq<string>)
      reads this, maps.Values
      requires Valid()
      ensures NoDup(r)
      ensures forall f :: f in r <==> f in maps && maps[f].IsUntested()
    {
      UntestedFilesSpec(Model());
      LineMaps.UntestedFiles(Model())
    }

    /** The files `suite(filenames)` walks: the ones asked for, or every known file. */
    function Requested(fs: seq<string>): seq<string>
      reads this
    {
      if fs == [] then order else fs
    }

    /**
     * `suite(fs)`: the affected tests of each file of `fs` (all files when `fs` is empty) in
     * turn; `KeyError` for an unknown file. A test appears once per file it covers.
     */
    function Suite(fs: seq<string>): (r: Result<seq<string>>)
      reads this, maps.Values
      requires Valid()
      ensures r.Failure? <==> exists i :: 0 <= i < |Requested(fs)| && Requested(fs)[i] !in maps
      ensures r.Failure? ==> r.error == KeyError
      ensures r.Success? ==> forall t :: multiset(r.value)[t] == FilesHitting(Model().files, Requested(fs), t)
    {
      var names := Requested(fs);
      SuiteOfFails(Model().files, names);
      var r := LineMaps.Suite(Model(), fs);
      if r.Success? then
        forall t ensures multiset(r.value)[t] == FilesHitting(Model().files, names, t) {
          SuiteOfCounts(Model().files, names, t);
        }
        r
      else r
    }

    /**
     * `serialize()`: indices from `enumerate(self.suite())`, a record per file in dict
     * order through `_SourceTestMap.serialize(v, lookup)`, and the reverse lookup.
     */
    method Serialize() returns (r: Result<Payload>)
      requires Valid()
      ensures r == Codec.Serialize(Model())
    {
      var s := Model();
      ModelWellFormed();
      FullSuiteSucceeds(s);
      var suite := LineMaps.Suite(s, []).value;
      var lookup := IndexOf(suite);
      var entries: seq<(string, FileRecord)> := [];
      var i := 0;
      while i < |order|
        invariant 0 <= i <= |order| && |entries| == i
        invariant forall k :: 0 <= k < i ==>
          entries[k].0 == s.order[k] && EncodeFile(s.files[s.order[k]], lookup) == Success(entries[k].1)
      {
        var rec := maps[order[i]].Serialize(lookup);
        if rec.Failure? {
          SerializeFailsAt(s, i);
          r := Failure(KeyError);
          return;
        }
        entries := entries + [(order[i], rec.value)];
        i := i + 1;
      }
      SerializeOf(s, entries);
      r := Success(Payload(ReverseOf(suite), entries));
    }

    /** `self._source_map[k] = m` on the dict itself, as `_deserialize` does. */
    method Put(k: string, m: SourceTestMap)
      requires Valid() && m !in maps.Values
      modifies this
      ensures Valid()
      ensures Model() == Codec.Assign(old(Model()), k, m.Model())
    {
      ghost var before := FilesOf(maps);
      if k !in maps {
        NoDupAppend(order, k);
        order := order + [k];
      }
      maps := maps[k := m];
      UpdatedAt(FilesOf(maps), before, k);
    }

    /**
     * `SourceMap(payload)`: an empty map filled by `_deserialize`, each record decoded with
     * `_SourceTestMap.deserialize(v, reverse_testname_lookup)`; `KeyError` at the first
     * index without a name.
     */
    static method Load(p: Payload) returns (r: Result<SourceMap>)
      ensures r.Success? <==> Deserialize(p).Success?
      ensures r.Failure? ==> r.error == KeyError
      ensures r.Success? ==> fresh(r.value) && r.value.Valid() && r.value.Model() == Deserialize(p).value
    {
      var sm := new SourceMap();
      var i := 0;
      while i < |p.entries|
        invariant 0 <= i <= |p.entries|
        invariant fresh(sm) && sm.Valid()
        invariant Deserialize(p) == DecodeInto(sm.Model(), p.entries[i..], p.reverse)
      {
        ghost var cur := sm.Model();
        DecodeIntoStep(cur, p.entries[i..], p.reverse);
        var ok := LoadEntry(sm, p.entries[i], p.reverse);
        if !ok {
          r := Failure(KeyError);
          return;
        }
        assert p.entries[i..][1..] == p.entries[i + 1..];
        i := i + 1;
      }
      r := Success(sm);
    }

    /** One round of `_deserialize`: decode one file's record and store it under its name. */
    static method LoadEntry(sm: SourceMap, entry: (string, FileRecord), reverse: map<int, string>) returns (ok: bool)
      requires sm.Valid()
      modifies sm
      ensures sm.Valid()
      ensures ok <==> DecodeFile(entry.1, reverse).Success?
      ensures !ok ==> DecodeFile(entry.1, reverse).error == KeyError
      ensures ok ==> sm.Model() == Codec.Assign(old(sm.Model()), entry.0, DecodeFile(entry.1, reverse).value)
    {
      var fm := SourceTestMap.Deserialize(entry.1, reverse);
      if fm.Failure? {
        return false;
      }
      sm.Put(entry.0, fm.value);
      return true;
    }
  }
}
