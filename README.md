# codemon in Dafny

codemon builds an *influence map*: for every source file, the set of tests that executed each
of its lines. It uses the map to run only the tests that a changed file affects. This project
models the sequential core of that system and proves what it does:

- **The influence map** (`codemon/datastructures.py`).
  - `LineMaps` states the map on values. A `FileMap` is one `_SourceTestMap`: its filename, its
    line-to-tests dict, and whether that dict is a `defaultdict(set)`. A `Snapshot` is one
    `SourceMap`: its files in insertion order, each with its `FileMap`.
  - `DataStructures` holds the classes `SourceTestMap` and `SourceMap`, whose methods update
    their fields in place. Each method is proved against the value-level function that
    specifies it.
  - `Codec` is the index-compressed encoding in `serialize` and `deserialize`, with its round
    trip.
- **The per-poll change detector** (`Watcher.test_if_changed`, `codemon/watcher.py`).
  - `Watching` has the `Watcher` class and its baseline field `mtimes`.
  - `Poll` is the value-level function that specifies one call.
  - The lemmas say which files a poll reports, which baselines it keeps, and when it raises.
- **The omit-test patterns** (`Config`, `codemon/config.py`).
  - `Configuration` has the defaults of `Config.__init__`.
  - Each pattern is rewritten to `'^' + p.replace('*', '.*')`.
  - That rewrite is compiled and searched for by a small backtracking model of Python's `re`
    over the fragment these patterns produce: literals, `.`, `x*` and `^`.
  - A lemma proves that the regex finds a name exactly when the pattern, read as a glob,
    matches a prefix of the name.
- **The build orchestration** (`InfluenceMapper`, `codemon/codemon.py`).
  - `Mapping` covers the filtering of omitted tests and the folding of each test's coverage
    data into the map.
  - It also covers the control flow of `run` and the suite handed over by
    `run_affected_tests`.
  - The coverage probe is an input function from a test name to its coverage data.
  - The subclass hooks appear only as steps in a trace.

Errors the Python code raises are values of `Wrappers.Error`:

| error | raised by |
|---|---|
| `KeyError` | a `dict` lookup |
| `AssertionError` | `assert filename or other` |
| `TypeError` | a call with a missing argument |
| `NoTestsError` | the "No tests to run!" exception in `run` |
| `FalsyFilename` | the "Got a falsy filename!" exception in `test_if_changed` |

A method that can raise returns a `Result` or an `Outcome`.

With the corrected `_deserialize` of "## Findings", a map read back from its file holds plain
dicts, while a new map holds defaultdicts. So rebuilding without the cache from such a stored map
raises `KeyError` as soon as a test executes a line the stored map has never seen in a known file
(`Mapping.RestoredMapRejectsNewLine`). As written, reading back a map with any file already
raises `TypeError`.

## Model

| member | source | states |
|---|---|---|
| LineMaps.AddTest | codemon/datastructures.py:78-79 | Adding a test to line `n` makes `n` present with the test in its set. The set holds nothing new besides the test, and every other line is unchanged. |
| LineMaps.Add | codemon/datastructures.py:78-79 | `add(n, test)` raises `KeyError` exactly when `n` is absent and the dict is a plain dict. Otherwise it adds the test to line `n`. |
| LineMaps.GetLine | codemon/datastructures.py:24-25 | `self[n]` returns the set of line `n`. On a defaultdict an absent line is inserted with an empty set; on a plain dict it raises `KeyError`. A present line leaves the map unchanged. |
| LineMaps.DeleteLine | codemon/datastructures.py:27-28 | `del self[n]` raises `KeyError` exactly for an absent line. Otherwise it removes only that line. |
| LineMaps.Affected | codemon/datastructures.py:40-48 | `all_affected_tests` is the union of the line sets: a test is in it iff some line holds it. |
| LineMaps.AffectedListSpec | codemon/datastructures.py:40-48 | The list `all_affected_tests` returns holds each test of the file's lines exactly once, and no other test. |
| LineMaps.AffectedList | codemon/datastructures.py:40-48 | Definition of `all_affected_tests` as a list, in ascending order; specified by `LineMaps.AffectedListSpec`. |
| LineMaps.EmptySnapshot | codemon/datastructures.py:88-89 | `SourceMap()` has no files and is well formed. |
| LineMaps.Lookup | codemon/datastructures.py:94-95 | `self[f]` succeeds iff `f` is present, and then gives its `_SourceTestMap`. Otherwise it raises `KeyError`. |
| LineMaps.Without | codemon/datastructures.py:105-106 | The file order after `del self[f]` lists exactly the other files, still without duplicates. |
| LineMaps.Delete | codemon/datastructures.py:105-106 | Definition of `SourceMap.__delitem__`; specified by `LineMaps.DeleteSpec`. |
| LineMaps.DeleteSpec | codemon/datastructures.py:105-106 | `del self[f]` raises `KeyError` iff `f` is absent. Otherwise it removes exactly `f`, keeps every other file's map, and leaves the map well formed. |
| LineMaps.Touch | codemon/datastructures.py:157-159 | `touch(f)` raises `AssertionError` iff `f` is absent and empty; otherwise `f` is present afterwards and no other file is added. Specified in full by `LineMaps.TouchPresent` and `LineMaps.TouchAbsent`. |
| LineMaps.TouchPresent | codemon/datastructures.py:157-159 | `touch(f)` on a present file changes nothing. |
| LineMaps.TouchAbsent | codemon/datastructures.py:157-159 | `touch(f)` on an absent, non-empty name adds exactly `f`, last in file order. Its map equals `_SourceTestMap(f)`, is untested, and every other file is as it was. |
| LineMaps.AddLines | codemon/datastructures.py:102-103 | Definition of the loop of `__setitem__` on a defaultdict; specified by `LineMaps.AddLinesSpec` and `LineMaps.AddLinesIdempotent`. |
| LineMaps.AddAll | codemon/datastructures.py:102-103 | The loop of `__setitem__` keeps the filename and the kind of dict, never loses a line, and either passes or raises `KeyError`. Specified in full by `LineMaps.AddAllComplete`, `LineMaps.AddAllFails` and `LineMaps.AddAllStopsAt`. |
| LineMaps.SetItem | codemon/datastructures.py:97-103 | Definition of `map[f] = (test, nums)`; specified by `LineMaps.SetItemSpec`, `LineMaps.PlainFileRejectsNewLine` and `LineMaps.SetItemIdempotent`. |
| LineMaps.AddLinesSpec | codemon/datastructures.py:102-103 | The loop gives every listed line the test, added to its old set, or to `{}` when the line was absent. It adds no other line and leaves unlisted lines unchanged. |
| LineMaps.AddAllComplete | codemon/datastructures.py:102-103 | On a defaultdict, or when every listed line is present, the whole loop runs and passes. |
| LineMaps.AddAllFails | codemon/datastructures.py:102-103 | On a plain dict the loop raises `KeyError` iff some listed line is absent. It never adds a line. |
| LineMaps.AddAllStopsAt | codemon/datastructures.py:102-103 | On a plain dict whose first absent listed line is `nums[k]`, the loop raises `KeyError` there. The lines before `k` have gained the test, the later ones have not, and no line is added. |
| LineMaps.SetItemSpec | codemon/datastructures.py:97-103 | `map[f] = (test, nums)` on an absent file or a defaultdict file passes. It makes `f` present, last in file order when new. It adds `test` to every listed line and leaves other lines and other files unchanged. |
| LineMaps.PlainFileRejectsNewLine | codemon/datastructures.py:102-103 | Through `add` (line 79), on a present file whose dict is plain, `map[f] = (test, nums)` with a line `f` lacks raises `KeyError` and adds no line. |
| LineMaps.AddLinesIdempotent | codemon/datastructures.py:102-103 | Adding the same test to the same lines twice gives the same line dict as adding it once. |
| LineMaps.SetItemIdempotent | codemon/datastructures.py:97-103 | Repeating `map[f] = (test, nums)` leaves the whole map as the first call left it, with the same outcome. That outcome is a pass on an absent or defaultdict file. It is `AssertionError` for an absent empty name. On a plain-dict file with a new listed line, both calls raise `KeyError` at that line, and the second only re-adds the test to the lines before it. |
| LineMaps.AddTestCommutes | codemon/datastructures.py:36-38 | Adding two tests in either order gives the same line dict, so `__eq__` does not depend on the order tests were added. |
| LineMaps.GetLineLosesUntested | codemon/datastructures.py:24-25 | Reading an absent line of an untested defaultdict returns `{}`, and the file is no longer untested. |
| LineMaps.UntestedAmongSpec | codemon/datastructures.py:118-122 | The untested files of a list are exactly the present files of that list whose line dict is empty. The result has no duplicates when the list has none. |
| LineMaps.UntestedFilesSpec | codemon/datastructures.py:118-122 | `untested_files` lists every present file whose line dict is empty, once each, and no other file. |
| LineMaps.UntestedFiles | codemon/datastructures.py:118-122 | Definition of `untested_files` on values; specified by `LineMaps.UntestedFilesSpec`. |
| LineMaps.SuiteOf | codemon/datastructures.py:130-132 | Definition of the loop of `suite` over a list of files; specified by `LineMaps.SuiteOfFails`, `LineMaps.SuiteOfCounts` and `LineMaps.SuiteOfMembers`. |
| LineMaps.Suite | codemon/datastructures.py:124-132 | Definition of `suite(filenames)`, a falsy argument meaning all files; specified by `LineMaps.SuiteAll` and the `SuiteOf` lemmas. |
| LineMaps.SuiteOfFails | codemon/datastructures.py:124-132 | `suite(fs)` raises iff some file of `fs` is absent, and then the error is `KeyError`. |
| LineMaps.SuiteOfCounts | codemon/datastructures.py:130-132 | Each test occurs in the suite once for every listed file that has it on some line. Duplicates across files are kept. |
| LineMaps.SuiteOfMembers | codemon/datastructures.py:130-132 | A test is in the suite iff some listed file has it on some line. |
| LineMaps.SuiteAll | codemon/datastructures.py:128-132 | `suite()` with a falsy argument covers every file and does not raise. A test is in it iff some file has it, once per such file. |
| Codec.IndexOf | codemon/datastructures.py:142-145 | The lookup built from `enumerate(suite)` has exactly the names of the suite as keys. Each name gets its last position in the suite. |
| Codec.IndexOfInjective | codemon/datastructures.py:142-145 | Distinct test names get distinct indices. |
| Codec.ReverseOf | codemon/datastructures.py:150-153 | The reverse lookup maps each index back to its name, and it holds only such pairs. |
| Codec.SortedIndexes | codemon/datastructures.py:69-70 | The sorted index list of a line has one index per test and holds exactly the indices of its tests. |
| Codec.EncodeLine | codemon/datastructures.py:68-70 | Encoding a line raises `KeyError` iff some test of the line has no index. |
| Codec.EncodeLineSpec | codemon/datastructures.py:68-70 | An encoded line is ascending, has one entry per test, and holds exactly the indices of its tests. |
| Codec.EncodeLines | codemon/datastructures.py:66-72 | Encoding a line dict succeeds iff every test has an index. The result has the same line numbers, each line being its encoding. |
| Codec.EncodeFile | codemon/datastructures.py:64-72 | `_SourceTestMap.serialize` keeps the filename and the line numbers, and succeeds iff every test has an index. |
| Codec.EncodeFileFails | codemon/datastructures.py:68-69 | One line with an unindexed test makes the file's serialization raise `KeyError`. |
| Codec.DecodeLine | codemon/datastructures.py:58-60 | Decoding an index list raises `KeyError` iff some index has no name. Otherwise the result is exactly the set of the names of its indices. |
| Codec.DecodeLines | codemon/datastructures.py:56-60 | Decoding a line dict succeeds iff every index has a name. The result has the same line numbers, each line being its decoding. |
| Codec.DecodeFile | codemon/datastructures.py:50-62 | `_SourceTestMap.deserialize` keeps the filename and the line numbers and builds a plain dict. It succeeds iff every index has a name. |
| Codec.DecodeFileFails | codemon/datastructures.py:58-60 | One line with an unnamed index makes the record's decoding raise `KeyError`. |
| Codec.MissingIndexFails | codemon/datastructures.py:58-60 | An index missing from the reverse lookup makes `deserialize` raise `KeyError`. |
| Codec.EncodeFiles | codemon/datastructures.py:147-148 | The records of the files succeed iff every file is present and fully indexed. There is one record per file, in file order, each the file's own encoding; failure is `KeyError`. |
| Codec.FullSuiteSucceeds | codemon/datastructures.py:144 | The `suite()` that `serialize` enumerates never raises on a well-formed map. |
| Codec.SerializeFailsAt | codemon/datastructures.py:147-148 | A file whose record raises makes `serialize` raise `KeyError`. |
| Codec.SerializeOf | codemon/datastructures.py:140-155 | `serialize` returns the reverse lookup of the suite together with the records built file by file. |
| Codec.Serialize | codemon/datastructures.py:140-155 | Definition of `serialize` with the corrected call of Findings; specified by `Codec.SerializeOf`, `Codec.SerializeFailsAt`, `Codec.EncodedRecordsDecode` and `Codec.RoundTrip`. |
| Codec.Assign | codemon/datastructures.py:137-138 | Definition of `self._source_map[k] = v`; its effect is stated by `Codec.DecodeAll` and `Codec.DecodeAllStores`. |
| Codec.DecodeInto | codemon/datastructures.py:134-138 | Definition of the loop of `_deserialize`; specified by `Codec.DecodeAll`, `Codec.DecodeAllStores` and `Codec.DecodeIntoPlain`. |
| Codec.Deserialize | codemon/datastructures.py:134-138 | Definition of `SourceMap(payload)` (lines 88-92) with the corrected call of Findings; specified by `Codec.RoundTrip`, `Codec.MissingIndexFails` and `Codec.DeserializedPlain`. |
| Codec.SerializeAsWritten | codemon/datastructures.py:148 | Definition of `serialize` as written; its `TypeError` is stated by `Codec.AsWrittenFails`. |
| Codec.DeserializeAsWritten | codemon/datastructures.py:138 | Definition of `_deserialize` as written; its `TypeError` is stated by `Codec.AsWrittenFails`. |
| Codec.AsWrittenFails | codemon/datastructures.py:134-155 | As written, `serialize` raises `TypeError` for a map with a file, and `_deserialize` raises `TypeError` for a payload with a record. |
| Codec.LineRoundTrip | codemon/datastructures.py:58-70 | Decoding an encoded test set through an inverting reverse lookup gives the set back. |
| Codec.LinesRoundTrip | codemon/datastructures.py:56-72 | Decoding an encoded line dict gives the line dict back. |
| Codec.FileRoundTrip | codemon/datastructures.py:51-72 | A `_SourceTestMap`, serialized and then deserialized through the two-argument `deserialize(serialized_data, reverse_lookup)`, equals the original under `__eq__`. This is the round trip that tests/test_datastructures.py:59-64 aims at. |
| Codec.SuiteIndexesAll | codemon/datastructures.py:142-145 | The lookup of the full suite gives an index to every test of every file. |
| Codec.DecodeAll | codemon/datastructures.py:134-138 | Decoding records whose keys are new and distinct succeeds, and appends the keys to the file order. |
| Codec.DecodeAllStores | codemon/datastructures.py:134-138 | Decoding those records keeps the files already present and stores each decoded record under its key. |
| Codec.DecodeIntoPlain | codemon/datastructures.py:56-62 | Every file `_deserialize` stores (lines 137-138) holds the plain dict `deserialize` builds, not a defaultdict. |
| Codec.DeserializedPlain | codemon/datastructures.py:134-138 | No file of a map loaded from a payload holds a defaultdict. |
| Codec.EncodedRecordsDecode | codemon/datastructures.py:140-155 | `serialize` succeeds on every well-formed map. It gives one record per file, in file order, and each record decodes to the file's content. |
| Codec.RoundTrip | codemon/datastructures.py:134-155 | Deserializing the payload of `serialize` gives the same files in the same order. Each file has the same filename and the same line-to-tests content. |
| Codec.ExampleLine1 | tests/test_datastructures.py:11-30 | With the lookup `test_foo: 0, test_bar: 1, test_foo_again: 2`, line 1's `{test_foo, test_bar}` encodes to `[0, 1]`. |
| Codec.ExampleLine5 | tests/test_datastructures.py:11-30 | With the same lookup, line 5's `{test_foo_again}` encodes to `[2]`. |
| Codec.ExampleFile | tests/test_datastructures.py:11-30 | The whole example file `foo.py`, with that lookup, serializes to `('foo.py', {1: [0, 1], 5: [2]})`. |
| DataStructures.SourceTestMap.Empty | codemon/datastructures.py:18-20 | `_SourceTestMap(filename)` is an empty defaultdict for that filename. |
| DataStructures.SourceTestMap.Loaded | codemon/datastructures.py:21-22 | `_SourceTestMap(other=(filename, d))` takes over the plain dict `d`. |
| DataStructures.SourceTestMap.Create | codemon/datastructures.py:15-22 | `assert filename or other` raises `AssertionError` iff neither is given. A given filename wins over `other`. |
| DataStructures.SourceTestMap.GetItem | codemon/datastructures.py:24-25 | The new state and the result are those of `LineMaps.GetLine`; on `KeyError` the state is unchanged. |
| DataStructures.SourceTestMap.DelItem | codemon/datastructures.py:27-28 | The new state is that of `LineMaps.DeleteLine`. It raises `KeyError` exactly when that does, with the state unchanged. |
| DataStructures.SourceTestMap.Add | codemon/datastructures.py:78-79 | The new state is that of `LineMaps.Add`. It raises `KeyError` exactly when that does, with the state unchanged. |
| DataStructures.SourceTestMap.AddEach | codemon/datastructures.py:102-103 | The loop of `__setitem__` on this object reaches the state and outcome of `LineMaps.AddAll`. |
| DataStructures.SourceTestMap.IsUntested | codemon/datastructures.py:74-76 | `is_untested` holds iff the line dict is empty. |
| DataStructures.SourceTestMap.AllAffectedTests | codemon/datastructures.py:40-48 | Every test of some line, each once, and no other test. |
| DataStructures.SourceTestMap.Equals | codemon/datastructures.py:36-38 | Equality holds iff the filename and the line dict are the same; the kind of dict is ignored. |
| DataStructures.SourceTestMap.Serialize | codemon/datastructures.py:64-72 | The loop over the lines gives exactly `Codec.EncodeFile` of the object, including its `KeyError`. |
| DataStructures.SourceTestMap.Deserialize | codemon/datastructures.py:50-62 | A fresh object holding `Codec.DecodeFile` of the record. It raises `KeyError` exactly when that fails. |
| DataStructures.SourceMap.constructor | codemon/datastructures.py:88-89 | `SourceMap()` holds no files. |
| DataStructures.SourceMap.Touch | codemon/datastructures.py:157-159 | The new state and outcome are those of `LineMaps.Touch`. Objects already present stay in place, and only `f` may get a fresh object. |
| DataStructures.SourceMap.SetItem | codemon/datastructures.py:97-103 | The new state and outcome are those of `LineMaps.SetItem`. Each file keeps its object or gets a fresh one. |
| DataStructures.SourceMap.AddToFile | codemon/datastructures.py:102-103 | The loop changes only the map of `f`, and it changes it as `LineMaps.AddAll` says. |
| DataStructures.SourceMap.Delete | codemon/datastructures.py:105-106 | The new state is that of `LineMaps.Delete`. It raises `KeyError` exactly when that does, with the state unchanged. |
| DataStructures.SourceMap.Item | codemon/datastructures.py:94-95 | Succeeds iff `f` is present, and gives the very object held for `f`, whose value is `LineMaps.Lookup`. |
| DataStructures.SourceMap.Files | codemon/datastructures.py:114-116 | `files` lists every present filename exactly once. |
| DataStructures.SourceMap.UntestedFiles | codemon/datastructures.py:118-122 | Exactly the present files whose object is untested, each once. |
| DataStructures.SourceMap.Suite | codemon/datastructures.py:124-132 | Raises `KeyError` iff a requested file is absent; an empty request means all files. Otherwise each test occurs once per requested file that has it. |
| DataStructures.SourceMap.Serialize | codemon/datastructures.py:140-155 | With the corrected call of row :148 under Findings, the loop over the files gives exactly `Codec.Serialize` of the map. As written it raises `TypeError` for a map with a file (`Codec.SerializeAsWritten`). |
| DataStructures.SourceMap.Put | codemon/datastructures.py:137-138 | Storing an object under a key is `Codec.Assign` on the value, and the map stays valid. |
| DataStructures.SourceMap.Load | codemon/datastructures.py:88-92 | With the corrected call of row :138 under Findings, `SourceMap(payload)` succeeds iff `Codec.Deserialize` does, and then holds its value; failure is `KeyError`. As written it raises `TypeError` for a payload with a record (`Codec.DeserializeAsWritten`). |
| DataStructures.SourceMap.LoadEntry | codemon/datastructures.py:137-138 | One round of `_deserialize` stores the decoded record under its key, or reports the record's `KeyError`. |
| Configuration.CompileReplace | codemon/config.py:31 | A pattern, rewritten and compiled, is one atom per character: `*` is `.*`, `.` is any character but newline, anything else is itself. |
| Configuration.Compile | codemon/config.py:31 | Definition of `re.compile` on the fragment; its result for a rewritten pattern is stated by `Configuration.CompileReplace`. |
| Configuration.MatchHere | codemon/config.py:34 | Definition of a regex match at one position; its meaning is stated by `Configuration.MatchGlob` and `Configuration.MatchStar`. |
| Configuration.Search | codemon/config.py:34-35 | Definition of `re.search`; its meaning is stated by `Configuration.AnchoredSearch` and `Configuration.RegexMeaning`. |
| Configuration.RegexReplacement | codemon/config.py:30-31 | `_regex_replacement(p)` is the start anchor followed by the atoms of `p`. |
| Configuration.MatchGlob | codemon/config.py:30-31 | The matcher on the atoms of `p` from position `i` succeeds iff the glob `p` matches some `s[i..k]`. |
| Configuration.MatchStar | codemon/config.py:30-31 | The same for a pattern that starts with `*`, which may take any run of characters without a newline. |
| Configuration.AnchoredSearch | codemon/config.py:31-35 | `re.search` with a leading `^` can only match at position 0. |
| Configuration.RegexMeaning | codemon/config.py:30-35 | The compiled pattern is found in a name iff the glob matches a prefix of the name: `*` takes any run, possibly empty, and there is no end anchor. |
| Configuration.CompileAll | codemon/config.py:28 | One compiled regex per pattern, in order. |
| Configuration.NewConfig | codemon/config.py:22-28 | A falsy `omit` or `omit_tests` becomes `[]` and a falsy `source` becomes `'.'`; given values are kept. There is exactly one compiled regex per omit-test pattern. |
| Configuration.IsOmittedTest | codemon/config.py:33-35 | `is_omitted_test(name)` holds iff some compiled pattern is found in `name`. |
| Configuration.AnyFound | codemon/config.py:34-35 | `any(...)` over the patterns holds iff one of them is found. |
| Configuration.OmittedIffGlob | codemon/config.py:14-17 | A test is omitted iff one of the configured globs matches a prefix of its name. |
| Configuration.NothingOmittedByDefault | codemon/config.py:22-25 | Without omit-test patterns, or with an empty list, no test is omitted. |
| Configuration.FooStarMatches | tests/test_config.py:17-19 | `foo*` is found in `foo` and in `foobar`. |
| Configuration.FooStarRejects | tests/test_config.py:20-21 | `foo*` is found neither in `barfoo` nor in `bar`. |
| Watching.Recorded | codemon/watcher.py:95-96 | The recorded baselines have exactly the files already known plus those polled. |
| Watching.Observe | codemon/watcher.py:85-98 | Definition of one pass of the loop body; specified by `Watching.ObserveSpec`. |
| Watching.Scan | codemon/watcher.py:81-98 | Definition of the loop of `test_if_changed`; specified by `Watching.ScanSpec` and `Watching.ScanRaises`. |
| Watching.Poll | codemon/watcher.py:78-102 | Definition of one call of `test_if_changed`; specified by `Watching.PollSpec`, `Watching.PollRaises` and the lemmas below. |
| Watching.ChangedAmong | codemon/watcher.py:97-98 | Reference definition of the changed files; characterised by `Watching.ChangedAmongMembers` and `Watching.ChangedAmongConcat`. |
| Watching.ObserveSpec | codemon/watcher.py:85-98 | One pass of the loop body records a baseline for an unseen file. It appends a seen file to the changed files iff its time differs from a real baseline. |
| Watching.RecordedStep | codemon/watcher.py:95-98 | Recording one baseline and then the rest is recording all of them, and a new baseline does not change which files count as changed. |
| Watching.ChangedAmongConcat | codemon/watcher.py:97-98 | The changed files of a concatenation are those of its parts, in order. |
| Watching.ScanSpec | codemon/watcher.py:79-98 | Without falsy filenames the loop records a baseline for each unseen file. It reports exactly the files that changed against the starting baselines, in filename order. |
| Watching.ScanRaises | codemon/watcher.py:81-83 | The loop raises iff some filename is falsy. |
| Watching.PollSpec | codemon/watcher.py:78-102 | A poll calls the callback iff some file changed, with exactly the changed files, and then forgets every baseline. Otherwise it keeps the baselines and adds the new ones. |
| Watching.PollRaises | codemon/watcher.py:82-83 | A falsy filename makes the poll raise, and the callback is not called. |
| Watching.ChangedAmongMembers | codemon/watcher.py:97-98 | A file is reported iff it is watched and its time differs from a real baseline. |
| Watching.FirstSightNotReported | codemon/watcher.py:85-96 | An unseen file, or one with a `None` baseline, is not reported. In a quiet poll an unseen file gets its current time as baseline. |
| Watching.DifferentTimeReported | codemon/watcher.py:89-102 | A file whose time differs from its real baseline is reported, including one that has vanished. The callback gets the changed files and all baselines are cleared. |
| Watching.QuietPollKeepsBaselines | codemon/watcher.py:100-102 | A poll with no change does not call the callback and keeps every baseline it had. |
| Watching.Watcher.constructor | codemon/watcher.py:49-52 | A new watcher has the given filenames and no baselines. |
| Watching.Watcher.TestIfChanged | codemon/watcher.py:78-102 | The new baselines and the callback argument, or the exception, are those of `Poll` on the old baselines. |
| Mapping.KeptSpec | codemon/codemon.py:91-99 | `filter_omitted_tests` keeps exactly the tests that are not omitted, each as often as it was given. |
| Mapping.KeptConcat | codemon/codemon.py:94-97 | Filtering distributes over concatenation, so the kept tests stay in their original order. |
| Mapping.KeptAllByDefault | codemon/codemon.py:91-99 | Without omit-test patterns every test is kept, in order. |
| Mapping.Kept | codemon/codemon.py:91-99 | Never longer than the given tests; specified in full by `Mapping.KeptSpec` and `Mapping.KeptConcat`. |
| Mapping.RecordFile | codemon/codemon.py:123-128 | Definition of one round of `record_affected_files`; specified by `Mapping.RecordFileExtends` and `Mapping.EmptyNameFails`. |
| Mapping.Record | codemon/codemon.py:120-128 | Definition of `record_affected_files`; specified by `Mapping.RecordExtends` and `Mapping.RecordedFilesPresent`. |
| Mapping.MatchAll | codemon/codemon.py:138-164 | Definition of `match_tests_to_source`; specified by `Mapping.MatchAllExtends`, `Mapping.MatchAllRecords` and `Mapping.RestoredMapRejectsNewLine`. |
| Mapping.SetItemExtends | codemon/codemon.py:127-128 | `source_map[f] = (test, lines)` on a usable file adds exactly those lines of `f`, each with the test, and changes nothing else. |
| Mapping.TouchSetItemExtends | codemon/codemon.py:124-128 | `touch(f)` on an absent file followed by the assignment gives the same extension. |
| Mapping.RecordFileExtends | codemon/codemon.py:123-128 | Recording one coverage entry with a non-empty name passes and extends the map by exactly that file's lines. |
| Mapping.RecordExtends | codemon/codemon.py:120-128 | `record_affected_files` on usable data passes. Every file of the data is present and each executed line gains the test; nothing else changes. |
| Mapping.RecordedFilesPresent | codemon/codemon.py:123-128 | Every file of the coverage data ends up present. A newly seen file with no executed line is untested. |
| Mapping.EmptyNameFails | codemon/codemon.py:124-125 | A file with the empty name stops recording with the `AssertionError` of its constructor. |
| Mapping.RestoredMapRejectsNewLine | codemon/codemon.py:123-128 | With the corrected `_deserialize` of Findings, a map read back from its file (lines 45-52) holds plain dicts, so mapping a test that executes a line the stored map lacks in a known file raises `KeyError`. |
| Mapping.MatchAllExtends | codemon/codemon.py:138-164 | When every report is usable, mapping passes. The map gains exactly each test's files, lines and the test on those lines. |
| Mapping.MatchAllRecords | codemon/codemon.py:138-149 | Afterwards a line holds a test iff it held it before, or the test was mapped and its coverage executed that line. |
| Mapping.SerializeSucceeds | codemon/codemon.py:170-171 | Serializing the map for the write never fails on a well-formed map. |
| Mapping.InfluenceMapper.constructor | codemon/codemon.py:35-43 | The mapper keeps the given configuration, map and caching flag, with `_tests` unset. |
| Mapping.InfluenceMapper.ReadFromFile | codemon/codemon.py:45-52 | An unreadable file gives an empty map. With the corrected `_deserialize` of Findings, a stored payload gives the map it deserializes to, or its `KeyError`; as written, any payload with a record raises `TypeError`, which `read_from_file` does not catch. |
| Mapping.InfluenceMapper.Create | codemon/codemon.py:35-43 | With the corrected `_deserialize` of Findings, building a mapper fails iff the stored payload does not deserialize, and the error is its `KeyError`. Otherwise the mapper is fresh, keeps its configuration and caching flag, has `_tests` unset, and holds exactly the map the payload deserializes to, or an empty map when no file was read. |
| Mapping.InfluenceMapper.FilterOmittedTests | codemon/codemon.py:91-99 | The loop returns exactly the kept tests, which `Mapping.KeptSpec` characterises. |
| Mapping.InfluenceMapper.Tests | codemon/codemon.py:101-104 | `tests` filters `_tests`, or the indexed tests when `_tests` is falsy. |
| Mapping.InfluenceMapper.RecordFileStep | codemon/codemon.py:123-128 | One coverage entry changes the map as `Mapping.RecordFile` says: a `touch` for a zero count, then the assignment. |
| Mapping.InfluenceMapper.RecordAffectedFiles | codemon/codemon.py:120-128 | The loop changes the map and gives the outcome exactly as the fold `Mapping.Record` says. |
| Mapping.InfluenceMapper.MatchTestsToSource | codemon/codemon.py:138-164 | The map afterwards is the left fold `Mapping.MatchAll` of `record_affected_files` over the tests, with its outcome. |
| Mapping.InfluenceMapper.RunAffectedTests | codemon/codemon.py:68-80 | What goes to `test_suite` is exactly `suite(filenames)`. It raises `KeyError` iff some given filename is unknown. |
| Mapping.InfluenceMapper.MapAndWrite | codemon/codemon.py:189-192 | The mapping, then `cleanup` and the write of the map serialized with the corrected call of Findings. An exception in the mapping skips both. |
| Mapping.InfluenceMapper.Run | codemon/codemon.py:173-194 | Cached: the files, and nothing else happens. An empty filtered test list raises before any mapping, `cleanup` or write. Otherwise the map is mapped as `MatchAll` says, then `cleanup` runs and the map, serialized with the corrected call of Findings, is written. |

## Left out

- Threads and supervision: `BackgroundThread` and `Watcher.start` (`codemon/watcher.py:10-39, 61-76`) are concurrency and timing.
- `os.stat` and float modification times are left out. The time is an input function from filename to `Option<M>`, where `None` means `stat` failed, and times are only compared for equality.
- The callback of `Watcher` is not called. `TestIfChanged` returns the list it would receive, and what the callback does is outside the model.
- Coverage instrumentation (`run_coverage`, coverage.py) is a foreign library. Each test's coverage data is an input function, with the files in the order `line_counts().items()` gives them.
- msgpack and file I/O (`read_from_file`, `write_to_file`) are left out. A read file is an `Option<Payload>`, where `None` stands for the `IOError`/`EOFError` fallback, and a write is the payload returned.
- The assertions of `_SourceTestMap.deserialize` on tuple and dict types (`codemon/datastructures.py:52-54`) are not modelled. Payloads are typed values, and msgpack's tuple-to-list change on reading is not modelled either.
- Console output, the spinner and `verbosity` are left out; they have no effect on state.
- The hooks `setup` and `cleanup` do nothing in the base class; `index_tests`, `map_test` and `test_suite` raise `NotImplementedError` there (`codemon/codemon.py:62-66, 82-89, 106-110`). The model replaces them by a subclass whose hooks always return: they appear as `Step`s, the indexed tests are an input and the coverage probe is a total function. A hook that raises, such as the base class's `map_test` or a failing test run, is not modelled.
- `Codemon` wiring (`codemon/codemon.py:197-224`) and `Config.from_file` (YAML) are glue and I/O.
- Configuration.RegexReplacement: the `re` model covers only the fragment the patterns produce, so it requires that a pattern hold no other regex metacharacter (`Plain`). Python with such a pattern is not modelled.
- Configuration.NewConfig: requires every `omit_tests` pattern to be `Plain`, so a configuration holding a pattern with another regex metacharacter is not modelled.
- Configuration.OmittedIffGlob: the glob characterisation of `is_omitted_test` is proved only for `Plain` patterns.
- Orders Python does not fix:
  - `all_affected_tests` is modelled in ascending string order.
  - Dict key order (the code is Python 2) is modelled as insertion order.
  - Properties are stated by membership and multiplicity wherever the order is not fixed.
- `__repr__`, `__iter__` and `setup.py` are left out.
- DataStructures.SourceMap.Valid assumes that no two filenames share one `SourceTestMap` object, which the Python code never breaks, since it creates one object per filename.
- DataStructures.SourceTestMap.GetItem returns the set by value: mutating the returned set in place, as the tests do with `obj[1].add(t)`, is expressed by `Add` instead.
- Mapping.InfluenceMapper.constructor: `_tests` is always `None` in the source, so `presetTests` is `[]`. A preset list is not constructed.
- `SourceMap.__setitem__` keeps its loop in `SourceTestMap.AddEach`, called through `SourceMap.AddToFile`. The state reached is the same.
- DataStructures.SourceMap.Serialize: stated for the corrected call of codemon/datastructures.py:148; as written it raises `TypeError` for a map with a file (`Codec.AsWrittenFails`).
- DataStructures.SourceMap.Load: stated for the corrected call of codemon/datastructures.py:138; as written it raises `TypeError` for a payload with a record (`Codec.AsWrittenFails`).
- Mapping.InfluenceMapper.ReadFromFile: stated for the corrected `_deserialize`; as written a stored payload with a record raises `TypeError`.
- Mapping.InfluenceMapper.Create: stated for the corrected `_deserialize`, like `ReadFromFile`.
- Mapping.InfluenceMapper.MapAndWrite: the write uses the corrected `serialize`; as written it raises `TypeError` once the map has a file.
- Mapping.InfluenceMapper.Run: the write uses the corrected `serialize`, like `MapAndWrite`.
- Mapping.RestoredMapRejectsNewLine: stated for a map read through the corrected `_deserialize`; as written, no stored map with a file can be read back, since `read_from_file` raises `TypeError`.
- Some tests in tests/test_datastructures.py call the code in forms it does not define; the model follows codemon/datastructures.py:
  - Lines 54-64 pass one tuple `(serialized, reverse_lookup)` to `_SourceTestMap.deserialize`, which takes the record and the reverse lookup as two arguments. `Codec.DecodeFile` and `Codec.FileRoundTrip` use the two-argument form.
  - Lines 78-79 and 139-161 use `reverse_index`, `index`, `SourceMap.deserialize`, `write_to_file` and `read_from_file` on `SourceMap`, which defines none of them.

## Findings

| source | as written | input that shows it | evidently intended | confidence | as-written member | corrected member |
|---|---|---|---|---|---|---|
| codemon/datastructures.py:148 | `v.serialize(testname_lookup)` calls the static `_SourceTestMap.serialize(obj, testname_dict)` with one argument, which raises `TypeError` | a `SourceMap` after `touch('foo.py')` | `_SourceTestMap.serialize(v, testname_lookup)` | not executed | Codec.SerializeAsWritten, Codec.AsWrittenFails | Codec.Serialize, Codec.RoundTrip |
| codemon/datastructures.py:138 | `_SourceTestMap.deserialize(v)` omits `reverse_lookup`, which raises `TypeError`, and `reverse_testname_lookup` is never used | a payload with one record | `_SourceTestMap.deserialize(v, reverse_testname_lookup)` | not executed | Codec.DeserializeAsWritten, Codec.AsWrittenFails | Codec.Deserialize, Codec.RoundTrip |
