/**
 * One poll of the change detector of codemon/watcher.py (`Watcher.test_if_changed`).
 * `os.stat(f).st_mtime` becomes an input function from filename to modification time,
 * `None` standing for a file `stat` cannot read; times are only compared for equality.
 */
module Watching {
  import opened Wrappers
  import opened Ordering

  /** filename -> baseline time, `None` for a file that was missing when first seen */
  type Baselines<M> = map<string, Option<M>>

  /** The state of the loop of `test_if_changed`: the baselines and the changed files so far. */
  datatype ScanState<M> = ScanState(mtimes: Baselines<M>, changed: seq<string>)

  /**
   * One pass of the loop body for a non-empty filename `f` whose current time is `now`:
   * a `None` baseline skips the file, an unseen file gets `now` as its baseline, and a
   * seen file whose time differs is appended to the changed files.
   */
  function Observe<M(==)>(st: ScanState<M>, f: string, now: Option<M>): ScanState<M> {
    if f in st.mtimes && st.mtimes[f].None? then st
    else if f !in st.mtimes then st.(mtimes := st.mtimes[f := now])
    else if now != st.mtimes[f] then st.(changed := st.changed + [f])
    else st
  }

  /**
   * The loop over `fs`: the state reached, and whether it stopped at a falsy filename
   * (which raises, leaving the baselines recorded so far in place).
   */
  function Scan<M(==)>(st: ScanState<M>, fs: seq<string>, stat: string -> Option<M>): (ScanState<M>, bool)
    decreases |fs|
  {
    if fs == [] then (st, false)
    else if fs[0] == "" then (st, true)
    else Scan(Observe(st, fs[0], stat(fs[0])), fs[1..], stat)
  }

  /**
   * A whole call of `test_if_changed` from baselines `m`: the new baselines and either the
   * exception, or the list handed to the callback (`None`: the callback is not called).
   */
  function Poll<M(==)>(m: Baselines<M>, fs: seq<string>, stat: string -> Option<M>)
    : (Baselines<M>, Result<Option<seq<string>>>)
  {
    var (st, raised) := Scan(ScanState(m, []), fs, stat);
    if raised then (st.mtimes, Failure(FalsyFilename))
    else if |st.changed| > 0 then (map[], Success(Some(st.changed)))
    else (st.mtimes, Success(None))
  }

  // ---- Reference definitions ----

  /** `f` has a real baseline in `m` and its current time differs from it. */
  predicate Changed<M(==)>(m: Baselines<M>, f: string, stat: string -> Option<M>) {
    f in m && m[f].Some? && stat(f) != m[f]
  }

  /** The files of `fs` that changed against `m`, in the order of `fs`. */
  function ChangedAmong<M(==)>(m: Baselines<M>, fs: seq<string>, stat: string -> Option<M>): seq<string>
    decreases |fs|
  {
    if fs == [] then []
    else (if Changed(m, fs[0], stat) then [fs[0]] else []) + ChangedAmong(m, fs[1..], stat)
  }

  /** `m` with every file of `fs` it lacks given its current time as baseline. */
  function Recorded<M>(m: Baselines<M>, fs: seq<string>, stat: string -> Option<M>): (r: Baselines<M>)
    ensures forall f :: f in r <==> f in m || f in fs
  {
    map f | f in m.Keys + (set g | g in fs) :: if f in m then m[f] else stat(f)
  }

  /** The list is free of falsy (empty) filenames. */
  predicate AllNamed(fs: seq<string>) {
    forall i :: 0 <= i < |fs| ==> fs[i] != ""
  }

  // ---- Properties ----

  /** One step of the loop records exactly what `Recorded` and `ChangedAmong` say for `f`. */
  lemma ObserveSpec<M>(m: Baselines<M>, c: seq<string>, f: string, stat: string -> Option<M>)
    requires f != ""
    ensures Observe(ScanState(m, c), f, stat(f)) ==
      ScanState(Recorded(m, [f], stat), c + ChangedAmong(m, [f], stat))
  {
    assert ChangedAmong(m, [f], stat) == (if Changed(m, f, stat) then [f] else []) + ChangedAmong(m, [], stat);
    var r := Recorded(m, [f], stat);
    if f in m {
      assert r == m;
    } else {
      assert r == m[f := stat(f)];
    }
  }

  /** Two baselines that agree on which files changed give the same changed files. */
  lemma {:induction false} ChangedAmongSame<M>(m: Baselines<M>, m': Baselines<M>, fs: seq<string>,
                                              stat: string -> Option<M>)
    requires forall g :: Changed(m, g, stat) == Changed(m', g, stat)
    ensures ChangedAmong(m, fs, stat) == ChangedAmong(m', fs, stat)
    decreases |fs|
  {
    if fs != [] {
      ChangedAmongSame(m, m', fs[1..], stat);
    }
  }

  /**
   * Recording `f` first and then `rest` is recording `[f] + rest`, and recording `f` does
   * not change which files count as changed.
   */
  lemma RecordedStep<M>(m: Baselines<M>, f: string, rest: seq<string>, stat: string -> Option<M>)
    ensures Recorded(Recorded(m, [f], stat), rest, stat) == Recorded(m, [f] + rest, stat)
    ensures ChangedAmong(Recorded(m, [f], stat), rest, stat) == ChangedAmong(m, rest, stat)
  {
    var m1 := Recorded(m, [f], stat);
    forall g ensures Changed(m1, g, stat) == Changed(m, g, stat) {
      if g == f && f !in m {
        assert m1[f] == stat(f);
      } else if g in m1 {
        assert g in m && m1[g] == m[g];
      }
    }
    ChangedAmongSame(m1, m, rest, stat);
  }

  /** The changed files of a concatenation are those of its parts. */
  lemma {:induction false} ChangedAmongConcat<M>(m: Baselines<M>, a: seq<string>, b: seq<string>,
                                                stat: string -> Option<M>)
    ensures ChangedAmong(m, a + b, stat) == ChangedAmong(m, a, stat) + ChangedAmong(m, b, stat)
    decreases |a|
  {
    if a == [] {
      assert a + b == b;
    } else {
      assert (a + b)[0] == a[0] && (a + b)[1..] == a[1..] + b;
      ChangedAmongConcat(m, a[1..], b, stat);
    }
  }

  /**
   * Without falsy filenames the loop adds a baseline for each unseen file and reports
   * exactly the files that changed against the starting baselines, in order: a recorded
   * baseline never changes within one poll.
   */
  lemma {:induction false} ScanSpec<M>(m: Baselines<M>, c: seq<string>, fs: seq<string>,
                                      stat: string -> Option<M>)
    requires AllNamed(fs)
    ensures Scan(ScanState(m, c), fs, stat) ==
      (ScanState(Recorded(m, fs, stat), c + ChangedAmong(m, fs, stat)), false)
    decreases |fs|
  {
    if fs == [] {
      assert Recorded(m, fs, stat) == m;
      assert c + ChangedAmong(m, fs, stat) == c;
    } else {
      var f := fs[0];
      ObserveSpec(m, c, f, stat);
      var m1 := Recorded(m, [f], stat);
      var c1 := c + ChangedAmong(m, [f], stat);
      assert Scan(ScanState(m, c), fs, stat) == Scan(ScanState(m1, c1), fs[1..], stat);
      ScanSpec(m1, c1, fs[1..], stat);
      ScanTail(m, c, fs, stat);
    }
  }

  /** What the rest of the loop adds after the first file is what the whole loop adds. */
  lemma ScanTail<M>(m: Baselines<M>, c: seq<string>, fs: seq<string>, stat: string -> Option<M>)
    requires fs != []
    ensures var m1 := Recorded(m, [fs[0]], stat);
      && Recorded(m1, fs[1..], stat) == Recorded(m, fs, stat)
      && (c + ChangedAmong(m, [fs[0]], stat)) + ChangedAmong(m1, fs[1..], stat) == c + ChangedAmong(m, fs, stat)
  {
    RecordedStep(m, fs[0], fs[1..], stat);
    assert fs == [fs[0]] + fs[1..];
    ChangedAmongConcat(m, [fs[0]], fs[1..], stat);
  }

  /** The loop raises exactly when some filename is falsy. */
  lemma {:induction false} ScanRaises<M>(st: ScanState<M>, fs: seq<string>, stat: string -> Option<M>)
    ensures Scan(st, fs, stat).1 <==> !AllNamed(fs)
    decreases |fs|
  {
    if fs != [] && fs[0] != "" {
      ScanRaises(Observe(st, fs[0], stat(fs[0])), fs[1..], stat);
      assert forall i :: 0 < i < |fs| ==> fs[i] == fs[1..][i - 1];
    }
  }

  /**
   * A poll without falsy filenames hands the callback exactly the changed files, once and
   * only when there are some, and then forgets every baseline; otherwise it keeps each
   * baseline and adds one per unseen file.
   */
  lemma PollSpec<M>(m: Baselines<M>, fs: seq<string>, stat: string -> Option<M>)
    requires AllNamed(fs)
    ensures var changed := ChangedAmong(m, fs, stat);
      Poll(m, fs, stat) ==
        if changed != [] then (map[], Success(Some(changed)))
        else (Recorded(m, fs, stat), Success(None))
  {
    ScanSpec(m, [], fs, stat);
    assert [] + ChangedAmong(m, fs, stat) == ChangedAmong(m, fs, stat);
  }

  /** A falsy filename makes the poll raise, and the callback is not called. */
  lemma PollRaises<M>(m: Baselines<M>, fs: seq<string>, stat: string -> Option<M>)
    requires !AllNamed(fs)
    ensures Poll(m, fs, stat).1 == Failure(FalsyFilename)
  {
    ScanRaises(ScanState(m, []), fs, stat);
  }

  /** A file is reported exactly when it is listed and changed against a real baseline. */
  lemma {:induction false} ChangedAmongMembers<M>(m: Baselines<M>, fs: seq<string>, stat: string -> Option<M>)
    ensures forall f :: f in ChangedAmong(m, fs, stat) <==> f in fs && Changed(m, f, stat)
    decreases |fs|
  {
    if fs != [] {
      ChangedAmongMembers(m, fs[1..], stat);
      assert forall f :: f in fs <==> f == fs[0] || f in fs[1..];
    }
  }

  /**
   * First observation: an unseen file gets its current time (`None` if unreadable) as
   * baseline and is not reported; a file whose baseline is `None` is never reported.
   */
  lemma FirstSightNotReported<M>(m: Baselines<M>, fs: seq<string>, stat: string -> Option<M>, f: string)
    requires AllNamed(fs) && f in fs && (f !in m || m[f].None?)
    ensures f !in ChangedAmong(m, fs, stat)
    ensures ChangedAmong(m, fs, stat) == [] ==>
      (f in Poll(m, fs, stat).0 && Poll(m, fs, stat).0[f] == if f in m then m[f] else stat(f))
  {
    ChangedAmongMembers(m, fs, stat);
    PollSpec(m, fs, stat);
  }

  /** An existing file whose time differs from its real baseline, or that has vanished, is reported. */
  lemma DifferentTimeReported<M>(m: Baselines<M>, fs: seq<string>, stat: string -> Option<M>, f: string)
    requires AllNamed(fs) && f in fs && f in m && m[f].Some? && stat(f) != m[f]
    ensures Poll(m, fs, stat).1 == Success(Some(ChangedAmong(m, fs, stat)))
    ensures f in ChangedAmong(m, fs, stat) && Poll(m, fs, stat).0 == map[]
  {
    ChangedAmongMembers(m, fs, stat);
    PollSpec(m, fs, stat);
  }

  /** A quiet poll keeps every baseline it had. */
  lemma QuietPollKeepsBaselines<M>(m: Baselines<M>, fs: seq<string>, stat: string -> Option<M>)
    requires AllNamed(fs) && ChangedAmong(m, fs, stat) == []
    ensures Poll(m, fs, stat).1 == Success(None)
    ensures forall f :: f in m ==> f in Poll(m, fs, stat).0 && Poll(m, fs, stat).0[f] == m[f]
  {
    PollSpec(m, fs, stat);
  }

  /** `Watcher`: the watched filenames and the baselines of the last polls. */
  class Watcher<M(==)> {
    const filenames: seq<string>
    var mtimes: Baselines<M>

    /** `Watcher(filenames, callback)`: no baselines yet. */
    constructor (filenames: seq<string>)
      ensures this.filenames == filenames && mtimes == map[]
    {
      this.filenames := filenames;
      mtimes := map[];
    }

    /**
     * `test_if_changed()`: gives the list the callback receives (`None` when it is not
     * called) or the exception raised at a falsy filename.
     */
    method TestIfChanged(stat: string -> Option<M>) returns (r: Result<Option<seq<string>>>)
      modifies this
      ensures (mtimes, r) == Poll(old(mtimes), filenames, stat)
    {
      var changed: seq<string> := [];
      var i := 0;
      while i < |filenames|
        invariant 0 <= i <= |filenames|
        invariant Scan(ScanState(old(mtimes), []), filenames, stat) ==
          Scan(ScanState(mtimes, changed), filenames[i..], stat)
      {
        var f := filenames[i];
        assert filenames[i..][1..] == filenames[i + 1..];
        if f == "" {
          r := Failure(FalsyFilename);
          return;
        }
        if f in mtimes && mtimes[f].None? {
          i := i + 1;
          continue;
        }
        var now := stat(f);
        if f !in mtimes {
          mtimes := mtimes[f := now];
        } else if now != mtimes[f] {
          changed := changed + [f];
        }
        i := i + 1;
      }
      if |changed| > 0 {
        mtimes := map[];
        r := Success(Some(changed));
      } else {
        r := Success(None);
      }
    }
  }
}
