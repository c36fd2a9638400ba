/**
 * `Config` of codemon/config.py: the coverage settings with their defaults, and the
 * omit-test patterns, each compiled to the regular expression `'^' + p.replace('*', '.*')`
 * and tried against a test name with `re.search`.
 *
 * Regular expressions are modelled for the fragment these patterns produce: literal
 * characters, `.` (any character but a newline), `x*` (any number of `x`) and the anchor `^`.
 */
module Configuration {
  import opened Wrappers

  // ---- The regular-expression fragment ----

  datatype Atom = Start | Char(c: char) | AnyChar | Many(a: Atom)

  /** Characters that are special in a Python regular expression beyond `.` and `*`. */
  const Special: set<char> := {'\\', '^', '$', '+', '?', '{', '}', '[', ']', '(', ')', '|'}

  /** A pattern in which only `*` and `.` have a meaning; the rest is literal. */
  predicate Plain(p: string) {
    forall i :: 0 <= i < |p| ==> p[i] !in Special
  }

  function Prepend(a: Atom, r: Option<seq<Atom>>): Option<seq<Atom>> {
    if r.Some? then Some([a] + r.value) else None
  }

  /** `re.compile` on the fragment; `None` for a regex outside it or one Python rejects. */
  function Compile(r: string): Option<seq<Atom>>
    decreases |r|
  {
    if r == [] then Some([])
    else if r[0] == '^' then Prepend(Start, Compile(r[1..]))
    else if r[0] == '*' || r[0] in Special then None
    else
      var a := if r[0] == '.' then AnyChar else Char(r[0]);
      if |r| > 1 && r[1] == '*' then Prepend(Many(a), Compile(r[2..]))
      else Prepend(a, Compile(r[1..]))
  }

  /** The character `ch` is one `a` stands for. */
  predicate One(a: Atom, ch: char) {
    match a
    case Char(c) => ch == c
    case AnyChar => ch != '\n'
    case _ => false
  }

  /** `atoms` match `s` from index `i` onwards (to any end: no end anchor). */
  predicate MatchHere(atoms: seq<Atom>, s: string, i: nat)
    requires i <= |s|
    decreases |atoms|, |s| - i
  {
    if atoms == [] then true
    else match atoms[0]
      case Start => i == 0 && MatchHere(atoms[1..], s, i)
      case Many(a) =>
        MatchHere(atoms[1..], s, i) || (i < |s| && One(a, s[i]) && MatchHere(atoms, s, i + 1))
      case _ => i < |s| && One(atoms[0], s[i]) && MatchHere(atoms[1..], s, i + 1)
  }

  /** `re.search`: the atoms match at some position `i` or later. */
  predicate SearchFrom(atoms: seq<Atom>, s: string, i: nat)
    requires i <= |s|
    decreases |s| - i
  {
    MatchHere(atoms, s, i) || (i < |s| && SearchFrom(atoms, s, i + 1))
  }

  predicate Search(atoms: seq<Atom>, s: string) {
    SearchFrom(atoms, s, 0)
  }

  // ---- `_regex_replacement` ----

  /** `pattern.replace('*', '.*')` */
  function Replace(p: string): (r: string)
    ensures r == [] || r[0] != '*'
    ensures |r| >= |p|
  {
    if p == [] then []
    else (if p[0] == '*' then ".*" else [p[0]]) + Replace(p[1..])
  }

  /** What one character of a plain pattern stands for once rewritten and compiled. */
  function AtomOf(ch: char): Atom {
    if ch == '*' then Many(AnyChar) else if ch == '.' then AnyChar else Char(ch)
  }

  /** What each character of a plain pattern stands for. */
  function AtomsOf(p: string): seq<Atom> {
    if p == [] then [] else [AtomOf(p[0])] + AtomsOf(p[1..])
  }

  /** The rewritten pattern compiles to one atom per pattern character. */
  lemma {:induction false} CompileReplace(p: string)
    requires Plain(p)
    ensures Compile(Replace(p)) == Some(AtomsOf(p))
  {
    if p != [] {
      var rest := Replace(p[1..]);
      assert Plain(p[1..]) by {
        forall i | 0 <= i < |p[1..]| ensures p[1..][i] !in Special { assert p[1..][i] == p[i + 1]; }
      }
      CompileReplace(p[1..]);
      assert p[0] !in Special;
      if p[0] == '*' {
        assert Replace(p) == ".*" + rest;
        assert (".*" + rest)[2..] == rest;
      } else {
        assert Replace(p) == [p[0]] + rest;
        assert ([p[0]] + rest)[1..] == rest;
      }
    }
  }

  /** `_regex_replacement(pattern)`: the compiled `'^' + pattern.replace('*', '.*')`. */
  function RegexReplacement(p: string): (r: seq<Atom>)
    requires Plain(p)
    ensures r == [Start] + AtomsOf(p)
  {
    CompileReplace(p);
    assert ("^" + Replace(p))[1..] == Replace(p);
    Compile("^" + Replace(p)).value
  }

  // ---- Reference meaning: a glob matched against a prefix ----

  /** No newline in `s[i..j]`. */
  predicate NoNewline(s: string, i: nat, j: nat)
    requires i <= j <= |s|
  {
    forall t :: i <= t < j ==> s[t] != '\n'
  }

  /**
   * The glob `p` matches `s[i..k]` exactly: `*` stands for any run of characters without
   * a newline, `.` for one character other than a newline, anything else for itself.
   */
  predicate GlobAt(p: string, s: string, i: nat, k: nat)
    requires i <= k <= |s|
    decreases |p|
  {
    if p == [] then i == k
    else if p[0] == '*' then
      exists j :: i <= j <= k && NoNewline(s, i, j) && GlobAt(p[1..], s, j, k)
    else if p[0] == '.' then i < k && s[i] != '\n' && GlobAt(p[1..], s, i + 1, k)
    else i < k && s[i] == p[0] && GlobAt(p[1..], s, i + 1, k)
  }

  /** The `*` case of `GlobAt`, spelled out. */
  lemma GlobStar(p: string, s: string, i: nat, k: nat)
    requires i <= k <= |s| && p != [] && p[0] == '*'
    ensures GlobAt(p, s, i, k) <==> exists j :: i <= j <= k && NoNewline(s, i, j) && GlobAt(p[1..], s, j, k)
  { }

  /** The glob matches some prefix of `name`: a match starts at 0 and may stop anywhere. */
  predicate GlobPrefix(p: string, name: string) {
    exists k :: 0 <= k <= |name| && GlobAt(p, name, 0, k)
  }

  /** The matcher on `AtomsOf(p)` from `i` agrees with the glob on some `s[i..k]`. */
  lemma {:induction false} MatchGlob(p: string, s: string, i: nat)
    requires i <= |s|
    ensures MatchHere(AtomsOf(p), s, i) <==> exists k :: i <= k <= |s| && GlobAt(p, s, i, k)
    decreases |p|, |s| - i + 2
  {
    var atoms := AtomsOf(p);
    if p == [] {
      assert atoms == [];
      assert GlobAt(p, s, i, i);
    } else if p[0] == '*' {
      MatchStar(p, s, i);
    } else {
      var a := if p[0] == '.' then AnyChar else Char(p[0]);
      assert atoms == [a] + AtomsOf(p[1..]);
      assert atoms[0] == a && atoms[1..] == AtomsOf(p[1..]);
      if i < |s| {
        MatchGlob(p[1..], s, i + 1);
        assert One(a, s[i]) <==> if p[0] == '.' then s[i] != '\n' else s[i] == p[0];
        assert MatchHere(atoms, s, i) <==> One(a, s[i]) && MatchHere(atoms[1..], s, i + 1);
        if MatchHere(atoms, s, i) {
          var k :| i + 1 <= k <= |s| && GlobAt(p[1..], s, i + 1, k);
          assert GlobAt(p, s, i, k);
        }
        if exists k :: i <= k <= |s| && GlobAt(p, s, i, k) {
          var k :| i <= k <= |s| && GlobAt(p, s, i, k);
          assert i + 1 <= k && GlobAt(p[1..], s, i + 1, k);
        }
      } else {
        assert !MatchHere(atoms, s, i);
        assert forall k :: i <= k <= |s| ==> !GlobAt(p, s, i, k);
      }
    }
  }

  /** The `*` case of `MatchGlob`, by induction on the characters the star may take. */
  lemma {:induction false} MatchStar(p: string, s: string, i: nat)
    requires i <= |s| && p != [] && p[0] == '*'
    ensures MatchHere(AtomsOf(p), s, i) <==> exists k :: i <= k <= |s| && GlobAt(p, s, i, k)
    decreases |p|, |s| - i + 1
  {
    var atoms := AtomsOf(p);
    assert atoms[0] == Many(AnyChar) && atoms[1..] == AtomsOf(p[1..]);
    MatchGlob(p[1..], s, i);
    if i < |s| {
      MatchStar(p, s, i + 1);
    }
    if MatchHere(atoms, s, i) {
      if MatchHere(atoms[1..], s, i) {
        var k :| i <= k <= |s| && GlobAt(p[1..], s, i, k);
        assert NoNewline(s, i, i);
        assert GlobAt(p, s, i, k);
      } else {
        assert i < |s| && MatchHere(atoms, s, i + 1);
        var k :| i + 1 <= k <= |s| && GlobAt(p, s, i + 1, k);
        GlobStar(p, s, i + 1, k);
        var j :| i + 1 <= j <= k && NoNewline(s, i + 1, j) && GlobAt(p[1..], s, j, k);
        assert NoNewline(s, i, j);
        assert GlobAt(p, s, i, k);
      }
    }
    if exists k :: i <= k <= |s| && GlobAt(p, s, i, k) {
      var k :| i <= k <= |s| && GlobAt(p, s, i, k);
      var j :| i <= j <= k && NoNewline(s, i, j) && GlobAt(p[1..], s, j, k);
      if j == i {
        assert i <= k <= |s| && GlobAt(p[1..], s, i, k);
        assert MatchHere(AtomsOf(p[1..]), s, i);
      } else {
        assert NoNewline(s, i + 1, j);
        assert GlobAt(p, s, i + 1, k);
        assert One(AnyChar, s[i]);
      }
    }
  }

  /** An anchored regex can only match at position 0. */
  lemma {:induction false} AnchoredSearch(atoms: seq<Atom>, s: string, i: nat)
    requires i <= |s|
    ensures SearchFrom([Start] + atoms, s, i) <==> i == 0 && MatchHere(atoms, s, 0)
    decreases |s| - i
  {
    assert ([Start] + atoms)[1..] == atoms;
    if i < |s| {
      AnchoredSearch(atoms, s, i + 1);
    }
  }

  /**
   * The pattern's regex finds `name` exactly when the glob matches a prefix of `name`:
   * `*` stands for any (possibly empty) run of characters and there is no end anchor.
   */
  lemma RegexMeaning(p: string, name: string)
    requires Plain(p)
    ensures Search(RegexReplacement(p), name) <==> GlobPrefix(p, name)
  {
    AnchoredSearch(AtomsOf(p), name, 0);
    MatchGlob(p, name, 0);
    assert Search(RegexReplacement(p), name) <==> MatchHere(AtomsOf(p), name, 0);
    if MatchHere(AtomsOf(p), name, 0) {
      var k :| 0 <= k <= |name| && GlobAt(p, name, 0, k);
      assert GlobPrefix(p, name);
    }
    if GlobPrefix(p, name) {
      var k :| 0 <= k <= |name| && GlobAt(p, name, 0, k);
      var z: nat := 0;
      MatchGlob(p, name, z);
      assert z <= k <= |name| && GlobAt(p, name, z, k);
    }
  }

  // ---- `Config` ----

  /** `source`: one directory or a list of them, as coverage.py accepts. */
  datatype Source = Dir(path: string) | Dirs(paths: seq<string>)

  datatype Config = Config(omit: seq<string>, source: Source, omitTests: seq<seq<Atom>>)

  /** Python's truth value of an optional list. */
  predicate Falsy<T>(v: Option<seq<T>>) {
    v.None? || v.value == []
  }

  predicate FalsySource(v: Option<Source>) {
    match v
    case None => true
    case Some(Dir(p)) => p == ""
    case Some(Dirs(ps)) => ps == []
  }

  predicate AllPlain(ps: seq<string>) {
    forall i :: 0 <= i < |ps| ==> Plain(ps[i])
  }

  /** `[self._regex_replacement(s) for s in patterns]` */
  function CompileAll(ps: seq<string>): (r: seq<seq<Atom>>)
    requires AllPlain(ps)
    ensures |r| == |ps|
    ensures forall i :: 0 <= i < |ps| ==> r[i] == RegexReplacement(ps[i])
  {
    if ps == [] then []
    else [RegexReplacement(ps[0])] + CompileAll(ps[1..])
  }

  /**
   * `Config(omit, source, omit_tests)`: a falsy `omit`/`omit_tests` becomes `[]`, a falsy
   * `source` becomes `'.'`, and each omit-test pattern becomes one compiled regex.
   */
  function NewConfig(omit: Option<seq<string>>, source: Option<Source>, omitTests: Option<seq<string>>)
    : (c: Config)
    requires !Falsy(omitTests) ==> AllPlain(omitTests.value)
    ensures Falsy(omit) ==> c.omit == []
    ensures !Falsy(omit) ==> c.omit == omit.value
    ensures FalsySource(source) ==> c.source == Dir(".")
    ensures !FalsySource(source) ==> c.source == source.value
    ensures Falsy(omitTests) ==> c.omitTests == []
    ensures !Falsy(omitTests) ==> (|c.omitTests| == |omitTests.value| &&
      forall i :: 0 <= i < |omitTests.value| ==> c.omitTests[i] == RegexReplacement(omitTests.value[i]))
  {
    Config(
      if Falsy(omit) then [] else omit.value,
      if FalsySource(source) then Dir(".") else source.value,
      if Falsy(omitTests) then [] else CompileAll(omitTests.value))
  }

  /** `is_omitted_test(name)`: some compiled pattern is found in `name`. */
  function IsOmittedTest(c: Config, name: string): (b: bool)
    ensures b <==> exists i :: 0 <= i < |c.omitTests| && Search(c.omitTests[i], name)
  {
    AnyFound(c.omitTests, name)
  }

  /** `any([re.search(pattern, name) for pattern in patterns])` */
  function AnyFound(rs: seq<seq<Atom>>, name: string): (b: bool)
    ensures b <==> exists i :: 0 <= i < |rs| && Search(rs[i], name)
  {
    if rs == [] then false
    else
      assert forall i :: 0 < i < |rs| ==> rs[i] == rs[1..][i - 1];
      Search(rs[0], name) || AnyFound(rs[1..], name)
  }

  /** A test is omitted exactly when one of the configured globs matches a prefix of its name. */
  lemma OmittedIffGlob(ps: seq<string>, omit: Option<seq<string>>, source: Option<Source>, name: string)
    requires AllPlain(ps)
    ensures IsOmittedTest(NewConfig(omit, source, Some(ps)), name) <==>
      exists i :: 0 <= i < |ps| && GlobPrefix(ps[i], name)
  {
    var c := NewConfig(omit, source, Some(ps));
    forall i | 0 <= i < |ps| ensures Search(c.omitTests[i], name) <==> GlobPrefix(ps[i], name) {
      RegexMeaning(ps[i], name);
    }
  }

  /** With no patterns no test is omitted. */
  lemma NothingOmittedByDefault(omit: Option<seq<string>>, source: Option<Source>, name: string)
    ensures !IsOmittedTest(NewConfig(omit, source, None), name)
    ensures !IsOmittedTest(NewConfig(omit, source, Some([])), name)
  { }

  /** `foo*` matches `foo` and `foobar` ... */
  lemma FooStarMatches()
    ensures Plain("foo*")
    ensures Search(RegexReplacement("foo*"), "foo")
    ensures Search(RegexReplacement("foo*"), "foobar")
  {
    assert Plain("foo*");
    RegexMeaning("foo*", "foo");
    RegexMeaning("foo*", "foobar");
    assert GlobAt("*", "foo", 3, 3) by { assert NoNewline("foo", 3, 3); }
    assert GlobAt("foo*", "foo", 0, 3) by {
      assert "foo*"[1..] == "oo*" && "oo*"[1..] == "o*" && "o*"[1..] == "*";
    }
    assert GlobAt("*", "foobar", 3, 3) by { assert NoNewline("foobar", 3, 3); }
    assert GlobAt("foo*", "foobar", 0, 3) by {
      assert "foo*"[1..] == "oo*" && "oo*"[1..] == "o*" && "o*"[1..] == "*";
    }
  }

  /** ... while `barfoo` and `bar` are not. */
  lemma FooStarRejects()
    ensures Plain("foo*")
    ensures !Search(RegexReplacement("foo*"), "barfoo")
    ensures !Search(RegexReplacement("foo*"), "bar")
  {
    assert Plain("foo*");
    RegexMeaning("foo*", "barfoo");
    RegexMeaning("foo*", "bar");
    forall k | 0 <= k <= 6 ensures !GlobAt("foo*", "barfoo", 0, k) { }
    forall k | 0 <= k <= 3 ensures !GlobAt("foo*", "bar", 0, k) { }
  }
}
