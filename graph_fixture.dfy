/**
 * The ten-file fixture of tests/models/test_verification_input.py (lines
 * 7-40), including the cycle hoge -> fuga -> piyo -> hoge, and the four
 * relations the tests expect of it.
 *
 * The fixture is stated over ten path names held in a `Names` record; the
 * facts about it are proved for any ten pairwise different names and then
 * applied to the fixture's own paths.
 */
module GraphFixture {

  import opened Paths
  import opened VerificationFiles
  import opened DependencyGraph

  /** The ten paths of the fixture, by role. */
  datatype Names = Names(
    bar1: Path, bar2: Path, baz: Path, barbaz: Path, one: Path,
    hoge: Path, piyo: Path, fuga: Path, piyopiyo: Path, test: Path)

  /** The paths the test uses. */
  function TestNames(): Names
  {
    Names("foo/bar1.py", "foo/bar2.py", "foo/baz.py", "foo/barbaz.py", "hoge/1.py",
          "hoge/hoge.py", "hoge/piyo.py", "hoge/fuga.py", "hoge/piyopiyo.py", "test/test.py")
  }

  /** The ten names are pairwise different. */
  predicate Distinct(n: Names)
  {
    && n.bar1 != n.bar2 && n.bar1 != n.baz && n.bar1 != n.barbaz
    && n.bar1 != n.one && n.bar1 != n.hoge && n.bar1 != n.piyo
    && n.bar1 != n.fuga && n.bar1 != n.piyopiyo && n.bar1 != n.test
    && n.bar2 != n.baz && n.bar2 != n.barbaz && n.bar2 != n.one
    && n.bar2 != n.hoge && n.bar2 != n.piyo && n.bar2 != n.fuga
    && n.bar2 != n.piyopiyo && n.bar2 != n.test && n.baz != n.barbaz
    && n.baz != n.one && n.baz != n.hoge && n.baz != n.piyo
    && n.baz != n.fuga && n.baz != n.piyopiyo && n.baz != n.test
    && n.barbaz != n.one && n.barbaz != n.hoge && n.barbaz != n.piyo
    && n.barbaz != n.fuga && n.barbaz != n.piyopiyo && n.barbaz != n.test
    && n.one != n.hoge && n.one != n.piyo && n.one != n.fuga
    && n.one != n.piyopiyo && n.one != n.test && n.hoge != n.piyo
    && n.hoge != n.fuga && n.hoge != n.piyopiyo && n.hoge != n.test
    && n.piyo != n.fuga && n.piyo != n.piyopiyo && n.piyo != n.test
    && n.fuga != n.piyopiyo && n.fuga != n.test && n.piyopiyo != n.test
  }

  lemma TestNamesDistinct()
    ensures Distinct(TestNames())
  {
    assert "foo/bar1.py"[7] != "foo/bar2.py"[7];
    assert "hoge/hoge.py"[5] != "hoge/piyo.py"[5];
    assert "hoge/hoge.py"[5] != "hoge/fuga.py"[5];
    assert "hoge/hoge.py"[0] != "test/test.py"[0];
    assert "hoge/piyo.py"[5] != "hoge/fuga.py"[5];
    assert "hoge/piyo.py"[0] != "test/test.py"[0];
    assert "hoge/fuga.py"[0] != "test/test.py"[0];
  }

  function Leaf(): VerificationFile { VerificationFile([], [], map[]) }

  function DependsOnly(deps: seq<Path>): VerificationFile { VerificationFile(deps, [], map[]) }

  /** The input of the tests (lines 7-40), over the names `n`. */
  function FixtureOf(n: Names): Files
  {
    map[
      n.bar1 := Leaf(),
      n.bar2 := DependsOnly([n.bar1]),
      n.baz := Leaf(),
      n.barbaz := DependsOnly([n.bar2, n.baz]),
      n.one := Leaf(),
      n.hoge := DependsOnly([n.fuga, n.one]),
      n.piyo := DependsOnly([n.fuga, n.hoge]),
      n.fuga := DependsOnly([n.piyo]),
      n.piyopiyo := DependsOnly([n.piyo]),
      n.test := VerificationFile([n.piyopiyo], [ConstVerification(ResultSuccess)], map[])
    ]
  }

  function Fixture(): Files { FixtureOf(TestNames()) }

  function PathsOf(n: Names): set<Path>
  {
    {n.bar1, n.bar2, n.baz, n.barbaz, n.one, n.hoge, n.piyo, n.fuga, n.piyopiyo, n.test}
  }

  /** A map with the fixture's paths as keys is fixed by its ten entries. */
  lemma MapExt(n: Names, m: Edges, e: Edges)
    requires m.Keys == PathsOf(n) && e.Keys == PathsOf(n)
    requires m[n.bar1] == e[n.bar1] && m[n.bar2] == e[n.bar2]
    requires m[n.baz] == e[n.baz] && m[n.barbaz] == e[n.barbaz]
    requires m[n.one] == e[n.one] && m[n.hoge] == e[n.hoge]
    requires m[n.piyo] == e[n.piyo] && m[n.fuga] == e[n.fuga]
    requires m[n.piyopiyo] == e[n.piyopiyo] && m[n.test] == e[n.test]
    ensures m == e
  {
  }

  // ---------------------------------------------------------------------
  // depends_on

  /** Expected `depends_on` (test lines 153-170). */
  function ExpectedDependsOn(n: Names): Edges
  {
    map[
      n.bar1 := {},
      n.bar2 := {n.bar1},
      n.baz := {},
      n.barbaz := {n.bar2, n.baz},
      n.one := {},
      n.hoge := {n.fuga, n.one},
      n.piyo := {n.fuga, n.hoge},
      n.fuga := {n.piyo},
      n.piyopiyo := {n.piyo},
      n.test := {n.piyopiyo}
    ]
  }

  lemma DependsOnEntries(f: Files, n: Names)
    requires FixtureDependencies(f, n)
    ensures DependsOn(f).Keys == PathsOf(n)
    ensures DependsOn(f)[n.bar1] == {}
    ensures DependsOn(f)[n.bar2] == {n.bar1}
    ensures DependsOn(f)[n.baz] == {}
    ensures DependsOn(f)[n.barbaz] == {n.bar2, n.baz}
    ensures DependsOn(f)[n.one] == {}
    ensures DependsOn(f)[n.hoge] == {n.fuga, n.one}
    ensures DependsOn(f)[n.piyo] == {n.fuga, n.hoge}
    ensures DependsOn(f)[n.fuga] == {n.piyo}
    ensures DependsOn(f)[n.piyopiyo] == {n.piyo}
    ensures DependsOn(f)[n.test] == {n.piyopiyo}
  {
  }

  lemma ExpectedDependsOnEntries(n: Names)
    requires Distinct(n)
    ensures ExpectedDependsOn(n).Keys == PathsOf(n)
    ensures ExpectedDependsOn(n)[n.bar1] == {}
    ensures ExpectedDependsOn(n)[n.bar2] == {n.bar1}
    ensures ExpectedDependsOn(n)[n.baz] == {}
    ensures ExpectedDependsOn(n)[n.barbaz] == {n.bar2, n.baz}
    ensures ExpectedDependsOn(n)[n.one] == {}
    ensures ExpectedDependsOn(n)[n.hoge] == {n.fuga, n.one}
    ensures ExpectedDependsOn(n)[n.piyo] == {n.fuga, n.hoge}
    ensures ExpectedDependsOn(n)[n.fuga] == {n.piyo}
    ensures ExpectedDependsOn(n)[n.piyopiyo] == {n.piyo}
    ensures ExpectedDependsOn(n)[n.test] == {n.piyopiyo}
  {
  }

  lemma DependsOnFixture(n: Names)
    requires Distinct(n)
    ensures DependsOn(FixtureOf(n)) == ExpectedDependsOn(n)
  {
    FixtureIsFixture(n);
    DependsOnEntries(FixtureOf(n), n);
    ExpectedDependsOnEntries(n);
    MapExt(n, DependsOn(FixtureOf(n)), ExpectedDependsOn(n));
  }

  lemma FixtureDependsOn()
    ensures DependsOn(Fixture()) == ExpectedDependsOn(TestNames())
  {
    TestNamesDistinct();
    DependsOnFixture(TestNames());
  }

  // ---------------------------------------------------------------------
  // required_by and verified_with

  /** Expected `required_by` (test lines 173-190). */
  function ExpectedRequiredBy(n: Names): Edges
  {
    map[
      n.bar1 := {n.bar2},
      n.bar2 := {n.barbaz},
      n.baz := {n.barbaz},
      n.barbaz := {},
      n.one := {n.hoge},
      n.hoge := {n.piyo},
      n.piyo := {n.fuga, n.piyopiyo},
      n.fuga := {n.piyo, n.hoge},
      n.piyopiyo := {},
      n.test := {}
    ]
  }

  /** Expected `verified_with` (test lines 193-209). */
  function ExpectedVerifiedWith(n: Names): Edges
  {
    map[
      n.bar1 := {},
      n.bar2 := {},
      n.baz := {},
      n.barbaz := {},
      n.one := {},
      n.hoge := {},
      n.piyo := {},
      n.fuga := {},
      n.piyopiyo := {n.test},
      n.test := {}
    ]
  }

  /** What the proofs below use of the fixture: its keys, dependencies and which file has verification. */
  ghost predicate IsFixture(f: Files, n: Names)
  {
    FixtureDependencies(f, n) && OnlyTestVerifies(f, n)
  }

  ghost predicate FixtureDependencies(f: Files, n: Names)
  {
    && f.Keys == PathsOf(n)
    && f[n.bar1].dependencies == []
    && f[n.bar2].dependencies == [n.bar1]
    && f[n.baz].dependencies == []
    && f[n.barbaz].dependencies == [n.bar2, n.baz]
    && f[n.one].dependencies == []
    && f[n.hoge].dependencies == [n.fuga, n.one]
    && f[n.piyo].dependencies == [n.fuga, n.hoge]
    && f[n.fuga].dependencies == [n.piyo]
    && f[n.piyopiyo].dependencies == [n.piyo]
    && f[n.test].dependencies == [n.piyopiyo]
  }

  ghost predicate OnlyTestVerifies(f: Files, n: Names)
    requires f.Keys == PathsOf(n)
  {
    && f[n.test].IsVerification()
    && !f[n.bar1].IsVerification() && !f[n.bar2].IsVerification()
    && !f[n.baz].IsVerification() && !f[n.barbaz].IsVerification()
    && !f[n.one].IsVerification() && !f[n.hoge].IsVerification()
    && !f[n.piyo].IsVerification() && !f[n.fuga].IsVerification()
    && !f[n.piyopiyo].IsVerification()
  }

  lemma FixtureIsFixture(n: Names)
    requires Distinct(n)
    ensures IsFixture(FixtureOf(n), n)
  {
  }

  /** The direct dependents of every fixture path, and test/test.py as the only file with verification. */
  ghost predicate DependentsAre(f: Files, n: Names)
  {
    && n.bar1 in f && Dependents(f, n.bar1) == {n.bar2}
    && n.bar2 in f && Dependents(f, n.bar2) == {n.barbaz}
    && n.baz in f && Dependents(f, n.baz) == {n.barbaz}
    && n.barbaz in f && Dependents(f, n.barbaz) == {}
    && n.one in f && Dependents(f, n.one) == {n.hoge}
    && n.hoge in f && Dependents(f, n.hoge) == {n.piyo}
    && n.piyo in f && Dependents(f, n.piyo) == {n.fuga, n.piyopiyo}
    && n.fuga in f && Dependents(f, n.fuga) == {n.piyo, n.hoge}
    && n.piyopiyo in f && Dependents(f, n.piyopiyo) == {n.test}
    && n.test in f && Dependents(f, n.test) == {}
    && forall q :: q in f ==> (f[q].IsVerification() <==> q == n.test)
  }

  // The direct dependents of each fixture path, one lemma per path: stated
  // together, the ten set equalities are too costly for the solver.

  lemma DependentsOfBar1(f: Files, n: Names)
    requires Distinct(n) && FixtureDependencies(f, n)
    ensures Dependents(f, n.bar1) == {n.bar2}
  {
  }

  lemma DependentsOfBar2(f: Files, n: Names)
    requires Distinct(n) && FixtureDependencies(f, n)
    ensures Dependents(f, n.bar2) == {n.barbaz}
  {
  }

  lemma DependentsOfBaz(f: Files, n: Names)
    requires Distinct(n) && FixtureDependencies(f, n)
    ensures Dependents(f, n.baz) == {n.barbaz}
  {
  }

  lemma DependentsOfBarbaz(f: Files, n: Names)
    requires Distinct(n) && FixtureDependencies(f, n)
    ensures Dependents(f, n.barbaz) == {}
  {
  }

  lemma DependentsOfOne(f: Files, n: Names)
    requires Distinct(n) && FixtureDependencies(f, n)
    ensures Dependents(f, n.one) == {n.hoge}
  {
  }

  lemma DependentsOfHoge(f: Files, n: Names)
    requires Distinct(n) && FixtureDependencies(f, n)
    ensures Dependents(f, n.hoge) == {n.piyo}
  {
  }

  lemma DependentsOfPiyo(f: Files, n: Names)
    requires Distinct(n) && FixtureDependencies(f, n)
    ensures Dependents(f, n.piyo) == {n.fuga, n.piyopiyo}
  {
  }

  lemma DependentsOfFuga(f: Files, n: Names)
    requires Distinct(n) && FixtureDependencies(f, n)
    ensures Dependents(f, n.fuga) == {n.piyo, n.hoge}
  {
  }

  lemma DependentsOfPiyopiyo(f: Files, n: Names)
    requires Distinct(n) && FixtureDependencies(f, n)
    ensures Dependents(f, n.piyopiyo) == {n.test}
  {
  }

  lemma DependentsOfTest(f: Files, n: Names)
    requires Distinct(n) && FixtureDependencies(f, n)
    ensures Dependents(f, n.test) == {}
  {
  }

  lemma FixtureDependents(f: Files, n: Names)
    requires Distinct(n) && IsFixture(f, n)
    ensures DependentsAre(f, n)
  {
    DependentsOfBar1(f, n);
    DependentsOfBar2(f, n);
    DependentsOfBaz(f, n);
    DependentsOfBarbaz(f, n);
    DependentsOfOne(f, n);
    DependentsOfHoge(f, n);
    DependentsOfPiyo(f, n);
    DependentsOfFuga(f, n);
    DependentsOfPiyopiyo(f, n);
    DependentsOfTest(f, n);
    NoOtherVerification(f, n);
  }

  lemma NoOtherVerification(f: Files, n: Names)
    requires Distinct(n) && IsFixture(f, n)
    ensures forall q :: q in f ==> (f[q].IsVerification() <==> q == n.test)
  {
  }

  /**
   * The direct dependents of `p`, split by whether they are `t`, the one
   * file with verification.
   */
  lemma ReverseSplit(f: Files, t: Path, p: Path)
    requires p in f
    requires forall q :: q in f ==> (f[q].IsVerification() <==> q == t)
    ensures RequiredBy(f)[p] == Dependents(f, p) - {t}
    ensures VerifiedWith(f)[p] == Dependents(f, p) * {t}
  {
  }

  lemma RequiredByFoo(f: Files, n: Names)
    requires Distinct(n) && DependentsAre(f, n)
    ensures RequiredBy(f)[n.bar1] == {n.bar2}
    ensures RequiredBy(f)[n.bar2] == {n.barbaz}
    ensures RequiredBy(f)[n.baz] == {n.barbaz}
    ensures RequiredBy(f)[n.barbaz] == {}
  {
    ReverseSplit(f, n.test, n.bar1);
    ReverseSplit(f, n.test, n.bar2);
    ReverseSplit(f, n.test, n.baz);
    ReverseSplit(f, n.test, n.barbaz);
  }

  lemma RequiredByHoge(f: Files, n: Names)
    requires Distinct(n) && DependentsAre(f, n)
    ensures RequiredBy(f)[n.one] == {n.hoge}
    ensures RequiredBy(f)[n.hoge] == {n.piyo}
    ensures RequiredBy(f)[n.piyo] == {n.fuga, n.piyopiyo}
  {
    ReverseSplit(f, n.test, n.one);
    ReverseSplit(f, n.test, n.hoge);
    ReverseSplit(f, n.test, n.piyo);
  }

  lemma RequiredByTail(f: Files, n: Names)
    requires Distinct(n) && DependentsAre(f, n)
    ensures RequiredBy(f)[n.fuga] == {n.piyo, n.hoge}
    ensures RequiredBy(f)[n.piyopiyo] == {}
    ensures RequiredBy(f)[n.test] == {}
  {
    ReverseSplit(f, n.test, n.fuga);
    ReverseSplit(f, n.test, n.piyopiyo);
    ReverseSplit(f, n.test, n.test);
  }

  lemma VerifiedWithFoo(f: Files, n: Names)
    requires Distinct(n) && DependentsAre(f, n)
    ensures VerifiedWith(f)[n.bar1] == {}
    ensures VerifiedWith(f)[n.bar2] == {}
    ensures VerifiedWith(f)[n.baz] == {}
    ensures VerifiedWith(f)[n.barbaz] == {}
  {
    ReverseSplit(f, n.test, n.bar1);
    ReverseSplit(f, n.test, n.bar2);
    ReverseSplit(f, n.test, n.baz);
    ReverseSplit(f, n.test, n.barbaz);
  }

  lemma VerifiedWithHoge(f: Files, n: Names)
    requires Distinct(n) && DependentsAre(f, n)
    ensures VerifiedWith(f)[n.one] == {}
    ensures VerifiedWith(f)[n.hoge] == {}
    ensures VerifiedWith(f)[n.piyo] == {}
  {
    ReverseSplit(f, n.test, n.one);
    ReverseSplit(f, n.test, n.hoge);
    ReverseSplit(f, n.test, n.piyo);
  }

  lemma VerifiedWithTail(f: Files, n: Names)
    requires Distinct(n) && DependentsAre(f, n)
    ensures VerifiedWith(f)[n.fuga] == {}
    ensures VerifiedWith(f)[n.piyopiyo] == {n.test}
    ensures VerifiedWith(f)[n.test] == {}
  {
    ReverseSplit(f, n.test, n.fuga);
    ReverseSplit(f, n.test, n.piyopiyo);
    ReverseSplit(f, n.test, n.test);
  }

  lemma ExpectedRequiredByEntries(n: Names)
    requires Distinct(n)
    ensures ExpectedRequiredBy(n).Keys == PathsOf(n)
    ensures ExpectedRequiredBy(n)[n.bar1] == {n.bar2}
    ensures ExpectedRequiredBy(n)[n.bar2] == {n.barbaz}
    ensures ExpectedRequiredBy(n)[n.baz] == {n.barbaz}
    ensures ExpectedRequiredBy(n)[n.barbaz] == {}
    ensures ExpectedRequiredBy(n)[n.one] == {n.hoge}
    ensures ExpectedRequiredBy(n)[n.hoge] == {n.piyo}
    ensures ExpectedRequiredBy(n)[n.piyo] == {n.fuga, n.piyopiyo}
    ensures ExpectedRequiredBy(n)[n.fuga] == {n.piyo, n.hoge}
    ensures ExpectedRequiredBy(n)[n.piyopiyo] == {}
    ensures ExpectedRequiredBy(n)[n.test] == {}
  {
  }

  lemma ExpectedVerifiedWithEntries(n: Names)
    requires Distinct(n)
    ensures ExpectedVerifiedWith(n).Keys == PathsOf(n)
    ensures ExpectedVerifiedWith(n)[n.bar1] == {}
    ensures ExpectedVerifiedWith(n)[n.bar2] == {}
    ensures ExpectedVerifiedWith(n)[n.baz] == {}
    ensures ExpectedVerifiedWith(n)[n.barbaz] == {}
    ensures ExpectedVerifiedWith(n)[n.one] == {}
    ensures ExpectedVerifiedWith(n)[n.hoge] == {}
    ensures ExpectedVerifiedWith(n)[n.piyo] == {}
    ensures ExpectedVerifiedWith(n)[n.fuga] == {}
    ensures ExpectedVerifiedWith(n)[n.piyopiyo] == {n.test}
    ensures ExpectedVerifiedWith(n)[n.test] == {}
  {
  }

  /**
   * test/test.py has verification, so it counts towards `verified_with`
   * and not towards `required_by` of hoge/piyopiyo.py.
   */
  lemma RequiredByFixture(n: Names)
    requires Distinct(n)
    ensures RequiredBy(FixtureOf(n)) == ExpectedRequiredBy(n)
  {
    var f := FixtureOf(n);
    FixtureIsFixture(n);
    FixtureDependents(f, n);
    RequiredByFoo(f, n);
    RequiredByHoge(f, n);
    RequiredByTail(f, n);
    ExpectedRequiredByEntries(n);
    MapExt(n, RequiredBy(f), ExpectedRequiredBy(n));
  }

  lemma VerifiedWithFixture(n: Names)
    requires Distinct(n)
    ensures VerifiedWith(FixtureOf(n)) == ExpectedVerifiedWith(n)
  {
    var f := FixtureOf(n);
    FixtureIsFixture(n);
    FixtureDependents(f, n);
    VerifiedWithFoo(f, n);
    VerifiedWithHoge(f, n);
    VerifiedWithTail(f, n);
    ExpectedVerifiedWithEntries(n);
    MapExt(n, VerifiedWith(f), ExpectedVerifiedWith(n));
  }

  lemma FixtureRequiredBy()
    ensures RequiredBy(Fixture()) == ExpectedRequiredBy(TestNames())
  {
    TestNamesDistinct();
    RequiredByFixture(TestNames());
  }

  lemma FixtureVerifiedWith()
    ensures VerifiedWith(Fixture()) == ExpectedVerifiedWith(TestNames())
  {
    TestNamesDistinct();
    VerifiedWithFixture(TestNames());
  }

  // ---------------------------------------------------------------------
  // transitive_depends_on

  /** The expected closures of test lines 120-145. */
  function ExpectedClosures(n: Names): Edges
  {
    var cycle := {n.hoge, n.piyo, n.fuga, n.one};
    map[
      n.bar1 := {n.bar1},
      n.bar2 := {n.bar1, n.bar2},
      n.baz := {n.baz},
      n.barbaz := {n.barbaz, n.baz, n.bar1, n.bar2},
      n.one := {n.one},
      n.hoge := cycle,
      n.piyo := cycle,
      n.fuga := cycle,
      n.piyopiyo := cycle + {n.piyopiyo},
      n.test := cycle + {n.piyopiyo, n.test}
    ]
  }

  /**
   * A set that contains `p`, lies inside its closure and is closed under
   * the edges is the whole closure.
   */
  lemma ClosureIs(g: Edges, p: Path, e: set<Path>)
    requires p in g && p in e && e <= Closure(g, p)
    requires forall q :: q in e && q in g ==> g[q] <= e
    ensures Closure(g, p) == e
  {
    forall q | q in Successors(g, e) ensures q in e {
      var r :| r in e && r in g && q in g[r];
    }
    ClosureIsLeast(g, p, e);
  }

  /** Following an edge out of the closure stays in the closure. */
  lemma ClosureStep(g: Edges, p: Path, r: Path, q: Path)
    requires p in Nodes(g) && r in Closure(g, p) && r in g && q in g[r]
    ensures q in Closure(g, p)
  {
    assert q in Successors(g, Closure(g, p));
  }

  lemma FooClosures(n: Names, g: Edges)
    requires Distinct(n) && g == ExpectedDependsOn(n)
    ensures Closure(g, n.bar1) == {n.bar1}
    ensures Closure(g, n.bar2) == {n.bar1, n.bar2}
    ensures Closure(g, n.baz) == {n.baz}
    ensures Closure(g, n.barbaz) == {n.barbaz, n.baz, n.bar1, n.bar2}
  {
    LeafClosure(g, n.bar1);
    LeafClosure(g, n.baz);
    ClosureStep(g, n.bar2, n.bar2, n.bar1);
    ClosureIs(g, n.bar2, {n.bar1, n.bar2});
    ClosureStep(g, n.barbaz, n.barbaz, n.bar2);
    ClosureStep(g, n.barbaz, n.barbaz, n.baz);
    ClosureStep(g, n.barbaz, n.bar2, n.bar1);
    ClosureIs(g, n.barbaz, {n.barbaz, n.baz, n.bar1, n.bar2});
  }

  /** The three members of the cycle hoge -> fuga -> piyo -> hoge share one closure. */
  lemma CycleClosures(n: Names, g: Edges)
    requires Distinct(n) && g == ExpectedDependsOn(n)
    ensures Closure(g, n.one) == {n.one}
    ensures Closure(g, n.hoge) == {n.hoge, n.piyo, n.fuga, n.one}
    ensures Closure(g, n.piyo) == {n.hoge, n.piyo, n.fuga, n.one}
    ensures Closure(g, n.fuga) == {n.hoge, n.piyo, n.fuga, n.one}
  {
    var e := {n.hoge, n.piyo, n.fuga, n.one};
    LeafClosure(g, n.one);
    ClosureStep(g, n.hoge, n.hoge, n.fuga);
    ClosureStep(g, n.hoge, n.hoge, n.one);
    ClosureStep(g, n.hoge, n.fuga, n.piyo);
    ClosureIs(g, n.hoge, e);
    ClosureStep(g, n.piyo, n.piyo, n.hoge);
    ClosureIsTransitive(g, n.piyo, n.hoge);
    ClosureIs(g, n.piyo, e);
    ClosureStep(g, n.fuga, n.fuga, n.piyo);
    ClosureIsTransitive(g, n.fuga, n.piyo);
    ClosureIs(g, n.fuga, e);
  }

  lemma TailClosures(n: Names, g: Edges)
    requires Distinct(n) && g == ExpectedDependsOn(n)
    ensures Closure(g, n.piyopiyo) == {n.hoge, n.piyo, n.fuga, n.one, n.piyopiyo}
    ensures Closure(g, n.test) == {n.hoge, n.piyo, n.fuga, n.one, n.piyopiyo, n.test}
  {
    CycleClosures(n, g);
    ClosureStep(g, n.piyopiyo, n.piyopiyo, n.piyo);
    ClosureIsTransitive(g, n.piyopiyo, n.piyo);
    ClosureIs(g, n.piyopiyo, {n.hoge, n.piyo, n.fuga, n.one, n.piyopiyo});
    ClosureStep(g, n.test, n.test, n.piyopiyo);
    ClosureIsTransitive(g, n.test, n.piyopiyo);
    ClosureIs(g, n.test, {n.hoge, n.piyo, n.fuga, n.one, n.piyopiyo, n.test});
  }

  lemma TransitiveEntries(f: Files, n: Names)
    requires Distinct(n) && DependsOn(f) == ExpectedDependsOn(n)
    ensures TransitiveDependsOn(f).Keys == PathsOf(n)
    ensures TransitiveDependsOn(f)[n.bar1] == {n.bar1}
    ensures TransitiveDependsOn(f)[n.bar2] == {n.bar1, n.bar2}
    ensures TransitiveDependsOn(f)[n.baz] == {n.baz}
    ensures TransitiveDependsOn(f)[n.barbaz] == {n.barbaz, n.baz, n.bar1, n.bar2}
    ensures TransitiveDependsOn(f)[n.one] == {n.one}
    ensures TransitiveDependsOn(f)[n.hoge] == {n.hoge, n.piyo, n.fuga, n.one}
    ensures TransitiveDependsOn(f)[n.piyo] == {n.hoge, n.piyo, n.fuga, n.one}
    ensures TransitiveDependsOn(f)[n.fuga] == {n.hoge, n.piyo, n.fuga, n.one}
    ensures TransitiveDependsOn(f)[n.piyopiyo] == {n.hoge, n.piyo, n.fuga, n.one, n.piyopiyo}
    ensures TransitiveDependsOn(f)[n.test] == {n.hoge, n.piyo, n.fuga, n.one, n.piyopiyo, n.test}
  {
    var g := DependsOn(f);
    ExpectedDependsOnEntries(n);
    FooClosures(n, g);
    CycleClosures(n, g);
    TailClosures(n, g);
  }

  lemma ExpectedClosuresEntries(n: Names)
    requires Distinct(n)
    ensures ExpectedClosures(n).Keys == PathsOf(n)
    ensures ExpectedClosures(n)[n.bar1] == {n.bar1}
    ensures ExpectedClosures(n)[n.bar2] == {n.bar1, n.bar2}
    ensures ExpectedClosures(n)[n.baz] == {n.baz}
    ensures ExpectedClosures(n)[n.barbaz] == {n.barbaz, n.baz, n.bar1, n.bar2}
    ensures ExpectedClosures(n)[n.one] == {n.one}
    ensures ExpectedClosures(n)[n.hoge] == {n.hoge, n.piyo, n.fuga, n.one}
    ensures ExpectedClosures(n)[n.piyo] == {n.hoge, n.piyo, n.fuga, n.one}
    ensures ExpectedClosures(n)[n.fuga] == {n.hoge, n.piyo, n.fuga, n.one}
    ensures ExpectedClosures(n)[n.piyopiyo] == {n.hoge, n.piyo, n.fuga, n.one, n.piyopiyo}
    ensures ExpectedClosures(n)[n.test] == {n.hoge, n.piyo, n.fuga, n.one, n.piyopiyo, n.test}
  {
  }

  lemma TransitiveDependsOnFixture(n: Names)
    requires Distinct(n)
    ensures TransitiveDependsOn(FixtureOf(n)) == ExpectedClosures(n)
  {
    DependsOnFixture(n);
    TransitiveEntries(FixtureOf(n), n);
    ExpectedClosuresEntries(n);
    MapExt(n, TransitiveDependsOn(FixtureOf(n)), ExpectedClosures(n));
  }

  lemma FixtureTransitiveDependsOn()
    ensures TransitiveDependsOn(Fixture()) == ExpectedClosures(TestNames())
  {
    TestNamesDistinct();
    TransitiveDependsOnFixture(TestNames());
  }
}
