/**
 * The four relations a `VerificationInput` derives from its files
 * (tests/models/test_verification_input.py): `depends_on`, `required_by`,
 * `verified_with` and `transitive_depends_on`, as pure functions of the
 * path -> file map, with the reachability closure proved against walks in
 * the dependency graph.
 */
module DependencyGraph {

  import opened Paths
  import opened VerificationFiles

  type Files = map<Path, VerificationFile>

  /** A graph as adjacency sets: path -> the paths it depends on. */
  type Edges = map<Path, set<Path>>

  /** `depends_on`: every declared path, mapped to its declared dependencies. */
  function DependsOn(files: Files): (r: Edges)
    ensures r.Keys == files.Keys
    ensures forall p, q :: p in r ==> (q in r[p] <==> q in files[p].dependencies)
  {
    map p | p in files :: files[p].DependencySet()
  }

  /** The declared files that list `p` as a direct dependency. */
  function Dependents(files: Files, p: Path): set<Path>
  {
    set q | q in files && p in files[q].dependencies
  }

  /**
   * `required_by`: the declared files without verification entries that
   * directly depend on `p`.
   */
  function RequiredBy(files: Files): (r: Edges)
    ensures r.Keys == files.Keys
    ensures forall p, q :: p in r && q in files ==>
      (q in r[p] <==> p in DependsOn(files)[q] && !files[q].IsVerification())
    ensures forall p :: p in r ==> r[p] <= files.Keys
  {
    map p | p in files :: set q | q in files && !files[q].IsVerification() && p in files[q].dependencies
  }

  /**
   * `verified_with`: the declared files with verification entries that
   * directly depend on `p`.
   */
  function VerifiedWith(files: Files): (r: Edges)
    ensures r.Keys == files.Keys
    ensures forall p, q :: p in r && q in files ==>
      (q in r[p] <==> p in DependsOn(files)[q] && files[q].IsVerification())
    ensures forall p :: p in r ==> r[p] <= files.Keys
  {
    map p | p in files :: set q | q in files && files[q].IsVerification() && p in files[q].dependencies
  }

  /**
   * Every direct dependent of a declared path is counted exactly once:
   * in `required_by` when it has no verification, in `verified_with` when it has.
   */
  lemma ReverseEdgesPartition(files: Files, p: Path)
    requires p in files
    ensures RequiredBy(files)[p] + VerifiedWith(files)[p] == Dependents(files, p)
    ensures RequiredBy(files)[p] !! VerifiedWith(files)[p]
  {
  }

  // ---------------------------------------------------------------------
  // Reachability closure

  /** Every path the graph names: declared ones and dependency targets. */
  function Nodes(g: Edges): (ns: set<Path>)
    ensures g.Keys <= ns
    ensures forall p, q :: p in g && q in g[p] ==> q in ns
  {
    g.Keys + set p, q | p in g && q in g[p] :: q
  }

  /** The paths one dependency edge away from some path in `s`. */
  function Successors(g: Edges, s: set<Path>): (r: set<Path>)
    ensures r <= Nodes(g)
    ensures forall p, q :: p in s && p in g && q in g[p] ==> q in r
    ensures forall q :: q in r ==> exists p :: p in s && p in g && q in g[p]
  {
    set p, q | p in s && p in g && q in g[p] :: q
  }

  /** Adds successors to `s` until nothing new appears (a least fixed point above `s`). */
  function Expand(g: Edges, s: set<Path>): (r: set<Path>)
    requires s <= Nodes(g)
    ensures s <= r <= Nodes(g)
    ensures Successors(g, r) <= r
    decreases |Nodes(g) - s|
  {
    var next := s + Successors(g, s);
    if next == s then s
    else
      FewerMissing(Nodes(g), s, next);
      Expand(g, next)
  }

  /** Growing `s` inside `all` leaves fewer elements of `all` outside it. */
  lemma FewerMissing(all: set<Path>, s: set<Path>, next: set<Path>)
    requires s < next <= all
    ensures |all - next| < |all - s|
  {
    var d := next - s;
    assert all - s == (all - next) + d;
    assert (all - next) * d == {};
    assert d != {} by {
      assert !(next <= s);
    }
  }

  /** `p` together with everything reachable from it. */
  function Closure(g: Edges, p: Path): (r: set<Path>)
    requires p in Nodes(g)
    ensures p in r && r <= Nodes(g)
    ensures Successors(g, r) <= r
  {
    Expand(g, {p})
  }

  /**
   * `transitive_depends_on`: for every declared path, the path itself and
   * everything reachable through `depends_on`; cycles are allowed.
   */
  function TransitiveDependsOn(files: Files): (r: Edges)
    ensures r.Keys == files.Keys
    ensures forall p :: p in r ==> p in r[p] && DependsOn(files)[p] <= r[p]
    ensures forall p, q :: p in r && q in r[p] && q in files ==> DependsOn(files)[q] <= r[p]
  {
    var g := DependsOn(files);
    map p | p in files :: Closure(g, p)
  }

  // ---------------------------------------------------------------------
  // Walks: the independent definition of reachability

  ghost predicate IsWalk(g: Edges, w: seq<Path>)
  {
    |w| > 0 && forall i :: 0 <= i < |w| - 1 ==> w[i] in g && w[i + 1] in g[w[i]]
  }

  /** There is a walk of zero or more dependency edges from `p` to `q`. */
  ghost predicate Reachable(g: Edges, p: Path, q: Path)
  {
    exists w :: IsWalk(g, w) && w[0] == p && w[|w| - 1] == q
  }

  /** A walk that starts inside a successor-closed set never leaves it. */
  lemma {:induction false} WalkStaysInClosedSet(g: Edges, s: set<Path>, w: seq<Path>)
    requires IsWalk(g, w) && w[0] in s
    requires Successors(g, s) <= s
    ensures w[|w| - 1] in s
    decreases |w|
  {
    if |w| > 1 {
      var v := w[..|w| - 1];
      assert IsWalk(g, v);
      WalkStaysInClosedSet(g, s, v);
      assert w[|w| - 1] in Successors(g, s);
    }
  }

  /** One more edge after a walk is a walk. */
  lemma ReachableStep(g: Edges, p: Path, r: Path, q: Path)
    requires Reachable(g, p, r) && r in g && q in g[r]
    ensures Reachable(g, p, q)
  {
    var w :| IsWalk(g, w) && w[0] == p && w[|w| - 1] == r;
    var w' := w + [q];
    assert IsWalk(g, w');
  }

  /** Everything `Expand` adds is reachable when everything it started from is. */
  lemma {:induction false} ExpandSound(g: Edges, p: Path, s: set<Path>)
    requires s <= Nodes(g)
    requires forall q :: q in s ==> Reachable(g, p, q)
    ensures forall q :: q in Expand(g, s) ==> Reachable(g, p, q)
    decreases |Nodes(g) - s|
  {
    var next := s + Successors(g, s);
    if next != s {
      forall q | q in Successors(g, s) ensures Reachable(g, p, q) {
        var r :| r in s && r in g && q in g[r];
        ReachableStep(g, p, r, q);
      }
      FewerMissing(Nodes(g), s, next);
      ExpandSound(g, p, next);
    }
  }

  /** The closure is exactly the set of paths reachable by a walk. */
  lemma ClosureIsReachable(g: Edges, p: Path)
    requires p in Nodes(g)
    ensures forall q :: q in Closure(g, p) <==> Reachable(g, p, q)
  {
    assert IsWalk(g, [p]);
    ExpandSound(g, p, {p});
    forall q | Reachable(g, p, q) ensures q in Closure(g, p) {
      var w :| IsWalk(g, w) && w[0] == p && w[|w| - 1] == q;
      WalkStaysInClosedSet(g, Closure(g, p), w);
    }
  }

  /** The closure is the least successor-closed set containing `p`. */
  lemma ClosureIsLeast(g: Edges, p: Path, s: set<Path>)
    requires p in Nodes(g) && p in s
    requires Successors(g, s) <= s
    ensures Closure(g, p) <= s
  {
    ClosureIsReachable(g, p);
    forall q | q in Closure(g, p) ensures q in s {
      var w :| IsWalk(g, w) && w[0] == p && w[|w| - 1] == q;
      WalkStaysInClosedSet(g, s, w);
    }
  }

  /** Anything in the closure of `p` has its own closure inside that of `p`. */
  lemma ClosureIsTransitive(g: Edges, p: Path, q: Path)
    requires p in Nodes(g) && q in Closure(g, p)
    ensures Closure(g, q) <= Closure(g, p)
  {
    ClosureIsLeast(g, q, Closure(g, p));
  }

  /** Two paths that reach each other (members of one cycle) share one closure. */
  lemma CycleSharesClosure(g: Edges, p: Path, q: Path)
    requires p in Nodes(g) && q in Nodes(g)
    requires q in Closure(g, p) && p in Closure(g, q)
    ensures Closure(g, p) == Closure(g, q)
  {
    ClosureIsTransitive(g, p, q);
    ClosureIsTransitive(g, q, p);
  }

  /** A path without dependencies has exactly itself as its closure. */
  lemma LeafClosure(g: Edges, p: Path)
    requires p in Nodes(g)
    requires p !in g || g[p] == {}
    ensures Closure(g, p) == {p}
  {
    ClosureIsLeast(g, p, {p});
  }

  /**
   * `transitive_depends_on[p]` holds `q` exactly when `q` is reachable from
   * `p` through `depends_on`, including `p` itself.
   */
  lemma TransitiveDependsOnIsReachability(files: Files, p: Path, q: Path)
    requires p in files
    ensures q in TransitiveDependsOn(files)[p] <==> Reachable(DependsOn(files), p, q)
  {
    ClosureIsReachable(DependsOn(files), p);
  }

  /** A declared file without dependencies transitively depends on itself alone. */
  lemma TransitiveDependsOnLeaf(files: Files, p: Path)
    requires p in files && files[p].dependencies == []
    ensures TransitiveDependsOn(files)[p] == {p}
  {
    LeafClosure(DependsOn(files), p);
  }

  /** Closure under `transitive_depends_on`: a dependency's closure is inside its dependent's. */
  lemma TransitiveDependsOnIsTransitive(files: Files, p: Path, q: Path)
    requires p in files && q in files && q in TransitiveDependsOn(files)[p]
    ensures TransitiveDependsOn(files)[q] <= TransitiveDependsOn(files)[p]
  {
    ClosureIsTransitive(DependsOn(files), p, q);
  }

  /** Declared files that reach each other transitively depend on the same set. */
  lemma TransitiveDependsOnCycle(files: Files, p: Path, q: Path)
    requires p in files && q in files
    requires q in TransitiveDependsOn(files)[p] && p in TransitiveDependsOn(files)[q]
    ensures TransitiveDependsOn(files)[p] == TransitiveDependsOn(files)[q]
  {
    CycleSharesClosure(DependsOn(files), p, q);
  }
}
