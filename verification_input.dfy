/**
 * `VerificationInput`: the graph container. Each derived relation is
 * computed on first access, kept in a cache field, and the same object is
 * handed out on every later access (the `is` checks of
 * tests/models/test_verification_input.py).
 */
module VerificationInputs {

  import opened Paths
  import opened VerificationFiles
  import DependencyGraph

  /** A computed relation; callers compare these by identity. */
  class Relation {
    const value: map<Path, set<Path>>

    constructor (value: map<Path, set<Path>>)
      ensures this.value == value
    {
      this.value := value;
    }
  }

  class VerificationInput {
    const files: map<Path, VerificationFile>
    var dependsOnCache: Relation?
    var requiredByCache: Relation?
    var verifiedWithCache: Relation?
    var transitiveDependsOnCache: Relation?

    /** A filled cache holds the relation its name says, computed from `files`. */
    ghost predicate Valid()
      reads this
    {
      && (dependsOnCache != null ==> dependsOnCache.value == DependencyGraph.DependsOn(files))
      && (requiredByCache != null ==> requiredByCache.value == DependencyGraph.RequiredBy(files))
      && (verifiedWithCache != null ==> verifiedWithCache.value == DependencyGraph.VerifiedWith(files))
      && (transitiveDependsOnCache != null ==>
            transitiveDependsOnCache.value == DependencyGraph.TransitiveDependsOn(files))
    }

    /** `VerificationInput.parse_obj`: files parsed with defaults, nothing computed yet. */
    constructor ParseObj(raw: map<Path, RawFile>)
      ensures Valid()
      ensures files == ParseInput(raw)
      ensures dependsOnCache == null && requiredByCache == null
      ensures verifiedWithCache == null && transitiveDependsOnCache == null
    {
      files := ParseInput(raw);
      dependsOnCache, requiredByCache := null, null;
      verifiedWithCache, transitiveDependsOnCache := null, null;
    }

    /** The `json()` form: parsing it back gives equal files. */
    function Json(): (raw: map<Path, RawFile>)
      ensures ParseInput(raw) == files
      ensures raw.Keys == files.Keys
    {
      ParseDumpRoundTrip(files);
      DumpInput(files)
    }

    method DependsOn() returns (r: Relation)
      requires Valid()
      modifies this`dependsOnCache
      ensures Valid()
      ensures r.value == DependencyGraph.DependsOn(files)
      ensures old(dependsOnCache) != null ==> r == old(dependsOnCache)
      ensures old(dependsOnCache) == null ==> fresh(r)
      ensures dependsOnCache == r
    {
      if dependsOnCache == null {
        dependsOnCache := new Relation(DependencyGraph.DependsOn(files));
      }
      r := dependsOnCache;
    }

    method RequiredBy() returns (r: Relation)
      requires Valid()
      modifies this`requiredByCache
      ensures Valid()
      ensures r.value == DependencyGraph.RequiredBy(files)
      ensures old(requiredByCache) != null ==> r == old(requiredByCache)
      ensures old(requiredByCache) == null ==> fresh(r)
      ensures requiredByCache == r
    {
      if requiredByCache == null {
        requiredByCache := new Relation(DependencyGraph.RequiredBy(files));
      }
      r := requiredByCache;
    }

    method VerifiedWith() returns (r: Relation)
      requires Valid()
      modifies this`verifiedWithCache
      ensures Valid()
      ensures r.value == DependencyGraph.VerifiedWith(files)
      ensures old(verifiedWithCache) != null ==> r == old(verifiedWithCache)
      ensures old(verifiedWithCache) == null ==> fresh(r)
      ensures verifiedWithCache == r
    {
      if verifiedWithCache == null {
        verifiedWithCache := new Relation(DependencyGraph.VerifiedWith(files));
      }
      r := verifiedWithCache;
    }

    method TransitiveDependsOn() returns (r: Relation)
      requires Valid()
      modifies this`transitiveDependsOnCache
      ensures Valid()
      ensures r.value == DependencyGraph.TransitiveDependsOn(files)
      ensures old(transitiveDependsOnCache) != null ==> r == old(transitiveDependsOnCache)
      ensures old(transitiveDependsOnCache) == null ==> fresh(r)
      ensures transitiveDependsOnCache == r
    {
      if transitiveDependsOnCache == null {
        transitiveDependsOnCache := new Relation(DependencyGraph.TransitiveDependsOn(files));
      }
      r := transitiveDependsOnCache;
    }
  }
}
