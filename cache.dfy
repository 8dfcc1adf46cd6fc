/** The on-disk usage cache of `src/lib.rs` (`Cache`, `CacheByMode`): probe
    results by root target source file and by package, kept apart for debug
    and release builds. */
module Caches {
  import opened Wrappers
  import opened Packages
  import opened IndexMaps

  /** An `IndexSet` of package ids: a list without repetition. */
  type IdSet = seq<PackageId>

  /** `CacheByMode`: the packages each root target source file used, and the
      packages each package used. */
  datatype CacheByMode = CacheByMode(targets: map<string, IdSet>, dependencies: IndexMap<PackageId, IdSet>)

  predicate ModeValid(m: CacheByMode)
  {
    (forall p :: p in m.targets ==> Distinct(m.targets[p]))
    && DepsValid(m.dependencies)
  }

  function EmptyMode(): (m: CacheByMode)
    ensures ModeValid(m) && m.targets == map[] && m.dependencies.values == map[]
  {
    CacheByMode(map[], Empty())
  }

  /** The elements of a list. */
  function SetOf(s: IdSet): set<PackageId>
  {
    set x | x in s
  }

  /** The cached contents of a mode, forgetting order. */
  function TargetContents(m: CacheByMode): map<string, set<PackageId>>
  {
    map p | p in m.targets :: SetOf(m.targets[p])
  }

  /** Replacing one target's list changes the contents of that target only. */
  lemma TargetContentsSet(m: CacheByMode, p: string, v: IdSet)
    ensures TargetContents(m.(targets := m.targets[p := v])) == TargetContents(m)[p := SetOf(v)]
  {
  }

  function Contents(d: IndexMap<PackageId, IdSet>): map<PackageId, set<PackageId>>
  {
    map k | k in d.values :: SetOf(d.values[k])
  }

  function DependencyContents(m: CacheByMode): map<PackageId, set<PackageId>>
  {
    Contents(m.dependencies)
  }

  /** An `IndexMap` of lists without repetition. */
  predicate DepsValid(d: IndexMap<PackageId, IdSet>)
  {
    Valid(d) && forall k :: k in d.values ==> Distinct(d.values[k])
  }

  /** `insert` changes the contents of one key only. */
  lemma ContentsInsert(d: IndexMap<PackageId, IdSet>, k: PackageId, v: IdSet)
    requires Valid(d)
    ensures Contents(Insert(d, k, v)) == Contents(d)[k := SetOf(v)]
  {
  }

  /** `remove` drops one key and leaves the rest of the contents alone. */
  lemma ContentsRemove(d: IndexMap<PackageId, IdSet>, k: PackageId)
    requires Valid(d)
    ensures Contents(SwapRemove(d, k)) == Contents(d) - {k}
  {
  }

  /** `sort_by` on a list compares its elements, which panics on an id that is
      not a known package; a list shorter than two is never compared. */
  predicate Sortable(packages: map<PackageId, Package>, s: IdSet)
  {
    |s| < 2 || forall i :: 0 <= i < |s| ==> s[i] in packages
  }

  function SortList(packages: map<PackageId, Package>, s: IdSet): (r: IdSet)
    requires Indexed(packages) && Distinct(s) && Sortable(packages, s)
    ensures Distinct(r) && forall x :: x in r <==> x in s
    ensures (forall i :: 0 <= i < |s| ==> s[i] in packages) ==> Ascending(packages, r)
  {
    if |s| < 2 then s
    else
      var r := SortIds(packages, s);
      assert forall x :: x in r <==> x in multiset(r);
      assert forall x :: x in s <==> x in multiset(s);
      r
  }

  /** Whether sorting a mode completes without a panic. */
  predicate ModeSortable(packages: map<PackageId, Package>, m: CacheByMode)
  {
    (forall p :: p in m.targets ==> Sortable(packages, m.targets[p]))
    && (forall k :: k in m.dependencies.values ==> Sortable(packages, m.dependencies.values[k]))
    && Sortable(packages, m.dependencies.keys)
  }

  /** `sort_targets` and `sort_dependencies`: every list, and the dependency
      keys, in `(name, version, id)` order. */
  function SortMode(packages: map<PackageId, Package>, m: CacheByMode): (r: CacheByMode)
    requires Indexed(packages) && ModeValid(m) && ModeSortable(packages, m)
    ensures ModeValid(r)
  {
    var targets := map p | p in m.targets :: SortList(packages, m.targets[p]);
    var values := map k | k in m.dependencies.values :: SortList(packages, m.dependencies.values[k]);
    var keys := SortList(packages, m.dependencies.keys);
    CacheByMode(targets, IndexMap(keys, values))
  }

  /** Sorting forgets nothing and adds nothing. */
  lemma SortModeContents(packages: map<PackageId, Package>, m: CacheByMode)
    requires Indexed(packages) && ModeValid(m) && ModeSortable(packages, m)
    ensures TargetContents(SortMode(packages, m)) == TargetContents(m)
    ensures DependencyContents(SortMode(packages, m)) == DependencyContents(m)
  {
    SortTargetContents(packages, m);
    SortDependencyContents(packages, m);
  }

  lemma SortTargetContents(packages: map<PackageId, Package>, m: CacheByMode)
    requires Indexed(packages) && ModeValid(m) && ModeSortable(packages, m)
    ensures TargetContents(SortMode(packages, m)) == TargetContents(m)
  {
    var r := SortMode(packages, m).targets;
    assert r.Keys == m.targets.Keys;
    forall p | p in m.targets
      ensures SetOf(r[p]) == SetOf(m.targets[p])
    {
      assert r[p] == SortList(packages, m.targets[p]);
    }
  }

  lemma SortDependencyContents(packages: map<PackageId, Package>, m: CacheByMode)
    requires Indexed(packages) && ModeValid(m) && ModeSortable(packages, m)
    ensures DependencyContents(SortMode(packages, m)) == DependencyContents(m)
  {
    var r := SortMode(packages, m).dependencies.values;
    assert r.Keys == m.dependencies.values.Keys;
    forall k | k in m.dependencies.values
      ensures SetOf(r[k]) == SetOf(m.dependencies.values[k])
    {
      assert r[k] == SortList(packages, m.dependencies.values[k]);
    }
  }

  /** Every element of `s` is a known package. */
  predicate Known(packages: map<PackageId, Package>, s: IdSet)
  {
    forall x :: x in s ==> x in packages
  }

  /** Every list of known packages in a mode, and its dependency keys when
      they are all known, in `(name, version, id)` order. */
  predicate ModeSorted(packages: map<PackageId, Package>, m: CacheByMode)
  {
    (forall p :: p in m.targets && Known(packages, m.targets[p]) ==> Ascending(packages, m.targets[p]))
    && (forall k :: k in m.dependencies.values && Known(packages, m.dependencies.values[k]) ==>
          Ascending(packages, m.dependencies.values[k]))
    && (Known(packages, m.dependencies.keys) ==> Ascending(packages, m.dependencies.keys))
  }

  lemma SortModeSorted(packages: map<PackageId, Package>, m: CacheByMode)
    requires Indexed(packages) && ModeValid(m) && ModeSortable(packages, m)
    ensures ModeSorted(packages, SortMode(packages, m))
  {
    var r := SortMode(packages, m);
    forall p | p in r.targets && Known(packages, r.targets[p])
      ensures Ascending(packages, r.targets[p])
    {
      assert r.targets[p] == SortList(packages, m.targets[p]);
    }
    forall k | k in r.dependencies.values && Known(packages, r.dependencies.values[k])
      ensures Ascending(packages, r.dependencies.values[k])
    {
      assert r.dependencies.values[k] == SortList(packages, m.dependencies.values[k]);
    }
  }

  /** `Cache`: the two modes. */
  class Cache {
    var debug: CacheByMode
    var release: CacheByMode

    predicate Valid()
      reads this
    {
      ModeValid(debug) && ModeValid(release)
    }

    /** `Cache::default()`, what an empty cache file reads as. */
    constructor ()
      ensures Valid()
      ensures debug == EmptyMode() && release == EmptyMode()
    {
      debug := EmptyMode();
      release := EmptyMode();
    }

    /** `get`: the debug side for a debug build, the release side otherwise. */
    function Get(d: bool): (m: CacheByMode)
      reads this
      ensures m == if d then debug else release
    {
      if d then debug else release
    }

    /** Storing through `get_mut`: one side changes, the other stays. */
    method Set(d: bool, m: CacheByMode)
      modifies this
      ensures d ==> debug == m && release == old(release)
      ensures !d ==> release == m && debug == old(debug)
      ensures Get(d) == m && Get(!d) == old(Get(!d))
    {
      if d {
        debug := m;
      } else {
        release := m;
      }
    }

    /** `Cache::sort`: both modes sorted.  `false` where the source panics on an
        unknown package, with nothing changed. */
    method Sort(packages: map<PackageId, Package>) returns (ok: bool)
      requires Indexed(packages) && Valid()
      modifies this
      ensures Valid()
      ensures ok <==> ModeSortable(packages, old(debug)) && ModeSortable(packages, old(release))
      ensures ok ==> debug == SortMode(packages, old(debug)) && release == SortMode(packages, old(release))
      ensures !ok ==> debug == old(debug) && release == old(release)
      ensures ok ==> ModeSorted(packages, debug) && ModeSorted(packages, release)
    {
      if !ModeSortable(packages, debug) || !ModeSortable(packages, release) {
        return false;
      }
      SortModeSorted(packages, debug);
      SortModeSorted(packages, release);
      debug := SortMode(packages, debug);
      release := SortMode(packages, release);
      return true;
    }
  }

  /** The cache file; `Write` replaces what it holds. */
  class CacheFile {
    var contents: (CacheByMode, CacheByMode)

    constructor (initial: (CacheByMode, CacheByMode))
      ensures contents == initial
    {
      contents := initial;
    }

    method Write(cache: Cache)
      modifies this
      ensures contents == (cache.debug, cache.release)
    {
      contents := (cache.debug, cache.release);
    }
  }
}
