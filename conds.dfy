/** `conds` in `src/lib.rs`: for each package, the packages that depend on it
    and how (optional, platform-specific), sorted by `(name, version, id)`. */
module Conds {
  import opened Wrappers
  import opened Text
  import opened Packages
  import opened IndexMaps

  /** `OutcomeUnusedBy`. */
  datatype UnusedBy = UnusedBy(optional: bool, platform: Option<string>)

  /** Dependency package id to its dependents, with the condition of each. */
  type CondMap = map<PackageId, IndexMap<PackageId, UnusedBy>>

  /** `[a-zA-Z0-9_-]`. */
  predicate IsNameChar(c: char)
  {
    IsIdentChar(c) || c == '-'
  }

  /** The length of the leading run of name characters. */
  function NameLength(s: string): (n: nat)
    ensures n <= |s|
    ensures forall i :: 0 <= i < n ==> IsNameChar(s[i])
    ensures n < |s| ==> !IsNameChar(s[n])
  {
    if s == [] || !IsNameChar(s[0]) then 0 else 1 + NameLength(s[1..])
  }

  /** `\A([a-zA-Z0-9_-]+).*\z` on a package id: the longest leading run of name
      characters, when it is not empty and no newline follows it. */
  function CrateNameOf(repr: string): Option<string>
  {
    var n := NameLength(repr);
    if n == 0 || !NoNewline(repr[n..]) then None else Some(repr[..n])
  }

  /** The capture is the one name that is a non-empty prefix of name
      characters, followed by no further name character and no newline. */
  lemma CrateNameOfIff(repr: string, name: string)
    ensures CrateNameOf(repr) == Some(name) <==>
      0 < |name| <= |repr| && repr[..|name|] == name
      && (forall i :: 0 <= i < |name| ==> IsNameChar(name[i]))
      && (|name| == |repr| || !IsNameChar(repr[|name|]))
      && NoNewline(repr[|name|..])
  {
  }

  /** `package.dependencies` by rename; a later one replaces an earlier one. */
  function RenamedMap(deps: seq<Dependency>): map<string, Dependency>
  {
    if deps == [] then map[]
    else
      var k := |deps| - 1;
      var m := RenamedMap(deps[..k]);
      if deps[k].rename.Some? then m[deps[k].rename.value := deps[k]] else m
  }

  /** `package.dependencies` without a rename, by name; a later one replaces an
      earlier one. */
  function UnrenamedMap(deps: seq<Dependency>): map<string, Dependency>
  {
    if deps == [] then map[]
    else
      var k := |deps| - 1;
      var m := UnrenamedMap(deps[..k]);
      if deps[k].rename.None? then m[deps[k].name := deps[k]] else m
  }

  /** The renamed dependencies: each rename maps to the last dependency that
      carries it. */
  lemma {:induction false} RenamedMapLastWins(deps: seq<Dependency>, x: string)
    ensures x in RenamedMap(deps) <==> exists i :: 0 <= i < |deps| && deps[i].rename == Some(x)
    ensures x in RenamedMap(deps) ==>
      exists i :: 0 <= i < |deps| && deps[i].rename == Some(x) && RenamedMap(deps)[x] == deps[i]
                 && forall j :: i < j < |deps| ==> deps[j].rename != Some(x)
  {
    if deps != [] {
      var k := |deps| - 1;
      var front := deps[..k];
      RenamedMapLastWins(front, x);
      if deps[k].rename != Some(x) {
        if exists i :: 0 <= i < |deps| && deps[i].rename == Some(x) {
          var i :| 0 <= i < |deps| && deps[i].rename == Some(x);
          assert front[i] == deps[i];
        }
        if x in RenamedMap(front) {
          var i :| 0 <= i < |front| && front[i].rename == Some(x) && RenamedMap(front)[x] == front[i]
            && forall j :: i < j < |front| ==> front[j].rename != Some(x);
          assert deps[i] == front[i];
          forall j | i < j < |deps|
            ensures deps[j].rename != Some(x)
          {
            if j < k {
              assert deps[j] == front[j];
            }
          }
        }
      }
    }
  }

  /** The dependencies without a rename: each name maps to the last such
      dependency of that name. */
  lemma {:induction false} UnrenamedMapLastWins(deps: seq<Dependency>, x: string)
    ensures x in UnrenamedMap(deps) <==> exists i :: 0 <= i < |deps| && deps[i].rename.None? && deps[i].name == x
    ensures x in UnrenamedMap(deps) ==>
      exists i :: 0 <= i < |deps| && deps[i].rename.None? && deps[i].name == x && UnrenamedMap(deps)[x] == deps[i]
                 && forall j :: i < j < |deps| ==> !(deps[j].rename.None? && deps[j].name == x)
  {
    if deps != [] {
      var k := |deps| - 1;
      var front := deps[..k];
      UnrenamedMapLastWins(front, x);
      if !(deps[k].rename.None? && deps[k].name == x) {
        if exists i :: 0 <= i < |deps| && deps[i].rename.None? && deps[i].name == x {
          var i :| 0 <= i < |deps| && deps[i].rename.None? && deps[i].name == x;
          assert front[i] == deps[i];
        }
        if x in UnrenamedMap(front) {
          var i :| 0 <= i < |front| && front[i].rename.None? && front[i].name == x && UnrenamedMap(front)[x] == front[i]
            && forall j :: i < j < |front| ==> !(front[j].rename.None? && front[j].name == x);
          assert deps[i] == front[i];
          forall j | i < j < |deps|
            ensures !(deps[j].rename.None? && deps[j].name == x)
          {
            if j < k {
              assert deps[j] == front[j];
            }
          }
        }
      }
    }
  }

  /** The manifest dependency behind a resolved dependency: the one renamed to
      its crate name, else the unrenamed one named like the start of its
      package id; `None` where the source panics. */
  function ChooseDependency(p: Package, dep: NodeDep): Option<Dependency>
  {
    var renamed := RenamedMap(p.dependencies);
    if dep.name in renamed then Some(renamed[dep.name])
    else match CrateNameOf(dep.pkg.repr)
      case None => None
      case Some(name) =>
        var unrenamed := UnrenamedMap(p.dependencies);
        if name in unrenamed then Some(unrenamed[name]) else None
  }

  /** A rename wins over a name; the chosen dependency is owned by the package;
      the choice fails exactly when neither lookup finds one. */
  lemma ChooseDependencyFacts(p: Package, dep: NodeDep)
    ensures var r := ChooseDependency(p, dep);
      ((exists i :: 0 <= i < |p.dependencies| && p.dependencies[i].rename == Some(dep.name)) ==>
         r.Some? && r.value.rename == Some(dep.name))
      && (r.Some? ==> r.value in p.dependencies)
      && (r.Some? && r.value.rename != Some(dep.name) ==>
            r.value.rename.None? && CrateNameOf(dep.pkg.repr) == Some(r.value.name))
      && (r.None? <==>
            (forall i :: 0 <= i < |p.dependencies| ==> p.dependencies[i].rename != Some(dep.name))
            && (CrateNameOf(dep.pkg.repr).None?
                || forall i :: 0 <= i < |p.dependencies| ==>
                     !(p.dependencies[i].rename.None? && Some(p.dependencies[i].name) == CrateNameOf(dep.pkg.repr))))
  {
    RenamedMapLastWins(p.dependencies, dep.name);
    if CrateNameOf(dep.pkg.repr).Some? {
      UnrenamedMapLastWins(p.dependencies, CrateNameOf(dep.pkg.repr).value);
    }
  }

  function Entry(c: CondMap, k: PackageId): IndexMap<PackageId, UnusedBy>
  {
    if k in c then c[k] else Empty()
  }

  predicate AllValid(c: CondMap)
  {
    forall k :: k in c ==> Valid(c[k])
  }

  /** One resolved dependency of `p`: record `p` as a dependent of its package. */
  function AddDep(c: CondMap, p: Package, dep: NodeDep): (r: Option<CondMap>)
    requires AllValid(c)
    ensures r.Some? ==> AllValid(r.value)
  {
    match ChooseDependency(p, dep)
    case None => None
    case Some(d) => Some(c[dep.pkg := Insert(Entry(c, dep.pkg), p.id, UnusedBy(d.optional, d.platform))])
  }

  /** The inner loop, over a node's dependencies in order. */
  function AddDeps(c: CondMap, p: Package, deps: seq<NodeDep>): (r: Option<CondMap>)
    requires AllValid(c)
    ensures r.Some? ==> AllValid(r.value)
    decreases |deps|
  {
    if deps == [] then Some(c)
    else match AddDep(c, p, deps[0])
      case None => None
      case Some(c') => AddDeps(c', p, deps[1..])
  }

  /** The outer loop, over the metadata's packages in order; a package without
      a resolve node panics. */
  function AddPackages(c: CondMap, packages: seq<Package>, nodes: map<PackageId, Node>): (r: Option<CondMap>)
    requires AllValid(c)
    ensures r.Some? ==> AllValid(r.value)
    decreases |packages|
  {
    if packages == [] then Some(c)
    else if packages[0].id !in nodes then None
    else match AddDeps(c, packages[0], nodes[packages[0].id].deps)
      case None => None
      case Some(c') => AddPackages(c', packages[1..], nodes)
  }

  /** Every dependent recorded is one of `ids`. */
  predicate Within(c: CondMap, ids: set<PackageId>)
  {
    forall k, x :: k in c && x in c[k].values ==> x in ids
  }

  lemma {:induction false} AddDepsWithin(c: CondMap, p: Package, deps: seq<NodeDep>, ids: set<PackageId>)
    requires AllValid(c) && Within(c, ids) && p.id in ids
    ensures AddDeps(c, p, deps).Some? ==> Within(AddDeps(c, p, deps).value, ids)
    decreases |deps|
  {
    if deps != [] && AddDep(c, p, deps[0]).Some? {
      AddDepsWithin(AddDep(c, p, deps[0]).value, p, deps[1..], ids);
    }
  }

  lemma {:induction false} AddPackagesWithin(c: CondMap, packages: seq<Package>, nodes: map<PackageId, Node>, ids: set<PackageId>)
    requires AllValid(c) && Within(c, ids)
    requires forall i :: 0 <= i < |packages| ==> packages[i].id in ids
    ensures AddPackages(c, packages, nodes).Some? ==> Within(AddPackages(c, packages, nodes).value, ids)
    decreases |packages|
  {
    if packages != [] && packages[0].id in nodes {
      AddDepsWithin(c, packages[0], nodes[packages[0].id].deps, ids);
      var r := AddDeps(c, packages[0], nodes[packages[0].id].deps);
      if r.Some? {
        assert forall i :: 0 <= i < |packages[1..]| ==> packages[1..][i] == packages[i + 1];
        AddPackagesWithin(r.value, packages[1..], nodes, ids);
      }
    }
  }

  function Ids(packages: seq<Package>): set<PackageId>
  {
    set i | 0 <= i < |packages| :: packages[i].id
  }

  /** `value.sort_by(ordkey)`: the same entries, keys in `(name, version, id)`
      order. */
  function SortValue(packages: map<PackageId, Package>, v: IndexMap<PackageId, UnusedBy>): (r: IndexMap<PackageId, UnusedBy>)
    requires Indexed(packages) && Valid(v)
    requires forall x :: x in v.values ==> x in packages
    ensures Valid(r) && r.values == v.values && Ascending(packages, r.keys)
  {
    var keys := SortIds(packages, v.keys);
    assert forall x :: x in keys <==> x in multiset(keys);
    assert forall x :: x in v.keys <==> x in multiset(v.keys);
    IndexMap(keys, v.values)
  }

  /** `conds`: built over the packages and their resolved dependencies, then
      each value sorted; `None` where the source panics. */
  function ConditionsOf(metadata: seq<Package>, nodes: map<PackageId, Node>): Option<CondMap>
  {
    match AddPackages(map[], metadata, nodes)
    case None => None
    case Some(c) =>
      var packages := PackageMap(metadata);
      AddPackagesWithin(map[], metadata, nodes, Ids(metadata));
      assert forall x :: x in Ids(metadata) ==> x in packages;
      Some(map k | k in c :: SortValue(packages, c[k]))
  }

  /** A package whose resolve node exists and every resolved dependency of
      which has a manifest dependency behind it. */
  predicate Resolvable(p: Package, nodes: map<PackageId, Node>)
  {
    p.id in nodes && forall j :: 0 <= j < |nodes[p.id].deps| ==> ChooseDependency(p, nodes[p.id].deps[j]).Some?
  }

  lemma {:induction false} AddDepsNone(c: CondMap, p: Package, deps: seq<NodeDep>)
    requires AllValid(c)
    ensures AddDeps(c, p, deps).None? <==> exists j :: 0 <= j < |deps| && ChooseDependency(p, deps[j]).None?
    decreases |deps|
  {
    if deps != [] && AddDep(c, p, deps[0]).Some? {
      AddDepsNone(AddDep(c, p, deps[0]).value, p, deps[1..]);
      if exists j :: 0 <= j < |deps| && ChooseDependency(p, deps[j]).None? {
        var j :| 0 <= j < |deps| && ChooseDependency(p, deps[j]).None?;
        assert deps[1..][j - 1] == deps[j];
      }
      if exists j :: 0 <= j < |deps[1..]| && ChooseDependency(p, deps[1..][j]).None? {
        var j :| 0 <= j < |deps[1..]| && ChooseDependency(p, deps[1..][j]).None?;
        assert deps[j + 1] == deps[1..][j];
      }
    }
  }

  lemma {:induction false} AddPackagesNone(c: CondMap, packages: seq<Package>, nodes: map<PackageId, Node>)
    requires AllValid(c)
    ensures AddPackages(c, packages, nodes).None? <==> exists i :: 0 <= i < |packages| && !Resolvable(packages[i], nodes)
    decreases |packages|
  {
    if packages != [] && packages[0].id in nodes {
      AddDepsNone(c, packages[0], nodes[packages[0].id].deps);
      var r := AddDeps(c, packages[0], nodes[packages[0].id].deps);
      if r.Some? {
        AddPackagesNone(r.value, packages[1..], nodes);
        if exists i :: 0 <= i < |packages| && !Resolvable(packages[i], nodes) {
          var i :| 0 <= i < |packages| && !Resolvable(packages[i], nodes);
          assert packages[1..][i - 1] == packages[i];
        }
        if exists i :: 0 <= i < |packages[1..]| && !Resolvable(packages[1..][i], nodes) {
          var i :| 0 <= i < |packages[1..]| && !Resolvable(packages[1..][i], nodes);
          assert packages[i + 1] == packages[1..][i];
        }
      }
    }
  }

  /** The construction panics exactly when some package has no resolve node,
      or some resolved dependency has no manifest dependency behind it; the
      order of the packages does not matter for that. */
  lemma ConditionsNoneIff(metadata: seq<Package>, nodes: map<PackageId, Node>)
    ensures ConditionsOf(metadata, nodes).None? <==> exists i :: 0 <= i < |metadata| && !Resolvable(metadata[i], nodes)
  {
    AddPackagesNone(map[], metadata, nodes);
  }

  /** `x` is recorded as a dependent of `k`. */
  predicate Has(c: CondMap, k: PackageId, x: PackageId)
  {
    k in c && x in c[k].values
  }

  /** `p` has a resolved dependency on package `k`. */
  predicate DependsOn(nodes: map<PackageId, Node>, p: Package, k: PackageId)
  {
    p.id in nodes && exists j :: 0 <= j < |nodes[p.id].deps| && nodes[p.id].deps[j].pkg == k
  }

  /** The condition `p` is recorded with for `dep`: the optionality and
      platform of the manifest dependency behind it, if there is one. */
  function RecordedBy(p: Package, dep: NodeDep): Option<UnusedBy>
  {
    match ChooseDependency(p, dep)
    case None => None
    case Some(d) => Some(UnusedBy(d.optional, d.platform))
  }

  /** One step records `p` under `dep`'s package with `dep`'s condition,
      overwriting an earlier one, and leaves every other entry as it was. */
  lemma AddDepFacts(c: CondMap, p: Package, dep: NodeDep)
    requires AllValid(c) && AddDep(c, p, dep).Some?
    ensures var r := AddDep(c, p, dep).value;
      Has(r, dep.pkg, p.id)
      && Some(r[dep.pkg].values[p.id]) == RecordedBy(p, dep)
      && (forall k, x :: Has(c, k, x) ==> Has(r, k, x))
      && (forall k, x :: Has(r, k, x) ==> Has(c, k, x) || (k == dep.pkg && x == p.id))
      && (forall k, x :: Has(c, k, x) && !(k == dep.pkg && x == p.id) ==> r[k].values[x] == c[k].values[x])
  {
  }

  /** The position of the last of `deps` on package `k`. */
  function LastDep(deps: seq<NodeDep>, k: PackageId): (j: Option<nat>)
    ensures j.Some? ==> j.value < |deps| && deps[j.value].pkg == k
                        && forall i :: j.value < i < |deps| ==> deps[i].pkg != k
    ensures j.None? <==> forall i :: 0 <= i < |deps| ==> deps[i].pkg != k
    decreases |deps|
  {
    if deps == [] then None
    else if deps[|deps| - 1].pkg == k then Some(|deps| - 1)
    else
      var j := LastDep(deps[..|deps| - 1], k);
      assert forall i :: 0 <= i < |deps| - 1 ==> deps[..|deps| - 1][i] == deps[i];
      j
  }

  /** Where the front of `deps` is taken off, the last dependency on `k` is
      the last one among the rest, or else the first one. */
  lemma LastDepCons(deps: seq<NodeDep>, k: PackageId)
    requires deps != []
    ensures var rest := LastDep(deps[1..], k);
      LastDep(deps, k) == (if rest.Some? then Some(rest.value + 1)
                           else if deps[0].pkg == k then Some(0) else None)
  {
    var rest := LastDep(deps[1..], k);
    assert forall i :: 1 <= i < |deps| ==> deps[i] == deps[1..][i - 1];
    if rest.Some? {
      assert deps[rest.value + 1].pkg == k;
    }
  }

  /** The position of the last of `packages` with id `x` that depends on `k`. */
  function LastPackage(packages: seq<Package>, nodes: map<PackageId, Node>, k: PackageId, x: PackageId): (i: Option<nat>)
    ensures i.Some? ==> i.value < |packages| && packages[i.value].id == x && DependsOn(nodes, packages[i.value], k)
                        && forall j :: i.value < j < |packages| ==> !(packages[j].id == x && DependsOn(nodes, packages[j], k))
    ensures i.None? <==> forall j :: 0 <= j < |packages| ==> !(packages[j].id == x && DependsOn(nodes, packages[j], k))
    decreases |packages|
  {
    var n := |packages|;
    if packages == [] then None
    else if packages[n - 1].id == x && DependsOn(nodes, packages[n - 1], k) then Some(n - 1)
    else
      var i := LastPackage(packages[..n - 1], nodes, k, x);
      assert forall j :: 0 <= j < n - 1 ==> packages[..n - 1][j] == packages[j];
      i
  }

  /** The last matching position is the only one after which nothing matches. */
  lemma LastPackageAt(packages: seq<Package>, nodes: map<PackageId, Node>, k: PackageId, x: PackageId, i: nat)
    requires i < |packages| && packages[i].id == x && DependsOn(nodes, packages[i], k)
    requires forall j :: i < j < |packages| ==> !(packages[j].id == x && DependsOn(nodes, packages[j], k))
    ensures LastPackage(packages, nodes, k, x) == Some(i)
  {
    assert LastPackage(packages, nodes, k, x).Some?;
  }

  lemma LastPackageCons(packages: seq<Package>, nodes: map<PackageId, Node>, k: PackageId, x: PackageId)
    requires packages != []
    ensures var rest := LastPackage(packages[1..], nodes, k, x);
      LastPackage(packages, nodes, k, x) ==
        (if rest.Some? then Some(rest.value + 1)
         else if packages[0].id == x && DependsOn(nodes, packages[0], k) then Some(0) else None)
  {
    var rest := LastPackage(packages[1..], nodes, k, x);
    forall j | 1 <= j < |packages|
      ensures packages[j] == packages[1..][j - 1]
    {
    }
    if rest.Some? {
      LastPackageAt(packages, nodes, k, x, rest.value + 1);
    } else if packages[0].id == x && DependsOn(nodes, packages[0], k) {
      LastPackageAt(packages, nodes, k, x, 0);
    }
  }

  /** `p` depends on `k` exactly when its node has a last dependency on `k`. */
  lemma DependsOnLast(nodes: map<PackageId, Node>, p: Package, k: PackageId)
    requires p.id in nodes
    ensures DependsOn(nodes, p, k) <==> LastDep(nodes[p.id].deps, k).Some?
  {
    if LastDep(nodes[p.id].deps, k).Some? {
      assert nodes[p.id].deps[LastDep(nodes[p.id].deps, k).value].pkg == k;
    }
  }

  /** The condition the whole construction records for `x` under `k`: that of
      the last dependency on `k` of the last package with id `x` that has one,
      since every later insert overwrites an earlier one. */
  function Recorded(packages: seq<Package>, nodes: map<PackageId, Node>, k: PackageId, x: PackageId): Option<UnusedBy>
  {
    match LastPackage(packages, nodes, k, x)
    case None => None
    case Some(i) =>
      var deps := nodes[packages[i].id].deps;
      match LastDep(deps, k)
      case None => None
      case Some(j) => RecordedBy(packages[i], deps[j])
  }

  /** Earlier entries stay. */
  lemma {:induction false} AddDepsKeeps(c: CondMap, p: Package, deps: seq<NodeDep>)
    requires AllValid(c) && AddDeps(c, p, deps).Some?
    ensures forall k, x :: Has(c, k, x) ==> Has(AddDeps(c, p, deps).value, k, x)
    decreases |deps|
  {
    if deps != [] {
      AddDepFacts(c, p, deps[0]);
      AddDepsKeeps(AddDep(c, p, deps[0]).value, p, deps[1..]);
    }
  }

  /** Every dependency's package gets `p` as a dependent. */
  lemma {:induction false} AddDepsAdds(c: CondMap, p: Package, deps: seq<NodeDep>)
    requires AllValid(c) && AddDeps(c, p, deps).Some?
    ensures forall j :: 0 <= j < |deps| ==> Has(AddDeps(c, p, deps).value, deps[j].pkg, p.id)
    decreases |deps|
  {
    if deps != [] {
      var c' := AddDep(c, p, deps[0]).value;
      AddDepFacts(c, p, deps[0]);
      AddDepsKeeps(c', p, deps[1..]);
      AddDepsAdds(c', p, deps[1..]);
      forall j | 0 <= j < |deps|
        ensures Has(AddDeps(c, p, deps).value, deps[j].pkg, p.id)
      {
        if j > 0 {
          assert deps[1..][j - 1] == deps[j];
        }
      }
    }
  }

  /** Nothing else is added. */
  lemma {:induction false} AddDepsOnly(c: CondMap, p: Package, deps: seq<NodeDep>)
    requires AllValid(c) && AddDeps(c, p, deps).Some?
    ensures forall k, x :: Has(AddDeps(c, p, deps).value, k, x) ==>
      Has(c, k, x) || (x == p.id && exists j :: 0 <= j < |deps| && deps[j].pkg == k)
    decreases |deps|
  {
    if deps != [] {
      var c' := AddDep(c, p, deps[0]).value;
      AddDepFacts(c, p, deps[0]);
      AddDepsOnly(c', p, deps[1..]);
      forall k, x | Has(AddDeps(c, p, deps).value, k, x) && !Has(c, k, x)
        ensures x == p.id && exists j :: 0 <= j < |deps| && deps[j].pkg == k
      {
        if Has(c', k, x) {
          assert deps[0].pkg == k;
        } else {
          var j :| 0 <= j < |deps[1..]| && deps[1..][j].pkg == k;
          assert deps[j + 1].pkg == k;
        }
      }
    }
  }

  /** After a node's dependencies, `p` carries under `k` the condition of its
      last dependency on `k`; every other entry under `k` is as before. */
  lemma {:induction false} AddDepsValue(c: CondMap, p: Package, deps: seq<NodeDep>, k: PackageId)
    requires AllValid(c) && AddDeps(c, p, deps).Some?
    ensures var r := AddDeps(c, p, deps).value;
      (LastDep(deps, k).Some? ==>
         Has(r, k, p.id) && Some(r[k].values[p.id]) == RecordedBy(p, deps[LastDep(deps, k).value]))
      && (forall x :: Has(c, k, x) && !(x == p.id && LastDep(deps, k).Some?) ==>
            Has(r, k, x) && r[k].values[x] == c[k].values[x])
    decreases |deps|
  {
    if deps != [] {
      var c' := AddDep(c, p, deps[0]).value;
      AddDepFacts(c, p, deps[0]);
      AddDepsValue(c', p, deps[1..], k);
      LastDepCons(deps, k);
      var rest := LastDep(deps[1..], k);
      if rest.Some? {
        assert deps[rest.value + 1] == deps[1..][rest.value];
      }
    }
  }

  /** After the packages, `x` carries under `k` the condition of the last
      package with id `x` depending on `k`; without one, an entry is as before. */
  lemma {:induction false} AddPackagesValue(c: CondMap, packages: seq<Package>, nodes: map<PackageId, Node>, k: PackageId, x: PackageId)
    requires AllValid(c) && AddPackages(c, packages, nodes).Some?
    ensures var r := AddPackages(c, packages, nodes).value;
      (LastPackage(packages, nodes, k, x).Some? ==>
         Has(r, k, x) && Some(r[k].values[x]) == Recorded(packages, nodes, k, x))
      && (LastPackage(packages, nodes, k, x).None? && Has(c, k, x) ==>
            Has(r, k, x) && r[k].values[x] == c[k].values[x])
    decreases |packages|
  {
    if packages != [] {
      var p := packages[0];
      var deps := nodes[p.id].deps;
      var c' := AddDeps(c, p, deps).value;
      AddDepsValue(c, p, deps, k);
      DependsOnLast(nodes, p, k);
      AddPackagesValue(c', packages[1..], nodes, k, x);
      LastPackageCons(packages, nodes, k, x);
      var rest := LastPackage(packages[1..], nodes, k, x);
      if rest.Some? {
        assert packages[rest.value + 1] == packages[1..][rest.value];
        assert Recorded(packages, nodes, k, x) == Recorded(packages[1..], nodes, k, x);
      }
    }
  }

  lemma {:induction false} AddPackagesKeeps(c: CondMap, packages: seq<Package>, nodes: map<PackageId, Node>)
    requires AllValid(c) && AddPackages(c, packages, nodes).Some?
    ensures forall k, x :: Has(c, k, x) ==> Has(AddPackages(c, packages, nodes).value, k, x)
    decreases |packages|
  {
    if packages != [] {
      var deps := nodes[packages[0].id].deps;
      AddDepsKeeps(c, packages[0], deps);
      AddPackagesKeeps(AddDeps(c, packages[0], deps).value, packages[1..], nodes);
    }
  }

  lemma {:induction false} AddPackagesAdds(c: CondMap, packages: seq<Package>, nodes: map<PackageId, Node>)
    requires AllValid(c) && AddPackages(c, packages, nodes).Some?
    ensures forall i, k :: 0 <= i < |packages| && DependsOn(nodes, packages[i], k) ==>
      Has(AddPackages(c, packages, nodes).value, k, packages[i].id)
    decreases |packages|
  {
    if packages != [] {
      var deps := nodes[packages[0].id].deps;
      var c' := AddDeps(c, packages[0], deps).value;
      AddDepsAdds(c, packages[0], deps);
      AddPackagesKeeps(c', packages[1..], nodes);
      AddPackagesAdds(c', packages[1..], nodes);
      forall i, k | 0 <= i < |packages| && DependsOn(nodes, packages[i], k)
        ensures Has(AddPackages(c, packages, nodes).value, k, packages[i].id)
      {
        if i > 0 {
          assert packages[1..][i - 1] == packages[i];
        } else {
          var j :| 0 <= j < |deps| && deps[j].pkg == k;
        }
      }
    }
  }

  lemma {:induction false} AddPackagesOnly(c: CondMap, packages: seq<Package>, nodes: map<PackageId, Node>)
    requires AllValid(c) && AddPackages(c, packages, nodes).Some?
    ensures forall k, x :: Has(AddPackages(c, packages, nodes).value, k, x) ==>
      Has(c, k, x) || exists i :: 0 <= i < |packages| && packages[i].id == x && DependsOn(nodes, packages[i], k)
    decreases |packages|
  {
    if packages != [] {
      var deps := nodes[packages[0].id].deps;
      var c' := AddDeps(c, packages[0], deps).value;
      AddDepsOnly(c, packages[0], deps);
      AddPackagesOnly(c', packages[1..], nodes);
      forall k, x | Has(AddPackages(c, packages, nodes).value, k, x) && !Has(c, k, x)
        ensures exists i :: 0 <= i < |packages| && packages[i].id == x && DependsOn(nodes, packages[i], k)
      {
        if Has(c', k, x) {
          assert packages[0].id == x && DependsOn(nodes, packages[0], k);
        } else {
          var i :| 0 <= i < |packages[1..]| && packages[1..][i].id == x && DependsOn(nodes, packages[1..][i], k);
          assert packages[i + 1] == packages[1..][i];
        }
      }
    }
  }

  /** The dependents of `k` are exactly the packages with a resolved dependency
      on `k`, each listed once, in `(name, version, id)` order, each with the
      condition its last such dependency was recorded with. */
  lemma ConditionsEntries(metadata: seq<Package>, nodes: map<PackageId, Node>, k: PackageId, x: PackageId)
    requires ConditionsOf(metadata, nodes).Some?
    ensures var c := ConditionsOf(metadata, nodes).value;
      (Has(c, k, x) <==> exists i :: 0 <= i < |metadata| && metadata[i].id == x && DependsOn(nodes, metadata[i], k))
      && (k in c ==> Valid(c[k]) && Ascending(PackageMap(metadata), c[k].keys))
      && (Has(c, k, x) ==> Some(c[k].values[x]) == Recorded(metadata, nodes, k, x))
  {
    AddPackagesAdds(map[], metadata, nodes);
    AddPackagesOnly(map[], metadata, nodes);
    AddPackagesValue(map[], metadata, nodes, k, x);
    var raw := AddPackages(map[], metadata, nodes).value;
    var c := ConditionsOf(metadata, nodes).value;
    assert Has(c, k, x) <==> Has(raw, k, x);
    assert k in c ==> c[k].values == raw[k].values;
  }

  /** `conds`, as the source builds it: two nested loops updating the map,
      then every value sorted. */
  method BuildConds(metadata: seq<Package>, nodes: map<PackageId, Node>) returns (r: Option<CondMap>)
    ensures r == ConditionsOf(metadata, nodes)
  {
    var conds: CondMap := map[];
    for i := 0 to |metadata|
      invariant AllValid(conds)
      invariant AddPackages(map[], metadata, nodes) == AddPackages(conds, metadata[i..], nodes)
    {
      assert metadata[i..][0] == metadata[i] && metadata[i..][1..] == metadata[i + 1..];
      var p := metadata[i];
      if p.id !in nodes {
        return None;
      }
      var deps := nodes[p.id].deps;
      ghost var start := conds;
      for j := 0 to |deps|
        invariant AllValid(conds)
        invariant AddDeps(start, p, deps) == AddDeps(conds, p, deps[j..])
      {
        assert deps[j..][0] == deps[j] && deps[j..][1..] == deps[j + 1..];
        var dependency := ChooseDependency(p, deps[j]);
        if dependency.None? {
          return None;
        }
        var value := UnusedBy(dependency.value.optional, dependency.value.platform);
        conds := conds[deps[j].pkg := Insert(Entry(conds, deps[j].pkg), p.id, value)];
      }
      assert deps[|deps|..] == [];
    }
    assert metadata[|metadata|..] == [];
    var packages := PackageMap(metadata);
    AddPackagesWithin(map[], metadata, nodes, Ids(metadata));
    assert forall x :: x in Ids(metadata) ==> x in packages;
    r := Some(map k | k in conds :: SortValue(packages, conds[k]));
  }
}
