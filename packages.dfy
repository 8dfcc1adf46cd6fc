/** Packages as `cargo metadata` describes them, and the `(name, version, id)`
    order in which `src/lib.rs` sorts them. */
module Packages {
  import opened Wrappers
  import opened Text

  /** A semantic version; pre-release and build metadata are not modelled. */
  datatype Version = Version(major: nat, minor: nat, patch: nat)

  /** `cargo_metadata::PackageId`: an opaque string, ordered as a string. */
  datatype PackageId = PackageId(repr: string)

  /** `cargo_metadata::Target`. */
  datatype Target = Target(name: string, kind: seq<string>, srcPath: string)

  /** `cargo_metadata::Dependency`: the fields the usage report reads. */
  datatype Dependency = Dependency(name: string, rename: Option<string>, optional: bool, platform: Option<string>)

  /** `cargo_metadata::Package`. */
  datatype Package = Package(
    id: PackageId,
    name: string,
    version: Version,
    targets: seq<Target>,
    dependencies: seq<Dependency>)

  /** `cargo_metadata::NodeDep`: the crate name a dependency is known by, and its package. */
  datatype NodeDep = NodeDep(name: string, pkg: PackageId)

  /** `cargo_metadata::Node`: a resolved package and its dependencies. */
  datatype Node = Node(id: PackageId, deps: seq<NodeDep>)

  predicate VersionLe(a: Version, b: Version)
  {
    a.major < b.major
    || (a.major == b.major && (a.minor < b.minor || (a.minor == b.minor && a.patch <= b.patch)))
  }

  /** `ordkey`: `(name, version, id)` compared lexicographically. */
  predicate KeyLe(a: Package, b: Package)
  {
    if a.name != b.name then StrLe(a.name, b.name)
    else if a.version != b.version then VersionLe(a.version, b.version)
    else StrLe(a.id.repr, b.id.repr)
  }

  lemma KeyLeTotal(a: Package, b: Package)
    ensures KeyLe(a, b) || KeyLe(b, a)
  {
    StrLeTotal(a.name, b.name);
    StrLeTotal(a.id.repr, b.id.repr);
  }

  lemma KeyLeAntisymmetric(a: Package, b: Package)
    requires KeyLe(a, b) && KeyLe(b, a)
    ensures a.id == b.id
  {
    if a.name != b.name {
      StrLeAntisymmetric(a.name, b.name);
    } else if a.version == b.version {
      StrLeAntisymmetric(a.id.repr, b.id.repr);
    }
  }

  lemma KeyLeTransitive(a: Package, b: Package, c: Package)
    requires KeyLe(a, b) && KeyLe(b, c)
    ensures KeyLe(a, c)
  {
    if a.name != b.name && b.name != c.name {
      StrLeTransitive(a.name, b.name, c.name);
      if a.name == c.name {
        StrLeAntisymmetric(a.name, b.name);
      }
    } else if a.name == b.name && b.name == c.name && a.version == b.version && b.version == c.version {
      StrLeTransitive(a.id.repr, b.id.repr, c.id.repr);
    }
  }

  /** The packages by id, as `src/lib.rs` indexes them: every key is its package's id. */
  predicate Indexed(packages: map<PackageId, Package>)
  {
    forall id :: id in packages ==> packages[id].id == id
  }

  /** `x` comes strictly before `y` in `(name, version, id)` order. */
  predicate Before(packages: map<PackageId, Package>, x: PackageId, y: PackageId)
    requires x in packages && y in packages
  {
    x != y && KeyLe(packages[x], packages[y])
  }

  /** Ascending `(name, version, id)` order without repetition. */
  predicate Ascending(packages: map<PackageId, Package>, s: seq<PackageId>)
  {
    (forall i :: 0 <= i < |s| ==> s[i] in packages)
    && (forall i, j :: 0 <= i < j < |s| ==> Before(packages, s[i], s[j]))
  }

  /** `s` is the set `ids` listed in ascending order. */
  predicate SortedListOf(packages: map<PackageId, Package>, s: seq<PackageId>, ids: set<PackageId>)
  {
    Ascending(packages, s) && (forall x :: x in s ==> x in ids) && (forall x :: x in ids ==> x in s)
  }

  /** A head before every element of an ascending tail gives an ascending list. */
  lemma AscendingCons(packages: map<PackageId, Package>, h: PackageId, t: seq<PackageId>)
    requires h in packages && Ascending(packages, t)
    requires forall y :: y in t ==> Before(packages, h, y)
    ensures Ascending(packages, [h] + t)
  {
    var r := [h] + t;
    forall i, j | 0 <= i < j < |r|
      ensures Before(packages, r[i], r[j])
    {
      assert r[j] == t[j - 1];
      if i > 0 {
        assert r[i] == t[i - 1];
      }
    }
  }

  /** Insert `x` into an ascending list. */
  function InsertSorted(packages: map<PackageId, Package>, x: PackageId, s: seq<PackageId>): (r: seq<PackageId>)
    requires Indexed(packages) && x in packages && Ascending(packages, s) && x !in s
    ensures Ascending(packages, r)
    ensures multiset(r) == multiset(s) + multiset{x}
  {
    if s == [] then [x]
    else if KeyLe(packages[x], packages[s[0]]) then
      HeadBeforeAll(packages, x, s);
      AscendingCons(packages, x, s);
      [x] + s
    else
      KeyLeTotal(packages[x], packages[s[0]]);
      var rest := InsertSorted(packages, x, s[1..]);
      assert s == [s[0]] + s[1..];
      FirstBeforeRest(packages, x, s, rest);
      AscendingCons(packages, s[0], rest);
      [s[0]] + rest
  }

  /** An element before the head of an ascending list is before all of it. */
  lemma HeadBeforeAll(packages: map<PackageId, Package>, x: PackageId, s: seq<PackageId>)
    requires x in packages && Ascending(packages, s) && x !in s && s != []
    requires KeyLe(packages[x], packages[s[0]])
    ensures forall y :: y in s ==> Before(packages, x, y)
  {
    forall y | y in s
      ensures Before(packages, x, y)
    {
      var j :| 0 <= j < |s| && s[j] == y;
      if j > 0 {
        KeyLeTransitive(packages[x], packages[s[0]], packages[s[j]]);
      }
    }
  }

  /** The head of an ascending list is before `x` inserted into its tail. */
  lemma FirstBeforeRest(packages: map<PackageId, Package>, x: PackageId, s: seq<PackageId>, rest: seq<PackageId>)
    requires x in packages && Ascending(packages, s) && s != [] && x != s[0]
    requires KeyLe(packages[s[0]], packages[x])
    requires Ascending(packages, rest) && multiset(rest) == multiset(s[1..]) + multiset{x}
    ensures forall y :: y in rest ==> Before(packages, s[0], y)
  {
    forall y | y in rest
      ensures Before(packages, s[0], y)
    {
      assert y in multiset(rest);
      if y != x {
        assert y in multiset(s[1..]);
        var j :| 0 <= j < |s[1..]| && s[1..][j] == y;
        assert s[j + 1] == y;
      }
    }
  }

  /** `sort_by` with `ordkey` on a list without repetition: the same elements,
      ascending. */
  function SortIds(packages: map<PackageId, Package>, s: seq<PackageId>): (r: seq<PackageId>)
    requires Indexed(packages)
    requires forall i :: 0 <= i < |s| ==> s[i] in packages
    requires forall i, j :: 0 <= i < j < |s| ==> s[i] != s[j]
    ensures Ascending(packages, r)
    ensures multiset(r) == multiset(s)
  {
    if s == [] then []
    else
      var n := |s| - 1;
      var sorted := SortIds(packages, s[..n]);
      assert s[n] !in multiset(s[..n]);
      assert s == s[..n] + [s[n]];
      InsertSorted(packages, s[n], sorted)
  }

  /** Two ascending lists with the same elements are equal: the sorted order
      does not depend on the order the elements came in. */
  lemma {:induction false} AscendingUnique(packages: map<PackageId, Package>, a: seq<PackageId>, b: seq<PackageId>)
    requires Indexed(packages) && Ascending(packages, a) && Ascending(packages, b)
    requires forall x :: x in a <==> x in b
    ensures a == b
  {
    if a != [] {
      assert a[0] in a;
    }
    if b != [] {
      assert b[0] in b;
    }
    if a != [] && b != [] {
      assert a[0] in b;
      assert b[0] in a;
      if a[0] != b[0] {
        var i :| 0 <= i < |b| && b[i] == a[0];
        var j :| 0 <= j < |a| && a[j] == b[0];
        assert Before(packages, b[0], a[0]);
        assert Before(packages, a[0], b[0]);
        KeyLeAntisymmetric(packages[a[0]], packages[b[0]]);
      }
      forall x
        ensures x in a[1..] <==> x in b[1..]
      {
        if x in a[1..] {
          var i :| 0 <= i < |a[1..]| && a[1..][i] == x;
          assert Before(packages, a[0], a[i + 1]);
          assert a[i + 1] in a;
          var k :| 0 <= k < |b| && b[k] == x;
          assert k != 0;
          assert b[1..][k - 1] == x;
        }
        if x in b[1..] {
          var i :| 0 <= i < |b[1..]| && b[1..][i] == x;
          assert Before(packages, b[0], b[i + 1]);
          assert b[i + 1] in b;
          var k :| 0 <= k < |a| && a[k] == x;
          assert k != 0;
          assert a[1..][k - 1] == x;
        }
      }
      AscendingUnique(packages, a[1..], b[1..]);
      assert a == [a[0]] + a[1..] && b == [b[0]] + b[1..];
    }
  }

  /** `packages`: the metadata's packages by id; a later package with the same
      id replaces an earlier one, as `collect` into a map does. */
  function PackageMap(packages: seq<Package>): (m: map<PackageId, Package>)
    ensures Indexed(m)
    ensures forall id :: id in m <==> exists i :: 0 <= i < |packages| && packages[i].id == id
  {
    if packages == [] then map[]
    else
      var k := |packages| - 1;
      assert forall i :: 0 <= i < k ==> packages[..k][i] == packages[i];
      PackageMap(packages[..k])[packages[k].id := packages[k]]
  }
}
