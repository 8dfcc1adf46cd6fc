/** Choosing the compilation units `src/lib.rs` probes: the executable target
    named on the command line, the root package's binary source file, and
    each package's library-like source files. */
module Targets {
  import opened Wrappers
  import opened Text
  import opened Packages

  /** `bin`, `example`, `test`, or `bench`, with the target's name. */
  datatype ExecutableTarget = Bin(name: string) | Example(name: string) | Test(name: string) | Bench(name: string)

  /** `ExecutableTarget::try_from_options`: the first option given, in the
      order bin, example, test, bench. */
  function TryFromOptions(bin: Option<string>, example: Option<string>, test: Option<string>, bench: Option<string>): (r: Option<ExecutableTarget>)
    ensures r.None? <==> bin.None? && example.None? && test.None? && bench.None?
    ensures r.Some? ==> r.value.Bin? == bin.Some?
    ensures r.Some? && r.value.Example? ==> bin.None? && example.Some?
    ensures r.Some? && r.value.Test? ==> bin.None? && example.None? && test.Some?
    ensures r.Some? && r.value.Bench? ==> bin.None? && example.None? && test.None? && bench.Some?
  {
    if bin.Some? then Some(Bin(bin.value))
    else if example.Some? then Some(Example(example.value))
    else if test.Some? then Some(Test(test.value))
    else if bench.Some? then Some(Bench(bench.value))
    else None
  }

  /** The chosen target carries the name of the option it came from. */
  lemma TryFromOptionsName(bin: Option<string>, example: Option<string>, test: Option<string>, bench: Option<string>)
    requires TryFromOptions(bin, example, test, bench).Some?
    ensures var t := TryFromOptions(bin, example, test, bench).value;
      t.name == (if t.Bin? then bin.value else if t.Example? then example.value else if t.Test? then test.value else bench.value)
  {
  }

  /** The cargo target kind of an executable target. */
  function KindOf(t: ExecutableTarget): (k: string)
    ensures k == "bin" <==> t.Bin?
    ensures k == "example" <==> t.Example?
    ensures k == "test" <==> t.Test?
    ensures k == "bench" <==> t.Bench?
  {
    match t
    case Bin(_) => "bin"
    case Example(_) => "example"
    case Test(_) => "test"
    case Bench(_) => "bench"
  }

  /** `targets.iter().find(|t| t.name == name && t.kind.contains(kind))`. */
  function FindTarget(targets: seq<Target>, name: string, kind: string): (r: Option<nat>)
    ensures r.Some? ==> r.value < |targets| && targets[r.value].name == name && kind in targets[r.value].kind
    ensures r.Some? ==> forall j :: 0 <= j < r.value ==> !(targets[j].name == name && kind in targets[j].kind)
    ensures r.None? ==> forall j :: 0 <= j < |targets| ==> !(targets[j].name == name && kind in targets[j].kind)
  {
    if targets == [] then None
    else if targets[0].name == name && kind in targets[0].kind then Some(0)
    else match FindTarget(targets[1..], name, kind)
      case None => None
      case Some(k) => Some(k + 1)
  }

  /** The targets with a `bin` kind, in order. */
  function Bins(targets: seq<Target>): (r: seq<Target>)
    ensures |r| <= |targets|
    ensures forall t :: t in r <==> t in targets && "bin" in t.kind
  {
    if targets == [] then []
    else
      var k := |targets| - 1;
      assert targets == targets[..k] + [targets[k]];
      Bins(targets[..k]) + (if "bin" in targets[k].kind then [targets[k]] else [])
  }

  datatype TargetError =
    | NoSuchTarget(kind: string, name: string)
    | AmbiguousTarget
    | ManifestUnreadable(reason: string)

  /** The source file of the root target: the named target; else the only
      `bin`; else the `bin` the manifest's `default-run` names.  The manifest is
      only read in the last case; `manifest` is that read's outcome. */
  function RootBinSrcPath(root: Package, target: Option<ExecutableTarget>, manifest: Result<Option<string>, string>): (r: Result<string, TargetError>)
    ensures r.Ok? ==> exists i :: 0 <= i < |root.targets| && r.value == root.targets[i].srcPath
    ensures target.None? && |Bins(root.targets)| != 1 && r.Ok? ==>
      exists i :: 0 <= i < |root.targets| && "bin" in root.targets[i].kind && r.value == root.targets[i].srcPath
    ensures r.Err? && r.error.ManifestUnreadable? ==> target.None? && |Bins(root.targets)| != 1 && manifest.Err?
  {
    match target
    case Some(t) =>
      (match FindTarget(root.targets, t.name, KindOf(t))
       case Some(i) => Ok(root.targets[i].srcPath)
       case None => Err(NoSuchTarget(KindOf(t), t.name)))
    case None =>
      var bins := Bins(root.targets);
      if |bins| == 1 then
        assert bins[0] in root.targets;
        Ok(bins[0].srcPath)
      else match manifest
        case Err(reason) => Err(ManifestUnreadable(reason))
        case Ok(None) => Err(AmbiguousTarget)
        case Ok(Some(defaultRun)) =>
          match FindTarget(root.targets, defaultRun, "bin")
          case Some(i) => Ok(root.targets[i].srcPath)
          case None => Err(NoSuchTarget("bin", defaultRun))
  }

  /** A named target is the first target of that name and kind, or
      `NoSuchTarget` with that kind and name. */
  lemma NamedTargetChosen(root: Package, t: ExecutableTarget, manifest: Result<Option<string>, string>)
    ensures var r := RootBinSrcPath(root, Some(t), manifest);
      (r.Ok? <==> exists i :: 0 <= i < |root.targets| && root.targets[i].name == t.name && KindOf(t) in root.targets[i].kind)
      && (r.Ok? ==> exists i :: 0 <= i < |root.targets| && root.targets[i].name == t.name && KindOf(t) in root.targets[i].kind
                               && r.value == root.targets[i].srcPath
                               && forall j :: 0 <= j < i ==> !(root.targets[j].name == t.name && KindOf(t) in root.targets[j].kind))
      && (r.Err? ==> r.error == NoSuchTarget(KindOf(t), t.name))
  {
  }

  /** With no target named and exactly one target of kind `bin`, that bin is
      chosen whatever the manifest says. */
  lemma OnlyBinChosen(root: Package, manifest: Result<Option<string>, string>, k: nat)
    requires k < |root.targets| && "bin" in root.targets[k].kind
    requires forall i :: 0 <= i < |root.targets| && i != k ==> "bin" !in root.targets[i].kind
    ensures RootBinSrcPath(root, None, manifest) == Ok(root.targets[k].srcPath)
  {
    BinsSingle(root.targets, k);
  }

  lemma {:induction false} BinsSingle(targets: seq<Target>, k: nat)
    requires k < |targets| && "bin" in targets[k].kind
    requires forall i :: 0 <= i < |targets| && i != k ==> "bin" !in targets[i].kind
    ensures Bins(targets) == [targets[k]]
  {
    var m := |targets| - 1;
    var front := targets[..m];
    if m == k {
      forall i | 0 <= i < m
        ensures "bin" !in front[i].kind
      {
        assert front[i] == targets[i];
      }
      NoBins(front);
    } else {
      assert front[k] == targets[k];
      forall i | 0 <= i < |front| && i != k
        ensures "bin" !in front[i].kind
      {
        assert front[i] == targets[i];
      }
      BinsSingle(front, k);
    }
  }

  lemma {:induction false} NoBins(targets: seq<Target>)
    requires forall i :: 0 <= i < |targets| ==> "bin" !in targets[i].kind
    ensures Bins(targets) == []
  {
    if targets != [] {
      var m := |targets| - 1;
      forall i | 0 <= i < m
        ensures "bin" !in targets[..m][i].kind
      {
        assert targets[..m][i] == targets[i];
      }
      NoBins(targets[..m]);
    }
  }

  /** With several bins or none, the manifest's `default-run` decides:
      missing is `AmbiguousTarget`, one that names no bin is `NoSuchTarget`. */
  lemma DefaultRunChosen(root: Package, manifest: Result<Option<string>, string>)
    requires |Bins(root.targets)| != 1
    ensures manifest == Ok(None) ==> RootBinSrcPath(root, None, manifest) == Err(AmbiguousTarget)
    ensures manifest.Ok? && manifest.value.Some? ==>
      var d := manifest.value.value;
      var r := RootBinSrcPath(root, None, manifest);
      (r.Ok? <==> exists i :: 0 <= i < |root.targets| && root.targets[i].name == d && "bin" in root.targets[i].kind)
      && (r.Ok? ==> exists i :: 0 <= i < |root.targets| && root.targets[i].name == d && "bin" in root.targets[i].kind
                               && r.value == root.targets[i].srcPath
                               && forall j :: 0 <= j < i ==> !(root.targets[j].name == d && "bin" in root.targets[j].kind))
      && (r.Err? ==> r.error == NoSuchTarget("bin", d))
    ensures manifest.Err? ==> RootBinSrcPath(root, None, manifest) == Err(ManifestUnreadable(manifest.error))
  {
  }

  /** A library-like target kind, whose source files are probed. */
  predicate IsLibraryLike(kind: string)
  {
    kind == "lib" || kind == "proc-macro" || kind == "custom-build"
  }

  predicate HasLibraryLikeKind(t: Target)
  {
    exists k :: k in t.kind && IsLibraryLike(k)
  }

  /** The source files of a package's `lib`, `proc-macro` and `custom-build`
      targets, in target order. */
  function DepSrcPaths(p: Package): (r: seq<string>)
    ensures forall s :: s in r <==> exists t :: t in p.targets && HasLibraryLikeKind(t) && t.srcPath == s
  {
    LibrarySources(p.targets)
  }

  /** The positions of the library-like targets, ascending. */
  function LibraryIndices(targets: seq<Target>): (ix: seq<nat>)
    ensures forall j :: 0 <= j < |ix| ==> ix[j] < |targets| && HasLibraryLikeKind(targets[ix[j]])
    ensures forall j, k :: 0 <= j < k < |ix| ==> ix[j] < ix[k]
    ensures forall i :: 0 <= i < |targets| && HasLibraryLikeKind(targets[i]) ==> i in ix
  {
    if targets == [] then []
    else
      var k := |targets| - 1;
      var front := LibraryIndices(targets[..k]);
      assert forall j :: 0 <= j < |front| ==> targets[..k][front[j]] == targets[front[j]];
      front + (if HasLibraryLikeKind(targets[k]) then [k] else [])
  }

  function LibrarySources(targets: seq<Target>): (r: seq<string>)
    ensures forall s :: s in r <==> exists t :: t in targets && HasLibraryLikeKind(t) && t.srcPath == s
  {
    if targets == [] then []
    else
      var k := |targets| - 1;
      assert targets == targets[..k] + [targets[k]];
      var front := LibrarySources(targets[..k]);
      var last := if HasLibraryLikeKind(targets[k]) then [targets[k].srcPath] else [];
      assert forall s :: s in front + last <==> s in front || s in last;
      front + last
  }

  /** The library-like sources come one per library-like target, in target
      order: entry `j` is the source file of the `j`-th such target. */
  lemma {:induction false} LibrarySourcesInOrder(targets: seq<Target>)
    ensures |LibrarySources(targets)| == |LibraryIndices(targets)|
    ensures forall j :: 0 <= j < |LibrarySources(targets)| ==>
      LibrarySources(targets)[j] == targets[LibraryIndices(targets)[j]].srcPath
  {
    if targets != [] {
      var k := |targets| - 1;
      var front := targets[..k];
      LibrarySourcesInOrder(front);
      var ix := LibraryIndices(front);
      var r := LibrarySources(targets);
      forall j | 0 <= j < |LibrarySources(front)|
        ensures r[j] == targets[LibraryIndices(targets)[j]].srcPath
      {
        assert r[j] == LibrarySources(front)[j];
        assert LibraryIndices(targets)[j] == ix[j];
        assert front[ix[j]] == targets[ix[j]];
      }
    }
  }

  /** `dep_src_paths`: package id to its library-like sources; a later package
      with the same id replaces an earlier one, as `collect` into a map does. */
  function DepSrcPathMap(packages: seq<Package>): (r: map<PackageId, seq<string>>)
    ensures forall id :: id in r <==> exists i :: 0 <= i < |packages| && packages[i].id == id
  {
    if packages == [] then map[]
    else
      var k := |packages| - 1;
      var front := DepSrcPathMap(packages[..k]);
      assert forall i :: 0 <= i < k ==> packages[..k][i] == packages[i];
      front[packages[k].id := DepSrcPaths(packages[k])]
  }

  /** The root package's library, if any: the first target with the `lib` kind,
      by its name, with the package's id. */
  function RootLib(root: Package): (r: Option<(string, PackageId)>)
    ensures r.Some? ==> r.value.1 == root.id
    ensures r.Some? ==> exists i :: 0 <= i < |root.targets| && "lib" in root.targets[i].kind && root.targets[i].name == r.value.0
                                   && forall j :: 0 <= j < i ==> "lib" !in root.targets[j].kind
    ensures r.None? <==> forall i :: 0 <= i < |root.targets| ==> "lib" !in root.targets[i].kind
  {
    match FirstLib(root.targets)
    case None => None
    case Some(i) => Some((root.targets[i].name, root.id))
  }

  function FirstLib(targets: seq<Target>): (r: Option<nat>)
    ensures r.Some? ==> r.value < |targets| && "lib" in targets[r.value].kind
    ensures r.Some? ==> forall j :: 0 <= j < r.value ==> "lib" !in targets[j].kind
    ensures r.None? ==> forall j :: 0 <= j < |targets| ==> "lib" !in targets[j].kind
  {
    if targets == [] then None
    else if "lib" in targets[0].kind then Some(0)
    else match FirstLib(targets[1..])
      case None => None
      case Some(k) => Some(k + 1)
  }
}
