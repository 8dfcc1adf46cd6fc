// The static pre-filter of `src/parse.rs`: the `extern crate` declarations and
// first `use` segments of a target's source files that name candidate crates.
// The parsed syntax tree is a small datatype; file existence and reading are
// two maps of a `FileSystem` value.
module Parse {
  import opened Wrappers

  /** A file system path as its list of components. */
  type Path = seq<string>

  /** `syn::UseTree`: only the top segment of a tree matters here. */
  datatype UseTree =
    | UsePath(ident: string, subtree: UseTree)
    | UseName(ident: string)
    | UseRename(ident: string, rename: string)
    | UseGlob
    | UseGroup(trees: seq<UseTree>)

  /** `syn::Item`: each item records whether its attribute list is empty.
      Every other kind of item is `Other`, holding the items nested in it
      (inside a function body or an `impl` block, say), which the
      syntax visitor still reaches. */
  datatype Item =
    | ExternCrate(attrsEmpty: bool, ident: string)
    | Use(attrsEmpty: bool, tree: UseTree)
    | Mod(attrsEmpty: bool, ident: string, content: ModContent)
    | Other(nested: seq<Item>)

  /** The body of a `mod` item: inline (`mod m { .. }`) or in another file (`mod m;`). */
  datatype ModContent = Inline(items: seq<Item>) | OutOfLine

  /** `syn::File`: whether it has no inner attributes, and its items. */
  datatype File = File(attrsEmpty: bool, items: seq<Item>)

  /** The files that exist, and those of them that read and parse. */
  datatype FileSystem = FileSystem(present: set<Path>, sources: map<Path, File>)

  datatype Edition = Edition2015 | Edition2018

  datatype Error =
    | NoSuchFile(paths: set<Path>)
    | ReadFailed(path: Path)

  // ---------------------------------------------------------------------------
  // `use` items

  /** The first segment of a `use` tree, if it is a path, a name or a rename. */
  function TopIdent(t: UseTree): Option<string>
  {
    match t
    case UsePath(i, _) => Some(i)
    case UseName(i) => Some(i)
    case UseRename(i, _) => Some(i)
    case _ => None
  }

  /** `use_of_extern_crate`: the candidate crate a `use` item starts with. */
  function UseOfExternCrate(item: Item, externCrates: set<string>): (r: Option<string>)
    requires item.Use?
    ensures r.Some? <==>
      item.attrsEmpty && TopIdent(item.tree).Some? && TopIdent(item.tree).value in externCrates
    ensures r.Some? ==> r == TopIdent(item.tree)
    ensures !item.attrsEmpty || item.tree.UseGlob? || item.tree.UseGroup? ==> r.None?
  {
    if !item.attrsEmpty then None
    else match TopIdent(item.tree)
      case None => None
      case Some(top) => if top in externCrates then Some(top) else None
  }

  /** `uses_of_extern_crates`: what `use_of_extern_crate` gives over the `use`
      items of a list. */
  function UsesOfExternCrates(items: seq<Item>, externCrates: set<string>): (r: set<string>)
    ensures r <= externCrates
  {
    if items == [] then {}
    else
      UsesOfExternCrates(items[..|items| - 1], externCrates) + ItemUse(items[|items| - 1], externCrates)
  }

  /** What one item adds to `uses_of_extern_crates`. */
  function ItemUse(it: Item, externCrates: set<string>): set<string>
  {
    if it.Use? && UseOfExternCrate(it, externCrates).Some? then {UseOfExternCrate(it, externCrates).value} else {}
  }

  /** A name is found exactly when some `use` item of the list yields it. */
  lemma {:induction false} UsesOfExternCratesIff(items: seq<Item>, externCrates: set<string>, x: string)
    ensures x in UsesOfExternCrates(items, externCrates) <==>
      exists i :: 0 <= i < |items| && items[i].Use? && UseOfExternCrate(items[i], externCrates) == Some(x)
  {
    if items != [] {
      var n := |items| - 1;
      UsesOfExternCratesIff(items[..n], externCrates, x);
      if x in UsesOfExternCrates(items[..n], externCrates) {
        var i :| 0 <= i < n && items[..n][i].Use? && UseOfExternCrate(items[..n][i], externCrates) == Some(x);
        assert items[i] == items[..n][i];
      }
      if exists i :: 0 <= i < |items| && items[i].Use? && UseOfExternCrate(items[i], externCrates) == Some(x) {
        var i :| 0 <= i < |items| && items[i].Use? && UseOfExternCrate(items[i], externCrates) == Some(x);
        if i < n {
          assert items[..n][i] == items[i];
        }
      }
    }
  }

  // ---------------------------------------------------------------------------
  // The 2015 edition: `extern crate` items of the root file

  /** The attribute-free `extern crate` items of a list that name candidates. */
  function ExternCrateIdents(items: seq<Item>, externCrates: set<string>): (r: set<string>)
    ensures r <= externCrates
  {
    if items == [] then {}
    else
      var last := items[|items| - 1];
      ExternCrateIdents(items[..|items| - 1], externCrates)
      + (if last.ExternCrate? && last.attrsEmpty && last.ident in externCrates then {last.ident} else {})
  }

  lemma {:induction false} ExternCrateIdentsIff(items: seq<Item>, externCrates: set<string>, x: string)
    ensures x in ExternCrateIdents(items, externCrates) <==>
      x in externCrates &&
      exists i :: 0 <= i < |items| && items[i] == ExternCrate(true, x)
  {
    if items != [] {
      var n := |items| - 1;
      ExternCrateIdentsIff(items[..n], externCrates, x);
      if x in ExternCrateIdents(items[..n], externCrates) {
        var i :| 0 <= i < n && items[..n][i] == ExternCrate(true, x);
        assert items[i] == items[..n][i];
      }
      if x in externCrates && exists i :: 0 <= i < |items| && items[i] == ExternCrate(true, x) {
        var i :| 0 <= i < |items| && items[i] == ExternCrate(true, x);
        if i < n {
          assert items[..n][i] == items[i];
        }
      }
    }
  }

  /** `find_uses_lossy_2015`: nothing without a path, the read error if the root
      file does not read, nothing if it has inner attributes, and otherwise its
      attribute-free `extern crate` items that name candidates. */
  function FindUsesLossy2015(src: Option<Path>, externCrates: set<string>, fs: FileSystem)
    : (r: Result<set<string>, Error>)
    ensures r.Err? <==> src.Some? && src.value !in fs.sources
    ensures r.Err? ==> r.error == ReadFailed(src.value)
    ensures r.Ok? ==> r.value <= externCrates
    ensures src.None? ==> r == Ok({})
    ensures src.Some? && src.value in fs.sources && !fs.sources[src.value].attrsEmpty ==> r == Ok({})
  {
    match src
    case None => Ok({})
    case Some(path) =>
      if path !in fs.sources then Err(ReadFailed(path))
      else
        var file := fs.sources[path];
        if !file.attrsEmpty then Ok({}) else Ok(ExternCrateIdents(file.items, externCrates))
  }

  // ---------------------------------------------------------------------------
  // The 2018 edition: the syntax visitor

  /** What visiting finds: the candidate crates used and the out-of-line
      modules declared. */
  datatype Scan = Scan(used: set<string>, mods: set<string>)

  function Join(a: Scan, b: Scan): Scan
  {
    Scan(a.used + b.used, a.mods + b.mods)
  }

  function ItemSize(it: Item): (n: nat)
    ensures n >= 1
  {
    match it
    case Mod(_, _, Inline(c)) => 1 + ItemsSize(c)
    case Other(n) => 1 + ItemsSize(n)
    case _ => 1
  }

  function ItemsSize(items: seq<Item>): nat
  {
    if items == [] then 0 else ItemsSize(items[..|items| - 1]) + ItemSize(items[|items| - 1])
  }

  lemma {:induction false} ItemsSizeAt(items: seq<Item>, i: nat)
    requires i < |items|
    ensures ItemSize(items[i]) <= ItemsSize(items)
  {
    var n := |items| - 1;
    if i < n {
      ItemsSizeAt(items[..n], i);
      assert items[..n][i] == items[i];
    }
  }

  /** The visitor on one item: a `use` item gives its candidate; an
      attribute-free module gives the uses of its inline items plus whatever
      visiting its items finds, or, when out of line, its name; a module with
      attributes is skipped entirely; other items are visited inside. */
  function ScanItem(it: Item, externCrates: set<string>): (s: Scan)
    ensures s.used <= externCrates
    decreases ItemSize(it), 0
  {
    match it
    case ExternCrate(_, _) => Scan({}, {})
    case Use(_, _) => Scan(ItemUse(it, externCrates), {})
    case Mod(attrsEmpty, ident, content) =>
      if !attrsEmpty then Scan({}, {})
      else (
        match content
        case OutOfLine => Scan({}, {ident})
        case Inline(c) =>
          var inner := ScanItems(c, externCrates);
          Scan(UsesOfExternCrates(c, externCrates) + inner.used, inner.mods))
    case Other(n) => ScanItems(n, externCrates)
  }

  /** The visitor over a list of items, in order. */
  function ScanItems(items: seq<Item>, externCrates: set<string>): (s: Scan)
    ensures s.used <= externCrates
    decreases ItemsSize(items), 1
  {
    if items == [] then Scan({}, {})
    else Join(ScanItems(items[..|items| - 1], externCrates), ScanItem(items[|items| - 1], externCrates))
  }

  /** What one file contributes: the visitor starts from the uses of the
      file's top-level items and then visits the file. */
  function ScanFile(file: File, externCrates: set<string>): (s: Scan)
    ensures s.used <= externCrates
    ensures UsesOfExternCrates(file.items, externCrates) <= s.used
  {
    var v := ScanItems(file.items, externCrates);
    Scan(UsesOfExternCrates(file.items, externCrates) + v.used, v.mods)
  }

  lemma {:induction false} ScanItemsAppend(a: seq<Item>, b: seq<Item>, externCrates: set<string>)
    ensures ScanItems(a + b, externCrates) == Join(ScanItems(a, externCrates), ScanItems(b, externCrates))
    decreases |b|
  {
    if b == [] {
      assert a + b == a;
    } else {
      var n := |b| - 1;
      ScanItemsAppend(a, b[..n], externCrates);
      assert (a + b)[..|a + b| - 1] == a + b[..n];
      assert (a + b)[|a + b| - 1] == b[n];
    }
  }

  /** A module with attributes (`#[cfg(test)] mod tests`, say) adds nothing,
      wherever it stands among the items. */
  lemma AttributedModSkipped(a: seq<Item>, b: seq<Item>, ident: string, content: ModContent,
                             externCrates: set<string>)
    ensures ScanItems(a + [Mod(false, ident, content)] + b, externCrates) == ScanItems(a + b, externCrates)
  {
    var m := Mod(false, ident, content);
    ScanItemsAppend(a + [m], b, externCrates);
    ScanItemsAppend(a, [m], externCrates);
    ScanItemsAppend(a, b, externCrates);
    assert [m][..0] == [];
  }

  /** An attribute-free out-of-line module is queued for the next round and
      contributes no uses itself; an inline one contributes its `use` items. */
  lemma AttributeFreeModules(a: seq<Item>, ident: string, c: seq<Item>, externCrates: set<string>)
    ensures ident in ScanItems(a + [Mod(true, ident, OutOfLine)], externCrates).mods
    ensures ScanItems(a + [Mod(true, ident, OutOfLine)], externCrates).used == ScanItems(a, externCrates).used
    ensures UsesOfExternCrates(c, externCrates) <= ScanItems(a + [Mod(true, ident, Inline(c))], externCrates).used
  {
    var m1 := Mod(true, ident, OutOfLine);
    var m2 := Mod(true, ident, Inline(c));
    assert (a + [m1])[..|a|] == a;
    assert (a + [m2])[..|a|] == a;
  }

  /** `Visitor` of `find_uses_lossy_2018`: it collects candidate uses and
      out-of-line module names while walking a file's syntax tree. */
  class Visitor {
    const externCrates: set<string>
    var used: set<string>
    var mods: set<string>

    constructor (externCrates: set<string>, used: set<string>)
      ensures this.externCrates == externCrates && this.used == used && mods == {}
    {
      this.externCrates := externCrates;
      this.used := used;
      mods := {};
    }

    /** `Visit::visit_file`. */
    method VisitFile(file: File)
      modifies this
      ensures used == old(used) + ScanItems(file.items, externCrates).used
      ensures mods == old(mods) + ScanItems(file.items, externCrates).mods
    {
      VisitItems(file.items);
    }

    /** The items of a list, in order. */
    method VisitItems(items: seq<Item>)
      modifies this
      ensures used == old(used) + ScanItems(items, externCrates).used
      ensures mods == old(mods) + ScanItems(items, externCrates).mods
      decreases ItemsSize(items), 2
    {
      for i := 0 to |items|
        invariant used == old(used) + ScanItems(items[..i], externCrates).used
        invariant mods == old(mods) + ScanItems(items[..i], externCrates).mods
      {
        ItemsSizeAt(items, i);
        VisitItem(items[i]);
        assert items[..i + 1][..i] == items[..i];
      }
      assert items[..|items|] == items;
    }

    /** `Visit::visit_item`: dispatch on the kind of item. */
    method VisitItem(it: Item)
      modifies this
      ensures used == old(used) + ScanItem(it, externCrates).used
      ensures mods == old(mods) + ScanItem(it, externCrates).mods
      decreases ItemSize(it), 1
    {
      match it
      case ExternCrate(_, _) =>
      case Use(_, _) => VisitItemUse(it);
      case Mod(_, _, _) => VisitItemMod(it);
      case Other(n) => VisitItems(n);
    }

    /** `visit_item_mod`. */
    method VisitItemMod(it: Item)
      requires it.Mod?
      modifies this
      ensures used == old(used) + ScanItem(it, externCrates).used
      ensures mods == old(mods) + ScanItem(it, externCrates).mods
      decreases ItemSize(it), 0
    {
      if it.attrsEmpty {
        match it.content
        case Inline(c) =>
          used := used + UsesOfExternCrates(c, externCrates);
          VisitItems(c);
        case OutOfLine =>
          mods := mods + {it.ident};
      }
    }

    /** `visit_item_use`. */
    method VisitItemUse(it: Item)
      requires it.Use?
      modifies this
      ensures used == old(used) + ScanItem(it, externCrates).used
      ensures mods == old(mods)
    {
      var u := UseOfExternCrate(it, externCrates);
      if u.Some? {
        used := used + {u.value};
      }
    }
  }

  // ---------------------------------------------------------------------------
  // The 2018 edition: module paths

  /** `PathBuf::pop`: drop the last component, if any. */
  function Parent(p: Path): Path
  {
    if p == [] then [] else p[..|p| - 1]
  }

  /** `<parent of root>/m1/../m(k-1)/mk.rs` for a module path `[m1, .., mk]`. */
  function ModFile(root: Path, m: seq<string>): Path
    requires m != []
  {
    Parent(root) + m[..|m| - 1] + [m[|m| - 1] + ".rs"]
  }

  /** `<parent of root>/m1/../m(k-1)/mk/mod.rs`. */
  function ModDirFile(root: Path, m: seq<string>): Path
    requires m != []
  {
    Parent(root) + m[..|m| - 1] + [m[|m| - 1], "mod.rs"]
  }

  /** The path building loop of `find_uses_lossy_2018`: start from the root,
      pop once if there is any module, push every module but the last, and
      push the last as `mk.rs`, remembering `mk/mod.rs` as the other choice. */
  method BuildModPath(root: Path, m: seq<string>) returns (path: Path, another: Option<Path>)
    ensures m == [] ==> path == root && another == None
    ensures m != [] ==> path == ModFile(root, m) && another == Some(ModDirFile(root, m))
  {
    path := root;
    if |m| > 0 {
      path := Parent(path);
    }
    another := None;
    var i := 0;
    while i < |m|
      invariant 0 <= i <= |m|
      invariant m == [] ==> path == root && another == None
      invariant i < |m| ==> path == Parent(root) + m[..i] && another == None
      invariant m != [] && i == |m| ==> path == ModFile(root, m) && another == Some(ModDirFile(root, m))
    {
      assert m[..i + 1] == m[..i] + [m[i]];
      if i + 1 < |m| {
        path := path + [m[i]];
      } else {
        another := Some(path + [m[i], "mod.rs"]);
        path := path + [m[i] + ".rs"];
      }
      i := i + 1;
    }
  }

  /** The file a module path names: the root for the empty path, else `mk.rs`
      if it exists, else `mk/mod.rs` if that exists, else an error naming the
      paths tried. */
  function ResolveModPath(fs: FileSystem, root: Path, m: seq<string>): (r: Result<Path, Error>)
    ensures r.Ok? ==> r.value in fs.present && |m| <= |r.value|
    ensures m == [] ==> (r.Ok? <==> root in fs.present) && (r.Ok? ==> r.value == root)
    ensures m != [] ==>
      (r.Ok? <==> ModFile(root, m) in fs.present || ModDirFile(root, m) in fs.present)
    ensures m != [] && r.Ok? ==>
      r.value == (if ModFile(root, m) in fs.present then ModFile(root, m) else ModDirFile(root, m))
    ensures r.Err? ==> r.error.NoSuchFile?
  {
    if m == [] then
      if root in fs.present then Ok(root) else Err(NoSuchFile({root}))
    else
      var path := ModFile(root, m);
      var another := ModDirFile(root, m);
      if path in fs.present then Ok(path)
      else if another in fs.present then Ok(another)
      else Err(NoSuchFile({path, another}))
  }

  /** One module of a round: resolve its file, read it, visit it. */
  function ScanModule(fs: FileSystem, root: Path, externCrates: set<string>, m: seq<string>)
    : (r: Result<Scan, Error>)
    ensures r.Ok? ==> ResolveModPath(fs, root, m).Ok? && r.value.used <= externCrates
  {
    match ResolveModPath(fs, root, m)
    case Err(e) => Err(e)
    case Ok(path) =>
      if path !in fs.sources then Err(ReadFailed(path))
      else Ok(ScanFile(fs.sources[path], externCrates))
  }

  /** Every module of a round resolves, reads and is visited. */
  predicate RoundSucceeds(fs: FileSystem, root: Path, externCrates: set<string>, mods: set<seq<string>>)
  {
    forall m :: m in mods ==> ScanModule(fs, root, externCrates, m).Ok?
  }

  /** The errors of the modules of a round that fail. */
  function RoundErrors(fs: FileSystem, root: Path, externCrates: set<string>, mods: set<seq<string>>)
    : set<Error>
  {
    set m | m in mods && ScanModule(fs, root, externCrates, m).Err? :: ScanModule(fs, root, externCrates, m).error
  }

  /** The uses found by the modules of a round that succeed. */
  function RoundUsed(fs: FileSystem, root: Path, externCrates: set<string>, mods: set<seq<string>>)
    : set<string>
  {
    set m, x | m in mods && ScanModule(fs, root, externCrates, m).Ok?
                 && x in ScanModule(fs, root, externCrates, m).value.used :: x
  }

  /** The next round: each module path extended by a module its file declares. */
  function RoundNext(fs: FileSystem, root: Path, externCrates: set<string>, mods: set<seq<string>>)
    : set<seq<string>>
  {
    set m, c | m in mods && ScanModule(fs, root, externCrates, m).Ok?
                 && c in ScanModule(fs, root, externCrates, m).value.mods :: m + [c]
  }

  /** The longest path in a set. */
  ghost function MaxLen(s: set<Path>): (n: nat)
    ensures forall p :: p in s ==> |p| <= n
  {
    if s == {} then 0
    else
      var p :| p in s;
      var rest := MaxLen(s - {p});
      if |p| > rest then |p| else rest
  }

  /** A round whose every module resolves has module paths no longer than the
      longest existing path, so the rounds end. */
  lemma RoundBound(fs: FileSystem, root: Path, externCrates: set<string>, mods: set<seq<string>>, k: nat)
    requires mods != {} && RoundSucceeds(fs, root, externCrates, mods)
    requires forall m :: m in mods ==> |m| == k
    ensures k <= MaxLen(fs.present)
  {
    var m :| m in mods;
    var path := ResolveModPath(fs, root, m).value;
    assert |m| <= |path| <= MaxLen(fs.present);
  }

  /** The result of the breadth-first walk: the uses found, or the errors any
      of which the walk may stop with. */
  datatype Outcome = Found(used: set<string>) | Failed(errors: set<Error>)

  function Prefixed(u: set<string>, o: Outcome): Outcome
  {
    if o.Found? then Found(u + o.used) else o
  }

  /** The rounds of `find_uses_lossy_2018` from the round `mods`, whose module
      paths all have length `k`: a round stops the walk as soon as one of its
      modules fails; otherwise its uses are kept and the next round follows. */
  function Explore(fs: FileSystem, root: Path, externCrates: set<string>, mods: set<seq<string>>, k: nat)
    : Outcome
    requires forall m :: m in mods ==> |m| == k
    decreases MaxLen(fs.present) + 1 - k
  {
    if mods == {} then Found({})
    else if !RoundSucceeds(fs, root, externCrates, mods) then Failed(RoundErrors(fs, root, externCrates, mods))
    else
      RoundBound(fs, root, externCrates, mods, k);
      Prefixed(RoundUsed(fs, root, externCrates, mods),
               Explore(fs, root, externCrates, RoundNext(fs, root, externCrates, mods), k + 1))
  }

  /** `find_uses_lossy_2018` as a value: nothing without a path, otherwise the
      walk from the root file. */
  function FindUses2018(src: Option<Path>, externCrates: set<string>, fs: FileSystem): Outcome
  {
    match src
    case None => Found({})
    case Some(root) => Explore(fs, root, externCrates, {[]}, 0)
  }

  /** A result agrees with an outcome: the same uses, or one of its errors. */
  predicate Agrees(r: Result<set<string>, Error>, o: Outcome)
  {
    match r
    case Ok(u) => o == Found(u)
    case Err(e) => o.Failed? && e in o.errors
  }

  /** Every name the walk finds is a candidate. */
  lemma {:induction false} ExploreCandidates(fs: FileSystem, root: Path, externCrates: set<string>,
                                             mods: set<seq<string>>, k: nat)
    requires forall m :: m in mods ==> |m| == k
    ensures Explore(fs, root, externCrates, mods, k).Found? ==>
      Explore(fs, root, externCrates, mods, k).used <= externCrates
    decreases MaxLen(fs.present) + 1 - k
  {
    if mods != {} && RoundSucceeds(fs, root, externCrates, mods) {
      RoundBound(fs, root, externCrates, mods, k);
      ExploreCandidates(fs, root, externCrates, RoundNext(fs, root, externCrates, mods), k + 1);
      assert RoundUsed(fs, root, externCrates, mods) <= externCrates;
    }
  }

  lemma FindUses2018Candidates(src: Option<Path>, externCrates: set<string>, fs: FileSystem)
    ensures FindUses2018(src, externCrates, fs).Found? ==> FindUses2018(src, externCrates, fs).used <= externCrates
  {
    if src.Some? {
      ExploreCandidates(fs, src.value, externCrates, {[]}, 0);
    }
  }

  /** One module, computed as the source does: build the path, test which
      file exists, read it, run the visitor. */
  method ScanModuleFile(fs: FileSystem, root: Path, externCrates: set<string>, m: seq<string>)
    returns (r: Result<Scan, Error>)
    ensures r == ScanModule(fs, root, externCrates, m)
  {
    var path, another := BuildModPath(root, m);
    var file: Path;
    if path in fs.present {
      file := path;
    } else if another.Some? {
      if another.value in fs.present {
        file := another.value;
      } else {
        return Err(NoSuchFile({path, another.value}));
      }
    } else {
      return Err(NoSuchFile({path}));
    }
    if file !in fs.sources {
      return Err(ReadFailed(file));
    }
    assert ResolveModPath(fs, root, m) == Ok(file);
    var source := fs.sources[file];
    var visitor := new Visitor(externCrates, UsesOfExternCrates(source.items, externCrates));
    visitor.VisitFile(source);
    assert visitor.mods == ScanItems(source.items, externCrates).mods;
    r := Ok(Scan(visitor.used, visitor.mods));
  }

  lemma RoundAdd(fs: FileSystem, root: Path, externCrates: set<string>, done: set<seq<string>>, m: seq<string>)
    requires ScanModule(fs, root, externCrates, m).Ok?
    ensures RoundUsed(fs, root, externCrates, done + {m})
      == RoundUsed(fs, root, externCrates, done) + ScanModule(fs, root, externCrates, m).value.used
    ensures RoundNext(fs, root, externCrates, done + {m})
      == RoundNext(fs, root, externCrates, done) + set c | c in ScanModule(fs, root, externCrates, m).value.mods :: m + [c]
  {
  }

  /** One round, module by module: the first failing module ends it with its
      error; otherwise its uses and next round are collected. */
  method ScanRound(fs: FileSystem, root: Path, externCrates: set<string>, mods: set<seq<string>>)
    returns (r: Result<(set<string>, set<seq<string>>), Error>)
    ensures r.Ok? <==> RoundSucceeds(fs, root, externCrates, mods)
    ensures r.Ok? ==> r.value == (RoundUsed(fs, root, externCrates, mods), RoundNext(fs, root, externCrates, mods))
    ensures r.Err? ==> r.error in RoundErrors(fs, root, externCrates, mods)
  {
    var nextMods: set<seq<string>> := {};
    var roundUsed: set<string> := {};
    var rest := mods;
    while rest != {}
      invariant rest <= mods
      invariant RoundSucceeds(fs, root, externCrates, mods - rest)
      invariant roundUsed == RoundUsed(fs, root, externCrates, mods - rest)
      invariant nextMods == RoundNext(fs, root, externCrates, mods - rest)
      decreases |rest|
    {
      var m :| m in rest;
      var s := ScanModuleFile(fs, root, externCrates, m);
      if s.Err? {
        assert s.error in RoundErrors(fs, root, externCrates, mods);
        return Err(s.error);
      }
      RoundAdd(fs, root, externCrates, mods - rest, m);
      assert mods - (rest - {m}) == (mods - rest) + {m};
      roundUsed := roundUsed + s.value.used;
      nextMods := nextMods + set c | c in s.value.mods :: m + [c];
      rest := rest - {m};
    }
    assert mods - rest == mods;
    return Ok((roundUsed, nextMods));
  }

  lemma RoundNextLength(fs: FileSystem, root: Path, externCrates: set<string>, mods: set<seq<string>>, k: nat)
    requires forall m :: m in mods ==> |m| == k
    ensures forall m :: m in RoundNext(fs, root, externCrates, mods) ==> |m| == k + 1
  {
  }

  lemma ExploreStep(fs: FileSystem, root: Path, externCrates: set<string>, mods: set<seq<string>>, k: nat,
                    used: set<string>)
    requires forall m :: m in mods ==> |m| == k
    requires mods != {} && RoundSucceeds(fs, root, externCrates, mods)
    ensures forall m :: m in RoundNext(fs, root, externCrates, mods) ==> |m| == k + 1
    ensures Prefixed(used, Explore(fs, root, externCrates, mods, k))
      == Prefixed(used + RoundUsed(fs, root, externCrates, mods),
                  Explore(fs, root, externCrates, RoundNext(fs, root, externCrates, mods), k + 1))
  {
    RoundNextLength(fs, root, externCrates, mods, k);
  }

  lemma ExploreFails(fs: FileSystem, root: Path, externCrates: set<string>, mods: set<seq<string>>, k: nat)
    requires forall m :: m in mods ==> |m| == k
    requires !RoundSucceeds(fs, root, externCrates, mods)
    ensures Explore(fs, root, externCrates, mods, k) == Failed(RoundErrors(fs, root, externCrates, mods))
  {
  }

  /** `find_uses_lossy_2018`: rounds over the set of module paths, each module
      visited and its out-of-line modules queued for the next round. */
  method FindUsesLossy2018(src: Option<Path>, externCrates: set<string>, fs: FileSystem)
    returns (r: Result<set<string>, Error>)
    ensures Agrees(r, FindUses2018(src, externCrates, fs))
  {
    if src.None? {
      return Ok({});
    }
    var root := src.value;
    var mods: set<seq<string>> := {[]};
    var used: set<string> := {};
    ghost var k: nat := 0;
    ghost var outcome := Explore(fs, root, externCrates, {[]}, 0);
    assert outcome == Prefixed({}, outcome) by {
      if outcome.Found? {
        assert {} + outcome.used == outcome.used;
      }
    }
    while mods != {}
      invariant forall m :: m in mods ==> |m| == k
      invariant outcome == Prefixed(used, Explore(fs, root, externCrates, mods, k))
      decreases MaxLen(fs.present) + 1 - k
    {
      var round := ScanRound(fs, root, externCrates, mods);
      if round.Err? {
        ExploreFails(fs, root, externCrates, mods, k);
        return Err(round.error);
      }
      RoundBound(fs, root, externCrates, mods, k);
      ExploreStep(fs, root, externCrates, mods, k, used);
      used := used + round.value.0;
      mods := round.value.1;
      k := k + 1;
    }
    assert Explore(fs, root, externCrates, mods, k) == Found({});
    assert used + {} == used;
    return Ok(used);
  }

  /** `find_uses_lossy`: the finder of the target's edition. */
  method FindUsesLossy(src: Option<Path>, externCrates: set<string>, edition: Edition, fs: FileSystem)
    returns (r: Result<set<string>, Error>)
    ensures edition == Edition2015 ==> r == FindUsesLossy2015(src, externCrates, fs)
    ensures edition == Edition2018 ==> Agrees(r, FindUses2018(src, externCrates, fs))
    ensures r.Ok? ==> r.value <= externCrates
  {
    match edition
    case Edition2015 =>
      r := FindUsesLossy2015(src, externCrates, fs);
    case Edition2018 =>
      r := FindUsesLossy2018(src, externCrates, fs);
      FindUses2018Candidates(src, externCrates, fs);
  }

  // ---------------------------------------------------------------------------
  // The unit test of `src/parse.rs`, run on a syntax tree of that file

  lemma {:induction false} UsesOfExternCratesAppend(a: seq<Item>, b: seq<Item>, externCrates: set<string>)
    ensures UsesOfExternCrates(a + b, externCrates)
      == UsesOfExternCrates(a, externCrates) + UsesOfExternCrates(b, externCrates)
    decreases |b|
  {
    if b == [] {
      assert a + b == a;
    } else {
      var n := |b| - 1;
      UsesOfExternCratesAppend(a, b[..n], externCrates);
      assert (a + b)[..|a + b| - 1] == a + b[..n];
      assert (a + b)[|a + b| - 1] == b[n];
    }
  }

  const TestCandidates: set<string> := {"cargo", "failure", "maplit", "once_cell", "syn"}

  /** The `use` items at the top of `src/parse.rs`, in three groups. */
  const ParseRsUses1: seq<Item> := [
    Use(true, UsePath("cargo", UsePath("core", UsePath("manifest", UseName("TargetSourcePath"))))),
    Use(true, UsePath("cargo", UsePath("core", UseName("Edition")))),
    Use(true, UsePath("failure", UseName("Fallible")))
  ]

  const ParseRsUses2: seq<Item> := [
    Use(true, UsePath("maplit", UseGroup([UseName("btreeset"), UseName("hashset")]))),
    Use(true, UsePath("syn", UsePath("visit", UseGroup([UseName("self"), UseName("Visit")])))),
    Use(true, UsePath("syn", UseGroup([UseName("Item"), UseName("ItemMod"), UseName("ItemUse"), UseName("UseTree")])))
  ]

  const ParseRsUses3: seq<Item> := [
    Use(true, UsePath("std", UsePath("collections", UseGroup([UseName("BTreeSet"), UseName("HashSet")])))),
    Use(true, UsePath("std", UsePath("path", UseName("Path"))))
  ]

  const ParseRsUses: seq<Item> := ParseRsUses1 + ParseRsUses2 + ParseRsUses3

  /** Its five functions; the body of `find_uses_lossy_2018` holds a struct and an impl. */
  const ParseRsFunctions: seq<Item> := [Other([]), Other([]), Other([Other([]), Other([])]), Other([]), Other([])]

  /** `#[cfg(test)] mod tests { .. }` with its own `use` items and test function. */
  const ParseRsTests: Item := Mod(false, "tests", Inline([
    Use(true, UsePath("cargo", UsePath("core", UsePath("manifest", UseName("TargetSourcePath"))))),
    Use(true, UsePath("failure", UseName("Fallible"))),
    Use(true, UsePath("maplit", UseName("hashset"))),
    Use(true, UsePath("once_cell", UsePath("sync", UseName("Lazy")))),
    Use(true, UsePath("std", UsePath("collections", UseName("HashSet")))),
    Other([])
  ]))

  const TestRoot: Path := ["src", "parse.rs"]

  /** One more item of a list. */
  lemma PrefixStep(items: seq<Item>, n: nat, externCrates: set<string>)
    requires n < |items|
    ensures UsesOfExternCrates(items[..n + 1], externCrates)
      == UsesOfExternCrates(items[..n], externCrates) + ItemUse(items[n], externCrates)
    ensures ScanItems(items[..n + 1], externCrates)
      == Join(ScanItems(items[..n], externCrates), ScanItem(items[n], externCrates))
  {
    assert items[..n + 1][..n] == items[..n];
  }

  /** On a list of `use` items only, the visitor finds just their uses. */
  lemma {:induction false} UsesOnly(items: seq<Item>, externCrates: set<string>)
    requires forall i :: 0 <= i < |items| ==> items[i].Use?
    ensures ScanItems(items, externCrates) == Scan(UsesOfExternCrates(items, externCrates), {})
  {
    if items != [] {
      var n := |items| - 1;
      UsesOnly(items[..n], externCrates);
    }
  }

  lemma ParseRsUses1Found()
    ensures UsesOfExternCrates(ParseRsUses1, TestCandidates) == {"cargo", "failure"}
  {
    var u := ParseRsUses1;
    assert ItemUse(u[0], TestCandidates) == {"cargo"};
    assert ItemUse(u[1], TestCandidates) == {"cargo"};
    assert ItemUse(u[2], TestCandidates) == {"failure"};
    PrefixStep(u, 0, TestCandidates);
    PrefixStep(u, 1, TestCandidates);
    PrefixStep(u, 2, TestCandidates);
    assert u[..0] == [] && u[..3] == u;
  }

  lemma ParseRsUses2Found()
    ensures UsesOfExternCrates(ParseRsUses2, TestCandidates) == {"maplit", "syn"}
  {
    var u := ParseRsUses2;
    assert ItemUse(u[0], TestCandidates) == {"maplit"};
    assert ItemUse(u[1], TestCandidates) == {"syn"};
    assert ItemUse(u[2], TestCandidates) == {"syn"};
    PrefixStep(u, 0, TestCandidates);
    PrefixStep(u, 1, TestCandidates);
    PrefixStep(u, 2, TestCandidates);
    assert u[..0] == [] && u[..3] == u;
  }

  lemma ParseRsUses3Found()
    ensures UsesOfExternCrates(ParseRsUses3, TestCandidates) == {}
  {
    var u := ParseRsUses3;
    assert ItemUse(u[0], TestCandidates) == {};
    assert ItemUse(u[1], TestCandidates) == {};
    PrefixStep(u, 0, TestCandidates);
    PrefixStep(u, 1, TestCandidates);
    assert u[..0] == [] && u[..2] == u;
  }

  lemma UseGroups(a: seq<Item>, b: seq<Item>, d: seq<Item>, externCrates: set<string>)
    requires forall i :: 0 <= i < |a| ==> a[i].Use?
    requires forall i :: 0 <= i < |b| ==> b[i].Use?
    requires forall i :: 0 <= i < |d| ==> d[i].Use?
    ensures UsesOfExternCrates(a + b + d, externCrates)
      == UsesOfExternCrates(a, externCrates) + UsesOfExternCrates(b, externCrates) + UsesOfExternCrates(d, externCrates)
    ensures ScanItems(a + b + d, externCrates) == Scan(UsesOfExternCrates(a + b + d, externCrates), {})
  {
    UsesOfExternCratesAppend(a, b, externCrates);
    UsesOfExternCratesAppend(a + b, d, externCrates);
    assert forall i :: 0 <= i < |a + b + d| ==> (a + b + d)[i].Use? by {
      forall i | 0 <= i < |a + b + d|
        ensures (a + b + d)[i].Use?
      {
        if i < |a| {
          assert (a + b + d)[i] == a[i];
        } else if i < |a| + |b| {
          assert (a + b + d)[i] == b[i - |a|];
        } else {
          assert (a + b + d)[i] == d[i - |a| - |b|];
        }
      }
    }
    UsesOnly(a + b + d, externCrates);
  }

  lemma ParseRsUsesFound()
    ensures UsesOfExternCrates(ParseRsUses, TestCandidates) == {"cargo", "failure", "maplit", "syn"}
    ensures ScanItems(ParseRsUses, TestCandidates) == Scan({"cargo", "failure", "maplit", "syn"}, {})
  {
    ParseRsUses1Found();
    ParseRsUses2Found();
    ParseRsUses3Found();
    UseGroups(ParseRsUses1, ParseRsUses2, ParseRsUses3, TestCandidates);
  }

  lemma ParseRsFunctionsFindNothing()
    ensures UsesOfExternCrates(ParseRsFunctions, TestCandidates) == {}
    ensures ScanItems(ParseRsFunctions, TestCandidates) == Scan({}, {})
  {
    var f := ParseRsFunctions;
    var c := TestCandidates;
    var inner := [Other([]), Other([])];
    PrefixStep(inner, 0, c);
    PrefixStep(inner, 1, c);
    assert inner[..0] == [] && inner[..2] == inner;
    assert ScanItem(f[2], c) == Scan({}, {});
    PrefixStep(f, 0, c);
    PrefixStep(f, 1, c);
    PrefixStep(f, 2, c);
    PrefixStep(f, 3, c);
    PrefixStep(f, 4, c);
    assert f[..0] == [];
    assert f[..5] == f;
  }

  /** A root file that reads and declares no out-of-line module gives
      exactly what visiting it finds. */
  lemma SingleFileWalk(fs: FileSystem, root: Path, externCrates: set<string>, used: set<string>)
    requires ScanModule(fs, root, externCrates, []) == Ok(Scan(used, {}))
    ensures FindUses2018(Some(root), externCrates, fs) == Found(used)
  {
    assert RoundSucceeds(fs, root, externCrates, {[]});
    assert RoundUsed(fs, root, externCrates, {[]}) == used;
    assert RoundNext(fs, root, externCrates, {[]}) == {};
    assert Explore(fs, root, externCrates, {}, 1) == Found({});
  }

  lemma ParseRsScan()
    ensures ScanFile(File(true, ParseRsUses + ParseRsFunctions + [ParseRsTests]), TestCandidates)
      == Scan({"cargo", "failure", "maplit", "syn"}, {})
  {
    var c := TestCandidates;
    var top := ParseRsUses + ParseRsFunctions;
    var items := top + [ParseRsTests];
    ParseRsUsesFound();
    ParseRsFunctionsFindNothing();
    UsesOfExternCratesAppend(ParseRsUses, ParseRsFunctions, c);
    ScanItemsAppend(ParseRsUses, ParseRsFunctions, c);
    AttributedModSkipped(top, [], "tests", ParseRsTests.content, c);
    assert items == top + [ParseRsTests] + [];
    assert top + [] == top;
    assert items[..|items| - 1] == top;
    assert ItemUse(ParseRsTests, c) == {};
  }

  /** `test_find_uses_lossy_2018`: of the candidates `cargo`, `failure`,
      `maplit`, `once_cell` and `syn`, all but `once_cell` are found;
      `once_cell` is used only inside the attributed test module. */
  lemma FindUsesOfParseRs()
    ensures FindUses2018(Some(TestRoot), TestCandidates,
                         FileSystem({TestRoot}, map[TestRoot := File(true, ParseRsUses + ParseRsFunctions + [ParseRsTests])]))
      == Found({"cargo", "failure", "maplit", "syn"})
  {
    var file := File(true, ParseRsUses + ParseRsFunctions + [ParseRsTests]);
    var fs := FileSystem({TestRoot}, map[TestRoot := file]);
    ParseRsScan();
    assert ScanModule(fs, TestRoot, TestCandidates, []) == Ok(ScanFile(file, TestCandidates));
    SingleFileWalk(fs, TestRoot, TestCandidates, {"cargo", "failure", "maplit", "syn"});
  }
}
