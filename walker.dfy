/** The walk of `Context::run` in `src/lib.rs`: starting from the root
    target, every package found used is examined in turn, from the cache when
    its entry is still good and by probing its library-like source files
    otherwise, until no new package turns up; then the cache is sorted and
    written and the packages are reported as used or unused. */
module Walker {
  import opened Wrappers
  import opened Packages
  import opened IndexMaps
  import opened Conds
  import opened Caches
  import Targets
  import Prober

  /** A compilation unit that can be probed: its `--extern` names and the
      compiler run on it. */
  datatype Rustc = Rustc(externs: seq<string>, compiler: Prober.Compiler)

  /** `Context`: what the walk reads.  `rustcs` holds the units cargo compiled
      in this run, by source file. */
  datatype Context = Context(
    debug: bool,
    packages: map<PackageId, Package>,
    root: PackageId,
    nodes: map<PackageId, Node>,
    conds: CondMap,
    rootBinSrcPath: string,
    depSrcPaths: map<PackageId, seq<string>>,
    rustcs: map<string, Rustc>)

  /** The walk's failures.  `Panicked` is an index into `packages`, `nodes`
      or `dep_src_paths` that misses, or a sort that meets an unknown id. */
  datatype WalkError =
    | MissingRustcOptions(srcPath: string)
    | ProbeFailed(cause: Prober.Error)
    | Panicked

  /** `filter_actually_used_crates` on the unit compiled from `path`. */
  function Probe(ctx: Context, path: string, deps: seq<NodeDep>, rootLib: Option<(string, PackageId)>): (r: Result<set<PackageId>, WalkError>)
    requires path in ctx.rustcs
    ensures r.Err? <==> Prober.FilterActuallyUsed(ctx.rustcs[path].compiler, ctx.rustcs[path].externs, deps, rootLib).Err?
    ensures r.Err? ==> r.error.ProbeFailed?
  {
    var rustc := ctx.rustcs[path];
    match Prober.FilterActuallyUsed(rustc.compiler, rustc.externs, deps, rootLib)
    case Err(e) => Err(ProbeFailed(e))
    case Ok(s) => Ok(s)
  }

  /** The packages the root target uses: probed when cargo compiled it in
      this run, else the cached entry, else `MissingRustcOptions`. */
  function RootUsage(ctx: Context, targets: map<string, set<PackageId>>): (r: Result<set<PackageId>, WalkError>)
    ensures r.Err? && r.error.MissingRustcOptions? ==>
      r.error.srcPath == ctx.rootBinSrcPath && ctx.rootBinSrcPath !in ctx.rustcs && ctx.rootBinSrcPath !in targets
    ensures ctx.rootBinSrcPath !in ctx.rustcs && ctx.rootBinSrcPath in targets ==> r == Ok(targets[ctx.rootBinSrcPath])
    ensures ctx.rootBinSrcPath !in ctx.rustcs && ctx.rootBinSrcPath !in targets ==>
      r == Err(MissingRustcOptions(ctx.rootBinSrcPath))
  {
    var path := ctx.rootBinSrcPath;
    if path in ctx.rustcs then
      if ctx.root !in ctx.packages || ctx.root !in ctx.nodes then Err(Panicked)
      else Probe(ctx, path, ctx.nodes[ctx.root].deps, Targets.RootLib(ctx.packages[ctx.root]))
    else if path in targets then Ok(targets[path])
    else Err(MissingRustcOptions(path))
  }

  /** Probing the source files of package `c` in order: the union of what
      each uses, or the first failure. */
  function ProbeSources(ctx: Context, c: PackageId, paths: seq<string>): (r: Result<set<PackageId>, WalkError>)
    ensures r.Ok? && paths != [] ==> c in ctx.nodes
    ensures r.Ok? ==> forall i :: 0 <= i < |paths| ==> paths[i] in ctx.rustcs
    ensures r.Err? && r.error.MissingRustcOptions? ==> r.error.srcPath in paths && r.error.srcPath !in ctx.rustcs
  {
    if paths == [] then Ok({})
    else if paths[0] !in ctx.rustcs then Err(MissingRustcOptions(paths[0]))
    else if c !in ctx.nodes then Err(Panicked)
    else match Probe(ctx, paths[0], ctx.nodes[c].deps, None)
      case Err(e) => Err(e)
      case Ok(o) => Then(o, ProbeSources(ctx, c, paths[1..]))
  }

  /** `acc` added to a successful outcome. */
  function Then(acc: set<PackageId>, r: Result<set<PackageId>, WalkError>): Result<set<PackageId>, WalkError>
  {
    if r.Ok? then Ok(acc + r.value) else r
  }

  lemma ThenThen(a: set<PackageId>, b: set<PackageId>, r: Result<set<PackageId>, WalkError>)
    ensures Then(a, Then(b, r)) == Then(a + b, r)
  {
    if r.Ok? {
      assert a + (b + r.value) == (a + b) + r.value;
    }
  }

  /** Some source file of `c` was compiled in this run, so its cache entry is
      stale. */
  predicate Fresh(ctx: Context, c: PackageId)
    requires c in ctx.depSrcPaths
  {
    exists i :: 0 <= i < |ctx.depSrcPaths[c]| && ctx.depSrcPaths[c][i] in ctx.rustcs
  }

  /** The packages `c` uses, given the dependency cache `cached` as it was
      read: the cached entry unless it is stale or missing, else a probe of
      each of its source files. */
  function Usage(ctx: Context, cached: map<PackageId, set<PackageId>>, c: PackageId): Result<set<PackageId>, WalkError>
  {
    if c !in ctx.depSrcPaths then Err(Panicked)
    else if !Fresh(ctx, c) && c in cached then Ok(cached[c])
    else ProbeSources(ctx, c, ctx.depSrcPaths[c])
  }

  /** A package none of whose source files cargo compiled in this run, and
      that has no cache entry, cannot be probed: `MissingRustcOptions` for its
      first source file. */
  lemma UncachedMissing(ctx: Context, cached: map<PackageId, set<PackageId>>, c: PackageId)
    requires c in ctx.depSrcPaths && !Fresh(ctx, c) && c !in cached && ctx.depSrcPaths[c] != []
    ensures Usage(ctx, cached, c) == Err(MissingRustcOptions(ctx.depSrcPaths[c][0]))
  {
  }

  /** A stale entry is never read: what a fresh package uses does not depend
      on the cache. */
  lemma FreshIgnoresCache(ctx: Context, a: map<PackageId, set<PackageId>>, b: map<PackageId, set<PackageId>>, c: PackageId)
    requires c in ctx.depSrcPaths && Fresh(ctx, c)
    ensures Usage(ctx, a, c) == Usage(ctx, b, c) == ProbeSources(ctx, c, ctx.depSrcPaths[c])
  {
  }

  /** Every package of a round examined without failure. */
  ghost predicate RoundOk(ctx: Context, cached: map<PackageId, set<PackageId>>, cur: set<PackageId>)
  {
    forall c :: c in cur ==> Usage(ctx, cached, c).Ok?
  }

  ghost function RoundErrors(ctx: Context, cached: map<PackageId, set<PackageId>>, cur: set<PackageId>): set<WalkError>
  {
    set c | c in cur && Usage(ctx, cached, c).Err? :: Usage(ctx, cached, c).error
  }

  /** Everything the packages of a round use. */
  ghost function RoundOutput(ctx: Context, cached: map<PackageId, set<PackageId>>, cur: set<PackageId>): set<PackageId>
  {
    set c, x | c in cur && Usage(ctx, cached, c).Ok? && x in Usage(ctx, cached, c).value :: x
  }

  /** The walk: the packages found used, and those examined. */
  datatype Walk = Walked(used: set<PackageId>, visited: set<PackageId>) | Stuck(errors: set<WalkError>)

  /** Twice the known packages not yet used, and one more while the round
      ahead is non-empty and known: each successful round lowers it. */
  ghost function Measure(ctx: Context, used: set<PackageId>, cur: set<PackageId>): nat
  {
    2 * |ctx.depSrcPaths.Keys - used| + (if cur != {} && cur <= ctx.depSrcPaths.Keys then 1 else 0)
  }

  /** The rounds from `cur`, with `used` found so far: each round's new
      packages are the next round. */
  ghost function Explore(ctx: Context, cached: map<PackageId, set<PackageId>>, used: set<PackageId>, cur: set<PackageId>): Walk
    decreases Measure(ctx, used, cur)
  {
    if cur == {} then Walked(used, {})
    else if !RoundOk(ctx, cached, cur) then Stuck(RoundErrors(ctx, cached, cur))
    else
      var next := RoundOutput(ctx, cached, cur) - used;
      MeasureDecreases(ctx, cached, used, cur, next);
      Shift(cur, Explore(ctx, cached, used + next, next))
  }

  /** `done` added to the examined packages of a walk that succeeds. */
  function Shift(done: set<PackageId>, w: Walk): Walk
  {
    match w
    case Walked(u, v) => Walked(u, done + v)
    case Stuck(_) => w
  }

  lemma ShiftShift(a: set<PackageId>, b: set<PackageId>, w: Walk)
    ensures Shift(a, Shift(b, w)) == Shift(a + b, w)
  {
    if w.Walked? {
      assert a + (b + w.visited) == (a + b) + w.visited;
    }
  }

  lemma SubsetCard(a: set<PackageId>, b: set<PackageId>)
    requires a <= b
    ensures |a| <= |b|
  {
    assert b == a + (b - a);
  }

  lemma MeasureDecreases(ctx: Context, cached: map<PackageId, set<PackageId>>, used: set<PackageId>, cur: set<PackageId>, next: set<PackageId>)
    requires cur != {} && RoundOk(ctx, cached, cur) && next !! used
    ensures Measure(ctx, used + next, next) < Measure(ctx, used, cur)
  {
    var keys := ctx.depSrcPaths.Keys;
    assert cur <= keys by {
      forall c | c in cur
        ensures c in keys
      {
        assert Usage(ctx, cached, c).Ok?;
      }
    }
    SubsetCard(keys - (used + next), keys - used);
    if next != {} && next <= keys {
      var x :| x in next;
      SubsetCard(keys - (used + next), keys - used - {x});
    }
  }

  /** The examined packages all succeeded. */
  ghost predicate Settled(ctx: Context, cached: map<PackageId, set<PackageId>>, visited: set<PackageId>)
  {
    forall k :: k in visited ==> Usage(ctx, cached, k).Ok?
  }

  /** The dependency cache once the packages of `visited` have been examined:
      each of them holds what it uses, the rest is as read. */
  ghost function Updated(ctx: Context, cached: map<PackageId, set<PackageId>>, visited: set<PackageId>): map<PackageId, set<PackageId>>
    requires Settled(ctx, cached, visited)
  {
    map k | k in cached.Keys + visited :: if k in visited then Usage(ctx, cached, k).value else cached[k]
  }

  lemma UpdatedNone(ctx: Context, cached: map<PackageId, set<PackageId>>)
    ensures Settled(ctx, cached, {}) && Updated(ctx, cached, {}) == cached
  {
  }

  lemma UpdatedStep(ctx: Context, cached: map<PackageId, set<PackageId>>, visited: set<PackageId>, c: PackageId)
    requires Settled(ctx, cached, visited) && c !in visited && Usage(ctx, cached, c).Ok?
    ensures Settled(ctx, cached, visited + {c})
    ensures Updated(ctx, cached, visited + {c}) == Updated(ctx, cached, visited)[c := Usage(ctx, cached, c).value]
  {
  }

  lemma RoundOutputStep(ctx: Context, cached: map<PackageId, set<PackageId>>, done: set<PackageId>, c: PackageId)
    requires Usage(ctx, cached, c).Ok?
    ensures RoundOutput(ctx, cached, done + {c}) == RoundOutput(ctx, cached, done) + Usage(ctx, cached, c).value
  {
    forall x | x in Usage(ctx, cached, c).value
      ensures x in RoundOutput(ctx, cached, done + {c})
    {
      assert c in done + {c};
    }
  }

  /** The whole walk over the cache as read: the root's usage, then rounds
      from it. */
  ghost function WalkFrom(ctx: Context, mode: CacheByMode): Walk
  {
    match RootUsage(ctx, TargetContents(mode))
    case Err(e) => Stuck({e})
    case Ok(start) => Explore(ctx, DependencyContents(mode), start, start)
  }

  /** A set that holds everything each of its packages uses. */
  ghost predicate Closed(ctx: Context, cached: map<PackageId, set<PackageId>>, s: set<PackageId>)
  {
    forall c :: c in s ==> Usage(ctx, cached, c).Ok? && Usage(ctx, cached, c).value <= s
  }

  /** A successful walk has examined its round and everything found later,
      and what each examined package uses was found. */
  lemma {:induction false} ExploreClosed(ctx: Context, cached: map<PackageId, set<PackageId>>, used: set<PackageId>, cur: set<PackageId>)
    requires cur <= used && Explore(ctx, cached, used, cur).Walked?
    ensures var w := Explore(ctx, cached, used, cur);
      w.used == used + w.visited && cur <= w.visited && Settled(ctx, cached, w.visited)
      && (forall c :: c in w.visited ==> Usage(ctx, cached, c).value <= w.used)
    decreases Measure(ctx, used, cur)
  {
    if cur != {} {
      var next := RoundOutput(ctx, cached, cur) - used;
      MeasureDecreases(ctx, cached, used, cur, next);
      var rest := Explore(ctx, cached, used + next, next);
      assert Explore(ctx, cached, used, cur) == Shift(cur, rest);
      ExploreClosed(ctx, cached, used + next, next);
      ClosedStep(ctx, cached, used, cur, next, rest);
    }
  }

  lemma ClosedStep(ctx: Context, cached: map<PackageId, set<PackageId>>, used: set<PackageId>, cur: set<PackageId>,
                   next: set<PackageId>, rest: Walk)
    requires cur <= used && RoundOk(ctx, cached, cur) && next == RoundOutput(ctx, cached, cur) - used
    requires rest.Walked? && rest.used == used + next + rest.visited && next <= rest.visited && Settled(ctx, cached, rest.visited)
    requires forall c :: c in rest.visited ==> Usage(ctx, cached, c).value <= rest.used
    ensures var w := Shift(cur, rest);
      w.used == used + w.visited && Settled(ctx, cached, w.visited)
      && (forall c :: c in w.visited ==> Usage(ctx, cached, c).value <= w.used)
  {
    forall c | c in cur
      ensures Usage(ctx, cached, c).value <= used + next
    {
      forall x | x in Usage(ctx, cached, c).value
        ensures x in used + next
      {
        assert x in RoundOutput(ctx, cached, cur);
      }
    }
  }

  /** A walk from inside a closed set succeeds and never leaves it. */
  lemma {:induction false} ExploreLeast(ctx: Context, cached: map<PackageId, set<PackageId>>, used: set<PackageId>, cur: set<PackageId>, s: set<PackageId>)
    requires cur <= used <= s && Closed(ctx, cached, s)
    ensures Explore(ctx, cached, used, cur).Walked? && Explore(ctx, cached, used, cur).used <= s
    decreases Measure(ctx, used, cur)
  {
    if cur != {} {
      assert RoundOk(ctx, cached, cur);
      var next := RoundOutput(ctx, cached, cur) - used;
      MeasureDecreases(ctx, cached, used, cur, next);
      assert next <= s by {
        forall x | x in next
          ensures x in s
        {
          var c :| c in cur && Usage(ctx, cached, c).Ok? && x in Usage(ctx, cached, c).value;
        }
      }
      ExploreLeast(ctx, cached, used + next, next, s);
    }
  }

  /** The packages found used are exactly those examined; they hold the
      root's usage, and everything each of them uses. */
  lemma WalkClosed(ctx: Context, mode: CacheByMode)
    requires WalkFrom(ctx, mode).Walked?
    ensures var w := WalkFrom(ctx, mode);
      RootUsage(ctx, TargetContents(mode)).Ok? && RootUsage(ctx, TargetContents(mode)).value <= w.used
      && w.used == w.visited && Closed(ctx, DependencyContents(mode), w.used)
  {
    var start := RootUsage(ctx, TargetContents(mode)).value;
    ExploreClosed(ctx, DependencyContents(mode), start, start);
    var w := WalkFrom(ctx, mode);
    assert w.used == w.visited;
  }

  /** ... and they are the least such set: any set that holds the root's usage
      and everything its own packages use holds them all, and the walk over
      it cannot fail. */
  lemma WalkLeast(ctx: Context, mode: CacheByMode, s: set<PackageId>)
    requires RootUsage(ctx, TargetContents(mode)).Ok? && RootUsage(ctx, TargetContents(mode)).value <= s
    requires Closed(ctx, DependencyContents(mode), s)
    ensures WalkFrom(ctx, mode).Walked? && WalkFrom(ctx, mode).used <= s
  {
    var start := RootUsage(ctx, TargetContents(mode)).value;
    ExploreLeast(ctx, DependencyContents(mode), start, start, s);
  }

  /** A failed walk names at least one failure. */
  lemma {:induction false} ExploreStuck(ctx: Context, cached: map<PackageId, set<PackageId>>, used: set<PackageId>, cur: set<PackageId>)
    requires Explore(ctx, cached, used, cur).Stuck?
    ensures Explore(ctx, cached, used, cur).errors != {}
    decreases Measure(ctx, used, cur)
  {
    if RoundOk(ctx, cached, cur) {
      var next := RoundOutput(ctx, cached, cur) - used;
      MeasureDecreases(ctx, cached, used, cur, next);
      ExploreStuck(ctx, cached, used + next, next);
    } else {
      var c :| c in cur && Usage(ctx, cached, c).Err?;
      assert Usage(ctx, cached, c).error in RoundErrors(ctx, cached, cur);
    }
  }

  /** The elements of a `HashSet`, in whatever order it yields them. */
  method Collect(s: set<PackageId>) returns (l: IdSet)
    ensures Distinct(l) && SetOf(l) == s
  {
    l := [];
    var rest := s;
    while rest != {}
      invariant SetOf(l) + rest == s && SetOf(l) !! rest && Distinct(l)
      decreases |rest|
    {
      var x :| x in rest;
      l := l + [x];
      rest := rest - {x};
    }
  }

  /** `if used.insert(id) { next.insert(id); }` for each id: the new ones go
      to the next round. */
  method Mark(l: IdSet, used: set<PackageId>, next: set<PackageId>) returns (used': set<PackageId>, next': set<PackageId>)
    ensures used' == used + SetOf(l)
    ensures next' == next + (SetOf(l) - used)
  {
    used', next' := used, next;
    for k := 0 to |l|
      invariant used' == used + SetOf(l[..k])
      invariant next' == next + (SetOf(l[..k]) - used)
    {
      assert SetOf(l[..k + 1]) == SetOf(l[..k]) + {l[k]} by {
        assert l[..k + 1] == l[..k] + [l[k]];
      }
      if l[k] !in used' {
        used' := used' + {l[k]};
        next' := next' + {l[k]};
      }
    }
    assert l[..|l|] == l;
  }

  /** `IndexSet::insert` of each id: the old entries keep their places. */
  method Extend(entry: IdSet, l: IdSet) returns (r: IdSet)
    requires Distinct(entry)
    ensures Distinct(r) && SetOf(r) == SetOf(entry) + SetOf(l)
    ensures |entry| <= |r| && r[..|entry|] == entry
  {
    r := entry;
    for k := 0 to |l|
      invariant Distinct(r) && SetOf(r) == SetOf(entry) + SetOf(l[..k])
      invariant |entry| <= |r| && r[..|entry|] == entry
    {
      assert SetOf(l[..k + 1]) == SetOf(l[..k]) + {l[k]} by {
        assert l[..k + 1] == l[..k] + [l[k]];
      }
      assert SetOf(r + [l[k]]) == SetOf(r) + {l[k]};
      assert (r + [l[k]])[..|entry|] == r[..|entry|];
      r := SetInsert(r, l[k]).0;
    }
    assert l[..|l|] == l;
  }

  /** The root phase: the root target's usage, and the cache with its entry
      replaced when it was probed. */
  method StartWalk(ctx: Context, mode: CacheByMode) returns (mode': CacheByMode, start: Result<set<PackageId>, WalkError>)
    requires ModeValid(mode)
    ensures start == RootUsage(ctx, TargetContents(mode))
    ensures start.Ok? ==> ModeValid(mode') && mode'.dependencies == mode.dependencies
    ensures start.Ok? && ctx.rootBinSrcPath in ctx.rustcs ==>
      TargetContents(mode') == TargetContents(mode)[ctx.rootBinSrcPath := start.value]
    ensures start.Ok? && ctx.rootBinSrcPath !in ctx.rustcs ==> mode' == mode
  {
    var path := ctx.rootBinSrcPath;
    mode' := mode;
    if path in ctx.rustcs {
      mode' := mode'.(targets := mode'.targets[path := []]);
      if ctx.root !in ctx.packages || ctx.root !in ctx.nodes {
        return mode', Err(Panicked);
      }
      var rootLib := Targets.RootLib(ctx.packages[ctx.root]);
      var rustc := ctx.rustcs[path];
      var output := Prober.FilterActuallyUsedCrates(rustc.compiler, rustc.externs, ctx.nodes[ctx.root].deps, rootLib);
      if output.Err? {
        return mode', Err(ProbeFailed(output.error));
      }
      var l := Collect(output.value);
      var entry := Extend([], l);
      assert SetOf([]) == {} && SetOf(entry) == output.value;
      TargetContentsSet(mode, path, entry);
      assert mode'.targets[path := entry] == mode.targets[path := entry];
      mode' := mode'.(targets := mode'.targets[path := entry]);
      start := Ok(output.value);
    } else if path in mode.targets {
      start := Ok(SetOf(mode.targets[path]));
    } else {
      start := Err(MissingRustcOptions(path));
    }
  }

  /** The vacant case: each source file of `c` probed in order, its usage
      marked and collected into a new entry. */
  method ProbeSourcesOf(ctx: Context, c: PackageId, paths: seq<string>, used: set<PackageId>, next: set<PackageId>)
    returns (used': set<PackageId>, next': set<PackageId>, entry: IdSet, err: Option<WalkError>)
    ensures var u := ProbeSources(ctx, c, paths);
      (err.None? <==> u.Ok?) && (err.Some? ==> u == Err(err.value))
      && (u.Ok? ==> Distinct(entry) && SetOf(entry) == u.value && used' == used + u.value && next' == next + (u.value - used))
  {
    used', next', entry, err := used, next, [], None;
    assert paths[0..] == paths && SetOf([]) == {};
    ghost var whole := ProbeSources(ctx, c, paths);
    if whole.Ok? {
      assert {} + whole.value == whole.value;
    }
    for k := 0 to |paths|
      invariant ProbeSources(ctx, c, paths) == Then(SetOf(entry), ProbeSources(ctx, c, paths[k..]))
      invariant Distinct(entry) && used' == used + SetOf(entry) && next' == next + (SetOf(entry) - used)
    {
      var p := paths[k];
      assert paths[k..][0] == p && paths[k..][1..] == paths[k + 1..];
      if p !in ctx.rustcs {
        err := Some(MissingRustcOptions(p));
        return;
      }
      if c !in ctx.nodes {
        err := Some(Panicked);
        return;
      }
      var rustc := ctx.rustcs[p];
      var output := Prober.FilterActuallyUsedCrates(rustc.compiler, rustc.externs, ctx.nodes[c].deps, None);
      if output.Err? {
        err := Some(ProbeFailed(output.error));
        return;
      }
      ghost var rest := ProbeSources(ctx, c, paths[k + 1..]);
      assert ProbeSources(ctx, c, paths[k..]) == Then(output.value, rest);
      ThenThen(SetOf(entry), output.value, rest);
      var l := Collect(output.value);
      used', next' := Mark(l, used', next');
      entry := Extend(entry, l);
    }
    assert paths[|paths|..] == [];
  }

  /** One package of a round: its stale entry dropped, then read from the
      cache, or probed into a new entry. */
  method VisitPackage(ctx: Context, ghost cached: map<PackageId, set<PackageId>>, ghost visited: set<PackageId>,
                      deps: IndexMap<PackageId, IdSet>, used: set<PackageId>, next: set<PackageId>, c: PackageId)
    returns (deps': IndexMap<PackageId, IdSet>, used': set<PackageId>, next': set<PackageId>, err: Option<WalkError>)
    requires DepsValid(deps) && Settled(ctx, cached, visited) && c !in visited
    requires Contents(deps) == Updated(ctx, cached, visited)
    ensures var u := Usage(ctx, cached, c);
      (err.None? <==> u.Ok?) && (err.Some? ==> u == Err(err.value))
      && (u.Ok? ==> DepsValid(deps') && Settled(ctx, cached, visited + {c})
                    && Contents(deps') == Updated(ctx, cached, visited + {c})
                    && used' == used + u.value && next' == next + (u.value - used))
  {
    deps', used', next', err := deps, used, next, None;
    if c !in ctx.depSrcPaths {
      err := Some(Panicked);
      return;
    }
    var paths := ctx.depSrcPaths[c];
    var stale := exists i :: 0 <= i < |paths| && paths[i] in ctx.rustcs;
    if stale {
      ContentsRemove(deps', c);
      deps' := SwapRemove(deps', c);
    }
    if c in deps'.values {
      assert !stale && deps' == deps;
      assert c in Contents(deps) && Contents(deps)[c] == SetOf(deps.values[c]);
      assert c in cached && cached[c] == SetOf(deps.values[c]);
      assert Usage(ctx, cached, c) == Ok(SetOf(deps'.values[c]));
      used', next' := Mark(deps'.values[c], used', next');
      UpdatedStep(ctx, cached, visited, c);
      assert Contents(deps) == Contents(deps)[c := cached[c]];
    } else {
      assert stale == Fresh(ctx, c);
      assert !stale ==> c !in Contents(deps) && c !in cached;
      assert Usage(ctx, cached, c) == ProbeSources(ctx, c, paths);
      ghost var emptied := Contents(deps) - {c};
      assert Contents(deps') == emptied;
      ContentsInsert(deps', c, []);
      deps' := Insert(deps', c, []);
      ghost var reopened := Contents(deps');
      assert reopened == emptied[c := SetOf([])];
      var entry;
      used', next', entry, err := ProbeSourcesOf(ctx, c, paths, used', next');
      if err.Some? {
        return;
      }
      ContentsInsert(deps', c, entry);
      deps' := Insert(deps', c, entry);
      assert Contents(deps') == reopened[c := SetOf(entry)];
      Override(Contents(deps), c, SetOf([]), SetOf(entry));
      UpdatedStep(ctx, cached, visited, c);
    }
  }

  lemma Override(m: map<PackageId, set<PackageId>>, c: PackageId, a: set<PackageId>, b: set<PackageId>)
    ensures (m - {c})[c := a][c := b] == m[c := b]
  {
  }

  /** Marking one package's usage keeps the round's `used` and `next` in step
      with what the round has found. */
  lemma MarkStep(used: set<PackageId>, found: set<PackageId>, u: set<PackageId>, used0: set<PackageId>, next0: set<PackageId>)
    requires used0 == used + found && next0 == found - used
    ensures used0 + u == used + (found + u) && next0 + (u - used0) == (found + u) - used
  {
  }

  /** One unrolling of the rounds. */
  lemma ExploreStep(ctx: Context, cached: map<PackageId, set<PackageId>>, used: set<PackageId>, cur: set<PackageId>, next: set<PackageId>)
    requires cur != {} && RoundOk(ctx, cached, cur) && next == RoundOutput(ctx, cached, cur) - used
    ensures Explore(ctx, cached, used, cur) == Shift(cur, Explore(ctx, cached, used + next, next))
  {
  }

  /** The state part-way through a round: `done` examined, `todo` still to
      come, and `used`, `next` and the cache in step with what was found. */
  ghost predicate RoundInv(ctx: Context, cached: map<PackageId, set<PackageId>>, visited: set<PackageId>, cur: set<PackageId>,
                           used0: set<PackageId>, todo: set<PackageId>, done: set<PackageId>, seen: set<PackageId>,
                           deps: IndexMap<PackageId, IdSet>, used: set<PackageId>, next: set<PackageId>)
  {
    todo + done == cur && todo !! done && seen == visited + done && todo !! seen
    && RoundOk(ctx, cached, done) && Settled(ctx, cached, seen)
    && DepsValid(deps) && Contents(deps) == Updated(ctx, cached, seen)
    && used == used0 + RoundOutput(ctx, cached, done) && next == RoundOutput(ctx, cached, done) - used0
  }

  lemma RoundInvStart(ctx: Context, cached: map<PackageId, set<PackageId>>, visited: set<PackageId>, cur: set<PackageId>,
                      used: set<PackageId>, deps: IndexMap<PackageId, IdSet>)
    requires DepsValid(deps) && Settled(ctx, cached, visited) && cur !! visited
    requires Contents(deps) == Updated(ctx, cached, visited)
    ensures RoundInv(ctx, cached, visited, cur, used, cur, {}, visited, deps, used, {})
  {
    assert RoundOutput(ctx, cached, {}) == {};
  }

  lemma RoundInvEnd(ctx: Context, cached: map<PackageId, set<PackageId>>, visited: set<PackageId>, cur: set<PackageId>,
                    used0: set<PackageId>, done: set<PackageId>, seen: set<PackageId>,
                    deps: IndexMap<PackageId, IdSet>, used: set<PackageId>, next: set<PackageId>)
    requires RoundInv(ctx, cached, visited, cur, used0, {}, done, seen, deps, used, next)
    ensures RoundOk(ctx, cached, cur) && DepsValid(deps) && Settled(ctx, cached, visited + cur)
    ensures Contents(deps) == Updated(ctx, cached, visited + cur)
    ensures used == used0 + RoundOutput(ctx, cached, cur) && next == RoundOutput(ctx, cached, cur) - used0
  {
    assert done == cur;
  }

  /** One package of a round. */
  method VisitNext(ctx: Context, ghost cached: map<PackageId, set<PackageId>>, ghost visited: set<PackageId>, ghost cur: set<PackageId>,
                   used0: set<PackageId>, ghost todo: set<PackageId>, ghost done: set<PackageId>, ghost seen: set<PackageId>,
                   deps: IndexMap<PackageId, IdSet>, used: set<PackageId>, next: set<PackageId>, c: PackageId)
    returns (deps': IndexMap<PackageId, IdSet>, used': set<PackageId>, next': set<PackageId>, err: Option<WalkError>)
    requires c in todo && RoundInv(ctx, cached, visited, cur, used0, todo, done, seen, deps, used, next)
    ensures err.Some? ==> !RoundOk(ctx, cached, cur) && err.value in RoundErrors(ctx, cached, cur)
    ensures err.None? ==> RoundInv(ctx, cached, visited, cur, used0, todo - {c}, done + {c}, seen + {c}, deps', used', next')
  {
    deps', used', next', err := VisitPackage(ctx, cached, seen, deps, used, next, c);
    if err.None? {
      RoundOutputStep(ctx, cached, done, c);
      MarkStep(used0, RoundOutput(ctx, cached, done), Usage(ctx, cached, c).value, used, next);
    } else {
      assert Usage(ctx, cached, c).error in RoundErrors(ctx, cached, cur);
    }
  }

  /** One round: every package of `cur`, in whatever order the set yields
      them. */
  method VisitRound(ctx: Context, ghost cached: map<PackageId, set<PackageId>>, ghost visited: set<PackageId>,
                    deps: IndexMap<PackageId, IdSet>, used: set<PackageId>, cur: set<PackageId>)
    returns (deps': IndexMap<PackageId, IdSet>, used': set<PackageId>, next: set<PackageId>, err: Option<WalkError>)
    requires DepsValid(deps) && Settled(ctx, cached, visited) && cur !! visited
    requires Contents(deps) == Updated(ctx, cached, visited)
    ensures err.None? <==> RoundOk(ctx, cached, cur)
    ensures err.Some? ==> err.value in RoundErrors(ctx, cached, cur)
    ensures err.None? ==> DepsValid(deps') && Settled(ctx, cached, visited + cur)
                          && Contents(deps') == Updated(ctx, cached, visited + cur)
                          && used' == used + RoundOutput(ctx, cached, cur)
                          && next == RoundOutput(ctx, cached, cur) - used
  {
    deps', used', next, err := deps, used, {}, None;
    var todo := cur;
    ghost var done: set<PackageId> := {};
    ghost var seen := visited;
    RoundInvStart(ctx, cached, visited, cur, used, deps);
    while todo != {}
      invariant RoundInv(ctx, cached, visited, cur, used, todo, done, seen, deps', used', next)
      decreases |todo|
    {
      var c :| c in todo;
      var e;
      deps', used', next, e := VisitNext(ctx, cached, visited, cur, used, todo, done, seen, deps', used', next, c);
      if e.Some? {
        err := e;
        return;
      }
      todo := todo - {c};
      done := done + {c};
      seen := seen + {c};
    }
    RoundInvEnd(ctx, cached, visited, cur, used, done, seen, deps', used', next);
  }

  /** The state between rounds: the rounds still ahead, with the packages
      examined so far, make up the whole walk. */
  ghost predicate WalkInv(ctx: Context, cached: map<PackageId, set<PackageId>>, start: set<PackageId>,
                          visited: set<PackageId>, cur: set<PackageId>, deps: IndexMap<PackageId, IdSet>, used: set<PackageId>)
  {
    cur <= used && visited <= used && cur !! visited
    && Settled(ctx, cached, visited) && DepsValid(deps) && Contents(deps) == Updated(ctx, cached, visited)
    && Explore(ctx, cached, start, start) == Shift(visited, Explore(ctx, cached, used, cur))
  }

  lemma WalkInvStart(ctx: Context, cached: map<PackageId, set<PackageId>>, start: set<PackageId>, deps: IndexMap<PackageId, IdSet>)
    requires DepsValid(deps) && Contents(deps) == cached
    ensures WalkInv(ctx, cached, start, {}, start, deps, start)
  {
    UpdatedNone(ctx, cached);
    var w := Explore(ctx, cached, start, start);
    if w.Walked? {
      assert {} + w.visited == w.visited;
    }
  }

  /** A round that succeeds moves the walk on to its new packages. */
  lemma WalkInvStep(ctx: Context, cached: map<PackageId, set<PackageId>>, start: set<PackageId>,
                    visited: set<PackageId>, cur: set<PackageId>, deps: IndexMap<PackageId, IdSet>, used: set<PackageId>,
                    deps': IndexMap<PackageId, IdSet>, used': set<PackageId>, next: set<PackageId>)
    requires WalkInv(ctx, cached, start, visited, cur, deps, used) && cur != {} && RoundOk(ctx, cached, cur)
    requires DepsValid(deps') && Settled(ctx, cached, visited + cur) && Contents(deps') == Updated(ctx, cached, visited + cur)
    requires used' == used + RoundOutput(ctx, cached, cur) && next == RoundOutput(ctx, cached, cur) - used
    ensures WalkInv(ctx, cached, start, visited + cur, next, deps', used')
    ensures Measure(ctx, used', next) < Measure(ctx, used, cur)
  {
    MeasureDecreases(ctx, cached, used, cur, next);
    ExploreStep(ctx, cached, used, cur, next);
    assert used' == used + next;
    ShiftShift(visited, cur, Explore(ctx, cached, used', next));
  }

  /** A round that fails ends the walk with one of its failures. */
  lemma WalkInvStuck(ctx: Context, cached: map<PackageId, set<PackageId>>, start: set<PackageId>,
                     visited: set<PackageId>, cur: set<PackageId>, deps: IndexMap<PackageId, IdSet>, used: set<PackageId>, e: WalkError)
    requires WalkInv(ctx, cached, start, visited, cur, deps, used) && cur != {}
    requires !RoundOk(ctx, cached, cur) && e in RoundErrors(ctx, cached, cur)
    ensures Explore(ctx, cached, start, start).Stuck? && e in Explore(ctx, cached, start, start).errors
  {
  }

  /** No round left: the walk is over. */
  lemma WalkInvEnd(ctx: Context, cached: map<PackageId, set<PackageId>>, start: set<PackageId>,
                   visited: set<PackageId>, deps: IndexMap<PackageId, IdSet>, used: set<PackageId>)
    requires WalkInv(ctx, cached, start, visited, {}, deps, used)
    ensures var w := Explore(ctx, cached, start, start);
      w.Walked? && used == w.used && visited == w.visited && DepsValid(deps) && Settled(ctx, cached, w.visited)
      && Contents(deps) == Updated(ctx, cached, w.visited)
  {
    assert visited + {} == visited;
  }

  /** The rounds, until one finds nothing new. */
  method WalkRounds(ctx: Context, ghost cached: map<PackageId, set<PackageId>>, deps: IndexMap<PackageId, IdSet>, start: set<PackageId>)
    returns (deps': IndexMap<PackageId, IdSet>, used: set<PackageId>, err: Option<WalkError>)
    requires DepsValid(deps) && Contents(deps) == cached
    ensures var w := Explore(ctx, cached, start, start);
      (err.None? <==> w.Walked?) && (err.Some? ==> err.value in w.errors)
      && (w.Walked? ==> used == w.used && DepsValid(deps') && Settled(ctx, cached, w.visited)
                        && Contents(deps') == Updated(ctx, cached, w.visited))
  {
    var cur := start;
    used, deps', err := start, deps, None;
    ghost var visited: set<PackageId> := {};
    WalkInvStart(ctx, cached, start, deps);
    while cur != {}
      invariant WalkInv(ctx, cached, start, visited, cur, deps', used)
      decreases Measure(ctx, used, cur)
    {
      var next, e, deps'', used';
      deps'', used', next, e := VisitRound(ctx, cached, visited, deps', used, cur);
      if e.Some? {
        WalkInvStuck(ctx, cached, start, visited, cur, deps', used, e.value);
        err := e;
        return;
      }
      WalkInvStep(ctx, cached, start, visited, cur, deps', used, deps'', used', next);
      visited, cur, deps', used := visited + cur, next, deps'', used';
    }
    WalkInvEnd(ctx, cached, start, visited, deps', used);
  }

  /** The cache side of a successful walk: the root target's entry replaced
      when it was probed, and every examined package's entry holding what it
      uses. */
  ghost predicate CacheAfter(ctx: Context, before: CacheByMode, after: CacheByMode)
  {
    var w := WalkFrom(ctx, before);
    var root := RootUsage(ctx, TargetContents(before));
    w.Walked? && root.Ok? && Settled(ctx, DependencyContents(before), w.visited)
    && TargetContents(after) == (if ctx.rootBinSrcPath in ctx.rustcs then TargetContents(before)[ctx.rootBinSrcPath := root.value]
                                 else TargetContents(before))
    && DependencyContents(after) == Updated(ctx, DependencyContents(before), w.visited)
  }

  /** The walk on one mode of the cache. */
  method WalkMode(ctx: Context, mode: CacheByMode) returns (mode': CacheByMode, used: set<PackageId>, err: Option<WalkError>)
    requires ModeValid(mode)
    ensures var w := WalkFrom(ctx, mode);
      (err.None? <==> w.Walked?) && (err.Some? ==> err.value in w.errors)
      && (w.Walked? ==> used == w.used && ModeValid(mode') && CacheAfter(ctx, mode, mode'))
  {
    var start;
    mode', start := StartWalk(ctx, mode);
    if start.Err? {
      return mode', {}, Some(start.error);
    }
    var deps;
    deps, used, err := WalkRounds(ctx, DependencyContents(mode), mode'.dependencies, start.value);
    if err.None? {
      mode' := mode'.(dependencies := deps);
    }
  }

  /** `OutcomeUnused::by` for each unused package: its entry of the
      conditions, or none; `remove` reads each entry once, the ids being
      distinct. */
  function Report(conds: CondMap, ids: IdSet): (r: IndexMap<PackageId, IndexMap<PackageId, UnusedBy>>)
    requires Distinct(ids)
    ensures Valid(r) && r.keys == ids
    ensures forall id :: id in ids ==> r.values[id] == if id in conds then conds[id] else Empty()
  {
    IndexMap(ids, map id | id in ids :: if id in conds then conds[id] else Empty())
  }

  /** `Outcome`: the used packages, and each unused one with the conditions
      under which it is unused, both in `(name, version, id)` order. */
  datatype Outcome = Outcome(used: IdSet, unused: IndexMap<PackageId, IndexMap<PackageId, UnusedBy>>)

  /** What the outcome reports about the packages found used: the used ids
      each once, sorted when all are known packages; every other known
      package as unused, sorted, each with its entry of the conditions or
      none.  So the two lists split the known packages between them. */
  predicate Reports(ctx: Context, used: set<PackageId>, o: Outcome)
  {
    Distinct(o.used) && SetOf(o.used) == used
    && ((forall x :: x in used ==> x in ctx.packages) ==> SortedListOf(ctx.packages, o.used, used))
    && SortedListOf(ctx.packages, o.unused.keys, ctx.packages.Keys - used) && Valid(o.unused)
    && (forall id :: id in ctx.packages.Keys - used ==>
          o.unused.values[id] == if id in ctx.conds then ctx.conds[id] else Empty())
    && (forall id :: id in ctx.packages ==> (id in o.used <==> id !in o.unused.keys))
  }

  /** The two lists sorted and the unused ones given their conditions. */
  function Assemble(ctx: Context, used: set<PackageId>, usedList: IdSet, unusedList: IdSet): (o: Outcome)
    requires Indexed(ctx.packages)
    requires Distinct(usedList) && SetOf(usedList) == used && Sortable(ctx.packages, usedList)
    requires Distinct(unusedList) && SetOf(unusedList) == ctx.packages.Keys - used
    ensures Reports(ctx, used, o)
  {
    assert forall i :: 0 <= i < |unusedList| ==> unusedList[i] in SetOf(unusedList);
    assert forall x :: x in usedList <==> x in SetOf(usedList);
    assert forall x :: x in unusedList <==> x in SetOf(unusedList);
    var u := SortList(ctx.packages, usedList);
    var n := SortList(ctx.packages, unusedList);
    assert SortedListOf(ctx.packages, n, ctx.packages.Keys - used);
    assert forall x :: x in u <==> x in used;
    assert forall id :: id in ctx.packages ==> (id in u <==> id !in n);
    Outcome(u, Report(ctx.conds, n))
  }

  /** Building the outcome from the packages found used.  Sorting the used
      ids panics when two or more are found and one is not a known package. */
  method MakeOutcome(ctx: Context, used: set<PackageId>) returns (r: Result<Outcome, WalkError>)
    requires Indexed(ctx.packages)
    ensures r.Err? <==> |used| >= 2 && exists x :: x in used && x !in ctx.packages
    ensures r.Err? ==> r.error == Panicked
    ensures r.Ok? ==> Reports(ctx, used, r.value)
  {
    var usedList := Collect(used);
    var unusedList := Collect(ctx.packages.Keys - used);
    assert |usedList| == |used| by {
      DistinctCard(usedList);
    }
    if !Sortable(ctx.packages, usedList) {
      assert exists i :: 0 <= i < |usedList| && usedList[i] !in ctx.packages;
      return Err(Panicked);
    }
    assert forall x :: x in used && |used| >= 2 ==> x in ctx.packages by {
      forall x | x in used && |used| >= 2
        ensures x in ctx.packages
      {
        var i :| 0 <= i < |usedList| && usedList[i] == x;
      }
    }
    r := Ok(Assemble(ctx, used, usedList, unusedList));
  }

  /** A list without repetition is as long as its set of elements. */
  lemma {:induction false} DistinctCard(l: IdSet)
    requires Distinct(l)
    ensures |SetOf(l)| == |l|
  {
    if l != [] {
      var k := |l| - 1;
      assert SetOf(l) == SetOf(l[..k]) + {l[k]} by {
        assert l == l[..k] + [l[k]];
      }
      assert l[k] !in SetOf(l[..k]);
      DistinctCard(l[..k]);
    }
  }

  /** `Context::run`: the walk on this build's mode of the cache, then the
      cache sorted and written, then the outcome.  The cache file is written
      only when the walk succeeds and the cache sorts. */
  method Run(ctx: Context, cache: Cache, file: CacheFile) returns (r: Result<Outcome, WalkError>, ghost walked: CacheByMode)
    requires Indexed(ctx.packages) && cache.Valid()
    modifies cache, file
    ensures WalkFrom(ctx, old(cache.Get(ctx.debug))).Walked? ==>
      ModeValid(walked) && CacheAfter(ctx, old(cache.Get(ctx.debug)), walked)
    ensures var w := WalkFrom(ctx, old(cache.Get(ctx.debug)));
      w.Walked? ==>
        (r.Err? <==> !(ModeSortable(ctx.packages, walked) && ModeSortable(ctx.packages, old(cache.Get(!ctx.debug))))
                     || (|w.used| >= 2 && exists x :: x in w.used && x !in ctx.packages))
    ensures (WalkFrom(ctx, old(cache.Get(ctx.debug))).Walked?
             && !(ModeSortable(ctx.packages, walked) && ModeSortable(ctx.packages, old(cache.Get(!ctx.debug))))) ==>
      r == Err(Panicked) && file.contents == old(file.contents)
    ensures r.Ok? ==> ModeValid(walked) && ModeSortable(ctx.packages, walked)
                      && ModeValid(old(cache.Get(!ctx.debug))) && ModeSortable(ctx.packages, old(cache.Get(!ctx.debug)))
                      && cache.Get(ctx.debug) == SortMode(ctx.packages, walked)
                      && cache.Get(!ctx.debug) == SortMode(ctx.packages, old(cache.Get(!ctx.debug)))
    ensures var w := WalkFrom(ctx, old(cache.Get(ctx.debug)));
      (r.Ok? ==> w.Walked?) && (w.Stuck? ==> r.Err? && r.error in w.errors)
      && (w.Walked? && r.Err? ==> r.error == Panicked)
    ensures r.Ok? ==> Reports(ctx, WalkFrom(ctx, old(cache.Get(ctx.debug))).used, r.value)
    ensures WalkFrom(ctx, old(cache.Get(ctx.debug))).Stuck? ==> file.contents == old(file.contents)
    ensures r.Ok? ==> file.contents == (cache.debug, cache.release)
    ensures r.Ok? ==> cache.Valid() && ModeSorted(ctx.packages, cache.debug) && ModeSorted(ctx.packages, cache.release)
    ensures r.Ok? ==> CacheAfter(ctx, old(cache.Get(ctx.debug)), cache.Get(ctx.debug))
    ensures r.Ok? ==> TargetContents(cache.Get(!ctx.debug)) == TargetContents(old(cache.Get(!ctx.debug)))
                      && DependencyContents(cache.Get(!ctx.debug)) == DependencyContents(old(cache.Get(!ctx.debug)))
  {
    var d := ctx.debug;
    ghost var other := cache.Get(!d);
    var mode, used, err := WalkMode(ctx, cache.Get(d));
    walked := mode;
    if err.Some? {
      return Err(err.value), walked;
    }
    cache.Set(d, mode);
    var ok := cache.Sort(ctx.packages);
    if !ok {
      return Err(Panicked), walked;
    }
    SortModeContents(ctx.packages, mode);
    SortModeContents(ctx.packages, other);
    file.Write(cache);
    r := MakeOutcome(ctx, used);
  }
}
