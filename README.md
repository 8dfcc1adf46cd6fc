# cargo-unused: a verified model of the crate-usage discovery engine

`cargo-unused` finds the dependencies of a Cargo package that its binary
never uses. How it works:

- It rebuilds the root target and every package it reaches.
- Each time, it asks the compiler which `--extern` crates the build really
  needs, by taking them away and adding back the ones the compiler
  complains about.
- It follows the packages found this way, round by round, until nothing new
  turns up.
- It keeps a per-package cache of results from earlier runs.
- It reports every package as used or unused, together with the conditions
  (optional dependency, platform) under which the unused ones are depended
  on.

This project models that engine in Dafny and proves properties of the model.
There are four parts:

- **Usage prober** (`prober.dfy`, with `diagnostics.dfy`): the usage probe
  `filter_actually_used_crates`.
  - It keeps an exclusion bitset, held in a Dafny `array<bool>` and cleared
    in place.
  - There is a compile-and-dispatch loop, a one-by-one fallback, and the
    final mapping of the surviving externs to package ids.
  - The compiler is an oracle from exclusion bitsets to runs.
  - The three diagnostic patterns are matched by hand-written matchers.
- **Walker** (`walker.dfy`, over `packages.dfy`, `indexmaps.dfy`,
  `cache.dfy`, `targets.dfy` and `conds.dfy`): `Context::run`.
  - The root phase, the rounds over `cur`/`next`/`used`, and cache
    invalidation are imperative methods.
  - Each is proved against a ghost specification of the whole walk
    (`Walker.WalkFrom`), including the least-fixed-point property of what it
    finds.
  - It also covers the sorting and writing of the cache, and the
    assembling of the sorted `Outcome`.
  - Beside it are target selection, `Cache::{get,get_mut,sort}`, and the
    `conds` construction.
- **Compiler invocation** (`process.dfy`): `Extern::from_str`, `name` and
  `as_ref`; `RustcOpts::to_args` as successive pushes; `Rustc::externs`;
  and the `eprint_exclusion` on/off table.
- **Static pre-filter** (`parse.dfy`): `find_uses_lossy` for the 2015 and
  2018 editions.
  - The breadth-first walk over module paths, with a `Visitor` class whose
    fields are updated in place.
  - Module-path resolution, and `use_of_extern_crate` /
    `uses_of_extern_crates`.
  - The file's own unit test, restated as a lemma over a syntax tree of
    `src/parse.rs`.

Integers are unbounded; no source arithmetic here can wrap. Strings are
`seq<char>`, ordered by code point as `str::cmp` orders UTF-8 bytes.

A panic in the source becomes an explicit error value in the model, never a
precondition that shuts the case out:

- an index into a `HashMap` that misses;
- `unwrap_or_else(|| unimplemented!())`;
- a `sort_by` that meets an unknown id.

In the walker this is `WalkError.Panicked`; in `conds` and the target
selection it is `None`.

Some behaviours of the code that a reader might not expect, all modelled as
the code has them:

- With zero externs the prober still compiles once.
- The fallback starts from an empty bitset and keeps bit `i` set exactly when
  the run with it set succeeded.
- A diagnostic clears the first extern carrying the captured name, whatever
  that extern's bit was. Progress counts only when that bit was set.
- The static pre-filter of `src/parse.rs` is never called by the prober of
  `src/lib.rs`; it is modelled on its own.
- `indexmap` 1.x `remove` is `swap_remove`: the last key moves into the
  freed place.

## Model

| member | source | states |
|---|---|---|
| Packages.KeyLeTotal | src/lib.rs:115-117 | `ordkey` order is total |
| Packages.KeyLeAntisymmetric | src/lib.rs:115-117 | two packages equal in `(name, version, id)` order have the same id |
| Packages.KeyLeTransitive | src/lib.rs:115-117 | `ordkey` order is transitive |
| Packages.InsertSorted | src/lib.rs:121 | inserting into an ascending list keeps it ascending and adds exactly that element |
| Packages.SortIds | src/lib.rs:121 | `sort_by(ordkey)` on known ids gives an ascending permutation |
| Packages.AscendingUnique | src/lib.rs:703-707 | two ascending lists with the same elements are equal, so the sorted outcome does not depend on `HashSet` order |
| Packages.PackageMap | src/lib.rs:361-365 | the `packages` map is indexed by each package's own id and holds exactly the metadata's ids |
| IndexMaps.Insert | src/lib.rs:665 | `insert` sets the value; a new key goes last, an existing key keeps its place |
| IndexMaps.SwapRemove | src/lib.rs:654 | `remove` drops exactly that key and keeps the map valid; an absent key changes nothing |
| IndexMaps.SwapOutKeys | src/lib.rs:654 | after a swap-remove the keys stay distinct and are the old keys minus the removed one |
| IndexMaps.SetInsert | src/lib.rs:637 | `IndexSet::insert` appends exactly when the element is new and reports whether it was |
| Targets.TryFromOptions | src/lib.rs:155-172 | picks bin, then example, then test, then bench; `None` iff all four are absent |
| Targets.TryFromOptionsName | src/lib.rs:161-168 | the chosen target carries the name of the option it came from |
| Targets.FindTarget | src/lib.rs:441-449 | the first target with that name and kind, or none when no target matches |
| Targets.Bins | src/lib.rs:452-456 | exactly the targets with a `bin` kind |
| Targets.NamedTargetChosen | src/lib.rs:434-450 | a named target resolves iff some target has that name and kind, to the source of the first such target; else `NoSuchTarget(kind, name)` |
| Targets.OnlyBinChosen | src/lib.rs:451-458 | with no target named and exactly one `bin`, that bin is chosen whatever the manifest says |
| Targets.BinsSingle | src/lib.rs:452-457 | a package with one `bin` target has that single bin |
| Targets.NoBins | src/lib.rs:452-457 | a package without `bin` targets has no bins |
| Targets.DefaultRunChosen | src/lib.rs:459-474 | with zero or several bins: no `default-run` gives `AmbiguousTarget`; a `default-run` resolves iff some `bin` target has that name, to the source file of the first such target, else `NoSuchTarget("bin", name)`; an unreadable manifest gives its error |
| Targets.RootBinSrcPath | src/lib.rs:433-476 | the chosen source file is one of the root package's targets', a `bin`'s when no target was named and the bins are not exactly one; `ManifestUnreadable` only when the manifest had to be read and could not be |
| Targets.KindOf | src/lib.rs:435-440 | `bin`, `example`, `test` or `bench`, each exactly for its kind of target |
| Targets.DepSrcPaths | src/lib.rs:484-494 | exactly the source files of the package's `lib`, `proc-macro` and `custom-build` targets |
| Targets.LibrarySources | src/lib.rs:484-494 | the source files of exactly the library-like targets of a list |
| Targets.LibraryIndices | src/lib.rs:484-494 | the positions of exactly the library-like targets, ascending |
| Targets.LibrarySourcesInOrder | src/lib.rs:484-494 | one source file per library-like target, in target order: entry `j` is the `j`-th such target's source file |
| Targets.DepSrcPathMap | src/lib.rs:480-497 | `dep_src_paths` has exactly the metadata's package ids |
| Targets.RootLib | src/lib.rs:622-626 | the first `lib` target's name with the root id, or none iff no target is a `lib` |
| Targets.FirstLib | src/lib.rs:625 | the index of the first `lib` target, or none |
| Text.Underscored | src/lib.rs:838 | `replace('-', "_")`: same length, each `-` turned into `_`, nothing else changed |
| Text.StrLeTotal | src/lib.rs:115-117 | string order is total |
| Text.StrLeAntisymmetric | src/lib.rs:115-117 | string order is antisymmetric |
| Text.StrLeTransitive | src/lib.rs:115-117 | string order is transitive |
| Diagnostics.Quoted | src/lib.rs:747-753 | a match is an identifier and the message is exactly prefix, identifier, backtick |
| Diagnostics.QuotedIff | src/lib.rs:747-753 | the capture is `name` iff the message is written prefix + `name` + backtick with `name` an identifier |
| Diagnostics.MatchE0432 | src/lib.rs:747-748 | the E0432 capture and the exact message shape it comes from |
| Diagnostics.MatchE0463 | src/lib.rs:752-753 | the E0463 capture and the exact message shape it comes from |
| Diagnostics.MatchE0433 | src/lib.rs:749-751 | an E0433 capture is an identifier |
| Diagnostics.MatchE0433Iff | src/lib.rs:749-751 | the E0433 matcher captures `name` iff the message is `failed to resolve: <words>` then `name` in backticks, optionally ``in `{{root}}` `` |
| Diagnostics.MatchE0433Sound | src/lib.rs:749-751 | every E0433 capture comes from a message of that shape |
| Diagnostics.MatchE0433Complete | src/lib.rs:749-751 | every message of that shape is captured with its identifier |
| Diagnostics.Capture | src/lib.rs:773-797 | only E0432, E0433 and E0463 messages capture, and a capture is an identifier |
| Prober.Count | src/lib.rs:743-744 | the number of excluded externs is at most the bitset's size |
| Prober.CountBelow | src/lib.rs:803-804 | clearing bits never raises the count, and clearing one lowers it |
| Prober.Trues | src/lib.rs:743-744 | the start bitset has all `n` externs excluded |
| Prober.Falses | src/lib.rs:822 | `clear()` leaves no extern excluded |
| Prober.Position | src/lib.rs:798-801 | `position`: the first index holding the name, or none when no extern has it |
| Prober.Target | src/lib.rs:773-801 | a line points at the first extern whose name is its capture |
| Prober.Dispatch | src/lib.rs:770-807 | dispatching one run's stderr only clears bits |
| Prober.DispatchUpdated | src/lib.rs:798-805 | `updated` ends true iff it was true or some set bit was cleared |
| Prober.DispatchCleared | src/lib.rs:798-805 | a bit is cleared only by a line that points at its extern |
| Prober.DispatchClears | src/lib.rs:798-805 | every line before the first E0658 that points at an extern clears that extern's bit |
| Prober.DispatchErrIff | src/lib.rs:771 | dispatch fails iff a non-JSON line comes before any E0658 line |
| Prober.Resume | src/lib.rs:746-819 | prefixing earlier runs keeps the outcome and prepends the runs |
| Prober.Iterate | src/lib.rs:746-819 | the `'run` loop keeps the bitset's size |
| Prober.IterateRuns | src/lib.rs:743-819 | the first run is the start bitset; each later run has strictly fewer set bits and only clears; so at most `Count + 1` runs |
| Prober.IterateFailedRuns | src/lib.rs:755-762 | every run reached the compiler and every run but the last failed |
| Prober.IterateStop | src/lib.rs:755-819 | the loop gives up iff its last run failed (E0658 or no progress); otherwise it keeps that run's bitset |
| Prober.Fallback | src/lib.rs:823-831 | the fallback keeps the bitset's size |
| Prober.ResumeFallback | src/lib.rs:823-831 | prefixing earlier fallback runs keeps the outcome and prepends the runs |
| Prober.FallbackRuns | src/lib.rs:823-831 | one run per remaining bit; run `j` has the settled bits, bit `i+j` set and the rest untouched |
| Prober.FallbackFromCleared | src/lib.rs:821-832 | from a cleared bitset: exactly `n` runs; bit `j` ends set iff run `j` succeeded |
| Prober.ProbeAll | src/lib.rs:743-832 | the final bitset has one bit per extern |
| Prober.ProbeAllRuns | src/lib.rs:743-832 | the first run excludes every extern; at most `2n + 1` runs in all |
| Prober.SuccessNoFallback | src/lib.rs:761-832 | when the loop ends on a success no fallback runs, so at most `n + 1` runs |
| Prober.DepsMap | src/lib.rs:834-837 | definition: each dependency name to its package, built in order; property in `Prober.DepsMapLastWins` |
| Prober.DepsMapLastWins | src/lib.rs:834-837 | the deps map has exactly the deps' names, each mapped to the package of its last occurrence |
| Prober.WithRootLib | src/lib.rs:838-839 | the root lib is added under its underscored name, over any dep of that name; nothing else changes |
| Prober.Survivors | src/lib.rs:840-846 | definition: the packages of the non-excluded externs' names; property in `Prober.SurvivorsIff` |
| Prober.SurvivorsIff | src/lib.rs:840-846 | a package is in the result iff some non-excluded extern's name maps to it |
| Prober.FilterActuallyUsed | src/lib.rs:725-847 | definition: the probe, then the survivors mapped to packages; properties in `Prober.ProbeAllRuns`, `Prober.SuccessNoFallback` and `Prober.SurvivorsIff` |
| Prober.DispatchLines | src/lib.rs:770-807 | the in-place dispatch leaves the array, `updated` and the E0658 stop exactly as `Dispatch` says |
| Prober.CompileAndDispatch | src/lib.rs:746-819 | the in-place loop returns `something_wrong` or the error of `Iterate`, with its bitset on success |
| Prober.ExcludeOneByOne | src/lib.rs:821-832 | the in-place fallback leaves the bitset of `Fallback` from a cleared bitset, or its error |
| Prober.FilterActuallyUsedCrates | src/lib.rs:725-847 | the array-based prober returns exactly `FilterActuallyUsed` |
| Conds.NameLength | src/lib.rs:403 | the longest leading run of `[a-zA-Z0-9_-]` |
| Conds.CrateNameOf | src/lib.rs:403-406 | definition: the leading run of name characters of the package id, `None` when it is empty; property in `Conds.CrateNameOfIff` |
| Conds.CrateNameOfIff | src/lib.rs:403-406 | the capture is the maximal non-empty leading name run of the package id |
| Conds.RenamedMap | src/lib.rs:386-390 | definition: each rename to its dependency, built in order; property in `Conds.RenamedMapLastWins` |
| Conds.RenamedMapLastWins | src/lib.rs:386-390 | each rename maps to the last dependency with that rename |
| Conds.UnrenamedMap | src/lib.rs:391-396 | definition: each name of an unrenamed dependency to that dependency, built in order; property in `Conds.UnrenamedMapLastWins` |
| Conds.UnrenamedMapLastWins | src/lib.rs:391-396 | each name maps to the last unrenamed dependency of that name |
| Conds.ChooseDependency | src/lib.rs:400-408 | definition: the dependency renamed to the node's name, else the unrenamed one named by the package id's crate name; properties in `Conds.ChooseDependencyFacts` |
| Conds.ChooseDependencyFacts | src/lib.rs:400-408 | a rename wins over a name; the choice is one of the package's dependencies; it fails iff neither lookup finds one |
| Conds.AddDep | src/lib.rs:410-418 | recording a dependent keeps every entry a valid `IndexMap` |
| Conds.AddDeps | src/lib.rs:399-419 | the inner loop keeps every entry valid |
| Conds.AddPackages | src/lib.rs:385-420 | the outer loop keeps every entry valid |
| Conds.AddDepsWithin | src/lib.rs:399-419 | every recorded dependent is a known package |
| Conds.AddPackagesWithin | src/lib.rs:385-420 | every recorded dependent is one of the metadata's packages |
| Conds.SortValue | src/lib.rs:422-428 | each entry sorted: same entries, keys ascending |
| Conds.AddDepsNone | src/lib.rs:400-408 | the inner loop panics iff some resolved dependency has no manifest dependency |
| Conds.AddPackagesNone | src/lib.rs:385-420 | the outer loop panics iff some package is not resolvable |
| Conds.ConditionsNoneIff | src/lib.rs:382-431 | `conds` panics iff some package has no node or an unmatched resolved dependency |
| Conds.RecordedBy | src/lib.rs:400-413 | definition: the optionality and platform of the manifest dependency chosen for a resolved one; used by `Conds.AddDepFacts` and `Conds.Recorded` |
| Conds.AddDepFacts | src/lib.rs:410-418 | one dependency records `p` under its package with that dependency's condition, overwriting an earlier one; every other entry and every other recorded condition is unchanged |
| Conds.LastDep | src/lib.rs:399-419 | the position of the last resolved dependency on `k`, or `None` iff there is none |
| Conds.LastDepCons | src/lib.rs:399-419 | the last dependency on `k` is the last among the rest, or else the first |
| Conds.LastPackage | src/lib.rs:385-420 | the position of the last package with id `x` depending on `k`, or `None` iff there is none |
| Conds.LastPackageAt | src/lib.rs:385-420 | a matching position after which nothing matches is the last one |
| Conds.LastPackageCons | src/lib.rs:385-420 | the last such package is the last among the rest, or else the first |
| Conds.DependsOnLast | src/lib.rs:399-419 | a package depends on `k` iff its node has a last dependency on `k` |
| Conds.Recorded | src/lib.rs:385-420 | definition: the condition of the last dependency on `k` of the last package with id `x` depending on `k`, the one no later insert overwrites; stated of the result in `Conds.AddPackagesValue` and `Conds.ConditionsEntries` |
| Conds.AddDepsValue | src/lib.rs:399-419 | after a node's dependencies, `p` carries under `k` the condition of its last dependency on `k`, and every other entry under `k` keeps its condition |
| Conds.AddPackagesValue | src/lib.rs:385-420 | after all packages, `x` carries under `k` the condition of the last package with id `x` depending on `k`; with no such package an earlier entry keeps its condition |
| Conds.AddDepsKeeps | src/lib.rs:399-419 | earlier entries stay |
| Conds.AddDepsAdds | src/lib.rs:399-419 | every dependency's package gets `p` as a dependent |
| Conds.AddDepsOnly | src/lib.rs:399-419 | nothing else is recorded |
| Conds.AddPackagesKeeps | src/lib.rs:385-420 | earlier entries stay |
| Conds.AddPackagesAdds | src/lib.rs:385-420 | every resolved dependency is recorded |
| Conds.AddPackagesOnly | src/lib.rs:385-420 | only resolved dependencies are recorded |
| Conds.ConditionsEntries | src/lib.rs:382-431 | the dependents of `k` are exactly the packages with a resolved dependency on `k`, in `(name, version, id)` order, each with the condition of its last dependency on `k` (`Conds.Recorded`) |
| Conds.ConditionsOf | src/lib.rs:382-431 | definition: the dependents recorded by both loops, each entry sorted; properties in `Conds.ConditionsEntries` and `Conds.ConditionsNoneIff` |
| Conds.BuildConds | src/lib.rs:382-431 | the two nested loops and the sort compute exactly `ConditionsOf` |
| Caches.EmptyMode | src/lib.rs:91-95 | the default mode is valid and empty |
| Caches.TargetContentsSet | src/lib.rs:616-621 | replacing one target's list changes only that target's contents |
| Caches.ContentsInsert | src/lib.rs:664-687 | `insert` changes the contents of one key only |
| Caches.ContentsRemove | src/lib.rs:653-655 | `remove` drops one key's contents and leaves the rest |
| Caches.SortList | src/lib.rs:119-130 | a sorted list has the same members and no repetition, ascending when all are known |
| Caches.SortMode | src/lib.rs:119-130 | sorting a mode keeps it valid |
| Caches.SortModeContents | src/lib.rs:114-136 | sorting forgets and adds nothing: contents unchanged |
| Caches.SortModeSorted | src/lib.rs:114-136 | after sorting, every list of known ids and the known dependency keys are ascending |
| Caches.Cache.constructor | src/lib.rs:91-95 | `Cache::default` is two empty modes |
| Caches.Cache.Get | src/lib.rs:98-104 | `get(d)` is the debug side iff `d` |
| Caches.Cache.Set | src/lib.rs:106-112 | through `get_mut(d)` only the selected side changes |
| Caches.Cache.Sort | src/lib.rs:114-136 | sorts both sides, or panics (nothing changed) iff some comparison meets an unknown id; after it both sides are sorted |
| Caches.CacheFile.constructor | src/lib.rs:611-612 | the cache file holds what was read |
| Caches.CacheFile.Write | src/lib.rs:694 | `write` stores both sides of the cache |
| Walker.RootUsage | src/lib.rs:614-648 | `MissingRustcOptions` exactly when the root target was neither compiled nor cached, with its source file; uncompiled and cached gives the cached entry |
| Walker.Probe | src/lib.rs:627-633 | the probe of a compiled unit fails iff `filter_actually_used_crates` fails, as `ProbeFailed` |
| Walker.ProbeSources | src/lib.rs:666-686 | success means every source file was compiled and the package has a resolve node; `MissingRustcOptions` names one of the source files not compiled |
| Walker.Usage | src/lib.rs:653-687 | definition: the cached entry unless it is stale or missing, else the probe of every source file; properties in `Walker.UncachedMissing` and `Walker.FreshIgnoresCache` |
| Walker.UncachedMissing | src/lib.rs:664-672 | a package with nothing compiled and no cache entry gives `MissingRustcOptions` for its first source file |
| Walker.Explore | src/lib.rs:650-691 | definition of the rounds: each round's new packages are the next round, a round with a failure stops the walk; properties in `Walker.ExploreClosed`, `Walker.ExploreLeast` and `Walker.ExploreStuck` |
| Walker.WalkFrom | src/lib.rs:614-691 | definition of the whole walk: the root's usage, then the rounds from it; properties in `Walker.WalkClosed` and `Walker.WalkLeast` |
| Walker.Fresh | src/lib.rs:653 | definition: some source file of the package was compiled in this build; properties in `Walker.FreshIgnoresCache` and `Walker.UncachedMissing` |
| Walker.FreshIgnoresCache | src/lib.rs:653-655 | a package with a freshly compiled source is probed whatever the cache holds |
| Walker.MeasureDecreases | src/lib.rs:650-691 | each successful round lowers the measure, so the rounds end |
| Walker.UpdatedNone | src/lib.rs:650-691 | before the rounds the dependency cache is as read |
| Walker.UpdatedStep | src/lib.rs:656-687 | examining one more package replaces exactly its entry with its usage |
| Walker.RoundOutputStep | src/lib.rs:652-689 | one more package of a round adds exactly its usage to the round's output |
| Walker.ExploreClosed | src/lib.rs:650-691 | a successful walk has `used` = start + examined; each examined package succeeded and its usage is in `used` |
| Walker.ExploreLeast | src/lib.rs:650-691 | a walk from inside a closed set succeeds and stays inside it |
| Walker.WalkClosed | src/lib.rs:614-691 | the packages found used are exactly those examined; they hold the root's usage and everything each of them uses |
| Walker.WalkLeast | src/lib.rs:614-691 | they are the least such set, and the walk cannot fail below a closed set |
| Walker.ExploreStuck | src/lib.rs:650-691 | a failed walk has at least one failure |
| Walker.Collect | src/lib.rs:696-708 | iterating a `HashSet` gives each element once |
| Walker.Mark | src/lib.rs:657-685 | `used` gains the ids; `next` gains exactly those not used before |
| Walker.Extend | src/lib.rs:684 | the entry gains the ids, keeps its old entries in place and stays without repetition |
| Walker.StartWalk | src/lib.rs:614-648 | returns the root's usage; the root target's entry becomes exactly the root probe's output when compiled, else the mode is unchanged |
| Walker.ProbeSourcesOf | src/lib.rs:664-687 | probes the sources in order: their union into `used`, the new ones into `next` and the entry, or the first failure |
| Walker.VisitPackage | src/lib.rs:653-687 | one package: a stale entry is dropped and rebuilt by probing, a good one is read; the cache then holds its usage |
| Walker.ExploreStep | src/lib.rs:650-691 | one unrolling of the rounds |
| Walker.RoundInvStart | src/lib.rs:651-652 | a round starts with nothing found |
| Walker.RoundInvEnd | src/lib.rs:689-690 | a finished round has found its whole output, and the cache holds every examined package |
| Walker.VisitNext | src/lib.rs:652-689 | one package keeps the round's state in step, or fails with one of the round's failures |
| Walker.VisitRound | src/lib.rs:651-690 | one round succeeds iff every package does; `used` gains the round's output and `next` is its new part |
| Walker.WalkInvStart | src/lib.rs:614-650 | the rounds start from the root's usage with nothing examined |
| Walker.WalkInvStep | src/lib.rs:650-691 | a successful round moves the walk on and lowers the measure |
| Walker.WalkInvStuck | src/lib.rs:650-691 | a failing round ends the walk with one of its failures |
| Walker.WalkInvEnd | src/lib.rs:650 | with no round left the walk is over |
| Walker.WalkRounds | src/lib.rs:650-691 | the `while` loop agrees with `Explore`: its `used`, its failure, and a cache holding every examined package's usage |
| Walker.WalkMode | src/lib.rs:614-691 | the walk on one mode agrees with `WalkFrom`, and the mode afterwards is `CacheAfter` |
| Walker.Report | src/lib.rs:712-720 | each unused id gets its `conds` entry or an empty one |
| Walker.Assemble | src/lib.rs:696-721 | the sorted lists and the `by` entries satisfy `Reports` |
| Walker.MakeOutcome | src/lib.rs:696-721 | panics iff two or more are used and one is unknown; otherwise used and unused split the packages, are sorted, and each unused id has its `conds` entry |
| Walker.DistinctCard | src/lib.rs:696 | a list without repetition is as long as its set |
| Walker.Run | src/lib.rs:591-722 | after a successful walk, `Err` iff one side of the cache cannot be sorted, or at least two packages are used and one is not in the metadata (the outcome's sort panics), and a sort panic leaves the file unchanged; `Ok` only for a successful walk, a failed walk's error is one of its failures; the outcome `Reports` the walk's `used`; the cache afterwards is `CacheAfter`, the other side keeps its contents, both sides are sorted, and it is written |
| Process.IdentPrefixLen | src/process.rs:331 | the longest leading run of `[a-zA-Z0-9_]` |
| Process.ExternFromStr | src/process.rs:327-342 | on success the text is unchanged, the name is an identifier followed by `=`, and the rest has no newline; else `Regex { text, regex }` |
| Process.ExternFromStrIff | src/process.rs:330-336 | `from_str` succeeds iff the text is identifier, `=`, newline-free rest |
| Process.Extern.Name | src/process.rs:322-324 | definition: the text up to the name length; properties in `Process.ExternFromStr` and `Process.ExternRoundTrip` |
| Process.Extern.AsRef | src/process.rs:344-348 | definition: the whole text; property in `Process.ExternRoundTrip` |
| Process.ExternRoundTrip | src/process.rs:314-348 | parsing `name=rest` gives back the text through `as_ref`, and `name()` is `name` |
| Process.Repeated | src/process.rs:196-199 | a repeated option emits two arguments per value |
| Process.RepeatedAt | src/process.rs:196-199 | pair `j` is the flag and value `j` |
| Process.Texts | src/process.rs:283 | the extern texts in order |
| Process.TextsAt | src/process.rs:283 | text `j` is extern `j`'s text |
| Process.KeptLen | src/process.rs:280-285 | one kept extern per unset index |
| Process.KeptAt | src/process.rs:280-285 | the `j`-th kept extern is the one at the `j`-th unset index |
| Process.KeptIndicesMember | src/process.rs:281 | an index is kept iff its bit is unset |
| Process.KeptIndicesAscending | src/process.rs:280-285 | the kept indices ascend: surviving externs keep their order |
| Process.Args | src/process.rs:194-311 | definition: the fixed prefix, the `--extern` pairs of the kept externs, the fixed suffix; properties in `Process.ArgsShape`, `Process.ArgsExternPairs` and `Process.ArgsFixedPart` |
| Process.ArgsShape | src/process.rs:194-311 | the length is the fixed part plus two per kept extern; the input comes last |
| Process.ArgsExternPairs | src/process.rs:280-285 | kept extern `j` is emitted as `--extern text` right after the fixed prefix |
| Process.ArgsFixedPart | src/process.rs:194-311 | the non-extern arguments do not depend on the exclusion; with `error_format_json` there is one `--error-format json` pair and the stored format is ignored |
| Process.PushRepeated | src/process.rs:196-199 | the `for` loop appends exactly the repeated pairs |
| Process.PushOptional | src/process.rs:208-211 | an optional option appends its pair iff present |
| Process.PushFlag | src/process.rs:228-230 | a flag appends itself iff set |
| Process.PushExterns | src/process.rs:280-285 | the extern loop appends exactly the kept pairs |
| Process.PushCrateArgs | src/process.rs:196-227 | the crate options in order |
| Process.PushOutputArgs | src/process.rs:228-248 | the output options in order |
| Process.PushLintArgs | src/process.rs:249-279 | the lint and codegen options in order |
| Process.PushSuffixArgs | src/process.rs:286-310 | the options after the externs, ending with the input |
| Process.PushErrorFormat | src/process.rs:294-300 | `json` when asked for, else the stored format if any |
| Process.ToArgs | src/process.rs:194-311 | the successive pushes build exactly `Args` |
| Process.Rustc.Externs | src/process.rs:50-52 | the externs in command-line order, as an unrestricted rendering passes them |
| Process.KeptNone | src/process.rs:280-285 | with no bit set every extern is kept |
| Process.MaxNameLen | src/process.rs:106-112 | the width is the length of the longest extern name, 0 without externs |
| Process.ExclusionLineShape | src/process.rs:116-124 | each line has its name at one column, padded to the widest name, ends in `off` iff excluded, and closes with `└───` iff last |
| Process.FormatExternLine | src/process.rs:117-123 | the padding loop builds exactly the table line |
| Process.EprintExclusion | src/process.rs:101-127 | `n + 2` lines: the id, the target, then one table line per extern |
| Parse.UseOfExternCrate | src/parse.rs:133-144 | a candidate iff the item has no attributes and its tree's first segment is a candidate; `None` for glob and group trees |
| Parse.UsesOfExternCrates | src/parse.rs:146-155 | only candidates are found |
| Parse.UsesOfExternCratesIff | src/parse.rs:146-155 | a name is found iff some `use` item of the list yields it |
| Parse.ExternCrateIdents | src/parse.rs:34-43 | only candidates are found |
| Parse.ExternCrateIdentsIff | src/parse.rs:34-43 | exactly the attribute-free `extern crate` items naming candidates |
| Parse.FindUsesLossy2015 | src/parse.rs:22-44 | empty without a path or for a file with inner attributes; the read error iff the file does not read; only candidates |
| Parse.ScanItem | src/parse.rs:56-72 | the visitor on one item finds only candidates |
| Parse.ScanItems | src/parse.rs:56-72 | the visitor on a list finds only candidates |
| Parse.ScanFile | src/parse.rs:115-120 | a file contributes its top-level uses and what visiting finds |
| Parse.ScanItemsAppend | src/parse.rs:56-72 | visiting a concatenation joins the two visits |
| Parse.AttributedModSkipped | src/parse.rs:57-58 | a module with attributes adds nothing wherever it stands |
| Parse.AttributeFreeModules | src/parse.rs:58-64 | an attribute-free out-of-line module is queued and adds no uses; an inline one adds its `use` items |
| Parse.Visitor.constructor | src/parse.rs:115-119 | the visitor starts from the given uses and no modules |
| Parse.Visitor.VisitFile | src/parse.rs:120 | `visit_file` adds exactly what `ScanItems` finds |
| Parse.Visitor.VisitItems | src/parse.rs:56-72 | the items in order add exactly what `ScanItems` finds |
| Parse.Visitor.VisitItem | src/parse.rs:56-72 | one item adds exactly what `ScanItem` finds |
| Parse.Visitor.VisitItemMod | src/parse.rs:57-67 | `visit_item_mod` adds exactly what `ScanItem` finds |
| Parse.Visitor.VisitItemUse | src/parse.rs:69-72 | `visit_item_use` adds the item's candidate, no module |
| Parse.BuildModPath | src/parse.rs:84-98 | the root for the empty path; else `parent/m1/../mk.rs`, with `mk/mod.rs` the other choice |
| Parse.ResolveModPath | src/parse.rs:99-113 | the root, or `mk.rs` if present, else `mk/mod.rs` if present, else `NoSuchFile` |
| Parse.ScanModule | src/parse.rs:84-126 | a module that scans resolved, and finds only candidates |
| Parse.RoundBound | src/parse.rs:81-129 | module paths in a round that succeeds are no longer than the longest existing path, so the rounds end |
| Parse.Explore | src/parse.rs:79-129 | definition of the rounds over module paths: a round with a failing module stops the walk, otherwise its uses are kept and its next modules follow; properties in `Parse.ExploreCandidates`, `Parse.ExploreStep` and `Parse.ExploreFails` |
| Parse.FindUses2018 | src/parse.rs:46-131 | definition: nothing without a path, else the walk from the root file; properties in `Parse.FindUses2018Candidates` and `Parse.FindUsesLossy2018` |
| Parse.ExploreCandidates | src/parse.rs:81-130 | the walk finds only candidates |
| Parse.FindUses2018Candidates | src/parse.rs:46-131 | `find_uses_lossy_2018` finds only candidates |
| Parse.ScanModuleFile | src/parse.rs:84-126 | one module computed as the source does agrees with `ScanModule` |
| Parse.RoundAdd | src/parse.rs:121-126 | one more module adds exactly its uses and its successors |
| Parse.ScanRound | src/parse.rs:82-128 | a round succeeds iff every module does, with the round's uses and next round, else one of its errors |
| Parse.RoundNextLength | src/parse.rs:121-125 | the next round's paths are one longer |
| Parse.ExploreStep | src/parse.rs:81-129 | one unrolling of the rounds |
| Parse.ExploreFails | src/parse.rs:105-114 | a failing round ends the walk with its errors |
| Parse.FindUsesLossy2018 | src/parse.rs:46-131 | the `while` loop agrees with the walk: the same uses, or one of its errors |
| Parse.FindUsesLossy | src/parse.rs:11-20 | dispatches on the edition; only candidates are returned |
| Parse.UsesOfExternCratesAppend | src/parse.rs:146-155 | the uses of a concatenation are the union |
| Parse.UsesOnly | src/parse.rs:69-155 | on `use` items only, the visitor finds just their uses |
| Parse.ParseRsUses1Found | src/parse.rs:1-4 | the first `use` group yields `cargo` and `failure` |
| Parse.ParseRsUses2Found | src/parse.rs:4-6 | the second group yields `maplit` and `syn` |
| Parse.ParseRsUses3Found | src/parse.rs:8-9 | the `std` group yields nothing |
| Parse.UseGroups | src/parse.rs:1-9 | three groups of `use` items find the union of their uses |
| Parse.ParseRsUsesFound | src/parse.rs:1-9 | the file's `use` items yield `cargo`, `failure`, `maplit` and `syn` |
| Parse.ParseRsFunctionsFindNothing | src/parse.rs:11-155 | the file's functions contain no candidate `use` |
| Parse.SingleFileWalk | src/parse.rs:79-130 | a root file declaring no out-of-line module gives what visiting it finds |
| Parse.ParseRsScan | src/parse.rs:1-178 | scanning the file finds the four crates and no module; the attributed `tests` module is skipped |
| Parse.FindUsesOfParseRs | src/parse.rs:166-177 | `test_find_uses_lossy_2018`: `cargo`, `failure`, `maplit`, `syn` are found and `once_cell` is not |

## Left out

- Logging (`info!`, `warn!`), and the message counters `num_e0432` and so on, which only feed a log line.
- Process spawning is not modelled: `cargo build -vv`, `cargo metadata` and the compiler itself. The compiler is an oracle (`Prober.Compiler`) from exclusion bitsets to a success flag and stderr lines. A failure to spawn is `CompilerFailed`.
- The parsing of cargo's `-vv` output into `rustcs` is left out; `Walker.Context.rustcs` is a given map.
- The tokio runtime and ctrl-c handling.
- File I/O is not modelled:
  - locking and reading the cache file, and its read and write errors;
  - JSON (de)serialisation;
  - the `CargoToml` read, whose outcome is a parameter of `Targets.RootBinSrcPath`.
  - `Caches.CacheFile` only records what is written.
- The moves and copies of the target directory around the walk (`move_dir_with_timestamps`, `copy_dir`, `remove_dir_all`).
- The `CargoMetadata` and `CargoUnused` builders, the `CARGO` environment variable, and the `resolve`/`root` presence checks before the walk.
- The parsing of `RustcOpts` from a command line (structopt); `RustcOpts` is a record. `capture_error_messages` and the `Rustc::run` process handling of `src/process.rs` are left out.
- The regex engine: the five patterns are hand-written matchers.
- Semantic-version pre-release and build metadata; `Version` is `(major, minor, patch)`.
- Caches.Cache.Sort: the sorts are modelled as functions on the lists (an insertion sort proved to give the unique ascending permutation), not as in-place sorts of the `IndexSet` buffers.
- `HashSet`, `HashMap` and `BTreeSet` iteration order is modelled as arbitrary (`:|`). This covers `BTreeSet` order too.
- Walker.Run: when several packages of a round fail, the model returns one of their failures, not the first in hash order.
- Parse: the syntax tree is a small datatype. Its nested items stand for everything `syn::visit` descends into. File existence and contents are maps (`FileSystem`), and a read or parse failure appears as a missing source.
- `src/fs.rs`, `src/path.rs`, `src/error.rs`, `src/ser.rs`, `src/main.rs`, `src/util.rs` and `src/util/mod.rs` are not part of this model. They hold file, path, error-display, serialisation and command-line glue.
