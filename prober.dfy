/** The usage prober of `src/lib.rs` (`filter_actually_used_crates`): one
    compilation unit is compiled with some of its `--extern` arguments left
    out, and the diagnostics about crates it then cannot find tell which of
    them it needs.  The compiler is an oracle from the exclusion bitset to
    its outcome. */
module Prober {
  import opened Wrappers
  import opened Text
  import opened Diagnostics
  import opened Packages

  /** One line of the compiler's stderr: a JSON diagnostic with its message and
      optional error code, or a line that does not decode as one. */
  datatype Line = Message(message: string, code: Option<string>) | Garbage(text: string)

  /** What one compiler run reports: whether it succeeded, and its stderr. */
  datatype Compiled = Compiled(success: bool, stderr: seq<Line>)

  /** The compiler run with the externs whose bit is set left out; `Err` when
      the process itself fails. */
  type Compiler = seq<bool> -> Result<Compiled, string>

  datatype Error =
    | CompilerFailed(reason: string)
    | InvalidMessage(text: string)

  /** The number of set bits. */
  function Count(s: seq<bool>): (c: nat)
    ensures c <= |s|
  {
    if s == [] then 0 else Count(s[..|s| - 1]) + (if s[|s| - 1] then 1 else 0)
  }

  /** `a` has every bit of `b` cleared that `b` has cleared, and maybe more. */
  predicate Below(a: seq<bool>, b: seq<bool>)
  {
    |a| == |b| && forall i :: 0 <= i < |a| ==> a[i] ==> b[i]
  }

  /** Clearing bits never raises the count, and clearing one lowers it. */
  lemma {:induction false} CountBelow(a: seq<bool>, b: seq<bool>)
    requires Below(a, b)
    ensures Count(a) <= Count(b)
    ensures a != b ==> Count(a) < Count(b)
    decreases |a|
  {
    if a != [] {
      var k := |a| - 1;
      CountBelow(a[..k], b[..k]);
      if a[..k] == b[..k] && a[k] == b[k] {
        assert a == a[..k] + [a[k]] && b == b[..k] + [b[k]];
      }
    }
  }

  /** `n` set bits: `insert_range(0..n)` on a fresh bitset. */
  function Trues(n: nat): (r: seq<bool>)
    ensures |r| == n && Count(r) == n
    ensures forall i :: 0 <= i < n ==> r[i]
  {
    if n == 0 then [] else (assert Trues(n - 1) + [true] == Trues(n - 1) + [true]; Trues(n - 1) + [true])
  }

  /** `n` cleared bits: the bitset after `clear()`. */
  function Falses(n: nat): (r: seq<bool>)
    ensures |r| == n && Count(r) == 0
    ensures forall i :: 0 <= i < n ==> !r[i]
  {
    if n == 0 then [] else (assert (Falses(n - 1) + [false])[..n - 1] == Falses(n - 1); Falses(n - 1) + [false])
  }

  /** `position`: the first index holding `x`. */
  function Position(s: seq<string>, x: string): (r: Option<nat>)
    ensures r.Some? ==> r.value < |s| && s[r.value] == x
    ensures r.Some? ==> forall j :: 0 <= j < r.value ==> s[j] != x
    ensures r.None? ==> forall j :: 0 <= j < |s| ==> s[j] != x
  {
    if s == [] then None
    else if s[0] == x then Some(0)
    else match Position(s[1..], x)
      case None => None
      case Some(k) => Some(k + 1)
  }

  predicate IsE0658(line: Line)
  {
    line.Message? && line.code == Some("E0658")
  }

  /** The extern a diagnostic line points at: the first extern named by the
      identifier an E0432, E0433 or E0463 pattern captures in it. */
  function Target(names: seq<string>, line: Line): (r: Option<nat>)
    ensures r.Some? ==> r.value < |names| && line.Message? && line.code.Some?
    ensures r.Some? ==> Capture(line.code.value, line.message) == Some(names[r.value])
    ensures r.Some? ==> forall j :: 0 <= j < r.value ==> names[j] != names[r.value]
  {
    if line.Garbage? || line.code.None? then None
    else match Capture(line.code.value, line.message)
      case None => None
      case Some(name) => Position(names, name)
  }

  /** The bitset after the diagnostics of one failed run, whether a set bit was
      cleared (`updated`), and whether an E0658 line stopped the probing. */
  datatype Dispatched = Dispatched(exclusion: seq<bool>, updated: bool, e0658: bool)

  /** The loop over the stderr lines of one failed run, in order. */
  function Dispatch(names: seq<string>, ex: seq<bool>, updated: bool, lines: seq<Line>): (r: Result<Dispatched, Error>)
    requires |ex| == |names|
    ensures r.Ok? ==> Below(r.value.exclusion, ex)
    decreases |lines|
  {
    if lines == [] then Ok(Dispatched(ex, updated, false))
    else if lines[0].Garbage? then Err(InvalidMessage(lines[0].text))
    else if IsE0658(lines[0]) then Ok(Dispatched(ex, updated, true))
    else match Target(names, lines[0])
      case None => Dispatch(names, ex, updated, lines[1..])
      case Some(pos) => Dispatch(names, ex[pos := false], updated || ex[pos], lines[1..])
  }

  /** `updated` ends up true exactly when it already was or some set bit was
      cleared: progress is a changed bitset. */
  lemma {:induction false} DispatchUpdated(names: seq<string>, ex: seq<bool>, updated: bool, lines: seq<Line>)
    requires |ex| == |names|
    ensures var r := Dispatch(names, ex, updated, lines);
      r.Ok? ==> (r.value.updated <==> updated || r.value.exclusion != ex)
    decreases |lines|
  {
    if lines != [] && !lines[0].Garbage? && !IsE0658(lines[0]) {
      match Target(names, lines[0])
      case None =>
        DispatchUpdated(names, ex, updated, lines[1..]);
      case Some(pos) =>
        var ex' := ex[pos := false];
        DispatchUpdated(names, ex', updated || ex[pos], lines[1..]);
        var r := Dispatch(names, ex', updated || ex[pos], lines[1..]);
        if r.Ok? && ex[pos] {
          assert !r.value.exclusion[pos];
        }
    }
  }

  /** A bit is cleared only for a line that points at its extern. */
  lemma {:induction false} DispatchCleared(names: seq<string>, ex: seq<bool>, updated: bool, lines: seq<Line>, i: nat)
    requires |ex| == |names| && i < |ex|
    requires Dispatch(names, ex, updated, lines).Ok?
    requires ex[i] && !Dispatch(names, ex, updated, lines).value.exclusion[i]
    ensures exists k :: 0 <= k < |lines| && Target(names, lines[k]) == Some(i)
    decreases |lines|
  {
    if Target(names, lines[0]) == Some(i) {
      assert Target(names, lines[0]) == Some(i);
    } else {
      var ex' := match Target(names, lines[0]) case None => ex case Some(pos) => ex[pos := false];
      var updated' := match Target(names, lines[0]) case None => updated case Some(pos) => updated || ex[pos];
      DispatchCleared(names, ex', updated', lines[1..], i);
      var k :| 0 <= k < |lines[1..]| && Target(names, lines[1..][k]) == Some(i);
      assert lines[k + 1] == lines[1..][k];
    }
  }

  /** Every line before the first E0658 that points at an extern clears its bit. */
  lemma {:induction false} DispatchClears(names: seq<string>, ex: seq<bool>, updated: bool, lines: seq<Line>, k: nat)
    requires |ex| == |names| && k < |lines|
    requires Dispatch(names, ex, updated, lines).Ok?
    requires forall j :: 0 <= j <= k ==> !IsE0658(lines[j])
    requires Target(names, lines[k]).Some?
    ensures !Dispatch(names, ex, updated, lines).value.exclusion[Target(names, lines[k]).value]
    decreases |lines|
  {
    assert !IsE0658(lines[0]);
    var ex' := match Target(names, lines[0]) case None => ex case Some(pos) => ex[pos := false];
    var updated' := match Target(names, lines[0]) case None => updated case Some(pos) => updated || ex[pos];
    assert Dispatch(names, ex, updated, lines) == Dispatch(names, ex', updated', lines[1..]);
    if k > 0 {
      forall j | 0 <= j <= k - 1
        ensures !IsE0658(lines[1..][j])
      {
        assert lines[1..][j] == lines[j + 1];
      }
      assert lines[1..][k - 1] == lines[k];
      DispatchClears(names, ex', updated', lines[1..], k - 1);
    }
  }

  /** No E0658 line among the first `k`. */
  predicate NoStopBefore(lines: seq<Line>, k: nat)
    requires k <= |lines|
  {
    forall j :: 0 <= j < k ==> !IsE0658(lines[j])
  }

  /** A line that is not a diagnostic is an error, unless an E0658 line came first. */
  lemma {:induction false} DispatchErrIff(names: seq<string>, ex: seq<bool>, updated: bool, lines: seq<Line>)
    requires |ex| == |names|
    ensures Dispatch(names, ex, updated, lines).Err? <==>
      exists k :: 0 <= k < |lines| && lines[k].Garbage? && NoStopBefore(lines, k)
    decreases |lines|
  {
    if lines != [] {
      if lines[0].Garbage? {
        assert NoStopBefore(lines, 0);
      } else if IsE0658(lines[0]) {
        forall k | 0 <= k < |lines| && lines[k].Garbage?
          ensures !NoStopBefore(lines, k)
        {
          assert k != 0;
          assert IsE0658(lines[0]);
        }
      } else {
        var ex' := match Target(names, lines[0]) case None => ex case Some(pos) => ex[pos := false];
        var updated' := match Target(names, lines[0]) case None => updated case Some(pos) => updated || ex[pos];
        assert Dispatch(names, ex, updated, lines) == Dispatch(names, ex', updated', lines[1..]);
        DispatchErrIff(names, ex', updated', lines[1..]);
        if Dispatch(names, ex', updated', lines[1..]).Err? {
          var k :| 0 <= k < |lines[1..]| && lines[1..][k].Garbage? && NoStopBefore(lines[1..], k);
          assert lines[k + 1] == lines[1..][k];
          forall j | 0 <= j < k + 1
            ensures !IsE0658(lines[j])
          {
            if j > 0 {
              assert lines[j] == lines[1..][j - 1];
            }
          }
          assert NoStopBefore(lines, k + 1);
        } else {
          forall k | 0 <= k < |lines| && lines[k].Garbage?
            ensures !NoStopBefore(lines, k)
          {
            assert k != 0;
            assert lines[1..][k - 1] == lines[k];
            assert !NoStopBefore(lines[1..], k - 1);
            var j :| 0 <= j < k - 1 && IsE0658(lines[1..][j]);
            assert lines[j + 1] == lines[1..][j];
          }
        }
      }
    }
  }

  /** The outcome of the compile-and-dispatch loop: the bitset it left, whether
      it gave up (`something_wrong`), and the bitset of every compiler run. */
  datatype Probed = Probed(exclusion: seq<bool>, somethingWrong: bool, runs: seq<seq<bool>>)

  /** `runs` of `r` preceded by `done`. */
  function Resume(done: seq<seq<bool>>, r: Result<Probed, Error>): (q: Result<Probed, Error>)
    ensures r.Ok? <==> q.Ok?
    ensures r.Ok? ==> q.value.exclusion == r.value.exclusion && q.value.somethingWrong == r.value.somethingWrong
    ensures r.Ok? ==> q.value.runs == done + r.value.runs
  {
    match r
    case Err(e) => Err(e)
    case Ok(p) => Ok(Probed(p.exclusion, p.somethingWrong, done + p.runs))
  }

  /** The labelled `'run` loop: compile; stop on success; otherwise dispatch the
      diagnostics and go round again only if a set bit was cleared. */
  function Iterate(compiler: Compiler, names: seq<string>, ex: seq<bool>): (r: Result<Probed, Error>)
    requires |ex| == |names|
    ensures r.Ok? ==> |r.value.exclusion| == |ex|
    decreases Count(ex)
  {
    match compiler(ex)
    case Err(reason) => Err(CompilerFailed(reason))
    case Ok(c) =>
      if c.success then Ok(Probed(ex, false, [ex]))
      else match Dispatch(names, ex, false, c.stderr)
        case Err(e) => Err(e)
        case Ok(d) =>
          if d.e0658 || !d.updated then Ok(Probed(d.exclusion, true, [ex]))
          else
            DispatchUpdated(names, ex, false, c.stderr);
            CountBelow(d.exclusion, ex);
            Resume([ex], Iterate(compiler, names, d.exclusion))
  }

  /** Bits are only ever cleared, every run but the first has fewer set bits
      than the one before, so there are at most `Count(ex) + 1` runs. */
  lemma {:induction false} IterateRuns(compiler: Compiler, names: seq<string>, ex: seq<bool>)
    requires |ex| == |names|
    ensures var r := Iterate(compiler, names, ex);
      r.Ok? ==>
        1 <= |r.value.runs| <= Count(ex) + 1 && r.value.runs[0] == ex
        && (forall j :: 0 <= j < |r.value.runs| ==> Below(r.value.runs[j], ex))
        && (forall j :: 0 <= j < |r.value.runs| - 1 ==>
              Below(r.value.runs[j + 1], r.value.runs[j]) && Count(r.value.runs[j + 1]) < Count(r.value.runs[j]))
        && Below(r.value.exclusion, r.value.runs[|r.value.runs| - 1])
    decreases Count(ex)
  {
    var r := Iterate(compiler, names, ex);
    if r.Ok? && compiler(ex).Ok? && !compiler(ex).value.success {
      var d := Dispatch(names, ex, false, compiler(ex).value.stderr);
      if d.Ok? && !d.value.e0658 && d.value.updated {
        DispatchUpdated(names, ex, false, compiler(ex).value.stderr);
        CountBelow(d.value.exclusion, ex);
        IterateRuns(compiler, names, d.value.exclusion);
        var p := Iterate(compiler, names, d.value.exclusion).value;
        assert r.value.runs == [ex] + p.runs;
        forall j | 0 <= j < |r.value.runs| - 1
          ensures Below(r.value.runs[j + 1], r.value.runs[j]) && Count(r.value.runs[j + 1]) < Count(r.value.runs[j])
        {
          assert r.value.runs[j + 1] == p.runs[j];
          if j > 0 {
            assert r.value.runs[j] == p.runs[j - 1];
          } else {
            CountBelow(p.runs[0], ex);
          }
        }
      }
    }
  }

  /** Every run reached the compiler, and every run but the last failed. */
  lemma {:induction false} IterateFailedRuns(compiler: Compiler, names: seq<string>, ex: seq<bool>)
    requires |ex| == |names|
    ensures var r := Iterate(compiler, names, ex);
      r.Ok? ==>
        (forall j :: 0 <= j < |r.value.runs| ==> compiler(r.value.runs[j]).Ok?)
        && (forall j :: 0 <= j < |r.value.runs| - 1 ==> !compiler(r.value.runs[j]).value.success)
    decreases Count(ex)
  {
    var r := Iterate(compiler, names, ex);
    if r.Ok? {
      var c := compiler(ex).value;
      if !c.success {
        var d := Dispatch(names, ex, false, c.stderr).value;
        if !d.e0658 && d.updated {
          DispatchUpdated(names, ex, false, c.stderr);
          CountBelow(d.exclusion, ex);
          IterateFailedRuns(compiler, names, d.exclusion);
          assert Iterate(compiler, names, d.exclusion).Ok?;
          var p := Iterate(compiler, names, d.exclusion).value;
          assert forall j :: 0 <= j < |p.runs| ==> compiler(p.runs[j]).Ok?;
          assert r.value.runs == [ex] + p.runs;
          forall j | 0 <= j < |r.value.runs|
            ensures compiler(r.value.runs[j]).Ok?
            ensures j < |r.value.runs| - 1 ==> !compiler(r.value.runs[j]).value.success
          {
            if j > 0 {
              assert r.value.runs[j] == p.runs[j - 1];
              assert compiler(p.runs[j - 1]).Ok?;
              assert j < |r.value.runs| - 1 ==> !compiler(p.runs[j - 1]).value.success;
            } else {
              assert r.value.runs[0] == ex;
              assert compiler(ex).Ok?;
              assert !compiler(ex).value.success;
            }
          }
        }
      }
    }
  }

  /** The loop stops without giving up exactly when its last run succeeded,
      and then keeps that run's bitset. */
  lemma {:induction false} IterateStop(compiler: Compiler, names: seq<string>, ex: seq<bool>)
    requires |ex| == |names|
    ensures var r := Iterate(compiler, names, ex);
      r.Ok? ==>
        |r.value.runs| >= 1 && compiler(r.value.runs[|r.value.runs| - 1]).Ok?
        && (r.value.somethingWrong <==> !compiler(r.value.runs[|r.value.runs| - 1]).value.success)
        && (!r.value.somethingWrong ==> r.value.exclusion == r.value.runs[|r.value.runs| - 1])
    decreases Count(ex)
  {
    var r := Iterate(compiler, names, ex);
    if r.Ok? {
      var c := compiler(ex).value;
      if !c.success {
        var d := Dispatch(names, ex, false, c.stderr).value;
        if !d.e0658 && d.updated {
          DispatchUpdated(names, ex, false, c.stderr);
          CountBelow(d.exclusion, ex);
          IterateStop(compiler, names, d.exclusion);
          var p := Iterate(compiler, names, d.exclusion).value;
          assert r.value.runs == [ex] + p.runs;
          assert r.value.runs[|r.value.runs| - 1] == p.runs[|p.runs| - 1];
        }
      }
    }
  }

  /** The one-by-one fallback: its final bitset and the bitset of every run. */
  datatype FellBack = FellBack(exclusion: seq<bool>, runs: seq<seq<bool>>)

  /** From bit `i` on, set the bit, compile once, and keep the bit set exactly
      when that run succeeded. */
  function Fallback(compiler: Compiler, ex: seq<bool>, i: nat): (r: Result<FellBack, Error>)
    requires i <= |ex|
    ensures r.Ok? ==> |r.value.exclusion| == |ex|
    decreases |ex| - i
  {
    if i == |ex| then Ok(FellBack(ex, []))
    else
      var trial := ex[i := true];
      match compiler(trial)
      case Err(reason) => Err(CompilerFailed(reason))
      case Ok(c) => ResumeFallback([trial], Fallback(compiler, trial[i := c.success], i + 1))
  }

  /** `runs` of `r` preceded by `done`. */
  function ResumeFallback(done: seq<seq<bool>>, r: Result<FellBack, Error>): (q: Result<FellBack, Error>)
    ensures r.Ok? <==> q.Ok?
    ensures r.Ok? ==> q.value.exclusion == r.value.exclusion && q.value.runs == done + r.value.runs
  {
    match r
    case Err(e) => Err(e)
    case Ok(f) => Ok(FellBack(f.exclusion, done + f.runs))
  }

  /** Exactly one run per remaining bit; run `j` has the settled bits before
      it, bit `i + j` set and the untouched ones after it, and bit `i + j`
      ends up as that run's success. */
  lemma {:induction false} FallbackRuns(compiler: Compiler, ex: seq<bool>, i: nat)
    requires i <= |ex|
    ensures var r := Fallback(compiler, ex, i);
      r.Ok? ==>
        |r.value.runs| == |ex| - i && |r.value.exclusion| == |ex|
        && r.value.exclusion[..i] == ex[..i]
        && forall j :: 0 <= j < |ex| - i ==>
             r.value.runs[j] == r.value.exclusion[..i + j] + [true] + ex[i + j + 1..]
             && compiler(r.value.runs[j]).Ok?
             && r.value.exclusion[i + j] == compiler(r.value.runs[j]).value.success
    decreases |ex| - i
  {
    var r := Fallback(compiler, ex, i);
    if i < |ex| && r.Ok? {
      var trial := ex[i := true];
      var c := compiler(trial).value;
      var ex' := trial[i := c.success];
      FallbackRuns(compiler, ex', i + 1);
      var f := Fallback(compiler, ex', i + 1).value;
      assert r.value.runs == [trial] + f.runs;
      assert r.value.exclusion == f.exclusion;
      assert f.exclusion[..i + 1] == ex'[..i + 1];
      assert f.exclusion[..i] == f.exclusion[..i + 1][..i];
      assert ex'[..i] == ex[..i];
      forall j | 0 <= j < |ex| - i
        ensures r.value.runs[j] == r.value.exclusion[..i + j] + [true] + ex[i + j + 1..]
        ensures compiler(r.value.runs[j]).Ok?
        ensures r.value.exclusion[i + j] == compiler(r.value.runs[j]).value.success
      {
        if j == 0 {
          assert trial == ex[..i] + [true] + ex[i + 1..];
          assert f.exclusion[i] == ex'[..i + 1][i];
        } else {
          assert r.value.runs[j] == f.runs[j - 1];
          assert ex'[i + 1 + (j - 1) + 1..] == ex[i + j + 1..];
        }
      }
    }
  }

  /** The fallback as the source starts it, from a cleared bitset: exactly `n`
      runs, run `j` excluding only extern `j` among the not yet settled ones. */
  lemma FallbackFromCleared(compiler: Compiler, n: nat)
    ensures var r := Fallback(compiler, Falses(n), 0);
      r.Ok? ==>
        |r.value.runs| == n
        && forall j :: 0 <= j < n ==>
             r.value.runs[j] == r.value.exclusion[..j] + [true] + Falses(n - j - 1)
             && compiler(r.value.runs[j]).Ok?
             && r.value.exclusion[j] == compiler(r.value.runs[j]).value.success
  {
    FallbackRuns(compiler, Falses(n), 0);
    var r := Fallback(compiler, Falses(n), 0);
    if r.Ok? {
      forall j | 0 <= j < n
        ensures r.value.runs[j] == r.value.exclusion[..j] + [true] + Falses(n - j - 1)
      {
        assert Falses(n)[j + 1..] == Falses(n - j - 1);
      }
    }
  }

  /** The bitset the prober ends with, and all the bitsets it compiled with. */
  datatype Probe = Probe(exclusion: seq<bool>, runs: seq<seq<bool>>)

  /** The compile-and-dispatch loop from all externs excluded, then the fallback
      from none excluded if the loop gave up. */
  function ProbeAll(compiler: Compiler, names: seq<string>): (r: Result<Probe, Error>)
    ensures r.Ok? ==> |r.value.exclusion| == |names|
  {
    match Iterate(compiler, names, Trues(|names|))
    case Err(e) => Err(e)
    case Ok(p) =>
      if !p.somethingWrong then Ok(Probe(p.exclusion, p.runs))
      else match Fallback(compiler, Falses(|names|), 0)
        case Err(e) => Err(e)
        case Ok(f) => Ok(Probe(f.exclusion, p.runs + f.runs))
  }

  /** The first run excludes every extern, and there are at most `n + 1`
      compile-and-dispatch runs followed, if the loop gave up, by exactly `n`
      fallback runs. */
  lemma ProbeAllRuns(compiler: Compiler, names: seq<string>)
    ensures var r := ProbeAll(compiler, names);
      r.Ok? ==>
        1 <= |r.value.runs| <= 2 * |names| + 1 && r.value.runs[0] == Trues(|names|)
  {
    var n := |names|;
    IterateRuns(compiler, names, Trues(n));
    var r := ProbeAll(compiler, names);
    var it := Iterate(compiler, names, Trues(n));
    if r.Ok? && it.value.somethingWrong {
      FallbackRuns(compiler, Falses(n), 0);
      var f := Fallback(compiler, Falses(n), 0).value;
      assert r.value.runs == it.value.runs + f.runs;
      assert r.value.runs[0] == it.value.runs[0];
    }
  }

  /** When the first compile-and-dispatch pass succeeds, no fallback runs. */
  lemma SuccessNoFallback(compiler: Compiler, names: seq<string>)
    requires Iterate(compiler, names, Trues(|names|)).Ok?
    requires !Iterate(compiler, names, Trues(|names|)).value.somethingWrong
    ensures ProbeAll(compiler, names) ==
      Ok(Probe(Iterate(compiler, names, Trues(|names|)).value.exclusion, Iterate(compiler, names, Trues(|names|)).value.runs))
    ensures |ProbeAll(compiler, names).value.runs| <= |names| + 1
  {
    IterateRuns(compiler, names, Trues(|names|));
  }

  /** `deps.iter().map(|d| (name, pkg)).collect::<HashMap<_, _>>()`: a later
      entry under the same name replaces an earlier one. */
  function DepsMap(deps: seq<NodeDep>): map<string, PackageId>
  {
    if deps == [] then map[]
    else DepsMap(deps[..|deps| - 1])[deps[|deps| - 1].name := deps[|deps| - 1].pkg]
  }

  /** The names are exactly the deps' names, and each maps to the package of
      its last occurrence. */
  lemma {:induction false} DepsMapLastWins(deps: seq<NodeDep>, name: string)
    ensures name in DepsMap(deps) <==> exists i :: 0 <= i < |deps| && deps[i].name == name
    ensures forall i :: 0 <= i < |deps| && deps[i].name == name && (forall j :: i < j < |deps| ==> deps[j].name != name) ==>
      DepsMap(deps)[name] == deps[i].pkg
  {
    if deps != [] {
      var k := |deps| - 1;
      var front := deps[..k];
      DepsMapLastWins(front, name);
      forall i | 0 <= i < k
        ensures front[i] == deps[i]
      {
      }
      if deps[k].name != name && name in DepsMap(deps) {
        var i :| 0 <= i < |front| && front[i].name == name;
        assert deps[i].name == name;
      }
    }
  }

  /** `deps.extend(root_lib)`: the root package's lib, under its name with `-`
      turned into `_`, added over any dep of that name. */
  function WithRootLib(m: map<string, PackageId>, rootLib: Option<(string, PackageId)>): (r: map<string, PackageId>)
    ensures rootLib.Some? ==> Underscored(rootLib.value.0) in r && r[Underscored(rootLib.value.0)] == rootLib.value.1
    ensures forall k :: k in m && (rootLib.None? || k != Underscored(rootLib.value.0)) ==> k in r && r[k] == m[k]
    ensures forall k :: k in r ==> k in m || (rootLib.Some? && k == Underscored(rootLib.value.0))
  {
    match rootLib
    case None => m
    case Some((name, id)) => m[Underscored(name) := id]
  }

  /** The packages of the externs left in the build, as far as their names are
      known; unknown names are dropped. */
  function Survivors(names: seq<string>, ex: seq<bool>, m: map<string, PackageId>): set<PackageId>
    requires |ex| == |names|
  {
    if names == [] then {}
    else
      var k := |names| - 1;
      Survivors(names[..k], ex[..k], m) + (if !ex[k] && names[k] in m then {m[names[k]]} else {})
  }

  lemma {:induction false} SurvivorsIff(names: seq<string>, ex: seq<bool>, m: map<string, PackageId>, p: PackageId)
    requires |ex| == |names|
    ensures p in Survivors(names, ex, m) <==>
      exists i :: 0 <= i < |names| && !ex[i] && names[i] in m && m[names[i]] == p
  {
    if names != [] {
      var k := |names| - 1;
      SurvivorsIff(names[..k], ex[..k], m, p);
      if exists i :: 0 <= i < |names| && !ex[i] && names[i] in m && m[names[i]] == p {
        var i :| 0 <= i < |names| && !ex[i] && names[i] in m && m[names[i]] == p;
        if i < k {
          assert names[..k][i] == names[i] && ex[..k][i] == ex[i];
        }
      }
      if p in Survivors(names[..k], ex[..k], m) {
        var i :| 0 <= i < k && !ex[..k][i] && names[..k][i] in m && m[names[..k][i]] == p;
        assert names[i] == names[..k][i];
      }
    }
  }

  /** `filter_actually_used_crates`. */
  function FilterActuallyUsed(compiler: Compiler, names: seq<string>, deps: seq<NodeDep>, rootLib: Option<(string, PackageId)>): Result<set<PackageId>, Error>
  {
    match ProbeAll(compiler, names)
    case Err(e) => Err(e)
    case Ok(p) => Ok(Survivors(names, p.exclusion, WithRootLib(DepsMap(deps), rootLib)))
  }

  /** One failed run's stderr, line by line, clearing bits of `exclusion` in place. */
  method DispatchLines(names: seq<string>, exclusion: array<bool>, lines: seq<Line>) returns (updated: bool, e0658: bool, err: Option<Error>)
    requires exclusion.Length == |names|
    modifies exclusion
    ensures match Dispatch(names, old(exclusion[..]), false, lines)
      case Err(e) => err == Some(e)
      case Ok(d) => err == None && exclusion[..] == d.exclusion && updated == d.updated && e0658 == d.e0658
  {
    updated, e0658, err := false, false, None;
    var k := 0;
    while k < |lines|
      invariant 0 <= k <= |lines|
      invariant Dispatch(names, old(exclusion[..]), false, lines) == Dispatch(names, exclusion[..], updated, lines[k..])
    {
      assert lines[k..][0] == lines[k] && lines[k..][1..] == lines[k + 1..];
      var line := lines[k];
      if line.Garbage? {
        err := Some(InvalidMessage(line.text));
        return;
      }
      if IsE0658(line) {
        e0658 := true;
        return;
      }
      var pos := Target(names, line);
      if pos.Some? {
        ghost var before := exclusion[..];
        updated := updated || exclusion[pos.value];
        exclusion[pos.value] := false;
        assert exclusion[..] == before[pos.value := false];
      }
      k := k + 1;
    }
  }

  /** The labelled `'run` loop on the bitset in place: `Ok(something_wrong)`,
      and on success the bitset the loop ended with. */
  method CompileAndDispatch(compiler: Compiler, names: seq<string>, exclusion: array<bool>) returns (r: Result<bool, Error>)
    requires exclusion.Length == |names|
    modifies exclusion
    ensures r.Err? <==> Iterate(compiler, names, old(exclusion[..])).Err?
    ensures r.Err? ==> r.error == Iterate(compiler, names, old(exclusion[..])).error
    ensures r.Ok? ==> r.value == Iterate(compiler, names, old(exclusion[..])).value.somethingWrong
    ensures r.Ok? && !r.value ==> exclusion[..] == Iterate(compiler, names, old(exclusion[..])).value.exclusion
  {
    ghost var start := exclusion[..];
    ghost var done: seq<seq<bool>> := [];
    assert Resume(done, Iterate(compiler, names, start)) == Iterate(compiler, names, start) by {
      if Iterate(compiler, names, start).Ok? {
        assert done + Iterate(compiler, names, start).value.runs == Iterate(compiler, names, start).value.runs;
      }
    }
    while true
      invariant Iterate(compiler, names, start) == Resume(done, Iterate(compiler, names, exclusion[..]))
      decreases Count(exclusion[..])
    {
      var run := compiler(exclusion[..]);
      if run.Err? {
        return Err(CompilerFailed(run.error));
      }
      if run.value.success {
        return Ok(false);
      }
      ghost var before := exclusion[..];
      var updated, e0658, err := DispatchLines(names, exclusion, run.value.stderr);
      if err.Some? {
        return Err(err.value);
      }
      if e0658 || !updated {
        return Ok(true);
      }
      DispatchUpdated(names, before, false, run.value.stderr);
      CountBelow(exclusion[..], before);
      ResumeResume(done, [before], Iterate(compiler, names, exclusion[..]));
      done := done + [before];
    }
  }

  /** The fallback on the bitset in place: clear it, then settle each bit by
      one run. */
  method ExcludeOneByOne(compiler: Compiler, exclusion: array<bool>) returns (err: Option<Error>)
    modifies exclusion
    ensures err.Some? <==> Fallback(compiler, Falses(exclusion.Length), 0).Err?
    ensures err.Some? ==> err.value == Fallback(compiler, Falses(exclusion.Length), 0).error
    ensures err.None? ==> exclusion[..] == Fallback(compiler, Falses(exclusion.Length), 0).value.exclusion
  {
    var n := exclusion.Length;
    forall i | 0 <= i < n {
      exclusion[i] := false;
    }
    assert exclusion[..] == Falses(n);
    ghost var done: seq<seq<bool>> := [];
    assert ResumeFallback(done, Fallback(compiler, Falses(n), 0)) == Fallback(compiler, Falses(n), 0) by {
      if Fallback(compiler, Falses(n), 0).Ok? {
        assert done + Fallback(compiler, Falses(n), 0).value.runs == Fallback(compiler, Falses(n), 0).value.runs;
      }
    }
    for i := 0 to n
      invariant Fallback(compiler, Falses(n), 0) == ResumeFallback(done, Fallback(compiler, exclusion[..], i))
    {
      ghost var before := exclusion[..];
      exclusion[i] := true;
      assert exclusion[..] == before[i := true];
      var run := compiler(exclusion[..]);
      if run.Err? {
        return Some(CompilerFailed(run.error));
      }
      exclusion[i] := run.value.success;
      assert exclusion[..] == before[i := true][i := run.value.success];
      ResumeFallbackResume(done, [before[i := true]], Fallback(compiler, exclusion[..], i + 1));
      done := done + [before[i := true]];
    }
    return None;
  }

  /** `filter_actually_used_crates` over a bitset updated in place. */
  method FilterActuallyUsedCrates(compiler: Compiler, names: seq<string>, deps: seq<NodeDep>, rootLib: Option<(string, PackageId)>)
    returns (r: Result<set<PackageId>, Error>)
    ensures r == FilterActuallyUsed(compiler, names, deps, rootLib)
  {
    var exclusion := new bool[|names|](_ => true);
    assert exclusion[..] == Trues(|names|);
    var somethingWrong := CompileAndDispatch(compiler, names, exclusion);
    if somethingWrong.Err? {
      return Err(somethingWrong.error);
    }
    if somethingWrong.value {
      var err := ExcludeOneByOne(compiler, exclusion);
      if err.Some? {
        return Err(err.value);
      }
    }
    r := Ok(Survivors(names, exclusion[..], WithRootLib(DepsMap(deps), rootLib)));
  }

  lemma ResumeResume(a: seq<seq<bool>>, b: seq<seq<bool>>, r: Result<Probed, Error>)
    ensures Resume(a, Resume(b, r)) == Resume(a + b, r)
  {
    if r.Ok? {
      assert a + (b + r.value.runs) == (a + b) + r.value.runs;
    }
  }

  lemma ResumeFallbackResume(a: seq<seq<bool>>, b: seq<seq<bool>>, r: Result<FellBack, Error>)
    ensures ResumeFallback(a, ResumeFallback(b, r)) == ResumeFallback(a + b, r)
  {
    if r.Ok? {
      assert a + (b + r.value.runs) == (a + b) + r.value.runs;
    }
  }
}
