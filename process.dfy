/** The compiler-invocation model of `src/process.rs`: `--extern` arguments,
    the re-rendering of a `rustc` command line with some externs removed, and
    the on/off table printed before every probing run. */
module Process {
  import opened Wrappers
  import opened Text

  /** The pattern an `--extern` value must match, as the error reports it. */
  const ExternPattern: string := "\\A([a-zA-Z0-9_]+)=.*\\z"

  datatype Error = RegexMismatch(text: string, regex: string)

  /** One `--extern` value: the whole text and the length of its name part. */
  datatype Extern = Extern(text: string, nameLen: nat) {
    predicate Valid()
    {
      nameLen <= |text|
    }

    /** The crate name, the text before the first `=`. */
    function Name(): string
      requires Valid()
    {
      text[..nameLen]
    }

    /** The text handed back to the compiler (`AsRef<OsStr>` and `Display`). */
    function AsRef(): string
    {
      text
    }
  }

  /** Length of the longest prefix of `s` made of identifier characters. */
  function IdentPrefixLen(s: string): (k: nat)
    ensures k <= |s|
    ensures forall i :: 0 <= i < k ==> IsIdentChar(s[i])
    ensures k < |s| ==> !IsIdentChar(s[k])
  {
    if s == [] || !IsIdentChar(s[0]) then 0 else 1 + IdentPrefixLen(s[1..])
  }

  /** `Extern::from_str`: the name is the identifier prefix, which must be
      followed by `=` and a rest without newline. */
  function ExternFromStr(s: string): (r: Result<Extern, Error>)
    ensures r.Ok? ==> r.value.Valid() && r.value.AsRef() == s
    ensures r.Ok? ==> IsIdent(r.value.Name()) && r.value.nameLen < |s| && s[r.value.nameLen] == '='
    ensures r.Ok? ==> NoNewline(s[r.value.nameLen + 1..])
    ensures r.Err? ==> r.error == RegexMismatch(s, ExternPattern)
  {
    var k := IdentPrefixLen(s);
    if 0 < k < |s| && s[k] == '=' && NoNewline(s[k + 1..]) then
      Ok(Extern(s, k))
    else
      Err(RegexMismatch(s, ExternPattern))
  }

  /** The shape `ExternFromStr` accepts: a non-empty identifier, `=`, then a rest
      without newline. */
  predicate ExternShaped(s: string)
  {
    exists k :: 0 < k < |s| && s[k] == '=' && IsIdent(s[..k]) && NoNewline(s[k + 1..])
  }

  lemma ExternFromStrIff(s: string)
    ensures ExternFromStr(s).Ok? <==> ExternShaped(s)
  {
    var k := IdentPrefixLen(s);
    if ExternShaped(s) {
      var j :| 0 < j < |s| && s[j] == '=' && IsIdent(s[..j]) && NoNewline(s[j + 1..]);
      assert forall i :: 0 <= i < j ==> IsIdentChar(s[i]) by {
        forall i | 0 <= i < j ensures IsIdentChar(s[i]) { assert s[..j][i] == s[i]; }
      }
      assert !IsIdentChar(s[j]);
    }
    if ExternFromStr(s).Ok? {
      assert IsIdent(s[..k]);
    }
  }

  /** Rendering a parsed extern gives back the text it was parsed from, and its
      name is the text before the first `=`. */
  lemma {:induction false} ExternRoundTrip(name: string, rest: string)
    requires IsIdent(name) && NoNewline(rest)
    ensures ExternFromStr(name + "=" + rest).Ok?
    ensures ExternFromStr(name + "=" + rest).value.AsRef() == name + "=" + rest
    ensures ExternFromStr(name + "=" + rest).value.Name() == name
  {
    var s := name + "=" + rest;
    assert s[..|name|] == name;
    assert s[|name| + 1..] == rest;
    assert forall i :: 0 <= i < |name| ==> IsIdentChar(s[i]) by {
      forall i | 0 <= i < |name| ensures IsIdentChar(s[i]) { assert s[i] == name[i]; }
    }
    assert !IsIdentChar(s[|name|]);
    assert IdentPrefixLen(s) == |name|;
  }

  /** The options of one `rustc` invocation (the `RustcOpts` record). */
  datatype RustcOpts = RustcOpts(
    cfg: seq<string>,
    linkPath: seq<string>,
    linkCrate: seq<string>,
    crateType: Option<string>,
    crateName: Option<string>,
    edition: Option<string>,
    emit: Option<string>,
    printInfo: Option<string>,
    debuginfo2: bool,
    optLevel2: bool,
    output: Option<string>,
    test: bool,
    outDir: Option<string>,
    explain: seq<string>,
    target: Option<string>,
    warn: seq<string>,
    allow: seq<string>,
    deny: seq<string>,
    forbid: seq<string>,
    capLints: Option<string>,
    codegen: seq<string>,
    verbose: bool,
    externs: seq<Extern>,
    externPrivate: seq<string>,
    sysroot: Option<string>,
    errorFormat: Option<string>,
    color: Option<string>,
    remapPathPrefix: Option<string>,
    input: string)

  /** A `FixedBitSet` index: bits beyond the capacity read as unset. */
  predicate Excluded(exclude: seq<bool>, i: nat)
  {
    i < |exclude| && exclude[i]
  }

  /** `flag v` for every value, in order. */
  function Repeated(flag: string, vs: seq<string>): (r: seq<string>)
    ensures |r| == 2 * |vs|
  {
    if vs == [] then [] else Repeated(flag, vs[..|vs| - 1]) + [flag, vs[|vs| - 1]]
  }

  /** The `j`-th pair of `Repeated` is the flag and the `j`-th value. */
  lemma {:induction false} RepeatedAt(flag: string, vs: seq<string>, j: nat)
    requires j < |vs|
    ensures Repeated(flag, vs)[2 * j] == flag && Repeated(flag, vs)[2 * j + 1] == vs[j]
  {
    if j < |vs| - 1 {
      RepeatedAt(flag, vs[..|vs| - 1], j);
    }
  }

  lemma RepeatedSnoc(flag: string, vs: seq<string>, v: string)
    ensures Repeated(flag, vs + [v]) == Repeated(flag, vs) + [flag, v]
  {
    assert (vs + [v])[..|vs|] == vs;
  }

  function Optional(flag: string, o: Option<string>): seq<string>
  {
    if o.Some? then [flag, o.value] else []
  }

  function Flag(b: bool, flag: string): seq<string>
  {
    if b then [flag] else []
  }

  /** The crate, output-kind and lint options `to_args` emits first. */
  function CrateArgs(o: RustcOpts): seq<string>
  {
    Repeated("--cfg", o.cfg) + Repeated("-L", o.linkPath) + Repeated("-l", o.linkCrate)
    + Optional("--crate-type", o.crateType) + Optional("--crate-name", o.crateName)
    + Optional("--edition", o.edition) + Optional("--emit", o.emit) + Optional("--print", o.printInfo)
  }

  function OutputArgs(o: RustcOpts): seq<string>
  {
    Flag(o.debuginfo2, "-g") + Flag(o.optLevel2, "-O") + Optional("-o", o.output)
    + Optional("--out-dir", o.outDir) + Repeated("--explain", o.explain) + Flag(o.test, "--test")
    + Optional("--target", o.target)
  }

  function LintArgs(o: RustcOpts): seq<string>
  {
    Repeated("--warn", o.warn) + Repeated("--allow", o.allow)
    + Repeated("--deny", o.deny) + Repeated("--forbid", o.forbid)
    + Optional("--cap-lints", o.capLints) + Repeated("--codegen", o.codegen)
    + Flag(o.verbose, "--verbose")
  }

  /** Everything `to_args` emits before the externs; it does not depend on the exclusion. */
  function PrefixArgs(o: RustcOpts): seq<string>
  {
    CrateArgs(o) + OutputArgs(o) + LintArgs(o)
  }

  /** The error-format pair: `json` when asked for, otherwise the stored one, if any. */
  function ErrorFormatArgs(o: RustcOpts, errorFormatJson: bool): seq<string>
  {
    if errorFormatJson then ["--error-format", "json"] else Optional("--error-format", o.errorFormat)
  }

  /** Everything `to_args` emits after the externs, ending with the input file. */
  function SuffixArgs(o: RustcOpts, errorFormatJson: bool): seq<string>
  {
    Repeated("--extern-private", o.externPrivate) + Optional("--sysroot", o.sysroot)
    + ErrorFormatArgs(o, errorFormatJson)
    + Optional("--color", o.color) + Optional("--remap-path-prefix", o.remapPathPrefix)
    + [o.input]
  }

  /** The externs among the first `n` whose bit is not set, in order. */
  function Kept(es: seq<Extern>, exclude: seq<bool>, n: nat): seq<Extern>
    requires n <= |es|
  {
    if n == 0 then []
    else Kept(es, exclude, n - 1) + (if Excluded(exclude, n - 1) then [] else [es[n - 1]])
  }

  /** The indices below `n` whose bit is not set, ascending. */
  function KeptIndices(exclude: seq<bool>, n: nat): seq<nat>
  {
    if n == 0 then []
    else KeptIndices(exclude, n - 1) + (if Excluded(exclude, n - 1) then [] else [n - 1])
  }

  function Texts(es: seq<Extern>): (r: seq<string>)
    ensures |r| == |es|
  {
    if es == [] then [] else Texts(es[..|es| - 1]) + [es[|es| - 1].AsRef()]
  }

  lemma TextsSnoc(es: seq<Extern>, e: Extern)
    ensures Texts(es + [e]) == Texts(es) + [e.AsRef()]
  {
    assert (es + [e])[..|es|] == es;
  }

  lemma {:induction false} TextsAt(es: seq<Extern>, j: nat)
    requires j < |es|
    ensures Texts(es)[j] == es[j].AsRef()
  {
    if j < |es| - 1 {
      TextsAt(es[..|es| - 1], j);
    }
  }

  function ExternArgs(es: seq<Extern>, exclude: seq<bool>): seq<string>
  {
    Repeated("--extern", Texts(Kept(es, exclude, |es|)))
  }

  /** The argument vector `to_args` builds. */
  function Args(o: RustcOpts, exclude: seq<bool>, errorFormatJson: bool): seq<string>
  {
    PrefixArgs(o) + ExternArgs(o.externs, exclude) + SuffixArgs(o, errorFormatJson)
  }

  lemma {:induction false} KeptLen(es: seq<Extern>, exclude: seq<bool>, n: nat)
    requires n <= |es|
    ensures |Kept(es, exclude, n)| == |KeptIndices(exclude, n)|
  {
    if n > 0 {
      KeptLen(es, exclude, n - 1);
    }
  }

  /** The `j`-th kept extern is the one at the `j`-th unset index. */
  lemma {:induction false} KeptAt(es: seq<Extern>, exclude: seq<bool>, n: nat, j: nat)
    requires n <= |es| && j < |KeptIndices(exclude, n)|
    ensures |Kept(es, exclude, n)| == |KeptIndices(exclude, n)|
    ensures KeptIndices(exclude, n)[j] < n && Kept(es, exclude, n)[j] == es[KeptIndices(exclude, n)[j]]
  {
    KeptLen(es, exclude, n);
    if n > 0 && j < |KeptIndices(exclude, n - 1)| {
      KeptAt(es, exclude, n - 1, j);
    }
  }

  /** An index is kept iff its bit is unset. */
  lemma {:induction false} KeptIndicesMember(exclude: seq<bool>, n: nat, i: nat)
    requires i < n
    ensures i in KeptIndices(exclude, n) <==> !Excluded(exclude, i)
  {
    KeptIndicesBound(exclude, n - 1);
    if i < n - 1 {
      KeptIndicesMember(exclude, n - 1, i);
    }
  }

  lemma {:induction false} KeptIndicesBound(exclude: seq<bool>, n: nat)
    ensures forall k :: k in KeptIndices(exclude, n) ==> k < n
  {
    if n > 0 {
      KeptIndicesBound(exclude, n - 1);
    }
  }

  /** The kept indices are strictly ascending: the surviving externs keep their order. */
  lemma {:induction false} KeptIndicesAscending(exclude: seq<bool>, n: nat)
    ensures forall j, k :: 0 <= j < k < |KeptIndices(exclude, n)| ==>
      KeptIndices(exclude, n)[j] < KeptIndices(exclude, n)[k]
  {
    if n > 0 {
      KeptIndicesAscending(exclude, n - 1);
      KeptIndicesBound(exclude, n - 1);
      var prev := KeptIndices(exclude, n - 1);
      assert forall j :: 0 <= j < |prev| ==> prev[j] in prev;
    }
  }

  /** The output is the fixed part plus two arguments per extern whose bit is unset,
      and the input file comes last. */
  lemma ArgsShape(o: RustcOpts, exclude: seq<bool>, errorFormatJson: bool)
    ensures |Args(o, exclude, errorFormatJson)|
      == |PrefixArgs(o)| + |SuffixArgs(o, errorFormatJson)| + 2 * |KeptIndices(exclude, |o.externs|)|
    ensures Args(o, exclude, errorFormatJson)[|Args(o, exclude, errorFormatJson)| - 1] == o.input
  {
    KeptLen(o.externs, exclude, |o.externs|);
  }

  lemma InMiddle(p: seq<string>, mid: seq<string>, sfx: seq<string>, k: nat)
    requires k < |mid|
    ensures |p| + k < |p + mid + sfx| && (p + mid + sfx)[|p| + k] == mid[k]
  {
  }

  lemma SliceMiddle(p: seq<string>, mid: seq<string>, sfx: seq<string>)
    ensures |p| + |mid| <= |p + mid + sfx| && (p + mid + sfx)[|p|..|p| + |mid|] == mid
  {
  }

  /** The surviving externs are emitted right after the fixed prefix, each as the pair
      `--extern text`, in their original relative order. */
  lemma ArgsExternPairs(o: RustcOpts, exclude: seq<bool>, errorFormatJson: bool, j: nat)
    requires j < |KeptIndices(exclude, |o.externs|)|
    ensures KeptIndices(exclude, |o.externs|)[j] < |o.externs|
    ensures |PrefixArgs(o)| + 2 * j + 1 < |Args(o, exclude, errorFormatJson)|
    ensures Args(o, exclude, errorFormatJson)[|PrefixArgs(o)| + 2 * j] == "--extern"
    ensures Args(o, exclude, errorFormatJson)[|PrefixArgs(o)| + 2 * j + 1]
      == o.externs[KeptIndices(exclude, |o.externs|)[j]].AsRef()
  {
    var es := o.externs;
    var kept := Kept(es, exclude, |es|);
    var ki := KeptIndices(exclude, |es|);
    KeptAt(es, exclude, |es|, j);
    var texts := Texts(kept);
    TextsAt(kept, j);
    assert texts[j] == es[ki[j]].AsRef();
    var mid := ExternArgs(es, exclude);
    assert mid == Repeated("--extern", texts);
    RepeatedAt("--extern", texts, j);
    assert mid[2 * j] == "--extern" && mid[2 * j + 1] == es[ki[j]].AsRef();
    var p := PrefixArgs(o);
    InMiddle(p, mid, SuffixArgs(o, errorFormatJson), 2 * j);
    InMiddle(p, mid, SuffixArgs(o, errorFormatJson), 2 * j + 1);
  }

  /** The fixed options do not depend on the exclusion, and with `error_format_json`
      the stored error format is ignored in favour of one `--error-format json` pair. */
  lemma ArgsFixedPart(o: RustcOpts, ex1: seq<bool>, ex2: seq<bool>, fmt: Option<string>)
    ensures Args(o, ex1, true)[..|PrefixArgs(o)|] == Args(o, ex2, true)[..|PrefixArgs(o)|]
    ensures var s1 := Args(o, ex1, true); var s2 := Args(o, ex2, true);
      var n := |SuffixArgs(o, true)|;
      |s1| >= n && |s2| >= n && s1[|s1| - n..] == s2[|s2| - n..]
    ensures SuffixArgs(o, true) == SuffixArgs(o.(errorFormat := fmt), true)
    ensures var k := |Repeated("--extern-private", o.externPrivate) + Optional("--sysroot", o.sysroot)|;
      SuffixArgs(o, true)[k..k + 2] == ["--error-format", "json"]
  {
    var s1 := Args(o, ex1, true);
    assert s1[..|PrefixArgs(o)|] == PrefixArgs(o);
    var s2 := Args(o, ex2, true);
    assert s2[..|PrefixArgs(o)|] == PrefixArgs(o);
    var n := |SuffixArgs(o, true)|;
    assert s1[|s1| - n..] == SuffixArgs(o, true);
    assert s2[|s2| - n..] == SuffixArgs(o, true);
  }

  /** Appends `flag v` for every value, the `for` loops of `to_args`. */
  method PushRepeated(args: seq<string>, flag: string, vs: seq<string>) returns (r: seq<string>)
    ensures r == args + Repeated(flag, vs)
  {
    r := args;
    for i := 0 to |vs|
      invariant r == args + Repeated(flag, vs[..i])
    {
      assert vs[..i + 1] == vs[..i] + [vs[i]];
      RepeatedSnoc(flag, vs[..i], vs[i]);
      r := r + [flag, vs[i]];
    }
    assert vs[..|vs|] == vs;
  }

  method PushOptional(args: seq<string>, flag: string, o: Option<string>) returns (r: seq<string>)
    ensures r == args + Optional(flag, o)
  {
    r := args;
    if o.Some? {
      r := r + [flag, o.value];
    }
  }

  method PushFlag(args: seq<string>, b: bool, flag: string) returns (r: seq<string>)
    ensures r == args + Flag(b, flag)
  {
    r := args;
    if b {
      r := r + [flag];
    }
  }

  /** The externs whose bit is unset, each pushed as `--extern text`. */
  method PushExterns(args: seq<string>, es: seq<Extern>, exclude: seq<bool>) returns (r: seq<string>)
    ensures r == args + ExternArgs(es, exclude)
  {
    r := args;
    for i := 0 to |es|
      invariant r == args + Repeated("--extern", Texts(Kept(es, exclude, i)))
    {
      ghost var rep := Repeated("--extern", Texts(Kept(es, exclude, i)));
      if !Excluded(exclude, i) {
        assert Kept(es, exclude, i + 1) == Kept(es, exclude, i) + [es[i]];
        TextsSnoc(Kept(es, exclude, i), es[i]);
        RepeatedSnoc("--extern", Texts(Kept(es, exclude, i)), es[i].AsRef());
        assert args + (rep + ["--extern", es[i].AsRef()]) == (args + rep) + ["--extern", es[i].AsRef()];
        r := r + ["--extern", es[i].AsRef()];
      } else {
        assert Kept(es, exclude, i + 1) == Kept(es, exclude, i) + [];
        assert Kept(es, exclude, i) + [] == Kept(es, exclude, i);
      }
    }
  }

  lemma AppendAssoc<T>(a: seq<T>, b: seq<T>, c: seq<T>)
    ensures (a + b) + c == a + (b + c)
  {
  }

  method PushCrateArgs(args: seq<string>, o: RustcOpts) returns (r: seq<string>)
    ensures r == args + CrateArgs(o)
  {
    r := PushRepeated(args, "--cfg", o.cfg);
    ghost var done := Repeated("--cfg", o.cfg);
    r := PushRepeated(r, "-L", o.linkPath);
    AppendAssoc(args, done, Repeated("-L", o.linkPath));
    done := done + Repeated("-L", o.linkPath);
    r := PushRepeated(r, "-l", o.linkCrate);
    AppendAssoc(args, done, Repeated("-l", o.linkCrate));
    done := done + Repeated("-l", o.linkCrate);
    r := PushOptional(r, "--crate-type", o.crateType);
    AppendAssoc(args, done, Optional("--crate-type", o.crateType));
    done := done + Optional("--crate-type", o.crateType);
    r := PushOptional(r, "--crate-name", o.crateName);
    AppendAssoc(args, done, Optional("--crate-name", o.crateName));
    done := done + Optional("--crate-name", o.crateName);
    r := PushOptional(r, "--edition", o.edition);
    AppendAssoc(args, done, Optional("--edition", o.edition));
    done := done + Optional("--edition", o.edition);
    r := PushOptional(r, "--emit", o.emit);
    AppendAssoc(args, done, Optional("--emit", o.emit));
    done := done + Optional("--emit", o.emit);
    r := PushOptional(r, "--print", o.printInfo);
    AppendAssoc(args, done, Optional("--print", o.printInfo));
  }

  method PushOutputArgs(args: seq<string>, o: RustcOpts) returns (r: seq<string>)
    ensures r == args + OutputArgs(o)
  {
    r := PushFlag(args, o.debuginfo2, "-g");
    ghost var done := Flag(o.debuginfo2, "-g");
    r := PushFlag(r, o.optLevel2, "-O");
    AppendAssoc(args, done, Flag(o.optLevel2, "-O"));
    done := done + Flag(o.optLevel2, "-O");
    r := PushOptional(r, "-o", o.output);
    AppendAssoc(args, done, Optional("-o", o.output));
    done := done + Optional("-o", o.output);
    r := PushOptional(r, "--out-dir", o.outDir);
    AppendAssoc(args, done, Optional("--out-dir", o.outDir));
    done := done + Optional("--out-dir", o.outDir);
    r := PushRepeated(r, "--explain", o.explain);
    AppendAssoc(args, done, Repeated("--explain", o.explain));
    done := done + Repeated("--explain", o.explain);
    r := PushFlag(r, o.test, "--test");
    AppendAssoc(args, done, Flag(o.test, "--test"));
    done := done + Flag(o.test, "--test");
    r := PushOptional(r, "--target", o.target);
    AppendAssoc(args, done, Optional("--target", o.target));
  }

  method PushLintArgs(args: seq<string>, o: RustcOpts) returns (r: seq<string>)
    ensures r == args + LintArgs(o)
  {
    r := PushRepeated(args, "--warn", o.warn);
    ghost var done := Repeated("--warn", o.warn);
    r := PushRepeated(r, "--allow", o.allow);
    AppendAssoc(args, done, Repeated("--allow", o.allow));
    done := done + Repeated("--allow", o.allow);
    r := PushRepeated(r, "--deny", o.deny);
    AppendAssoc(args, done, Repeated("--deny", o.deny));
    done := done + Repeated("--deny", o.deny);
    r := PushRepeated(r, "--forbid", o.forbid);
    AppendAssoc(args, done, Repeated("--forbid", o.forbid));
    done := done + Repeated("--forbid", o.forbid);
    r := PushOptional(r, "--cap-lints", o.capLints);
    AppendAssoc(args, done, Optional("--cap-lints", o.capLints));
    done := done + Optional("--cap-lints", o.capLints);
    r := PushRepeated(r, "--codegen", o.codegen);
    AppendAssoc(args, done, Repeated("--codegen", o.codegen));
    done := done + Repeated("--codegen", o.codegen);
    r := PushFlag(r, o.verbose, "--verbose");
    AppendAssoc(args, done, Flag(o.verbose, "--verbose"));
  }

  method PushSuffixArgs(args: seq<string>, o: RustcOpts, errorFormatJson: bool) returns (r: seq<string>)
    ensures r == args + SuffixArgs(o, errorFormatJson)
  {
    r := PushRepeated(args, "--extern-private", o.externPrivate);
    ghost var done := Repeated("--extern-private", o.externPrivate);
    r := PushOptional(r, "--sysroot", o.sysroot);
    AppendAssoc(args, done, Optional("--sysroot", o.sysroot));
    done := done + Optional("--sysroot", o.sysroot);
    r := PushErrorFormat(r, o, errorFormatJson);
    AppendAssoc(args, done, ErrorFormatArgs(o, errorFormatJson));
    done := done + ErrorFormatArgs(o, errorFormatJson);
    r := PushOptional(r, "--color", o.color);
    AppendAssoc(args, done, Optional("--color", o.color));
    done := done + Optional("--color", o.color);
    r := PushOptional(r, "--remap-path-prefix", o.remapPathPrefix);
    AppendAssoc(args, done, Optional("--remap-path-prefix", o.remapPathPrefix));
    done := done + Optional("--remap-path-prefix", o.remapPathPrefix);
    r := r + [o.input];
    AppendAssoc(args, done, [o.input]);
  }

  /** The error format: `json` when asked for, otherwise the stored one if any. */
  method PushErrorFormat(args: seq<string>, o: RustcOpts, errorFormatJson: bool) returns (r: seq<string>)
    ensures r == args + ErrorFormatArgs(o, errorFormatJson)
  {
    if errorFormatJson {
      r := args + ["--error-format", "json"];
    } else {
      r := PushOptional(args, "--error-format", o.errorFormat);
    }
  }

  /** `RustcOpts::to_args`: successive pushes, externs whose bit is set skipped. */
  method ToArgs(o: RustcOpts, exclude: seq<bool>, errorFormatJson: bool) returns (args: seq<string>)
    ensures args == Args(o, exclude, errorFormatJson)
  {
    args := PushCrateArgs([], o);
    assert args == CrateArgs(o);
    args := PushOutputArgs(args, o);
    args := PushLintArgs(args, o);
    args := PushExterns(args, o.externs, exclude);
    args := PushSuffixArgs(args, o, errorFormatJson);
  }

  /** A compiler invocation as the probing code sees it: its options and the
      package id and target it prints before every run. */
  datatype Rustc = Rustc(opts: RustcOpts, id: string, target: string) {
    /** `Rustc::externs`: the extern arguments in command-line order, the order in
        which an unrestricted rendering passes them back to the compiler. */
    function Externs(): (r: seq<Extern>)
      ensures |PrefixArgs(opts)| + 2 * |r| <= |Args(opts, [], true)|
      ensures Args(opts, [], true)[|PrefixArgs(opts)|..|PrefixArgs(opts)| + 2 * |r|]
        == Repeated("--extern", Texts(r))
    {
      KeptNone(opts.externs, |opts.externs|);
      assert opts.externs[..|opts.externs|] == opts.externs;
      var mid := ExternArgs(opts.externs, []);
      assert Args(opts, [], true) == PrefixArgs(opts) + mid + SuffixArgs(opts, true);
      SliceMiddle(PrefixArgs(opts), mid, SuffixArgs(opts, true));
      opts.externs
    }
  }

  /** With no bit set, every extern is kept. */
  lemma {:induction false} KeptNone(es: seq<Extern>, n: nat)
    requires n <= |es|
    ensures Kept(es, [], n) == es[..n]
  {
    if n > 0 {
      KeptNone(es, n - 1);
      assert es[..n] == es[..n - 1] + [es[n - 1]];
    }
  }

  /** The longest extern name, 0 when there is none. */
  function MaxNameLen(es: seq<Extern>): (w: nat)
    requires forall e :: e in es ==> e.Valid()
    ensures forall e :: e in es ==> |e.Name()| <= w
    ensures es == [] ==> w == 0
    ensures es != [] ==> exists e :: e in es && |e.Name()| == w
  {
    if es == [] then 0
    else
      assert forall e :: e in es[1..] ==> e in es;
      var w := MaxNameLen(es[1..]);
      if |es[0].Name()| >= w then |es[0].Name()| else w
  }

  /** The width of the branch glyph and the indentation before a name. */
  const Indent: nat := 9

  /** The branch glyph of the `i`-th of `n` extern lines: only the last one closes. */
  function Branch(i: nat, n: nat): string
  {
    if i < n - 1 then "    ├─── " else "    └─── "
  }

  function Status(exclude: seq<bool>, i: nat): string
  {
    if Excluded(exclude, i) then "off" else "on"
  }

  /** The table line of the `i`-th extern. */
  function ExclusionLine(es: seq<Extern>, exclude: seq<bool>, width: nat, i: nat): string
    requires i < |es| && es[i].Valid() && |es[i].Name()| <= width
  {
    Branch(i, |es|) + es[i].Name() + ": " + Spaces(width - |es[i].Name()|) + Status(exclude, i)
  }

  /** Every extern line puts its name at the same column and its status at the same
      column, after the padding to the longest name; it ends in `off` iff the bit is set,
      and only the last line uses the closing glyph. */
  lemma ExclusionLineShape(es: seq<Extern>, exclude: seq<bool>, i: nat)
    requires forall e :: e in es ==> e.Valid()
    requires i < |es|
    ensures var w := MaxNameLen(es); var l := ExclusionLine(es, exclude, w, i);
      |l| >= Indent + w + 2
      && l[Indent..Indent + |es[i].Name()|] == es[i].Name()
      && l[Indent + w + 2..] == Status(exclude, i)
      && (l[4] == '└' <==> i == |es| - 1)
      && forall k :: Indent + |es[i].Name()| + 2 <= k < Indent + w + 2 ==> l[k] == ' '
  {
    var w := MaxNameLen(es);
    assert es[i] in es;
    var name := es[i].Name();
    assert |name| <= w;
    var head := Branch(i, |es|);
    var pad := Spaces(w - |name|);
    assert |head| == Indent && (head[4] == '└' <==> i == |es| - 1);
    assert Indent + w + 2 == |head| + |name| + 2 + |pad|;
    assert ExclusionLine(es, exclude, w, i) == head + name + ": " + pad + Status(exclude, i);
    LineLayout(head, name, pad, Status(exclude, i));
  }

  /** Where the parts of a table line sit. */
  lemma LineLayout(head: string, name: string, pad: string, status: string)
    requires |head| > 4
    ensures var l := head + name + ": " + pad + status; var c := |head| + |name| + 2;
      |l| == c + |pad| + |status|
      && l[|head|..|head| + |name|] == name
      && l[c + |pad|..] == status
      && l[4] == head[4]
      && forall k :: c <= k < c + |pad| ==> l[k] == pad[k - c]
  {
  }

  /** One line of the table: the branch and name, padded with spaces to the widest name. */
  method FormatExternLine(es: seq<Extern>, exclude: seq<bool>, width: nat, i: nat) returns (msg: string)
    requires i < |es| && es[i].Valid() && |es[i].Name()| <= width
    ensures msg == ExclusionLine(es, exclude, width, i)
  {
    msg := if i < |es| - 1 then "    ├─── " + es[i].Name() + ": "
           else "    └─── " + es[i].Name() + ": ";
    ghost var front := msg;
    assert msg == front + Spaces(0);
    var k := 0;
    while k < width - |es[i].Name()|
      invariant 0 <= k <= width - |es[i].Name()|
      invariant msg == front + Spaces(k)
    {
      AppendAssoc(front, Spaces(k), " ");
      msg := msg + " ";
      k := k + 1;
    }
    msg := msg + if Excluded(exclude, i) then "off" else "on";
  }

  /** `Rustc::eprint_exclusion`: the id line, the target line, then one line per extern. */
  method EprintExclusion(rustc: Rustc, exclude: seq<bool>) returns (lines: seq<string>)
    requires forall e :: e in rustc.opts.externs ==> e.Valid()
    ensures |lines| == |rustc.opts.externs| + 2
    ensures lines[0] == "`" + rustc.id + "`"
    ensures lines[1] == "└─── " + rustc.target
    ensures forall i :: 0 <= i < |rustc.opts.externs| ==>
      lines[i + 2] == ExclusionLine(rustc.opts.externs, exclude, MaxNameLen(rustc.opts.externs), i)
  {
    var es := rustc.opts.externs;
    var width := MaxNameLen(es);
    lines := ["`" + rustc.id + "`", "└─── " + rustc.target];
    for i := 0 to |es|
      invariant |lines| == i + 2
      invariant lines[0] == "`" + rustc.id + "`" && lines[1] == "└─── " + rustc.target
      invariant forall j :: 0 <= j < i ==> lines[j + 2] == ExclusionLine(es, exclude, width, j)
    {
      assert es[i] in es;
      var msg := FormatExternLine(es, exclude, width, i);
      lines := lines + [msg];
    }
  }
}
