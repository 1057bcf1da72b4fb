/** Derivation of the `-target` triple handed to clang on non-Apple builds
    (`get_target_triple` in cctools/as/as.c). */
module Triple {
  import opened Options

  /** Appended to the architecture prefix of the program name. */
  const Suffix: string := "-apple-darwin"
  /** Used when no usable prefix can be derived. */
  const DefaultTriple: string := "x86_64-apple-darwin"
  /** Size in bytes of the static buffer the derived triple is written to,
      terminating NUL included. */
  const BufSize: nat := 64

  /** `strchr`: the index of the first occurrence of `c` in `s`. */
  function FindFirst(s: string, c: char): (r: Option<nat>)
    ensures r.Some? ==> r.value < |s| && s[r.value] == c
    ensures r.Some? ==> forall i :: 0 <= i < r.value ==> s[i] != c
    ensures r.None? ==> forall i :: 0 <= i < |s| ==> s[i] != c
  {
    if |s| == 0 then None
    else if s[0] == c then Some(0)
    else match FindFirst(s[1..], c)
      case None => None
      case Some(k) => Some(k + 1)
  }

  /** `strrchr`: the index of the last occurrence of `c` in `s`. */
  function FindLast(s: string, c: char): (r: Option<nat>)
    ensures r.Some? ==> r.value < |s| && s[r.value] == c && c !in s[r.value + 1..]
    ensures r.None? <==> c !in s
  {
    if |s| == 0 then None
    else if s[|s| - 1] == c then Some(|s| - 1)
    else
      assert s == s[..|s| - 1] + [s[|s| - 1]];
      match FindLast(s[..|s| - 1], c)
      case None => None
      case Some(k) => assert s[k + 1..] == s[..|s| - 1][k + 1..] + [s[|s| - 1]]; Some(k)
  }

  /** The program name with any directory part removed: the text after the
      last `/`, or the whole name when it has none. */
  function BaseName(argv0: string): (p: string)
    ensures '/' !in p
    ensures |p| <= |argv0| && p == argv0[|argv0| - |p|..]
    ensures |p| < |argv0| ==> argv0[|argv0| - |p| - 1] == '/'
  {
    match FindLast(argv0, '/')
    case None => argv0
    case Some(k) => argv0[k + 1..]
  }

  /** What `snprintf` leaves in a buffer of `BufSize` bytes: at most
      `BufSize - 1` characters, the rest cut off. */
  function Snprintf(s: string): (r: string)
    ensures |r| < BufSize
    ensures |r| <= |s| && r == s[..|r|]
    ensures |s| < BufSize ==> r == s
    ensures |s| >= BufSize ==> |r| == BufSize - 1
  {
    if |s| < BufSize then s else s[..BufSize - 1]
  }

  /** `get_target_triple` exactly as written: the environment override wins;
      otherwise the prefix of the base name before its first `-` is accepted
      when it is shorter than the buffer, and the composed triple goes
      through `snprintf`, which may cut it short. */
  function TargetTripleAsWritten(env: Option<string>, argv0: string): (r: string)
    ensures env.Some? ==> r == env.value
    ensures env.None? ==> |r| < BufSize
  {
    match env
    case Some(t) => t
    case None =>
      var p := BaseName(argv0);
      match FindFirst(p, '-')
      case Some(len) =>
        if len < BufSize then Snprintf(p[..len] + Suffix) else DefaultTriple
      case None => DefaultTriple
  }

  /** The guard as evidently intended: a prefix is used only when the whole
      composed triple fits in the buffer, so a derived triple is never cut
      short. */
  function TargetTriple(env: Option<string>, argv0: string): (r: string)
    ensures env.Some? ==> r == env.value
    ensures env.None? ==> |Suffix| <= |r| < BufSize && r[|r| - |Suffix|..] == Suffix
  {
    match env
    case Some(t) => t
    case None =>
      var p := BaseName(argv0);
      match FindFirst(p, '-')
      case Some(len) =>
        if len + |Suffix| < BufSize then p[..len] + Suffix else DefaultTriple
      case None => DefaultTriple
  }

  /** The triple `main` passes with `-target`: the result of
      `get_target_triple` as written, and none on Apple builds, where the
      `#ifndef __APPLE__` block is compiled out. */
  function ResolveTarget(apple: bool, env: Option<string>, argv0: string): (r: Option<string>)
    ensures r.None? <==> apple
    ensures r.Some? ==> r.value == TargetTripleAsWritten(env, argv0)
  {
    if apple then None else Some(TargetTripleAsWritten(env, argv0))
  }

  /** The override is returned as it is. */
  lemma OverrideWins(t: string, argv0: string)
    ensures TargetTriple(Some(t), argv0) == t
    ensures TargetTripleAsWritten(Some(t), argv0) == t
  {
  }

  /** The first `-` found by `strchr` is the one with none before it. */
  lemma FirstDashAt(p: string, k: nat)
    requires k < |p| && p[k] == '-'
    requires forall i :: 0 <= i < k ==> p[i] != '-'
    ensures FindFirst(p, '-') == Some(k)
  {
  }

  /** `get_target_triple` as written, without an override and with `k` the
      index of the first `-` in the base name: a prefix shorter than the
      buffer is used, and the composed triple is cut to the buffer. */
  lemma DerivedTripleAsWritten(argv0: string, k: nat)
    requires var p := BaseName(argv0); k < |p| && p[k] == '-'
    requires forall i :: 0 <= i < k ==> BaseName(argv0)[i] != '-'
    ensures var p := BaseName(argv0);
      TargetTripleAsWritten(None, argv0) ==
        if k < BufSize then Snprintf(p[..k] + Suffix) else DefaultTriple
  {
    FirstDashAt(BaseName(argv0), k);
  }

  /** The corrected derivation, without an override and with `k` the index
      of the first `-` in the base name: the prefix is used only when the
      whole triple fits the buffer. */
  lemma DerivedTriple(argv0: string, k: nat)
    requires var p := BaseName(argv0); k < |p| && p[k] == '-'
    requires forall i :: 0 <= i < k ==> BaseName(argv0)[i] != '-'
    ensures var p := BaseName(argv0);
      TargetTriple(None, argv0) ==
        if k + |Suffix| < BufSize then p[..k] + Suffix else DefaultTriple
  {
    FirstDashAt(BaseName(argv0), k);
  }

  /** The two derivations differ only when the first `-` of the base name
      sits at index 51 to 63: below that the whole triple fits, above it both
      fall back to the default. */
  lemma AsWrittenAgrees(env: Option<string>, argv0: string)
    requires var f := FindFirst(BaseName(argv0), '-');
      f.Some? ==> f.value + |Suffix| < BufSize || f.value >= BufSize
    ensures TargetTripleAsWritten(env, argv0) == TargetTriple(env, argv0)
  {
  }

  /** A base name without `-` yields the default triple. */
  lemma NoDashDefault(argv0: string)
    requires '-' !in BaseName(argv0)
    ensures TargetTriple(None, argv0) == DefaultTriple
    ensures TargetTripleAsWritten(None, argv0) == DefaultTriple
  {
  }

  /** Every triple derived without an override fits the 64-byte buffer with
      its NUL, ends in `-apple-darwin`, and the architecture in front of that
      suffix holds no `-` and no `/`. */
  lemma DerivedTripleShape(argv0: string)
    ensures var r := TargetTriple(None, argv0);
      |Suffix| <= |r| < BufSize && r[|r| - |Suffix|..] == Suffix &&
      '-' !in r[..|r| - |Suffix|] && '/' !in r[..|r| - |Suffix|]
  {
    var p := BaseName(argv0);
    var r := TargetTriple(None, argv0);
    match FindFirst(p, '-')
    case None =>
      assert r == DefaultTriple;
      assert r[..|r| - |Suffix|] == "x86_64";
    case Some(len) =>
      if len + |Suffix| < BufSize {
        assert r[..|r| - |Suffix|] == p[..len];
        assert r[|r| - |Suffix|..] == Suffix;
        assert forall i :: 0 <= i < len ==> p[..len][i] == p[i];
      } else {
        assert r[..|r| - |Suffix|] == "x86_64";
      }
  }

  /** The code as written returns a truncated triple, not ending in
      `-apple-darwin`, whenever the prefix before the first `-` is between
      51 and 63 characters long: the guard compares the prefix alone with the
      buffer size. */
  lemma {:induction false} AsWrittenTruncates(argv0: string, len: nat)
    requires FindFirst(BaseName(argv0), '-') == Some(len)
    requires BufSize - |Suffix| <= len < BufSize
    ensures var r := TargetTripleAsWritten(None, argv0);
      |r| == BufSize - 1 && |Suffix| <= |r| && r[|r| - |Suffix|..] != Suffix
  {
    var p := BaseName(argv0);
    var r := TargetTripleAsWritten(None, argv0);
    assert r == (p[..len] + Suffix)[..BufSize - 1];
    var at := BufSize - 1 - |Suffix|;
    assert r[at] == p[at];
    assert p[..len][at] == p[at];
    assert r[|r| - |Suffix|..][0] == r[at];
  }

  /** A concrete program name showing the truncation: sixty `a`s before
      `-as` yield sixty `a`s followed by `-ap`. */
  lemma AsWrittenTruncationExample()
    ensures var a := seq(60, _ => 'a');
      TargetTripleAsWritten(None, a + "-as") == a + "-ap"
  {
    var a := seq(60, _ => 'a');
    var s := a + "-as";
    assert '/' !in s by {
      forall i | 0 <= i < |s| ensures s[i] != '/' {
        if i < 60 { assert s[i] == a[i]; }
      }
    }
    assert BaseName(s) == s;
    var f := FindFirst(s, '-');
    assert s[60] == '-';
    assert f.Some?;
    assert f.value == 60;
    assert s[..60] == a;
  }
}
