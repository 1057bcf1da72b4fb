/** What cctools/as/as.c hands to `execvp`, as functions of its arguments:
    the classification of the raw arguments and the two argument vectors,
    one for `llvm-as` (with `-Q`) and one for clang (without). */
module Translation {
  import opened Options

  const LlvmAs: string := "llvm-as"
  const DefaultClang: string := "clang"
  /** The directives clang always receives after the user's arguments. */
  const Trailer: seq<string> := ["-integrated-as", "-c", "-Wno-unused-command-line-argument"]

  /** Tokens that count as naming an input: `--`, `-`, and anything whose
      first character is not `-` (the empty string included, whose first C
      character is the terminating NUL). */
  predicate IsInputFile(arg: string) {
    arg == "--" || arg == "-" || |arg| == 0 || arg[0] != '-'
  }

  /** `-Q` and `-q` are consumed by the classification and never forwarded. */
  predicate IsConsumed(arg: string) {
    arg == "-Q" || arg == "-q"
  }

  /** `given_args`: the raw arguments without `-Q` and `-q`, in order. */
  function Filtered(args: seq<string>): (r: seq<string>)
    ensures |r| <= |args|
  {
    if args == [] then []
    else (if IsConsumed(args[0]) then [] else [args[0]]) + Filtered(args[1..])
  }

  /** `Qflag`: some argument is exactly `-Q`. */
  predicate QFlag(args: seq<string>) {
    "-Q" in args
  }

  /** `some_input_files`: some argument names an input. */
  predicate SomeInputFiles(args: seq<string>) {
    exists i :: 0 <= i < |args| && IsInputFile(args[i])
  }

  /** `oflag_specified`: some argument is exactly `-o` and is not the last. */
  predicate OFlagSpecified(args: seq<string>) {
    exists i :: 0 <= i && i + 1 < |args| && args[i] == "-o"
  }

  /** The user's tokens as copied into clang's vector: `--` becomes `-`,
      `-V` is dropped, everything else is copied unchanged. */
  function ClangTokens(given: seq<string>): (r: seq<string>)
  {
    if given == [] then []
    else
      (if given[0] == "--" then ["-"] else if given[0] == "-V" then [] else [given[0]])
      + ClangTokens(given[1..])
  }

  /** The stdin placeholder, present when nothing names an input. */
  function StdinPart(args: seq<string>): seq<string> {
    if SomeInputFiles(args) then [] else ["-"]
  }

  /** The default output directive, present unless the user gave `-o`. */
  function OutputPart(args: seq<string>): seq<string> {
    if OFlagSpecified(args) then [] else ["-o", "a.out"]
  }

  /** The target directive of non-Apple builds. */
  function TargetPart(target: Option<string>): seq<string> {
    match target
    case None => []
    case Some(t) => ["-target", t]
  }

  /** `clang_exe`: the value of CCTOOLS_CLANG_AS_EXECUTABLE whenever it is
      set, `clang` otherwise. */
  function ClangExe(env: Option<string>): (exe: string)
    ensures env.Some? ==> exe == env.value
    ensures env.None? ==> exe == DefaultClang
  {
    match env
    case Some(e) => e
    case None => DefaultClang
  }

  /** `llvm_args` without its NULL. */
  function LlvmVector(args: seq<string>): seq<string> {
    [LlvmAs] + Filtered(args)
  }

  /** What clang's vector holds before the user's tokens. */
  function ClangHead(args: seq<string>, exe: string): seq<string> {
    [exe, "-x", "assembler"] + StdinPart(args)
  }

  /** What clang's vector holds after the user's tokens. */
  function ClangTail(args: seq<string>, target: Option<string>): seq<string> {
    OutputPart(args) + Trailer + TargetPart(target)
  }

  /** `args` (clang's vector) without its NULL. */
  function ClangVector(args: seq<string>, exe: string, target: Option<string>): seq<string> {
    ClangHead(args, exe) + ClangTokens(Filtered(args)) + ClangTail(args, target)
  }

  /** The vector passed to `execvp`, NULL excluded; its first element is the
      program run. */
  function Translate(args: seq<string>, clangEnv: Option<string>, target: Option<string>): seq<string>
  {
    if QFlag(args) then LlvmVector(args) else ClangVector(args, ClangExe(clangEnv), target)
  }

  // ---------------------------------------------------------------------
  // The filtered list

  /** Filtering works token by token, so it keeps the relative order. */
  lemma {:induction false} FilteredAppend(a: seq<string>, b: seq<string>)
    ensures Filtered(a + b) == Filtered(a) + Filtered(b)
  {
    if a == [] {
      assert a + b == b;
    } else {
      assert (a + b)[0] == a[0] && (a + b)[1..] == a[1..] + b;
      FilteredAppend(a[1..], b);
      calc {
        Filtered(a + b);
        (if IsConsumed(a[0]) then [] else [a[0]]) + Filtered(a[1..] + b);
        (if IsConsumed(a[0]) then [] else [a[0]]) + (Filtered(a[1..]) + Filtered(b));
      }
    }
  }

  /** `-Q` and `-q` are gone from the filtered list; every other token occurs
      there exactly as often as in the raw arguments. */
  lemma {:induction false} FilteredCounts(args: seq<string>, x: string)
    ensures multiset(Filtered(args))[x] == if IsConsumed(x) then 0 else multiset(args)[x]
  {
    if args != [] {
      FilteredCounts(args[1..], x);
      assert args == [args[0]] + args[1..];
    }
  }

  /** The filtered list is exactly as long as the raw arguments minus their
      `-Q`s and `-q`s. */
  lemma {:induction false} FilteredLength(args: seq<string>)
    ensures |Filtered(args)| == |args| - multiset(args)["-Q"] - multiset(args)["-q"]
  {
    if args != [] {
      FilteredLength(args[1..]);
      assert args == [args[0]] + args[1..];
    }
  }

  /** Arguments holding neither `-Q` nor `-q` pass through the filter
      untouched. */
  lemma {:induction false} FilteredIdentity(args: seq<string>)
    requires forall i :: 0 <= i < |args| ==> !IsConsumed(args[i])
    ensures Filtered(args) == args
  {
    if args != [] {
      FilteredIdentity(args[1..]);
    }
  }

  /** Whether an input is present may be read off either the raw or the
      filtered list: `-Q` and `-q` never name an input. */
  lemma {:induction false} InputFilesInFiltered(args: seq<string>)
    ensures SomeInputFiles(args) <==> SomeInputFiles(Filtered(args))
  {
    if SomeInputFiles(args) {
      var i :| 0 <= i < |args| && IsInputFile(args[i]);
      FilteredCounts(args, args[i]);
      assert args[i] in multiset(args);
      assert args[i] in multiset(Filtered(args));
      var k :| 0 <= k < |Filtered(args)| && Filtered(args)[k] == args[i];
    }
    if SomeInputFiles(Filtered(args)) {
      var f := Filtered(args);
      var k :| 0 <= k < |f| && IsInputFile(f[k]);
      FilteredCounts(args, f[k]);
      assert f[k] in multiset(f);
      assert f[k] in multiset(args);
      var i :| 0 <= i < |args| && args[i] == f[k];
    }
  }

  // ---------------------------------------------------------------------
  // The token translation of the clang path

  lemma {:induction false} ClangTokensAppend(a: seq<string>, b: seq<string>)
    ensures ClangTokens(a + b) == ClangTokens(a) + ClangTokens(b)
  {
    if a == [] {
      assert a + b == b;
    } else {
      assert (a + b)[1..] == a[1..] + b;
      ClangTokensAppend(a[1..], b);
    }
  }

  /** After translation no `--` and no `-V` remain; every `--` has become a
      `-`, and every other token occurs as often as before. */
  lemma {:induction false} ClangTokensCounts(given: seq<string>, x: string)
    ensures var m, r := multiset(given), multiset(ClangTokens(given));
      r[x] == if x == "--" || x == "-V" then 0
              else if x == "-" then m["-"] + m["--"]
              else m[x]
  {
    if given != [] {
      ClangTokensCounts(given[1..], x);
      assert given == [given[0]] + given[1..];
    }
  }

  /** The translated tokens name an input exactly when the user's tokens do. */
  lemma {:induction false} ClangTokensInput(given: seq<string>)
    ensures SomeInputFiles(ClangTokens(given)) <==> SomeInputFiles(given)
  {
    if given != [] {
      ClangTokensInput(given[1..]);
      var head := if given[0] == "--" then ["-"] else if given[0] == "-V" then [] else [given[0]];
      var tail := ClangTokens(given[1..]);
      assert ClangTokens(given) == head + tail;
      InputInConcat(head, tail);
      assert given == [given[0]] + given[1..];
      InputInConcat([given[0]], given[1..]);
      assert SomeInputFiles(head) <==> IsInputFile(given[0]) by {
        if head != [] { assert head[0] in head; }
        if IsInputFile(given[0]) { assert head[0] == (if given[0] == "--" then "-" else given[0]); }
      }
      assert SomeInputFiles([given[0]]) <==> IsInputFile(given[0]) by {
        assert [given[0]][0] == given[0];
      }
    }
  }

  /** An input is present in a concatenation exactly when it is in one part. */
  lemma InputInConcat(a: seq<string>, b: seq<string>)
    ensures SomeInputFiles(a + b) <==> SomeInputFiles(a) || SomeInputFiles(b)
  {
    if SomeInputFiles(a + b) {
      var i :| 0 <= i < |a + b| && IsInputFile((a + b)[i]);
      if i >= |a| { assert (a + b)[i] == b[i - |a|]; } else { assert (a + b)[i] == a[i]; }
    }
    if SomeInputFiles(b) {
      var i :| 0 <= i < |b| && IsInputFile(b[i]);
      assert (a + b)[|a| + i] == b[i];
    }
    if SomeInputFiles(a) {
      var i :| 0 <= i < |a| && IsInputFile(a[i]);
      assert (a + b)[i] == a[i];
    }
  }

  // ---------------------------------------------------------------------
  // The two vectors

  /** With `-Q` anywhere, `llvm-as` runs with the filtered list: no `-Q`, no
      `-q`, everything else (`-V` and `--` included) as given and in order. */
  lemma BitcodePath(args: seq<string>, clangEnv: Option<string>, target: Option<string>)
    requires QFlag(args)
    ensures var v := Translate(args, clangEnv, target);
      v[0] == LlvmAs && v[1..] == Filtered(args) &&
      "-Q" !in v[1..] && "-q" !in v[1..] &&
      |v| == |args| + 1 - multiset(args)["-Q"] - multiset(args)["-q"]
  {
    var v := Translate(args, clangEnv, target);
    assert v[1..] == Filtered(args);
    FilteredCounts(args, "-Q");
    FilteredCounts(args, "-q");
    FilteredLength(args);
  }

  /** Without `-Q`, clang runs: element 0 is the executable (the value of
      CCTOOLS_CLANG_AS_EXECUTABLE whenever it is set, `clang` otherwise), then
      `-x assembler`, and the vector ends with the fixed trailer followed,
      on non-Apple builds, by `-target` and the triple. */
  lemma ClangPathFrame(args: seq<string>, clangEnv: Option<string>, target: Option<string>)
    requires !QFlag(args)
    ensures var v := Translate(args, clangEnv, target);
      var n := |TargetPart(target)|;
      |v| >= 6 + n &&
      (clangEnv.Some? ==> v[0] == clangEnv.value) &&
      (clangEnv.None? ==> v[0] == DefaultClang) &&
      v[1] == "-x" && v[2] == "assembler" &&
      v[|v| - n - 3..|v| - n] == Trailer &&
      (target.Some? ==> v[|v| - 2] == "-target" && v[|v| - 1] == target.value) &&
      (target.None? ==> n == 0)
  {
    var head := ClangHead(args, ClangExe(clangEnv));
    var tail := ClangTail(args, target);
    var v := Translate(args, clangEnv, target);
    var n := |TargetPart(target)|;
    var toks := ClangTokens(Filtered(args));
    assert v == head + toks + tail;
    assert |tail| == |OutputPart(args)| + 3 + n;
    assert v[0] == head[0] && v[1] == head[1] && v[2] == head[2];
    assert v[|head| + |toks|..] == tail;
    assert tail[|tail| - n - 3..|tail| - n] == Trailer;
  }

  /** The stdin placeholder is added exactly when no token clang receives
      from the user names an input, so clang is always given something to
      read. */
  lemma PlaceholderIffNoInput(args: seq<string>)
    ensures var toks := ClangTokens(Filtered(args));
      (StdinPart(args) == ["-"] <==> !SomeInputFiles(toks)) &&
      SomeInputFiles(StdinPart(args) + toks)
  {
    var toks := ClangTokens(Filtered(args));
    InputFilesInFiltered(args);
    ClangTokensInput(Filtered(args));
    var s := StdinPart(args);
    if s == [] {
      var i :| 0 <= i < |toks| && IsInputFile(toks[i]);
      assert (s + toks)[i] == toks[i];
    } else {
      assert (s + toks)[0] == "-";
    }
  }

  /** In clang's vector the placeholder, when present, sits right after
      `-x assembler`, and the user's translated tokens follow it. */
  lemma ClangStdin(args: seq<string>, clangEnv: Option<string>, target: Option<string>)
    requires !QFlag(args)
    ensures var v := Translate(args, clangEnv, target);
      var s, toks := StdinPart(args), ClangTokens(Filtered(args));
      3 + |s| + |toks| <= |v| && v[3..3 + |s|] == s && v[3 + |s|..3 + |s| + |toks|] == toks
  {
  }

  /** A user `-o` that has a value survives filtering and translation. */
  lemma OFlagSurvives(args: seq<string>)
    requires OFlagSpecified(args)
    ensures "-o" in ClangTokens(Filtered(args))
  {
    var i :| 0 <= i && i + 1 < |args| && args[i] == "-o";
    assert args[i] in multiset(args);
    FilteredCounts(args, "-o");
    ClangTokensCounts(Filtered(args), "-o");
    assert "-o" in multiset(ClangTokens(Filtered(args)));
  }

  /** clang always receives an `-o` followed by something: the default
      `-o a.out` is produced exactly when no user `-o` has an argument after
      it; otherwise the user's `-o` is among the copied tokens. */
  lemma ClangOutput(args: seq<string>, clangEnv: Option<string>, target: Option<string>)
    requires !QFlag(args)
    ensures OFlagSpecified(args) ==> "-o" in ClangTokens(Filtered(args))
    ensures OutputPart(args) == ["-o", "a.out"] <==> !OFlagSpecified(args)
    ensures var v := Translate(args, clangEnv, target);
      exists i :: 0 <= i < |v| - 1 && v[i] == "-o"
  {
    var toks := ClangTokens(Filtered(args));
    var front := ClangHead(args, ClangExe(clangEnv));
    var rest := ClangTail(args, target);
    var v := Translate(args, clangEnv, target);
    if OFlagSpecified(args) {
      OFlagSurvives(args);
      var m :| 0 <= m < |toks| && toks[m] == "-o";
      assert v[|front| + m] == toks[m];
    } else {
      assert v[|front| + |toks|] == rest[0];
    }
  }

  /** The default `-o a.out` stands right after the user's translated tokens
      exactly when no user `-o` has an argument after it. */
  lemma DefaultOutputPlacement(args: seq<string>, clangEnv: Option<string>, target: Option<string>)
    requires !QFlag(args)
    ensures var v := Translate(args, clangEnv, target);
      var k := 3 + |StdinPart(args)| + |ClangTokens(Filtered(args))|;
      k + 2 <= |v| && (v[k..k + 2] == ["-o", "a.out"] <==> !OFlagSpecified(args))
  {
    var v := Translate(args, clangEnv, target);
    var head, toks := ClangHead(args, ClangExe(clangEnv)), ClangTokens(Filtered(args));
    var rest := ClangTail(args, target);
    var k := |head| + |toks|;
    assert v == head + toks + rest;
    assert v[k..k + 2] == rest[..2];
    if OFlagSpecified(args) {
      assert rest[0] == "-integrated-as";
      assert rest[0][1] != "-o"[1];
    } else {
      assert rest[..2] == ["-o", "a.out"];
    }
  }

  /** A user `-o` is followed in clang's vector by its own value, translated
      like every other token, unless that value is `-Q`, `-q` or `-V`, which
      are dropped (then `-o` takes whatever comes next). */
  lemma {:induction false} OFlagValue(args: seq<string>, i: nat)
    requires i + 1 < |args| && args[i] == "-o"
    requires !IsConsumed(args[i + 1]) && args[i + 1] != "-V"
    ensures var toks := ClangTokens(Filtered(args));
      exists m :: 0 <= m && m + 1 < |toks| && toks[m] == "-o" &&
        toks[m + 1] == if args[i + 1] == "--" then "-" else args[i + 1]
  {
    var a, pair, b := args[..i], args[i..i + 2], args[i + 2..];
    assert args == a + pair + b;
    assert pair == [args[i]] + [args[i + 1]];
    FilteredAppend(a + pair, b);
    FilteredAppend(a, pair);
    FilteredAppend([args[i]], [args[i + 1]]);
    assert Filtered([args[i]]) == [args[i]];
    assert Filtered([args[i + 1]]) == [args[i + 1]];
    var fa, fb := Filtered(a), Filtered(b);
    assert Filtered(args) == fa + pair + fb;
    ClangTokensAppend(fa + pair, fb);
    ClangTokensAppend(fa, pair);
    ClangTokensAppend([args[i]], [args[i + 1]]);
    var x := if args[i + 1] == "--" then "-" else args[i + 1];
    assert ClangTokens([args[i + 1]]) == [x];
    assert ClangTokens(pair) == ["-o", x];
    var toks := ClangTokens(Filtered(args));
    var m := |ClangTokens(fa)|;
    assert toks == ClangTokens(fa) + ["-o", x] + ClangTokens(fb);
    assert toks[m] == "-o" && toks[m + 1] == x;
  }

  /** An `-o` counts as giving the output only when something follows it:
      adding one more argument makes every `-o` already present count, and a
      trailing lone `-o` never does. */
  lemma OFlagFollowed(args: seq<string>, x: string)
    ensures OFlagSpecified(args + [x]) <==> "-o" in args
    ensures OFlagSpecified(args) ==> "-o" in args[..|args| - 1]
  {
    if "-o" in args {
      var i :| 0 <= i < |args| && args[i] == "-o";
      assert (args + [x])[i] == "-o";
    }
    if OFlagSpecified(args + [x]) {
      var i :| 0 <= i && i + 1 < |args + [x]| && (args + [x])[i] == "-o";
      assert args[i] == "-o";
    }
    if OFlagSpecified(args) {
      var i :| 0 <= i && i + 1 < |args| && args[i] == "-o";
      assert args[..|args| - 1][i] == "-o";
    }
  }

  /** An option (a token starting with `-` other than `-` and `--`), `-V`
      among them, never changes whether an input is present. */
  lemma OptionNotInput(a: seq<string>, x: string, b: seq<string>)
    requires |x| > 0 && x[0] == '-' && x != "-" && x != "--"
    ensures SomeInputFiles(a + [x] + b) <==> SomeInputFiles(a + b)
  {
    var l, r := a + [x] + b, a + b;
    if SomeInputFiles(l) {
      var i :| 0 <= i < |l| && IsInputFile(l[i]);
      if i < |a| { assert r[i] == l[i]; } else { assert r[i - 1] == l[i]; }
    }
    if SomeInputFiles(r) {
      var i :| 0 <= i < |r| && IsInputFile(r[i]);
      if i < |a| { assert l[i] == r[i]; } else { assert l[i + 1] == r[i]; }
    }
  }

  /** The buffers are large enough: `llvm_args` holds `given_i + 2` slots and
      clang's vector, NULL included, at most `argc + 11` of the `argc + 16`
      allocated (argc counts the program name). */
  lemma VectorLength(args: seq<string>, clangEnv: Option<string>, target: Option<string>)
    ensures var v := Translate(args, clangEnv, target);
      if QFlag(args) then |v| == |Filtered(args)| + 1
      else |v| <= |args| + 11
  {
    if !QFlag(args) {
      ClangTokensLength(Filtered(args));
    }
  }

  lemma {:induction false} ClangTokensLength(given: seq<string>)
    ensures |ClangTokens(given)| == |given| - multiset(given)["-V"]
  {
    if given != [] {
      ClangTokensLength(given[1..]);
      assert given == [given[0]] + given[1..];
    }
  }

  // ---------------------------------------------------------------------
  // Worked invocations

  /** `as foo.s` runs clang on foo.s with the default output. */
  lemma SingleSourceFile()
    ensures Translate(["foo.s"], None, None) ==
      ["clang", "-x", "assembler", "foo.s", "-o", "a.out",
       "-integrated-as", "-c", "-Wno-unused-command-line-argument"]
  {
  }

  /** `as -Q foo.s` runs `llvm-as foo.s`. */
  lemma BitcodeSourceFile()
    ensures Translate(["-Q", "foo.s"], None, None) == ["llvm-as", "foo.s"]
  {
  }

  /** `as` with no arguments reads stdin and writes a.out. */
  lemma NoArguments(target: Option<string>)
    ensures Translate([], None, target) ==
      ["clang", "-x", "assembler", "-", "-o", "a.out",
       "-integrated-as", "-c", "-Wno-unused-command-line-argument"] + TargetPart(target)
  {
  }

  /** `as foo.s -o -V`: the flag `-o` counts as given, but its value `-V` is
      dropped, so clang gets `-o -integrated-as` and no default output. */
  lemma OutputValueDropped()
    ensures Translate(["foo.s", "-o", "-V"], None, None) ==
      ["clang", "-x", "assembler", "foo.s", "-o",
       "-integrated-as", "-c", "-Wno-unused-command-line-argument"]
  {
    var args := ["foo.s", "-o", "-V"];
    assert IsInputFile(args[0]);
    assert args[1] == "-o";
    assert args[1..] == ["-o", "-V"];
    assert args[2..] == ["-V"];
  }

  /** `as -o out.o --` keeps the user's output and reads stdin through `-`. */
  lemma OutputAndStdin()
    ensures Translate(["-o", "out.o", "--"], None, None) ==
      ["clang", "-x", "assembler", "-o", "out.o", "-",
       "-integrated-as", "-c", "-Wno-unused-command-line-argument"]
  {
  }
}
