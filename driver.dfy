/** `main` of cctools/as/as.c: the classification loop over argv and the
    construction, in arrays, of the vector passed to `execvp`. */
module Driver {
  import opened Options
  import opened Translation
  import Triple

  /** A vector as `execvp` receives it: the strings, then a NULL entry. */
  function NullTerminated(v: seq<string>): (r: seq<Option<string>>)
    ensures |r| == |v| + 1 && r[|v|] == None
    ensures forall i :: 0 <= i < |v| ==> r[i] == Some(v[i])
  {
    if v == [] then [None] else [Some(v[0])] + NullTerminated(v[1..])
  }

  /** The classification loop of `main`: one pass over argv[1..] that sets
      the three flags and copies every argument but `-Q` and `-q` into
      `givenArgs`, whose `argc` slots always suffice. */
  method Classify(argv: seq<string>, givenArgs: array<string>)
    returns (qflag: bool, someInputFiles: bool, oflagSpecified: bool, givenI: nat)
    requires 1 <= |argv| == givenArgs.Length
    modifies givenArgs
    ensures givenI < givenArgs.Length
    ensures givenArgs[..givenI] == Filtered(argv[1..])
    ensures qflag == QFlag(argv[1..])
    ensures someInputFiles == SomeInputFiles(argv[1..])
    ensures oflagSpecified == OFlagSpecified(argv[1..])
  {
    var argc := |argv|;
    ghost var rawArgs := argv[1..];
    qflag, someInputFiles, oflagSpecified := false, false, false;
    givenI := 0;
    for i := 1 to argc
      invariant givenI < i
      invariant givenArgs[..givenI] == Filtered(rawArgs[..i - 1])
      invariant qflag == QFlag(rawArgs[..i - 1])
      invariant someInputFiles == SomeInputFiles(rawArgs[..i - 1])
      invariant oflagSpecified <==>
        exists k :: 0 <= k < i - 1 && k + 1 < |rawArgs| && rawArgs[k] == "-o"
    {
      var arg := argv[i];
      assert arg == rawArgs[i - 1];
      assert rawArgs[..i] == rawArgs[..i - 1] + [arg];
      FilteredAppend(rawArgs[..i - 1], [arg]);
      if arg == "-Q" {
        qflag := true;
        continue;
      }
      if arg == "-q" {
        continue;
      }
      if arg == "--" || arg == "-" || |arg| == 0 || arg[0] != '-' {
        someInputFiles := true;
      }
      if arg == "-o" && i + 1 < argc {
        oflagSpecified := true;
      }
      givenArgs[givenI] := arg;
      givenI := givenI + 1;
    }
    assert rawArgs[..argc - 1] == rawArgs;
  }

  /** The `-Q` branch: `llvm_args`, of `givenI + 2` slots, holds `llvm-as`,
      the filtered arguments and NULL. */
  method LlvmArgs(givenArgs: array<string>, givenI: nat) returns (execArgs: seq<Option<string>>)
    requires givenI <= givenArgs.Length
    ensures execArgs == NullTerminated([LlvmAs] + givenArgs[..givenI])
  {
    var llvmArgs := new Option<string>[givenI + 2];
    llvmArgs[0] := Some(LlvmAs);
    for i := 0 to givenI
      invariant llvmArgs[0] == Some(LlvmAs)
      invariant forall k :: 0 <= k < i ==> llvmArgs[k + 1] == Some(givenArgs[k])
    {
      llvmArgs[i + 1] := Some(givenArgs[i]);
    }
    llvmArgs[givenI + 1] := None;
    execArgs := llvmArgs[..];
    ghost var v := [LlvmAs] + givenArgs[..givenI];
    assert forall k :: 0 <= k < |v| ==> execArgs[k] == Some(v[k]);
  }

  /** `args[..j]` holds the strings of `built`, in order. */
  ghost predicate Holds(args: array<Option<string>>, j: nat, built: seq<string>)
    reads args
  {
    j == |built| <= args.Length && forall k :: 0 <= k < j ==> args[k] == Some(built[k])
  }

  /** Once `args[j]` is NULL, `args[..j + 1]` is the terminated vector. */
  lemma Terminated(args: array<Option<string>>, j: nat, built: seq<string>)
    requires Holds(args, j, built) && j < args.Length && args[j] == None
    ensures args[..j + 1] == NullTerminated(built)
  {
  }

  /** `args[j++] = x`. */
  method Push(args: array<Option<string>>, j: nat, x: string, ghost built: seq<string>)
    returns (next: nat)
    requires Holds(args, j, built) && j < args.Length
    modifies args
    ensures next == j + 1 && Holds(args, next, built + [x])
  {
    args[j] := Some(x);
    next := j + 1;
  }

  /** The copy loop of the clang branch: `--` becomes `-`, `-V` is skipped,
      every other filtered argument is copied. */
  method CopyTokens(args: array<Option<string>>, j0: nat, ghost built: seq<string>,
                    given: seq<string>)
    returns (j: nat)
    requires Holds(args, j0, built) && j0 + |given| <= args.Length
    modifies args
    ensures Holds(args, j, built + ClangTokens(given)) && j <= j0 + |given|
  {
    j := j0;
    ghost var done := built;
    for i := 0 to |given|
      invariant Holds(args, j, done) && j <= j0 + i
      invariant done == built + ClangTokens(given[..i])
    {
      assert given[..i + 1] == given[..i] + [given[i]];
      ClangTokensAppend(given[..i], [given[i]]);
      if given[i] == "--" {
        j := Push(args, j, "-", done);
        done := done + ["-"];
      } else if given[i] != "-V" {
        j := Push(args, j, given[i], done);
        done := done + [given[i]];
      }
    }
    assert given[..|given|] == given;
  }

  /** The directives after the user's arguments, then NULL. */
  method FinishArgs(args: array<Option<string>>, j0: nat, ghost built: seq<string>,
                    oflagSpecified: bool, target: Option<string>)
    returns (j: nat)
    requires Holds(args, j0, built) && j0 + 7 < args.Length
    modifies args
    ensures j < args.Length && args[j] == None
    ensures Holds(args, j, built + ((if oflagSpecified then [] else ["-o", "a.out"])
      + Trailer + TargetPart(target)))
  {
    j := j0;
    ghost var done := built;
    if !oflagSpecified {
      j := Push(args, j, "-o", done);
      j := Push(args, j, "a.out", done + ["-o"]);
      done := done + ["-o", "a.out"];
    }
    j := Push(args, j, "-integrated-as", done);
    j := Push(args, j, "-c", done + ["-integrated-as"]);
    j := Push(args, j, "-Wno-unused-command-line-argument", done + ["-integrated-as", "-c"]);
    done := done + Trailer;
    if target.Some? {
      j := Push(args, j, "-target", done);
      j := Push(args, j, target.value, done + ["-target"]);
      done := done + ["-target", target.value];
    }
    args[j] := None;
  }

  /** The clang branch: fills `args` in order from the filtered arguments
      `given` (the contents of `given_args[..given_i]`) and returns the index
      `j` of its NULL entry. */
  method ClangArgs(args: array<Option<string>>, clangExe: string, someInputFiles: bool,
                   oflagSpecified: bool, given: seq<string>, target: Option<string>)
    returns (j: nat)
    requires |given| + 11 < args.Length
    modifies args
    ensures j < args.Length
    ensures args[..j + 1] == NullTerminated(
      ([clangExe, "-x", "assembler"] + (if someInputFiles then [] else ["-"]))
      + ClangTokens(given)
      + ((if oflagSpecified then [] else ["-o", "a.out"]) + Trailer + TargetPart(target)))
  {
    ghost var head := [clangExe, "-x", "assembler"] + (if someInputFiles then [] else ["-"]);
    ghost var body := head + ClangTokens(given);
    ghost var all := body + ((if oflagSpecified then [] else ["-o", "a.out"]) + Trailer + TargetPart(target));
    j := Push(args, 0, clangExe, []);
    j := Push(args, j, "-x", [clangExe]);
    j := Push(args, j, "assembler", [clangExe, "-x"]);
    if !someInputFiles {
      j := Push(args, j, "-", [clangExe, "-x", "assembler"]);
    }
    j := CopyTokens(args, j, head, given);
    j := FinishArgs(args, j, body, oflagSpecified, target);
    Terminated(args, j, all);
  }

  /** Runs `main` up to its `execvp`: `argv0` and `rawArgs` make up argv
      (so argc is `|rawArgs| + 1`), `clangEnv` and `tripleEnv` are the values
      of CCTOOLS_CLANG_AS_EXECUTABLE and CCTOOLS_CLANG_AS_TARGET_TRIPLE, and
      `apple` says whether the build defines `__APPLE__`. The result is the
      NULL-terminated vector handed to `execvp`, whose first entry names the
      program run. */
  method Dispatch(argv0: string, rawArgs: seq<string>, clangEnv: Option<string>,
                  tripleEnv: Option<string>, apple: bool)
    returns (execArgs: seq<Option<string>>)
    ensures execArgs ==
      NullTerminated(Translate(rawArgs, clangEnv, Triple.ResolveTarget(apple, tripleEnv, argv0)))
  {
    var argv := [argv0] + rawArgs;
    var argc := |argv|;
    assert argv[1..] == rawArgs;
    var clangExe := ClangExe(clangEnv);

    var givenArgs := new string[argc];
    var args := new Option<string>[argc + 16];
    var qflag, someInputFiles, oflagSpecified, givenI := Classify(argv, givenArgs);

    if qflag {
      execArgs := LlvmArgs(givenArgs, givenI);
      return;
    }

    var target := if apple then None else Some(Triple.TargetTripleAsWritten(tripleEnv, argv0));
    var j := ClangArgs(args, clangExe, someInputFiles, oflagSpecified, givenArgs[..givenI], target);
    execArgs := args[..j + 1];
  }

  /** On non-Apple builds clang's vector ends with `-target` and the triple
      `get_target_triple` returns; on Apple builds it ends with the fixed
      directives. */
  lemma TargetDirective(argv0: string, rawArgs: seq<string>, clangEnv: Option<string>,
                        tripleEnv: Option<string>, apple: bool)
    requires !QFlag(rawArgs)
    ensures var v := Translate(rawArgs, clangEnv, Triple.ResolveTarget(apple, tripleEnv, argv0));
      |v| >= 6 &&
      (!apple ==> v[|v| - 2..] == ["-target", Triple.TargetTripleAsWritten(tripleEnv, argv0)]) &&
      (apple ==> v[|v| - 3..] == Trailer)
  {
    var target := Triple.ResolveTarget(apple, tripleEnv, argv0);
    ClangPathFrame(rawArgs, clangEnv, target);
  }
}
