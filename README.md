# as: the cctools assembler front end, modelled in Dafny

`as` in cctools-port (cctools/as/as.c) does no assembling itself. It reads
the legacy assembler's command line, decides which downstream program to
run, builds that program's argument vector and replaces itself with it
through `execvp`:

- with `-Q` anywhere on the command line it runs `llvm-as` on the arguments
  minus every `-Q` and `-q`;
- otherwise it runs clang (`clang`, or the value of
  CCTOOLS_CLANG_AS_EXECUTABLE) as
  `clang -x assembler [-] <user tokens> [-o a.out] -integrated-as -c
  -Wno-unused-command-line-argument [-target <triple>]`. The `-` is present
  only when nothing names an input. Among the user tokens, `--` becomes `-`
  and `-V` is dropped. The default output is added only when the user gave
  no `-o` with a value. The `-target` pair appears only on non-Apple builds.

The project has four modules:

- `options.dfy` (`Options`): the `Option` type. It stands for an unset
  environment variable, a character missing from a string and a NULL
  pointer.
- `triple.dfy` (`Triple`): `get_target_triple` and the `strchr`/`strrchr`
  scans it relies on.
- `translate.dfy` (`Translation`): the classification of the raw arguments
  and the two vectors, written as functions, plus the lemmas about them.
- `driver.dfy` (`Driver`): `main` as imperative code. It has the
  classification loop, the fixed-size arrays `given_args` (argc slots) and
  `args` (argc + 16 slots), and the counters `given_i` and `j`.
  `Driver.Dispatch` is proved to return exactly
  `NullTerminated(Translate(...))`, with the `-target` triple computed by
  `get_target_triple` as written.

The environment variables and the `__APPLE__` build switch are parameters.
`clangEnv` and `tripleEnv` are `Option<string>` values, and `apple` is a
`bool`. A NULL entry of a vector is `None`.

Where the documented behaviour and the code differ, the model follows the
code:
- `-V` stays in the filtered list, so `llvm-as` receives it. Only the clang
  copy drops it (cctools/as/as.c:83, 131).
- CCTOOLS_CLANG_AS_EXECUTABLE is used whenever it is set, even when it is
  empty (cctools/as/as.c:48-49).
- An `-o` followed by any further argument sets `oflag_specified`, even
  when that argument is `-Q`, `-q` or `-V`, which are never copied to clang
  (cctools/as/as.c:60-66, 79-81, 131). Then `-o` is followed in clang's
  vector by whatever comes next, `-integrated-as` when nothing else does,
  and no default `-o a.out` is added: `as foo.s -o -V` runs
  `clang -x assembler foo.s -o -integrated-as -c ...`.

## Model

| member | source | states |
|---|---|---|
| Translation.Filtered | cctools/as/as.c:57-84 | `given_args` never has more entries than argv has arguments after the program name |
| Translation.FilteredAppend | cctools/as/as.c:57-84 | filtering goes token by token, so the filtered list keeps the order of the raw arguments |
| Translation.FilteredCounts | cctools/as/as.c:60-67 | no `-Q` and no `-q` survive filtering; every other token (`-V` and `--` included) occurs exactly as often as in the raw arguments |
| Translation.FilteredLength | cctools/as/as.c:51-83 | `given_i` ends as argc - 1 minus the number of `-Q` and `-q` arguments, so the `argc` slots of `given_args` suffice |
| Translation.FilteredIdentity | cctools/as/as.c:57-84 | arguments with no `-Q` or `-q` are forwarded unchanged |
| Translation.InputFilesInFiltered | cctools/as/as.c:69-76 | `some_input_files` (`--`, `-`, or a token not starting with `-`, the empty token included) holds of the raw arguments exactly when it holds of the filtered list |
| Translation.OptionNotInput | cctools/as/as.c:74-76 | an argument that starts with `-` and is neither `-` nor `--` never decides whether an input is present |
| Translation.ClangTokensAppend | cctools/as/as.c:120-134 | the clang copy translates token by token and keeps the order |
| Translation.ClangTokensCounts | cctools/as/as.c:120-134 | after the copy no `--` and no `-V` remain, `-` occurs as often as `-` and `--` did before, and every other token keeps its count |
| Translation.ClangTokensLength | cctools/as/as.c:120-134 | the copy writes one entry per filtered token except `-V` |
| Translation.ClangTokensInput | cctools/as/as.c:74-76 | the copied tokens name an input exactly when the filtered ones do |
| Translation.BitcodePath | cctools/as/as.c:86-93 | with `-Q` anywhere, the vector is `llvm-as` followed by the filtered list, with no `-Q` or `-q` and the expected length |
| Translation.ClangPathFrame | cctools/as/as.c:48-158 | without `-Q`, element 0 is CCTOOLS_CLANG_AS_EXECUTABLE whenever it is set and `clang` otherwise, elements 1 and 2 are `-x assembler`, and the vector ends with `-integrated-as -c -Wno-unused-command-line-argument`, then `-target <triple>` when a triple is given |
| Translation.PlaceholderIffNoInput | cctools/as/as.c:111-118 | the stdin placeholder `-` is added exactly when no copied user token names an input, so clang always has something to read |
| Translation.ClangStdin | cctools/as/as.c:103-134 | the placeholder, when present, follows `-x assembler` directly, and the translated user tokens come next |
| Translation.OFlagSurvives | cctools/as/as.c:78-134 | an `-o` that has any argument after it is carried into clang's tokens |
| Translation.ClangOutput | cctools/as/as.c:136-142 | the default output is `-o a.out` exactly when no `-o` has an argument after it, and clang's vector always holds an `-o` with something after it |
| Translation.DefaultOutputPlacement | cctools/as/as.c:100-142 | right after the stdin placeholder and the translated user tokens, the vector holds `-o a.out` exactly when no `-o` has an argument after it |
| Translation.OFlagValue | cctools/as/as.c:57-134 | a user `-o` whose value is not `-Q`, `-q` or `-V` is followed in clang's tokens directly by that value, `--` rewritten to `-` |
| Translation.OFlagFollowed | cctools/as/as.c:78-81 | `oflag_specified` is set exactly by an `-o` that is not the last argument: appending an argument makes every earlier `-o` count, and a trailing `-o` never counts |
| Translation.VectorLength | cctools/as/as.c:51-52 | `llvm_args` uses exactly `given_i + 2` slots and clang's vector with its NULL at most argc + 11 of the argc + 16 allocated |
| Translation.SingleSourceFile | cctools/as/as.c:100-151 | `as foo.s` runs `clang -x assembler foo.s -o a.out -integrated-as -c -Wno-unused-command-line-argument` |
| Translation.BitcodeSourceFile | cctools/as/as.c:86-93 | `as -Q foo.s` runs `llvm-as foo.s` |
| Translation.NoArguments | cctools/as/as.c:100-156 | `as` with no arguments reads stdin through `-` and writes `a.out` |
| Translation.OutputValueDropped | cctools/as/as.c:60-142 | `as foo.s -o -V` sets `oflag_specified` but drops `-V`, so clang gets `-o -integrated-as` and no `-o a.out` |
| Translation.OutputAndStdin | cctools/as/as.c:120-142 | `as -o out.o --` keeps `-o out.o`, rewrites `--` to `-` and adds no default output |
| Triple.FindFirst | cctools/as/as.c:20 | `strchr`: the index found is an occurrence with none before it, and nothing is found exactly when the character is absent |
| Triple.FindLast | cctools/as/as.c:15 | `strrchr`: the index found is an occurrence with none after it, and nothing is found exactly when the character is absent |
| Triple.BaseName | cctools/as/as.c:15-16 | the program name without its directory part is a suffix of argv[0] with no `/`, and a `/` stands right before it when it is shorter |
| Triple.Snprintf | cctools/as/as.c:19-24 | `snprintf` into the 64-byte buffer keeps text shorter than 64 characters whole and cuts longer text to exactly its first 63 characters |
| Triple.TargetTripleAsWritten | cctools/as/as.c:9-30 | `get_target_triple` as written: a set CCTOOLS_CLANG_AS_TARGET_TRIPLE is returned as it is, and a derived triple always fits the 64-byte buffer with its NUL |
| Triple.TargetTriple | cctools/as/as.c:9-30 | corrected derivation: the override is returned as it is, and a derived triple fits the buffer and always ends in `-apple-darwin` |
| Triple.OverrideWins | cctools/as/as.c:10-13 | a set CCTOOLS_CLANG_AS_TARGET_TRIPLE is returned as it is |
| Triple.DerivedTripleAsWritten | cctools/as/as.c:15-29 | as written: without an override and with the first `-` of the base name at index k, the result is the `snprintf` of the prefix plus `-apple-darwin` when k < 64, and `x86_64-apple-darwin` otherwise |
| Triple.DerivedTriple | cctools/as/as.c:15-29 | corrected derivation: without an override, the result is the base name's prefix before its first `-` plus `-apple-darwin` when the whole triple fits the buffer, and `x86_64-apple-darwin` otherwise |
| Triple.NoDashDefault | cctools/as/as.c:20-29 | a base name without `-` yields `x86_64-apple-darwin` |
| Triple.DerivedTripleShape | cctools/as/as.c:18-29 | corrected derivation: a derived triple fits the buffer with its NUL and ends in `-apple-darwin`, with no `-` or `/` in the architecture before that |
| Triple.AsWrittenAgrees | cctools/as/as.c:19-25 | the code as written and the corrected derivation give the same triple whenever the base name has no `-`, its first `-` is at index 50 or below, or at 64 or above |
| Triple.AsWrittenTruncates | cctools/as/as.c:19-25 | as written, a prefix of 51 to 63 characters gives a 63-character triple that does not end in `-apple-darwin` |
| Triple.AsWrittenTruncationExample | cctools/as/as.c:18-25 | as written, the program name of sixty `a`s followed by `-as` gives sixty `a`s followed by `-ap` |
| Driver.NullTerminated | cctools/as/as.c:93 | an `execvp` vector holds the strings in order followed by one NULL |
| Driver.Classify | cctools/as/as.c:57-84 | the loop leaves `given_args[..given_i]` equal to the filtered list, with `given_i` below argc, and the three flags equal to their definitions over argv[1..] |
| Driver.LlvmArgs | cctools/as/as.c:86-93 | `llvm_args` is `llvm-as`, the filtered arguments and NULL |
| Driver.Push | cctools/as/as.c:101 | `args[j++] = x` extends the filled prefix of `args` by `x` |
| Driver.CopyTokens | cctools/as/as.c:120-134 | the copy loop appends the translated user tokens to `args`, one slot at most per filtered argument |
| Driver.FinishArgs | cctools/as/as.c:136-158 | the tail appends the optional default output, the three fixed directives, the optional target pair and NULL |
| Driver.ClangArgs | cctools/as/as.c:100-158 | `args[..j + 1]` is clang's full vector followed by NULL, all within the argc + 16 slots |
| Driver.Dispatch | cctools/as/as.c:33-163 | `main` hands `execvp` exactly the NULL-terminated `Translate` vector for its argv, environment and build |
| Driver.TargetDirective | cctools/as/as.c:153-156 | without `-Q`, clang's vector ends with `-target` and the triple `get_target_triple` returns on non-Apple builds, and with the fixed directives on Apple builds |

## Findings

| source | as written | input that shows it | evidently intended | confidence | as-written member | corrected member |
|---|---|---|---|---|---|---|
| cctools/as/as.c:19-25 | the guard `len < sizeof(triple_buf)` checks only the prefix, but `snprintf` writes the prefix plus the 13 characters of `-apple-darwin` into 64 bytes, so a prefix of 51 to 63 characters is silently cut short | argv[0] = sixty `a`s followed by `-as` gives the triple sixty `a`s followed by `-ap` | use a prefix only when the whole triple fits, and fall back to `x86_64-apple-darwin` otherwise | medium, not executed | Triple.AsWrittenTruncates | Triple.DerivedTripleShape |

`Triple.TargetTripleAsWritten` models the code as written, and
`Driver.Dispatch` uses it for the `-target` argument, so the model of `main`
has the truncation. `Triple.TargetTriple` uses the corrected guard
`len + 13 < 64`; `Triple.AsWrittenAgrees` proves that the two differ only
when the first `-` of the base name is at index 51 to 63.

## Left out

- `execvp` and `perror` (cctools/as/as.c:95-97, 160-162): `Dispatch` returns the vector that would be executed. Process replacement and the failure message are operating-system I/O.
- Allocation failure (cctools/as/as.c:51-53, 87-88): `malloc` always succeeds in the model, so the early `return 1` paths are not modelled.
- `getenv` (cctools/as/as.c:10, 48): the two environment variables are `Option<string>` parameters.
- `#ifndef __APPLE__` (cctools/as/as.c:8, 153): the build switch is the parameter `apple`.
- argc == 0: argv is given as `argv0` plus the remaining arguments, so argc is at least 1.
- C strings are modelled as the characters before their terminating NUL. Each Dafny `char` stands for one C `char`, that is one byte, so the 64-byte buffer, `len` and every length in the model count bytes; multi-byte encodings are not modelled. `arg[0]` of an empty argument is that NUL, which is why the empty string counts as an input.
- `int` overflow of `argc + 16` and `given_i + 2` is not modelled. Both stay far below 2^31 for any argv the kernel accepts.
- The static `triple_buf` and the pointer `get_target_triple` returns are modelled as a returned string. The buffer's capacity survives only as the 64-byte bound.
- The include of `stuff/port.h` (cctools/as/as.c:6) is not used by the modelled logic.
