# fewbody triple driver, modelled in Dafny

This project models the sequential core of `triple.c`. That file is the command-line driver of fewbody for hierarchical triples: an inner binary of stars 0 and 1, orbited by star 2. It chooses the right Dafny form for each part:

- **Option processing** (module `TripleOptions`).
  - The driver loads defaults into one configuration record.
  - It then applies the options returned by `getopt_long` one at a time, with the same conversions: solar masses, AU, and degrees to radians for positive angles.
  - Processing stops early with exit status 1 when an eccentricity or angle fails its check, and with status 0 on `-V` or `-h`.
  - Leftover positional arguments also give status 1.
  - The loop is the method `ProcessOptions`. It is proved equal to the fold `CommandLine`, and the lemmas state the driver's promises about that fold.
- **The first log entry** (module `TripleLog`).
  - `firstlogentry` is an `array<char>` of `FB_MAX_LOGENTRY_LENGTH` characters.
  - The buffer is filled by `snprintf` calls, each appending at the current `strlen`.
  - The builder is proved to leave the longest prefix of `"  command line:" + " argv[0]" + ... + "\n"` that leaves room for the terminating NUL.
- **The triple hierarchy** (module `TripleHier`).
  - `fb_hier_t` is a class that owns the node arena `hier` as an `array<Obj>`.
  - Child pointers are arena indices.
  - The setup writes its fields in the order of the C code, and is proved to produce the triple structure with additive masses.
- **`calc_units`** (modules `TripleUnits` and `TripleHier`). It works over exact reals. The positive root `v = sqrt(G(m000+m001)/a00)` is an input, and the function is proved to give a mass unit equal to the inner binary's mass and G = 1 in these units.
- **Header macros** (module `FewbodyMacros`).
  - `FB_MIN`, `FB_MAX` and `FB_DELTA`.
  - The separation index `FB_KS_K`, with C's truncating integer division written out. It is proved to be an order-preserving bijection from the pairs i < j onto [0, kstar).
- **Shared records and constants** (module `Fewbody`). The constants of `fewbody.h` that the driver uses are declared with the header's values. The `Option` type lives in module `Wrappers`.

The driver model keeps two behaviours of the code that look unintended: `--a0` sets PN2, and the angle check compares radians against 360. Both are described under "## Findings", next to the corrected definitions.

## Model

The functions that compute the modelled behaviour are specified through the lemmas and methods in the table, which cite the same lines:
- `TripleOptions.Step` is the option switch (triple.c:184-315), and `Run`/`CommandLine` are the option loop with its positional-argument check (triple.c:183-322).
- `TripleOptions.AngleValue`/`AngleInRange` are the angle conversion and check (triple.c:217-248).
- `FewbodyMacros.KsK`/`Tri` are `FB_KS_K` (fewbody.h:275), and `Kstar` is kstar (fewbody.h:89).
- `TripleHier.LinkArena`, `MarkArena`, `StarsArena` and `BinariesArena` are the four write phases of the setup (triple.c:376-420).
- `TripleLog.JoinArgs`/`LogText` are the text of the first log entry (triple.c:342-348).

| member | source | states |
|---|---|---|
| FewbodyMacros.FbMin | fewbody.h:272 | the result is <= both arguments and equal to one of them; on a <= b, including ties, it is `a` |
| FewbodyMacros.FbMax | fewbody.h:273 | the result is >= both arguments and equal to one of them; on a >= b, including ties, it is `a` |
| FewbodyMacros.FbDelta | fewbody.h:274 | the result is 0 or 1, and it is 1 exactly when i == j |
| FewbodyMacros.FbDeltaSymmetric | fewbody.h:274 | FB_DELTA(i, j) == FB_DELTA(j, i) |
| FewbodyMacros.CDiv | fewbody.h:275 | C integer division: the remainder has the sign of the dividend and is smaller than the divisor in magnitude (truncation toward zero) |
| FewbodyMacros.ConsecutiveProductEven | fewbody.h:275 | i(i+1) is even for every integer i |
| FewbodyMacros.CDivEvenExact | fewbody.h:275 | dividing an even number by 2 with C division is exact |
| FewbodyMacros.KsKDivisionExact | fewbody.h:275 | (i+1)(i+2)/2 in FB_KS_K is exact, so the macro equals its rational reading i*nstar - (i+1)(i+2)/2 + j |
| FewbodyMacros.KstarExact | fewbody.h:89 | kstar = nstar(nstar-1)/2 is exact |
| FewbodyMacros.TriStep | fewbody.h:275 | moving from row i to row i+1 raises the subtracted term by i+2 |
| FewbodyMacros.KsKNextInRow | fewbody.h:275 | (i, j) -> (i, j+1) raises the slot by 1 |
| FewbodyMacros.KsKRowWrap | fewbody.h:275 | (i, nstar-1) -> (i+1, i+2) raises the slot by 1 |
| FewbodyMacros.KsKFirst | fewbody.h:275 | pair (0, 1) gets slot 0 |
| FewbodyMacros.KsKLast | fewbody.h:275 | pair (nstar-2, nstar-1) gets slot kstar-1, with kstar as at fewbody.h:89 |
| FewbodyMacros.KsKIncreasing | fewbody.h:275 | the slot is strictly increasing in lexicographic pair order |
| FewbodyMacros.KsKInjective | fewbody.h:275 | distinct pairs i < j get distinct slots |
| FewbodyMacros.KsKInRange | fewbody.h:275 | every pair 0 <= i < j < nstar gets a slot in [0, kstar), with kstar as at fewbody.h:89 |
| FewbodyMacros.KsKReachesFrom | fewbody.h:275 | every slot from the start of row i up to kstar-1 belongs to some pair |
| FewbodyMacros.KsKSurjective | fewbody.h:275 | every slot in [0, kstar) belongs to some pair, so FB_KS_K is a bijection onto [0, kstar) |
| FewbodyMacros.KstarOfFew | fewbody.h:89 | kstar is 0 for fewer than two stars |
| FewbodyMacros.SquareFitsInt32 | fewbody.h:275 | nstar*nstar < 2^31 for nstar <= 46340 |
| FewbodyMacros.KsKProductsBounded | fewbody.h:275 | both products of the macro are at most nstar*nstar, and (i+1)(i+2) is positive |
| FewbodyMacros.KsKFitsInt32 | fewbody.h:275 | for nstar <= 46340 every intermediate value of the macro and its result fit a 32-bit int |
| TripleUnits.CalcUnits | triple.c:79-102 | l = a00, v is the given root, t*v = l, m = m000+m001, E = (m000+m001)v^2, G*m*t^2 = l^3, and E*l = G*m^2 |
| TripleOptions.LoadDefaults | triple.c:151-181 | Dflag is 0 and every other field comes from the default table |
| TripleOptions.ProcessOptions | triple.c:183-322 | the loop returns exactly CommandLine(defaults, options, positional): the first stopping option's status, else 1 for leftover arguments, else the final configuration |
| TripleOptions.StepHalts | triple.c:203-312 | one option stops processing exactly when it is -V/-h (status 0) or a rejected eccentricity or angle (status 1) |
| TripleOptions.FirstHalt | triple.c:183-316 | the result is the index of the first stopping option, or None when no option stops |
| TripleOptions.RunHalts | triple.c:183-316 | the loop stops exactly when some option stops it, with the status of the first such option |
| TripleOptions.RunAppend | triple.c:183-316 | applying p then q is applying p, then q from where p left off, unless p stopped |
| TripleOptions.StopCutsOff | triple.c:203-312 | after a stopping option no later option has any effect |
| TripleOptions.CommandLineOutcome | triple.c:183-322 | Ok iff nothing stops and no positional argument is left; Exit(0) iff the first stop is -V/-h; Exit(1) iff the first stop is a rejection, or nothing stops and arguments are left |
| TripleOptions.EccentricityOption | triple.c:203-216 | -e/-F with a value >= 1 returns 1; a smaller value is stored in e00/e0 and nothing else changes |
| TripleOptions.AngleOption | triple.c:217-248 | the converted angle is accepted iff the argument is 0, -1, or positive with a radian value <= 360; an accepted value is -1 or in [0, 360] |
| TripleOptions.UnhandledIgnored | triple.c:313-314 | an option character the switch does not handle leaves the configuration unchanged |
| TripleOptions.StepFrame | triple.c:185-304 | an accepted option stores its converted value in its own field and leaves every other field alone |
| TripleOptions.StepWritesOwnSlot | triple.c:185-304 | an accepted value-carrying option stores its converted value in its own field |
| TripleOptions.StepKeepsOtherSlot | triple.c:185-304 | an accepted option leaves every field it does not own unchanged |
| TripleOptions.Untouched | triple.c:183-316 | a field that no option in the sequence owns keeps its value through the loop |
| TripleOptions.LastWins | triple.c:183-316 | the last occurrence of a value-carrying option decides its field |
| TripleOptions.DflagAfterRun | triple.c:253-256 | after the loop, Dflag is 1 if some -D was given and otherwise unchanged |
| TripleOptions.DflagFromCommandLine | triple.c:165 | with the defaults loaded (Dflag = 0), Dflag is 1 exactly when -D (triple.c:253-256) was given, else 0 |
| TripleOptions.LongOptionChar | triple.c:122-149 | a result is the character of an entry with that exact name; None means no entry has the name |
| TripleOptions.LongOptionCharAt | triple.c:122-149 | the first entry with a matching name decides the character |
| TripleOptions.A0IsSixthEntry | triple.c:123-128 | in a table that starts like long_opts, "a0" resolves to the character of the sixth entry |
| TripleOptions.LongA0BindsQ | triple.c:128 | as written, `--a0` yields 'Q' |
| TripleOptions.LongA0SetsPN2 | triple.c:284-285 | as written, with the binding at triple.c:128, `--a0 X` sets PN2 to atoi(X) and leaves a0 unchanged |
| TripleOptions.IntendedLongA0BindsLowerQ | triple.c:128 | with the corrected table, `--a0` yields 'q', as the usage line at triple.c:48 says |
| TripleOptions.IntendedLongA0SetsA0 | triple.c:200-202 | the corrected `--a0 X` sets a0 to X AU |
| TripleOptions.RadianCheckAdmits400Degrees | triple.c:217-227 | as written, `-p 400` passes the check, though its radian value exceeds a full turn |
| TripleOptions.DegreeCheckBoundsRadians | triple.c:223-226 | under the intended degree test, the stored angle is -1 or in [0, 2*pi], and 400 degrees is rejected |
| TripleLog.Truncate | triple.c:342-348 | the result is the prefix of s of length min(\|s\|, n) |
| TripleLog.Strlen | triple.c:344-347 | the result is the index of the first NUL in the buffer |
| TripleLog.Snprintf | triple.c:342-348 | writes at most size-1 characters of s from off, followed by a NUL, and leaves every other cell unchanged |
| TripleLog.AppendTruncated | triple.c:344-347 | a short prefix w followed by s truncated to the remaining room is (w + s) truncated |
| TripleLog.TruncateAppend | triple.c:344-347 | truncating the text before appending to it, then truncating again, is truncating once |
| TripleLog.NoNulConcat | triple.c:344-345 | concatenating two NUL-free strings gives a NUL-free string |
| TripleLog.Splice | triple.c:344-347 | writing a piece and a NUL right after the held string, with the held string kept, holds their concatenation |
| TripleLog.TruncateStep | triple.c:344-347 | the truncated text followed by the piece truncated to the room left is the truncated concatenation |
| TripleLog.StrlenOfHeld | triple.c:344-347 | strlen of a buffer holding a NUL-free string is that string's length |
| TripleLog.AppendPiece | triple.c:344-347 | one append turns "holds trunc(text)" into "holds trunc(text + piece)" |
| TripleLog.JoinArgsStep | triple.c:343-346 | one more argument extends the joined text by " argv[i]" and keeps it free of NUL |
| TripleLog.AppendArgs | triple.c:343-346 | after the loop the buffer holds trunc(prefix + " argv[0] ... argv[argc-1]") |
| TripleLog.BuildFirstLogEntry | triple.c:342-348 | the buffer holds the longest prefix of length <= FB_MAX_LOGENTRY_LENGTH-1 of "  command line:" + the joined arguments + "\n", followed by a NUL |
| TripleLog.WholeTextFits | triple.c:342-348 | when the whole text fits, the entry is exactly that text |
| TripleHier.DigitString | triple.c:388 | snprintf "%d" of a digit j is the one-character decimal string of j |
| TripleHier.Radius | triple.c:405-407 | R*c^2 = r000 * 2*G*m: the radius is r000 Schwarzschild radii of mass m |
| TripleHier.SetupArena | triple.c:376-420 | the setup keeps the arena's length |
| TripleHier.SetupArenaAt | triple.c:376-420 | slot by slot: each star is marked as star j with its radius and mass; each binary gets its children, time, mass, semimajor axis and eccentricity |
| TripleHier.SetupArenaShape | triple.c:376-414 | stars 0, 1, 2 are childless stars with ncoll = 1, id[0] = j, n = 1, Eint = 0 and Lint = 0; the inner binary is over stars 0 and 1; the outer binary is over the inner binary and star 2; the star masses are m000, m001, m01, and each binary's mass is the sum of its children's |
| TripleHier.SetupArenaStars | triple.c:385-407 | each star's radius is r000 Schwarzschild radii of its mass, and its string id is its index |
| TripleHier.SetupArenaOrbits | triple.c:376-420 | the inner binary has a00 and e00 and the outer a0 and e0, both at time t |
| TripleHier.SetupArenaFrame | triple.c:376-420 | slots other than the five written ones are unchanged, and no position or velocity changes |
| TripleHier.TreeUnits | triple.c:79-102 | calc_units read through the tree: l is the inner binary's a, m is the sum of its two children's masses, and G*m*t^2 = l^3 |
| TripleHier.SetupUnits | triple.c:79-102 | on the built triple, calc_units can follow the pointers, the mass unit is the inner binary's mass, the length unit is a00, and G*m*t^2 = l^3 |
| TripleHier.LinkBinaries | triple.c:376-382 | the arena becomes LinkArena(old arena): both binaries get their children and time |
| TripleHier.MarkLeaves | triple.c:385-396 | the leaf loop turns the arena into MarkArena(old arena) |
| TripleHier.SetStars | triple.c:405-411 | the stars get their radii and masses (StarsArena), and nothing else changes |
| TripleHier.SetBinaries | triple.c:413-420 | the binaries get their masses, semimajor axes and eccentricities (BinariesArena) |
| TripleHier.BuildArena | triple.c:376-420 | the arena writes of the setup, in the C order, leave SetupArena(old arena) |
| TripleHier.Hier.constructor | triple.c:336-339 | nstarinit = nstar = 3, with the arena, offsets, counts and top-level array as fb_init_hier leaves them |
| TripleHier.Hier.SetupTriple | triple.c:373-425 | narr[2] = narr[3] = 1; the arena is SetupArena(old arena); nobj = 1 with obj = [outer binary, NULL, NULL]; the hierarchy is a triple; offsets and counts are unchanged |
| TripleHier.Hier.CurrentUnits | triple.c:79-102 | calc_units(hier.obj) on the current hierarchy: the length unit is the semimajor axis of obj[0]'s first child, the mass unit is the sum of that child's two children's masses, and G*m*t^2 = l^3 |

## Left out

- Console I/O is not modelled: every `fprintf`, `print_usage`, `fb_print_version`, and the final reporting of outcome and values.
- The scanning of `argv` by `getopt_long` is not modelled, including its matching of unique prefixes of long names. Options reach the model as the character `getopt_long` returns. `LongOptionChar` models only an exact-name lookup in `long_opts`.
- `atof`, `atoi` and `atol` are not modelled. Each option carries both parsed readings of its argument.
- The driver's own triple.h is not part of this model, so the FB_* default values are a parameter of `LoadDefaults`.
- The global `fb_debug` is modelled as the `debug` field of the configuration.
- Floating-point rounding is not modelled: every double is an exact real. This covers the π conversions, the Schwarzschild radii and `calc_units`. Non-finite values are not modelled either: in C, `-e nan` passes the test `e00 >= 1.0` (triple.c:205) and `-p nan` passes both angle tests (triple.c:223), so a NaN is stored; exact reals have no NaN.
- `sqrt` is not modelled: the caller supplies the positive root `v`.
- Seeding is not modelled: reading /dev/urandom, the GSL generator and its seed (triple.c:326-332, 367-370).
- The engine calls are not modelled because their bodies are not in these files: `fb_malloc_hier`, `fb_init_hier`, `fb_normalize`, `fb_incpartition`, `fb_binaryorient`, `fb_trickle`, `fb_downsync`, `fewbody()`, and the energy and angular-momentum totals. The constructor of `Hier` takes the offsets `hi`, the counts `narr`, the arena contents and the top-level array that fb_init_hier leaves.
- Zeroing the root's position and velocity (after triple.c:425) and everything past it are outside this model.
- Memory allocation and freeing are not modelled.
- TripleUnits.CalcUnits: requires a00 != 0 and a positive root v with v*v*a00 == G(m000+m001). With a00 == 0 or a negative ratio, the C code yields infinities or NaN, which exact reals cannot express.
- TripleHier.TreeUnits: requires the same as CalcUnits (`UnitsReady`), plus that the nodes it dereferences exist. A NULL child makes the C code crash, and that is not modelled.
- TripleHier.Hier.CurrentUnits: the same requirement as TreeUnits.
- TripleHier.Hier.SetupTriple: requires disjoint, in-range slots for the three stars and two binaries, and a non-empty id array for every star. Both are what fb_init_hier is expected to provide.
- TripleHier.Hier.SetupTriple: `t` is part of the input record. main sets it to 0.0 at triple.c:335.
- FewbodyMacros.KsK: works over unbounded integers. Agreement with 32-bit C arithmetic is proved only up to nstar = 46340 (KsKFitsInt32).
- FewbodyMacros.FbMin: modelled for real arguments only. The macro is type-generic, and its double evaluation of arguments is not modelled.
- FewbodyMacros.FbMax: the same two limits as FbMin.
- TripleOptions.Step: an `-e`/`-F` value >= 1 and a rejected angle are first stored in the C variable before `return(1)`, but nothing reads that variable afterwards, so the model returns Stop(1) without storing it.

## Findings

| source | as written | input that shows it | evidently intended | confidence | as-written member | corrected member |
|---|---|---|---|---|---|---|
| triple.c:128 | the long option `--a0` is bound to 'Q', which the switch treats as PN2 (triple.c:284-285) | `--a0 5` sets PN2 = 5 and leaves a0 at its default | 'q', which sets the outer semimajor axis; the usage text at triple.c:48 pairs `-q` with `--a0` | high; not executed | TripleOptions.LongA0BindsQ, TripleOptions.LongA0SetsPN2 | TripleOptions.IntendedLongA0BindsLowerQ, TripleOptions.IntendedLongA0SetsA0 |
| triple.c:217-248 | the range check runs after degree-to-radian conversion but still compares against 360 | `-p 400` (or any positive value up to about 20626 degrees) is accepted | the argument, in degrees, is -1 or lies in [0, 360], as the message at triple.c:224 says | medium; not executed | TripleOptions.RadianCheckAdmits400Degrees | TripleOptions.DegreeCheckBoundsRadians |

The driver model (`TripleOptions.Step`, `ProcessOptions`) keeps the behaviour as written, because it models what `triple.c` does. The corrected table `IntendedLongOptions` and the predicate `DegreesInRange` sit beside it with their properties proved.

The inclination message at triple.c:246 speaks of [0, 180], although the test uses 360.
