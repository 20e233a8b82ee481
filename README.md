# UGFlib likelihood scan and fit-object naming, modelled in Dafny

This project models the deterministic core of UGFlib's RooFit helpers.
UGFlib is a Python layer over the ROOT/RooFit fitting toolkit.

- `UGFlib/RooFit/helper.py`:
  - the likelihood curve `_Likelihood`: an insertion-ordered list of `(n, val, nll)` records keyed by the scan value `n`, with upsert, lookup, `upper_limit`, `enlong` and the `"<n> <val>"` text format (`__str__`, `load`, `load_str`);
  - the range generator `drange`;
  - the profile-likelihood scan `likelihood()`: a fit at every scan point, the relative likelihood `exp(nll0 - nll)` with the overflow fall-backs, outlier detection over sliding triples, and repair of flagged or requested chunks by linear interpolation;
  - the colour-name parse of `_color.__getattr__` (`bkg_2`, `blue3`, ...).
- `UGFlib/RooFit/pdf.py`:
  - the per-class name counter `AutoNaming`;
  - the variable registry `Var._dct`, with `Var.get` and the tuple-name splitter `Var.get_tuple`;
  - element-wise assignment on `VarTuple`;
  - the term list `ExtendedPdf`;
  - component selection in `AddPdfItem`;
  - the duplicate-refusing registry `Pdf._dct`;
  - the argument binding of the classes generated by `metapdf_withkw`.

Keys, likelihoods and NLLs are exact `real`s. The fit, the refit after the initialiser and `math.exp` are parameters of the scan: `Fitter` holds them as functions, and `exp` returns `None` where Python raises `OverflowError`. ROOT objects appear only as identities, either `Roo.RooVar` (a name, a value and a constant flag) or generic type parameters.

Modules, one per concern:

- **Outcomes:** `Option`, `Result` and the Python exceptions raised.
- **Text:** `str.find`, `split`, `join`, `strip`, `str(int)` and `int(str)`.
- **NumberTokens:** the regular expression of the line format.
- **Likelihood:** the record list, `drange`, the text format and the `Curve` class.
- **ProfileScan:** `likelihood()`.
- **ColorName:** the colour-name parse.
- **Roo:** the fit variable.
- **Naming:** `AutoNaming`.
- **Vars:** the `Var` registry, `get_tuple` and `VarTuple`.
- **Pdfs:** `ExtendedPdf`, `AddPdfItem`, the `Pdf` registry and the argument binding.

Two behaviours of `likelihood()` shape the model:

- There is no `try`/`finally` around the scan loop. The parameter is made free and its value restored only on a normal exit. A scan that stops earlier leaves the parameter constant, at the value where it stopped.
- The repaired NLL of the `j`-th point of a chunk is the left anchor's NLL plus `j` times the likelihood slope `p`. The NLL slope `nllp` is computed and never used. RepairChunkValues states this for every chunk.

## Model

| member | source | states |
|---|---|---|
| Likelihood.IndexOf | UGFlib/RooFit/helper.py:129-131 | the position found is the first record with the key; `None` exactly when no record has it |
| Likelihood.Lookup | UGFlib/RooFit/helper.py:134-138 | `IndexError` exactly when the key is absent; otherwise the `(val, nll)` of a record with that key |
| Likelihood.IndexOfFirst | UGFlib/RooFit/helper.py:134-137 | the search stops at the first record holding the key |
| Likelihood.LookupUnique | UGFlib/RooFit/helper.py:134-138 | with unique keys, looking up any record's key returns that record's values |
| Likelihood.Upsert | UGFlib/RooFit/helper.py:127-133 | `l[n] = (val, nll)` on the record list: the first record with key `n` is replaced in place, else the record is appended; UpsertSpec and SetTwice state what this guarantees |
| Likelihood.UpsertSpec | UGFlib/RooFit/helper.py:127-133 | an existing key keeps its slot and the length; a new key is appended at the end; records with other keys are unchanged; the key reads back the values just set; unique keys stay unique |
| Likelihood.SetTwice | UGFlib/RooFit/helper.py:127-133 | setting a key twice equals setting it once to the second values |
| Likelihood.UpsertAll | UGFlib/RooFit/helper.py:169-170 | the records set one after another, as the loops of `enlong`, `load` and the repair do; UpsertAllFresh and UpsertAllLookup state what a run of sets leaves |
| Likelihood.UpsertAllFresh | UGFlib/RooFit/helper.py:169-170 | records whose keys are new to the list and to each other are simply appended, in order |
| Likelihood.UpsertAllLookup | UGFlib/RooFit/helper.py:127-133 | after a run of sets with unique keys, each set key reads back its values and every untouched record keeps its slot |
| Likelihood.Reach | UGFlib/RooFit/helper.py:146-149 | the first position whose running likelihood sum reaches the threshold; `None` when none does |
| Likelihood.Curve.UpperLimit | UGFlib/RooFit/helper.py:141-149 | the two loops return the first record whose running sum reaches `CL` times the total, or `None` |
| Likelihood.UpperLimitOf | UGFlib/RooFit/helper.py:141-149 | `upper_limit(CL)`: the record at the position `Reach` finds for `CL` times the total likelihood, or `None`; UpperLimitExists and UpperLimitMonotone state when there is one and how it moves with `CL` |
| Likelihood.UpperLimitExists | UGFlib/RooFit/helper.py:141-149 | with non-negative likelihoods, `CL <= 1` and a non-empty curve, some record is returned |
| Likelihood.UpperLimitMonotone | UGFlib/RooFit/helper.py:141-149 | a larger confidence level never returns an earlier record |
| Likelihood.DRange | UGFlib/RooFit/helper.py:115-118 | empty exactly when `start >= stop`; starts at `start`; every value is in `[start, stop)`; one more step past the last value would reach `stop` |
| Likelihood.DRangeSteps | UGFlib/RooFit/helper.py:116-118 | each value is one step past the one before |
| Likelihood.DRangeAscending | UGFlib/RooFit/helper.py:115-118 | with a positive step the values strictly ascend |
| Likelihood.GenerateRange | UGFlib/RooFit/helper.py:115-118 | the generator loop yields exactly `DRange(start, stop, step)` |
| Likelihood.PadUnique | UGFlib/RooFit/helper.py:167-170 | on an ascending curve, the records plus the padding keys have unique keys |
| Likelihood.PadAppends | UGFlib/RooFit/helper.py:167-170 | on an ascending curve, padding appends `(k, 0, 0)` for `k = last + step, ...` below `end` after the untouched records; it appends nothing exactly when `last + step >= end` |
| Likelihood.Curve.Enlong | UGFlib/RooFit/helper.py:167-170 | fewer than two records raise `IndexError` and change nothing; otherwise the curve becomes the old records with the padding keys set to `(0, 0)` in order |
| Likelihood.LoadLine | UGFlib/RooFit/helper.py:176-180 | one line of a load: a line the reader rejects gives `ValueError(line)`, any other line sets its key to `(value, 0)` |
| Likelihood.Loaded | UGFlib/RooFit/helper.py:174-181 | the loop both loaders share, over the lines from an empty curve, stopping at the first bad line; LoadedFailsAtFirstBadLine, LoadedNllZero and LoadedInOrder state its result |
| Likelihood.LoadedText | UGFlib/RooFit/helper.py:171-181 | `load_str(text)`: the newline-split, stripped lines loaded; TrailingNewlineRejected and TextRoundTrip state its result |
| Likelihood.LoadedFailsAtFirstBadLine | UGFlib/RooFit/helper.py:186-189 | loading fails exactly when some line does not match, and the error is `ValueError` of the first such line |
| Likelihood.LoadedNllZero | UGFlib/RooFit/helper.py:180 | every loaded record has `nll == 0` |
| Likelihood.SplitTrailingSeparator | UGFlib/RooFit/helper.py:175 | text ending in the separator splits with an empty last piece |
| Likelihood.EmptyLineRejected | UGFlib/RooFit/helper.py:176 | an empty line does not match, stripped or not |
| Likelihood.BadLastLine | UGFlib/RooFit/helper.py:186-189 | a load whose last line does not match fails |
| Likelihood.TrailingNewlineFails | UGFlib/RooFit/helper.py:175-178 | text ending in a newline fails with any reader that rejects the empty line |
| Likelihood.TrailingNewlineRejected | UGFlib/RooFit/helper.py:171-178 | `load_str` of text ending in a newline raises `ValueError` |
| Likelihood.LoadedInOrder | UGFlib/RooFit/helper.py:183-192 | lines that read as records with unique keys load as those records, in order, with `nll` 0 |
| Likelihood.LineReadsBack | UGFlib/RooFit/helper.py:151 | a written line, stripped and matched, gives back its record's key and likelihood |
| Likelihood.LineClean | UGFlib/RooFit/helper.py:151 | a written line has no newline, so splitting on newlines keeps it whole |
| Likelihood.TextRoundTrip | UGFlib/RooFit/helper.py:171-181 | `load_str(str(l))` of a non-empty curve with unique keys and well-formed numbers gives back its keys and likelihoods, with `nll` 0 |
| Likelihood.Curve.Str | UGFlib/RooFit/helper.py:150-151 | `str(l)`: for a non-empty curve with unique keys whose numbers are written as numerals the line pattern reads back, `load_str` of the text gives back the keys and likelihoods in order with `nll` 0 |
| Likelihood.Curve.constructor | UGFlib/RooFit/helper.py:125-126 | a new curve has no records |
| Likelihood.Curve.Set | UGFlib/RooFit/helper.py:127-133 | the search loop leaves the record list equal to `Upsert(old, (n, val, nll))` |
| Likelihood.Curve.Get | UGFlib/RooFit/helper.py:134-138 | the search loop returns `Lookup(data, n)` |
| Likelihood.Curve.Load | UGFlib/RooFit/helper.py:182-192 | succeeds exactly when every line matches; the fresh curve holds the records of the lines, otherwise the first bad line's error |
| Likelihood.Curve.LoadStr | UGFlib/RooFit/helper.py:171-181 | as `Load`, on the newline-split and stripped pieces of the text |
| Likelihood.Curve.LoadLines | UGFlib/RooFit/helper.py:171-192 | the shared loop of both loaders: it stops at the first bad line with its error |
| NumberTokens.DigitPrefix | UGFlib/RooFit/helper.py:176 | the greedy digit run: every character in it is a digit and the next one is not |
| NumberTokens.ScanDecimal | UGFlib/RooFit/helper.py:176 | a successful scan consumes a non-empty prefix and returns the rest |
| NumberTokens.ParseLine | UGFlib/RooFit/helper.py:176-180 | the start-anchored line pattern: a decimal key, one space, then a value with an optional `e` exponent; LineRoundTrip and PlusExponentIgnored state what it reads |
| NumberTokens.ScanDecimalExtend | UGFlib/RooFit/helper.py:176 | a complete numeral followed by a character that cannot continue it scans to the same value |
| NumberTokens.LineRoundTrip | UGFlib/RooFit/helper.py:176 | `"<key> <value>"` built from well-formed tokens reads back as the two values |
| NumberTokens.PlusExponentIgnored | UGFlib/RooFit/helper.py:176 | `"3 1.5e+20"` reads as `(3, 1.5)`: the match stops before `e+` |
| Text.NatToString | UGFlib/RooFit/pdf.py:30 | `str(n)`: a non-empty digit string whose value is `n`, with no leading zero |
| Text.SuffixedNamesDistinct | UGFlib/RooFit/pdf.py:30 | one prefix with two different counter values gives two different names |
| Text.FindFrom | UGFlib/RooFit/pdf.py:106 | `find`: the lowest occurrence at or after the start index, or -1 when there is none |
| Text.Split | UGFlib/RooFit/pdf.py:113 | `split`: at least one piece, and joining the pieces with the separator gives the string back |
| Text.SplitPiecesClean | UGFlib/RooFit/pdf.py:113 | no piece of a split contains the separator |
| Text.SplitJoin | UGFlib/RooFit/helper.py:151 | splitting a join of clean pieces gives the pieces back |
| Text.StripUntouched | UGFlib/RooFit/helper.py:176 | `strip` leaves a string with no whitespace at either end unchanged |
| ProfileScan.SweepKeys | UGFlib/RooFit/helper.py:239-265 | a completed scan loop has one record per scan value, in `drange` order |
| ProfileScan.SweepIgnored | UGFlib/RooFit/helper.py:242-246 | every ignored scan value holds `(0, 0)` |
| ProfileScan.SweepNonNegative | UGFlib/RooFit/helper.py:253-265 | with non-negative `exp`, every stored likelihood is non-negative |
| ProfileScan.BaselineIsOne | UGFlib/RooFit/helper.py:249-254 | the point at 0 is its own baseline: likelihood `exp(0)`, NLL the fit at 0 |
| ProfileScan.ConstantFitSweep | UGFlib/RooFit/helper.py:239-265 | with one NLL `c` for every fit and `exp(0) = 1`, every non-ignored scan value is recorded as `(k, 1, c)` once the baseline is known |
| ProfileScan.FlatNotFlagged | UGFlib/RooFit/helper.py:274-276 | a curve with one NLL throughout has no flagged point |
| ProfileScan.ConstantFitScan | UGFlib/RooFit/helper.py:229-288 | a constant fit with `exp(0) = 1` and nothing ignored gives the flat curve of likelihood 1, nothing is flagged, and without requested chunks the scan returns that curve (except with one or two points) |
| ProfileScan.BaselineFound | UGFlib/RooFit/helper.py:249-250 | a scan that starts at 0 and does not ignore it always completes |
| ProfileScan.BaselineMissing | UGFlib/RooFit/helper.py:242-254 | ignoring 0 stops the loop at the first non-ignored non-zero value (`nll0` is unset) |
| ProfileScan.OverflowFallback | UGFlib/RooFit/helper.py:255-265 | a point whose fit, and refit when an initialiser exists, both overflow is stored as `(0, 0)` |
| ProfileScan.NoOverflow | UGFlib/RooFit/helper.py:253-254 | a fit that does not overflow is stored as `(exp(nll0 - nll), nll)` |
| ProfileScan.Sample | UGFlib/RooFit/helper.py:248-265 | one fitted point: `exp(nll0 - nll)` with its NLL, else `(0, 0)`, refitting once when an initialiser exists; OverflowFallback and NoOverflow state the cases |
| ProfileScan.Sweep | UGFlib/RooFit/helper.py:239-267 | the scan loop over the `drange` values as a function; SweepKeys, SweepIgnored, SweepNonNegative, BaselineFound and BaselineMissing state its result |
| ProfileScan.FitPoint | UGFlib/RooFit/helper.py:253-265 | the try/except block appends exactly the record `Sample` defines |
| ProfileScan.SweepPoints | UGFlib/RooFit/helper.py:239-267 | the loop completes exactly when the sweep does and leaves its records; otherwise it stops with the parameter at the failing value; the parameter stays constant throughout |
| ProfileScan.FlaggedExactly | UGFlib/RooFit/helper.py:274-276 | a key is flagged exactly when its record is a strict local NLL extremum reached by more than twice the previous jump; at most one flag per inner record |
| ProfileScan.EndsNeverFlagged | UGFlib/RooFit/helper.py:274-276 | the first two records and the last are never flagged |
| ProfileScan.Outliers | UGFlib/RooFit/helper.py:274-276 | the window detection: no flags for no records, `TypeError` for one or two, else the flagged keys; FlaggedExactly and EndsNeverFlagged state which |
| ProfileScan.DetectOutliers | UGFlib/RooFit/helper.py:274-276 | the window loop returns `Outliers(d)`: no flags for no records, `TypeError` for one or two, otherwise the flagged keys in order |
| ProfileScan.RepairChunkFails | UGFlib/RooFit/helper.py:279-285 | `IndexError` exactly for an empty chunk or a missing anchor at `chunk[0] - step` or `chunk[-1] + step` |
| ProfileScan.RepairChunk | UGFlib/RooFit/helper.py:279-285 | one chunk repaired between its anchors; RepairChunkFails and RepairChunkValues state when it fails and what it writes |
| ProfileScan.RepairAll | UGFlib/RooFit/helper.py:277-287 | the chunks repaired in order, stopping at the first error; the method Repair is proved to compute it |
| ProfileScan.SlopeReachesEnd | UGFlib/RooFit/helper.py:282 | one slope past the chunk reaches the right anchor's likelihood |
| ProfileScan.RepairChunkValues | UGFlib/RooFit/helper.py:277-285 | after a repair, the `t`-th chunk value reads back `(begin + p (t + 1), nll0 + p (t + 1))`, every record outside the chunk is unchanged, and keys stay unique |
| ProfileScan.SweptUnique | UGFlib/RooFit/helper.py:239 | the scanned curve has strictly ascending keys |
| ProfileScan.FillChunk | UGFlib/RooFit/helper.py:284-285 | the inner loop sets the chunk's points in order |
| ProfileScan.RepairOne | UGFlib/RooFit/helper.py:279-285 | one chunk's repair succeeds exactly when `RepairChunk` does, with its records or its error |
| ProfileScan.Repair | UGFlib/RooFit/helper.py:277-287 | the chunks are repaired in order, each on the curve the previous ones left; the first error stops the repair |
| ProfileScan.Scan | UGFlib/RooFit/helper.py:229-288 | the returned curve is the swept records with requested chunks, then flagged points, repaired; a completed scan frees the parameter and restores its value; a scan without baseline leaves it constant at the failing value |
| ProfileScan.Scanned | UGFlib/RooFit/helper.py:229-288 | what `likelihood()` returns, as a function of the fit; Scan is proved to compute it and ConstantFitScan states its normalisation |
| ProfileScan.RepairExample | UGFlib/RooFit/helper.py:274-285 | on NLLs 10, 10, 1, 9, 9 the middle point is flagged and repaired to `(9.5, 9.5)` |
| ColorName.NamePrefix | UGFlib/RooFit/helper.py:43 | the greedy `[^_\d]*`: every character before it is a name character and the next one is not |
| ColorName.OffsetRoundTrip | UGFlib/RooFit/helper.py:43-46 | an optional underscore, `str(k)` and an optional final newline read back as `-k` or `+k` |
| ColorName.NameRoundTrip | UGFlib/RooFit/helper.py:43-47 | `<base>[_]<k>` parses to the base and the signed offset |
| ColorName.NoDigitsNoOffset | UGFlib/RooFit/helper.py:43-47 | a name not ending in a digit is its own base with offset 0 |
| ColorName.MatchParses | UGFlib/RooFit/helper.py:43-47 | a name the pattern matches parses to its first group and the value of its digits, negated when the underscore is there, whatever leading zeros the digits carry |
| ColorName.NoMatchNoOffset | UGFlib/RooFit/helper.py:43-47 | every name the pattern does not match is its own base with offset 0 |
| ColorName.LeadingZeroExample | UGFlib/RooFit/helper.py:43-49 | `bkg_02` gives the same pen as `bkg_2` |
| ColorName.ParseName | UGFlib/RooFit/helper.py:43-47 | the base and offset the pattern yields; MatchParses and NoMatchNoOffset state them for every name |
| ColorName.PenForKnown | UGFlib/RooFit/helper.py:48-69 | exactly the eleven known bases give a pen, and every shaded colour carries the offset |
| ColorName.PenFor | UGFlib/RooFit/helper.py:48-69 | the pen of each of the eleven bases, by the chain of comparisons; PenForKnown states which bases answer and that shaded colours carry the offset |
| ColorName.BkgExample | UGFlib/RooFit/helper.py:43-49 | `bkg_2` is dashed red shifted by -2 |
| ColorName.BlueExample | UGFlib/RooFit/helper.py:43-61 | `blue3` is dashed blue shifted by +3 |
| ColorName.LookupKnown | UGFlib/RooFit/helper.py:42-69 | a name finds a pen exactly when the base the pattern leaves is one of the eleven known ones; any other name finds nothing |
| ColorName.Lookup | UGFlib/RooFit/helper.py:42-69 | `Color.<attr>`: the parse, then the pen; LookupKnown, BkgExample and BlueExample state its answers |
| Naming.FirstOwn | UGFlib/RooFit/pdf.py:30 | `cls._temp` is the counter of the first class in the method resolution order that holds one |
| Naming.NamesFrom | UGFlib/RooFit/pdf.py:34-35 | name `i` is the prefix followed by `str(c + i)` |
| Naming.NamesDistinct | UGFlib/RooFit/pdf.py:28-35 | names generated from consecutive counter values never repeat |
| Naming.OwnCounterRead | UGFlib/RooFit/pdf.py:31 | after the increment, the class reads its own counter |
| Naming.InheritedCounter | UGFlib/RooFit/pdf.py:26-30 | a class without its own counter reads its base's counter |
| Naming.WriteSeenBy | UGFlib/RooFit/pdf.py:31 | a write to one class's counter is seen by a subclass exactly until that subclass holds a counter of its own |
| Naming.Counters.constructor | UGFlib/RooFit/pdf.py:26 | only `AutoNaming` holds a counter, and it is 0 |
| Naming.Counters.Counter | UGFlib/RooFit/pdf.py:30 | every naming class finds a counter |
| Naming.Counters.GenName | UGFlib/RooFit/pdf.py:28-32 | returns `(use_name or class name) + str(counter)`; the class's own counter becomes the value read plus 1 |
| Naming.Counters.GenNames | UGFlib/RooFit/pdf.py:34-35 | returns `count` consecutive names; the counter ends `count` higher, untouched when `count` is 0 |
| Vars.VarRegistry.Register | UGFlib/RooFit/pdf.py:76 | the name maps to the new variable, replacing any earlier one; `Var.get` then returns it, and every other name reads as before |
| Vars.TupleSeparator | UGFlib/RooFit/pdf.py:104-112 | `ValueError("Var tuple Format Error")` exactly for a `__` prefix with no `__` at index 2 or later; otherwise the separator runs from the start through the first such `__` and the rest follows it; a name without the prefix is split on `__` |
| Vars.TupleNames | UGFlib/RooFit/pdf.py:104-113 | the part names of a tuple name; PlainTupleRoundTrip, CustomTupleRoundTrip and UnclosedSeparator state them |
| Vars.GetTuple | UGFlib/RooFit/pdf.py:103-114 | `Var.get_tuple(name)`: the parts looked up in the registry; GetTupleParts states its result |
| Vars.LookupAll | UGFlib/RooFit/pdf.py:114 | all parts registered gives their variables in order; otherwise `KeyError` of the first missing part |
| Vars.PlainTupleRoundTrip | UGFlib/RooFit/pdf.py:104-113 | `a__b__c` splits back into its parts |
| Vars.CustomTupleRoundTrip | UGFlib/RooFit/pdf.py:104-113 | `__<mid>__a<sep>b`, with `sep = __<mid>__`, splits back into its parts |
| Vars.UnclosedSeparator | UGFlib/RooFit/pdf.py:105-108 | `__a` raises `ValueError` |
| Vars.GetTupleParts | UGFlib/RooFit/pdf.py:103-114 | for a `__`-joined name, the tuple holds the parts' variables in order, or `KeyError` of the first unregistered part |
| Vars.AssignedDistinct | UGFlib/RooFit/pdf.py:205-206 | with no repeated variable, each variable gets the element at its own position |
| Vars.SetVals | UGFlib/RooFit/pdf.py:202-206 | a length mismatch raises `IndexError` and changes nothing; otherwise each variable takes the value at its last position in the tuple, and flags are kept |
| Vars.SetConstantAll | UGFlib/RooFit/pdf.py:190-193 | a bool fixes or frees every variable; values are kept |
| Vars.SetConstantEach | UGFlib/RooFit/pdf.py:194-198 | a length mismatch raises `IndexError` and changes nothing; otherwise each flag is the truth of its element, and values are kept |
| Pdfs.PyIndexConcat | UGFlib/RooFit/pdf.py:240-246 | indexing a concatenation reaches the first list's elements, then the second's |
| Pdfs.ExtendedPdf.constructor | UGFlib/RooFit/pdf.py:238-239 | the new sum holds the given terms |
| Pdfs.ExtendedPdf.Plus | UGFlib/RooFit/pdf.py:240-241 | `a + b` is a fresh sum with `a`'s terms then `b`'s, and both operands are unchanged |
| Pdfs.ExtendedPdf.PlusAssign | UGFlib/RooFit/pdf.py:242-244 | `a += b` appends `b`'s terms to `a` in place, including when `b` is `a` |
| Pdfs.ExtendedPdf.Get | UGFlib/RooFit/pdf.py:245-246 | `a[i]` succeeds exactly for `-len <= i < len`, giving one of the terms of the sum; otherwise `IndexError`; PyIndexConcat says which operand the term comes from for a sum built by `+` |
| Pdfs.ComponentIndex | UGFlib/RooFit/pdf.py:280-285 | a string is kept as it is; a tuple of strings is joined with commas; any other index, or a tuple holding a non-string, raises `TypeError` |
| Pdfs.ComponentsRoundTrip | UGFlib/RooFit/pdf.py:282-283 | a non-empty tuple of comma-free names splits back into those names |
| Pdfs.AddPdf | UGFlib/RooFit/pdf.py:299-303 | `ValueError("Pdf name repeated")` exactly for a registered name; otherwise the name is added and every earlier entry is kept |
| Pdfs.FirstRegistrationWins | UGFlib/RooFit/pdf.py:299-303 | over any run of constructions every name gets registered, and each name keeps its first density |
| Pdfs.AddAll | UGFlib/RooFit/pdf.py:299-303 | the registry after a run of constructions, each repeated name refused; FirstRegistrationWins states its result |
| Pdfs.PdfRegistry.Register | UGFlib/RooFit/pdf.py:292-303 | a non-variable observable raises `TypeError`, and a repeated name `ValueError`, with the registry unchanged; otherwise the name is added and `Pdf.get` returns the new density, with every other name reading as before |
| Pdfs.BindArguments | UGFlib/RooFit/pdf.py:320-339 | the popping loop computes `Bind`: positional, else keyword, else `_init` keyword, else fresh variable; then the name; leftovers raise `TypeError` |
| Pdfs.BindParamsSources | UGFlib/RooFit/pdf.py:323-331 | when no two parameters share a name and none is named as the `_init` form of another, parameter `k` takes the `k`-th positional, else its keyword, else its `_init` keyword (marked as an initial value), else a fresh variable; the positionals beyond the parameters are left over |
| Pdfs.MixedCallExample | UGFlib/RooFit/pdf.py:320-339 | for `mean`, `sigma`, `frac` called with one positional and `sigma_init`: the positional binds `mean`, the initial value `sigma`, `frac` gets a fresh variable, and the name is generated |
| Pdfs.BindOne | UGFlib/RooFit/pdf.py:323-331 | one round of the parameter loop; BindParamsSources states what the whole loop gives each parameter |
| Pdfs.BindName | UGFlib/RooFit/pdf.py:332-337 | the name: a leftover leading string positional, else the `name` keyword, else generated; KeywordCall and MixedCallExample show it generated |
| Pdfs.Bind | UGFlib/RooFit/pdf.py:320-339 | the whole binding, with `TypeError` for anything left over; ExtraPositionalRejected, UnknownKeywordRejected, KeywordCall and MixedCallExample state its results |
| Pdfs.PositionalsFirst | UGFlib/RooFit/pdf.py:323-325 | with enough positionals, parameter `k` takes positional `k`, and keywords are untouched |
| Pdfs.ExtraPositionalRejected | UGFlib/RooFit/pdf.py:332-339 | a surplus positional that is not a string raises `TypeError` |
| Pdfs.UnknownKeywordKept | UGFlib/RooFit/pdf.py:323-331 | a keyword naming no parameter and no `_init` form survives the parameter loop |
| Pdfs.UnknownKeywordRejected | UGFlib/RooFit/pdf.py:332-339 | any call with such a keyword, other than `name`, raises `TypeError` |
| Pdfs.AllByKeyword | UGFlib/RooFit/pdf.py:326-327 | with no positionals and every parameter given as a keyword, each parameter takes its keyword and those keywords are consumed |
| Pdfs.KeywordCall | UGFlib/RooFit/pdf.py:320-339 | exactly the parameters as keywords binds each to its keyword under a generated name |

## Left out

- `_Likelihood.conv`, `save` and `plot` are not part of this model. They are Gaussian smearing in floating point, and file and canvas output.
- `significance`, `getPull`, `getResidue`, `FOM`, `FormatData`, the axis helpers, `RedArrow`/`RedLine` and `_color.Stack` are not part of this model. They are ROOT statistics and styling.
- Pen values: the ROOT option objects `_color` returns are modelled as a `Pen` datatype of style and colour.
- The fit: `model.fitTo(...).minNll()` is a function of the scan value (`Fitter.fit`, and `Fitter.refit` after the initialiser). So the model does not capture fit state carried from one step to the next. It also does not capture the effect of `must_init`, or of `init()` on later fits.
- Output: the `prnt` and `extra_plot` callbacks are left out. With `prnt` given and an ignored first scan value, `prnt((i, nll))` raises `UnboundLocalError`: the scan then stops, returns no curve and leaves the parameter constant. The model, which has no `prnt`, does not capture this abort.
- Numbers: the model does not capture `float` rounding, `Decimal` contexts, or the string formatting of numbers. `__str__` takes the two formatters as parameters: `showKey` for the `Decimal` keys and `showVal` for the `float` likelihoods, which Python formats differently. The text round trip assumes that each writes a numeral the line pattern reads back.
- Regular expressions: `\d` is taken as an ASCII digit. Unicode digits are not modelled.
- `more_itertools.windowed` is modelled as the version that pads short input with `None`. With one or two records, the unpacking then raises `TypeError`.
- Likelihood.Curve.Enlong: requires a positive inferred step whenever padding is due. With a non-positive step, the Python loop never ends.
- ProfileScan.Scan: requires a positive step whenever `max > 0`, for the same reason.
- ProfileScan.Scan: an ignored or refitted point recorded with an integer `(0, 0)` is not distinguished from `(0.0, 0.0)`.
- `_change`, `Var.__init__` and the variable created for a missing parameter are left out. Bind reports where each parameter comes from (positional, keyword, `_init` keyword or a fresh variable), not the `Var` built from it.
- Pdfs.Bind: accepts every argument value. `_change` raises `TypeError` for an argument that is not a string, a number or a variable (pdf.py:148-149); the model does not, so `Bind(["mean"], [Tuple([])], map[])` is `Ok`. The variables registered before a later error are not modelled either.
- Pdfs.PdfRegistry.Register: the observable check is a flag saying whether `X` is a variable. ROOT's class tests are not modelled.
- Pdfs.ExtendedPdf.Get: slice indices are not modelled, only integer ones.
- `VarTuple` elements given a non-bool, non-sequence `t` would raise `TypeError` from `len`. This is not modelled.
- The metaclass `__getattr__`/`__setattr__` forwarding and `Var.tuple` attribute access are not part of this model. They are sugar over `get`, `get_tuple` and `setVal`.
- All ROOT object construction is left out: `RooRealVar`, `RooAddPdf`, `plotOn`, and the others.
