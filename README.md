# TRIS ledger update and similar numbers, in Dafny

This project models two parts of a small dashboard for the Mexican lottery
game TRIS.

- **Ledger update** (`actualizar_tris.py`). The official results file is
  normalised into ledger rows, as `normalizar_csv` does:
  - the product code `NPRODUCTO = 60`;
  - the winning combination left-padded to five characters with `zfill(5)` and split into the digit columns `R1`..`R5`;
  - the multiplier flag upper-cased, with the accented `SÍ` folded to `SI`.

  The local ledger's high-water mark is then computed: the largest `CONCURSO`, or 0 when there is no ledger file or it has no rows (corrected mark, see Findings). Only official drawings above that mark are appended. The result is sorted by `CONCURSO`, descending. When nothing is above the mark, nothing is written.
- **Similar numbers** (`app.py`). `generar_similares_inteligentes` builds
  up to five values close to a selected number:
  1. the rearrangements of its digits other than itself, in the iteration order of a Python set;
  2. while fewer than five, the lower and upper neighbours, zero-filled to the input's width;
  3. while fewer than five, `"0" + num` and `num + "0"`;
  4. deduplicated in first-seen order and cut to five.

  For each of these values the panel shows one of two rows:
  - the number of records, the latest date and the number of drawings since it last came out;
  - a "never" row.

Modules:
- `Wrappers`: `Option` and `Result`.
- `Text`: digit strings, Python's `str` of an integer, and `str.zfill`.
- `Seqs`: duplicate-free sequences, `dict.fromkeys` deduplication, taking a prefix, and the maximum.
- `TrisUpdate`: `actualizar_tris.py`.
- `SimilarNumbers`: `app.py`.

The loops of the source are methods proved against specification functions:
- `NormalizeCsv` against `NormalizeAll`: the column-wise assignments of `normalizar_csv` are modelled as a loop over rows;
- `TakeFromSet` and `GenerateSimilar` against `SimilarFrom`;
- `SimilarTable` against `StatFor`.

The iteration order of the permutation set is not known: the method picks elements nondeterministically. Its contract states that the result is `SimilarFrom(order, num)` for some enumeration `order` of the set. Every lemma about `SimilarFrom` holds for every such order.

`pandas.sort_values` is not stable, so the merged ledger is specified as a relation, `IsMergeOf`: any ordering of the local rows plus the accepted rows that is sorted by `CONCURSO`, descending. The lemmas about the update are stated over every table that satisfies it.

The neighbours are n−1 and n+1, zero-filled to the selection's width and not clipped. For an all-zero selection the lower neighbour is `-1`, zero-filled after the sign: `"000"` gives `"-01"`.

## Model

| member | source | states |
|---|---|---|
| Text.Value | app.py:22 | `int(num)` of a string of k digits, leading zeros allowed, is a number below 10^k |
| Text.ZFill | actualizar_tris.py:48 | the result has length max(len, width) |
| Text.ZFillShape | actualizar_tris.py:48 | a string already `width` long is unchanged; otherwise it ends the result behind '0's, or a leading '+' or '-' stays in front of the '0's |
| Text.ZFillDigits | actualizar_tris.py:48 | zero-filling a digit string keeps it a digit string with the same value |
| Text.IntToString | app.py:24-26 | Python's `str(n)`: a '-' exactly for negative n, followed by the numeral of the absolute value, with no leading zero |
| Text.NatToString | app.py:24-26 | the decimal numeral of n, with no leading zero, whose value is n |
| Text.NatToStringLength | actualizar_tris.py:48 | a number below 10^k is written with at most k digits, so `zfill(5)` of a number up to 99999 is exactly five characters |
| Seqs.Dedup | app.py:35 | `dict.fromkeys`: the result has no duplicates and the same members as the input |
| Seqs.DedupFirstSeenOrder | app.py:35 | deduplication keeps values in the order of their first occurrence |
| Seqs.DedupPrefix | app.py:35 | deduplicating a longer list extends the deduplication of its prefix |
| Seqs.Max | actualizar_tris.py:74 | `.max()` of a non-empty column: an element of it that no element exceeds (also `.max()` at app.py:49-50) |
| Seqs.Take | app.py:35 | `[:n]`: the result is the first min(n, len) elements |
| TrisUpdate.UpperChar | actualizar_tris.py:56 | defines the upper-casing of one character: ASCII a–z and Latin-1 à–þ (except ÷) shift to their capitals; every other character is unchanged |
| TrisUpdate.Upper | actualizar_tris.py:56 | defines `str.upper()` as UpperChar applied to every character |
| TrisUpdate.NormalizeMultiplier | actualizar_tris.py:56 | the result is "SI" exactly when the upper-cased flag is "SI" or "SÍ"; otherwise it is the upper-cased flag |
| TrisUpdate.NormalizeMultiplierIdempotent | actualizar_tris.py:56 | normalising the flag twice is the same as normalising it once |
| TrisUpdate.MultiplierSpellings | actualizar_tris.py:56 | "sí", "Sí" and "si" become "SI"; "No" becomes "NO" |
| TrisUpdate.NormalizeRow | actualizar_tris.py:46-56 | a row normalises exactly when the first five characters of the zero-filled combination are digits |
| TrisUpdate.NormalizeRowColumns | actualizar_tris.py:46-56 | a normalised row has NPRODUCTO 60, the row's CONCURSO, FECHA and normalised flag, and R1..R5 equal to the digits of the padded combination |
| TrisUpdate.PadSplitRoundTrip | actualizar_tris.py:48-54 | for a numeral of at most five digits, reassembling R1..R5 gives back the numeral zero-filled to five |
| TrisUpdate.CombinationColumnsValue | actualizar_tris.py:48-54 | for a combination n ≤ 99999 written in decimal, 10000·R1 + 1000·R2 + 100·R3 + 10·R4 + R5 = n |
| TrisUpdate.NormalizeAll | actualizar_tris.py:36-66 | defines the normalised table: every row normalised, in order, or failure when any row's combination is not numeric |
| TrisUpdate.NormalizeCsv | actualizar_tris.py:36-66 | the column-wise assignments of `normalizar_csv`, modelled as a loop over rows, give the row-by-row specification: it fails exactly when some row fails, and otherwise gives the normalised rows in order |
| TrisUpdate.NormalizeAllRows | actualizar_tris.py:46-66 | normalising the table succeeds exactly when every row normalises; on success every row has NPRODUCTO 60, keeps its CONCURSO, and has digit columns |
| TrisUpdate.HighWaterMark | actualizar_tris.py:72-78 | 0 without local rows; otherwise a CONCURSO present in the ledger and at least every CONCURSO in it |
| TrisUpdate.Accepted | actualizar_tris.py:86 | an official drawing is accepted exactly when its CONCURSO is above the mark; each accepted row is kept as often as it occurs |
| TrisUpdate.IsMergeOf | actualizar_tris.py:94-95 | defines what concat-then-sort may produce: the local and accepted rows, each as often, sorted by CONCURSO, descending, in any order among equal keys |
| TrisUpdate.InsertDesc | actualizar_tris.py:95 | inserting into a table sorted by CONCURSO, descending, keeps it sorted and adds exactly that row |
| TrisUpdate.SortDesc | actualizar_tris.py:95 | the result is sorted by CONCURSO, descending, and is a permutation of the input |
| TrisUpdate.IsUpdate | actualizar_tris.py:86-95 | defines the allowed outcomes: nothing written when no official drawing is above the mark, otherwise a merge of the local rows with the accepted rows |
| TrisUpdate.Update | actualizar_tris.py:86-95 | computes an outcome allowed by the update relation: nothing new, or a sorted merge of the local and the accepted rows (corrected mark, see Findings) |
| TrisUpdate.UpdateLedger | actualizar_tris.py:69-98 | fails exactly when the official file does not normalise; otherwise its outcome is a valid update of the ledger with the normalised official rows (corrected mark, see Findings) |
| TrisUpdate.WritesIffNewerRow | actualizar_tris.py:86-90 | the ledger is written exactly when some official drawing is above the high-water mark |
| TrisUpdate.LocalRowsKept | actualizar_tris.py:94-95 | every local row survives the update; the new ledger is sorted, descending; its size is the local rows plus the accepted rows |
| TrisUpdate.OnlyNewerRowsEnter | actualizar_tris.py:86-95 | a row of the new ledger is a local row or an official drawing above the mark; every official drawing above the mark is in it |
| TrisUpdate.BackfillDropped | actualizar_tris.py:86 | an official drawing at or below the mark that is not already local never enters the ledger |
| TrisUpdate.RerunAcceptsNothing | actualizar_tris.py:72-86 | after a write the mark strictly rises, and the same official file offers no drawing above the new mark |
| TrisUpdate.RerunWritesNothing | actualizar_tris.py:86-90 | running the update again on the written ledger with the same official file writes nothing |
| TrisUpdate.AcceptsOnlyAboveMarkExample | actualizar_tris.py:74-86 | a ledger at 35000 offered 35001 and 34000 accepts only 35001 |
| TrisUpdate.HighWaterMarkAsWritten | actualizar_tris.py:72-78 | `.max()` as written: undefined (NaN) exactly when the ledger file exists with no rows; the corrected mark otherwise |
| TrisUpdate.AcceptedAsWritten | actualizar_tris.py:86 | the mask as written, compared row by row (a comparison with NaN is false): with a NaN mark no drawing is kept; with a number it is the corrected filter |
| TrisUpdate.EmptyLedgerFileNeverGrows | actualizar_tris.py:72-90 | with an empty ledger file, drawing 1 is rejected as written, but is accepted and written by the corrected model |
| SimilarNumbers.Permutations | app.py:12-14 | defines the set of all arrangements of a string's characters, built by choosing each first character in turn |
| SimilarNumbers.OtherPermutations | app.py:12-15 | defines the arrangements other than the selection itself (`perms.discard(num)`) |
| SimilarNumbers.PermutationsAreRearrangements | app.py:12-14 | a string is a permutation of s exactly when it has the characters of s, each as often |
| SimilarNumbers.PermutationIsRearrangement | app.py:12-14 | every permutation of s has the characters of s, each as often |
| SimilarNumbers.RearrangementIsPermutation | app.py:12-14 | every string with the characters of s, each as often, is produced by `permutations` |
| SimilarNumbers.SingleDigitPermutations | app.py:12-15 | a single digit has no permutation other than itself |
| SimilarNumbers.SingleDigitHasNoOtherPermutation | app.py:12-19 | for a single digit, the walk over the permutations contributes nothing |
| SimilarNumbers.TakeFromSet | app.py:17-19 | the loop over the set takes the first five elements of some enumeration of the set |
| SimilarNumbers.Fillers | app.py:22-32 | defines the four fillers in the order tried: n−1 and n+1 as `str(...).zfill(len(num))`, then "0"+num and num+"0" |
| SimilarNumbers.OtherPermutationShape | app.py:12-15 | another arrangement of the selection has its length and its digits, each as often, and is not the selection |
| SimilarNumbers.AppendWhileShort | app.py:23-32 | appending the four fillers while shorter than five gives the list followed by as many fillers as leave at most five |
| SimilarNumbers.AppendFillers | app.py:21-32 | the neighbour and zero steps extend the list by the first fillers (n−1, n+1, "0"+num, num+"0") up to five entries |
| SimilarNumbers.Candidates | app.py:17-32 | the guarded appends give the first five permutations followed by as many fillers (n−1, n+1, "0"+num, num+"0") as leave at most five |
| SimilarNumbers.NeighbourDiffers | app.py:24-26 | a neighbour of a different value, zero-filled to the selection's width, is never the selection |
| SimilarNumbers.FillersDifferFromInput | app.py:22-32 | no filler equals the selected number |
| SimilarNumbers.LowerNeighbourOfZero | app.py:24 | for an all-zero selection the lower neighbour is '-', then '0's, then '1', with the input's width (at least 2) |
| SimilarNumbers.SimilarFrom | app.py:6-37 | defines the generator's result for a given iteration order of the permutation set: the candidates deduplicated in first-seen order and cut to five |
| SimilarNumbers.DedupCutShape | app.py:35 | deduplicating and cutting to five keeps a leading run of at most five distinct values whole, and takes the rest only from what follows |
| SimilarNumbers.SimilarBounded | app.py:6-37 | the result has at most five entries, no duplicates, and never the selected number |
| SimilarNumbers.SimilarStartsWithPermutations | app.py:17-35 | deduplication keeps the permutations taken from the set, in order, at the front |
| SimilarNumbers.PermutationsFirst | app.py:12-35 | the leading entries are rearrangements of the selection's digits, of its length, other than itself |
| SimilarNumbers.ManyPermutations | app.py:17-35 | with at least five other permutations the result is exactly the first five, and no filler is used |
| SimilarNumbers.FewPermutations | app.py:17-35 | with fewer than five, all permutations come first and every later entry is a filler |
| SimilarNumbers.FillersOfFive | app.py:22-32 | the fillers of "5" are "4", "6", "05", "50" |
| SimilarNumbers.SimilarOfFive | app.py:6-37 | "5" gives ["4", "6", "05", "50"] |
| SimilarNumbers.FillersOfZero | app.py:22-32 | the fillers of "0" are "-1", "1", "00", "00" |
| SimilarNumbers.SimilarOfZero | app.py:6-37 | "0" gives ["-1", "1", "00"]: "00" occurs twice among the fillers and is kept once |
| SimilarNumbers.GenerateSimilar | app.py:6-37 | the result is the specification's list for some iteration order of the permutation set; it has at most five entries, no duplicates, and not the selection |
| SimilarNumbers.Matches | app.py:44 | the records of a value are exactly those whose JUGADA is it, as many as it occurs |
| SimilarNumbers.StatFor | app.py:44-60 | defines one table row: "never" when no record has the value; otherwise the record count, the latest FECHA of its records, and the latest CONCURSO overall minus the latest CONCURSO of its records |
| SimilarNumbers.StatForNever | app.py:43-60 | each row names its value; a value gets the "never" row exactly when no record has it |
| SimilarNumbers.StatForCount | app.py:48 | Apariciones is the number of records of the value, at least 1 |
| SimilarNumbers.StatForLastDate | app.py:49 | the last date is the date of a record of the value, and no record of it is later |
| SimilarNumbers.StatForGap | app.py:50 | drawings since last seen is the CONCURSO of a record no record exceeds, minus the CONCURSO of a record of the value no record of it exceeds; it is never negative |
| SimilarNumbers.LatestConcurso | app.py:50 | a non-empty record set has a record with the largest CONCURSO |
| SimilarNumbers.SimilarTable | app.py:43-60 | one row per similar value, in order, each the statistics of that value |
| SimilarNumbers.SimilarPanel | app.py:39-62 | a table appears exactly for a selection of digits; for some iteration order of the permutation set it has one row per value of the generator's result, in order, each the statistics of that value; so at most five rows, with distinct values other than the selection |

## Left out

- Downloading the official file through a headless browser (actualizar_tris.py:8-33) is not modelled. The normalised official rows are a parameter.
- Reading and writing CSV files is not modelled. The local ledger is an `Option` of its rows: `None` when the file does not exist. A `Written` outcome is what `to_csv` stores.
- A zero-byte local file, which makes `read_csv` raise, is not modelled.
- Console messages are not modelled.
- Stripping and renaming columns (actualizar_tris.py:39-44) is not modelled. Rows are records with named fields.
- TrisUpdate.NormalizeRow: `astype(str)` of a numeric or missing combination (floats, `nan`) is not modelled. The combination is taken as the string pandas produces.
- The digit columns accept only ASCII digits. Other Unicode decimal digits that `int()` accepts are not modelled.
- TrisUpdate.NormalizeMultiplier: upper-casing covers ASCII and Latin-1 letters only. Other Unicode case mappings are not modelled, including ß → SS and ÿ → Ÿ, which leaves Latin-1. Those characters are kept unchanged.
- NormalizeError: pandas reports the first bad column rather than the first bad row. The model has a single error value.
- Columns of the local ledger that `concat` carries over are not modelled beyond the ledger-row fields.
- TrisUpdate.SortDesc: the order among rows with the same CONCURSO is left open: `IsMergeOf` allows any.
- SimilarNumbers.SimilarPanel: the selection is a digit string of ASCII digits only. Unicode digits that `str.isdigit` accepts are not modelled.
- The page-level state (`seleccion`, `df_modalidad`, `total_sorteos`) is a parameter of the model. The Streamlit rendering is not modelled.
- The "Promedio" column (app.py:51) is a rounded floating-point division and is not modelled.
- Dates are modelled as integers ordered like the calendar. `.date()` is not modelled.
- In the "never" row the text placeholders ("Nunca", "N/A") are implied by the `Never` constructor.

## Findings

| source | as written | input that shows it | evidently intended | confidence | as-written member | corrected member |
|---|---|---|---|---|---|---|
| actualizar_tris.py:74,86 | when the local ledger file exists but has no rows, `max()` is NaN; every `CONCURSO > NaN` is false, so no drawing is ever accepted and the ledger never grows | a ledger file holding only its header, and an official file with drawing 1 | treat a ledger without rows like a missing ledger, with mark 0 | not executed | TrisUpdate.EmptyLedgerFileNeverGrows | TrisUpdate.HighWaterMark |
