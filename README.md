# rfdash inventory reconciliation, modelled in Dafny

rfdash is a Streamlit dashboard that compares an expected-stock file with an
RFID counting file. This project models the logic between the file readers
and the user interface, in both revisions of the code: `utils/config.py`
(current) and `rfdash.py` (older). The two revisions are modelled
separately wherever they differ.

- **Header handling** (`ConfigHeaders`, `RfdashUpload`).
  - Both revisions' `normalize_column_names`.
  - The suggestion of the EAN and stock columns from fixed candidate sets (`suggest_expected_mapping` over `_original_to_normalized_map`).
  - `standardize_expected_df`.
- **Counting files** (`ConfigUpload`, `RfdashUpload`).
  - The counting branch of `process_upload` in each revision, from the already-split cells on.
  - In `rfdash.py`, the reading step as well: which formats have a header, the header normalisation, and the required-column check for expected-stock files.
- **Reconciliation** (`Reconciliation`, `RfdashReconcile`).
  - `calculate_discrepancies`: group the counted rows by EAN and sum them. Outer-join the sums with the expected rows. Read missing or unreadable quantities as 0. Derive `DIVERGÊNCIA` and `PEÇAS A SEREM RELIDAS`.
  - The current revision works on copies, so it is a function (`Reconcile`).
  - The older revision changes the caller's frames in place, so it is a method on `Frame` objects (`CalculateDiscrepancies`). It is proved to return the same table, to fail on the same inputs with the errors in its own order, and to leave the frames in the stated state.
- **Views and totals** (`ConfigViews`, `Metrics`).
  - The quick filter and the STATUS column.
  - The totals of `show_summary`.
  - The dynamic summary of `rfdash.py` (totals, accuracy, percentages), in exact rational arithmetic.
- **Text helpers** (`ConfigText`).
  - The encoding fallback of `_read_text_with_fallback`.
  - The delimiter count of `_fallback_sep`.
  - `_clean_status_for_pdf`.

A data frame is a `TableData` of named columns over rectangular rows of cells. A cell is a text, an integer or a missing value (NaN). Columns are positional, so a table may hold two columns of the same name, and a lookup by name reads the first one. `Frames.Frame` is a mutable frame whose methods (`Assign`, `Rename`, `Keep`) stand for pandas' in-place column assignments.

Library calls the code depends on are parameters of the model, each with the assumption it needs:

- `unidecode` is any `Text.Transliterator`: its output is ASCII, and it leaves ASCII text unchanged.
- `pd.to_numeric` is any `Frames.NumberParser`, a function from text to an optional real. The truncation of `astype(int)` toward zero is written out (`Frames.Trunc`) on unbounded integers; pandas' 64-bit width is not modelled (see `Frames.Trunc` under Left out).
- `str.upper` in `_clean_status_for_pdf` is any `ConfigText.CaseMap` that upper-cases ASCII text as Python does. Elsewhere, upper-casing is applied only to ASCII text and is exact.
- `bytes.decode` is a `ConfigText.Decoder`: a partial function from an encoding name and bytes to text.
- The lenient latin1 decode is a parameter.
- The file extension is a parameter.
- Whitespace (`str.strip`, `\s`) is the concrete set of code points that Python's `str.isspace` accepts.

Facts about the code that a reader might not expect, each with the lemma that states it:

- **Header synonyms.** Headers "Cod Barras" and "Saldo Atual" resolve only the EAN role. "Saldo Atual" normalises to `SALDO_ATUAL`, which is not a stock candidate, and matching is exact (`ConfigHeaders.CodBarrasSaldoAtual`).
- **Unreadable quantities.** `utils/config.py` counts an unreadable quantity as 1 (`ConfigUpload.CountQuantity`), and `rfdash.py` counts it as 0 (`RfdashUpload.Quantity0`).
- **Column count of a counting file.** `utils/config.py` keeps the first two columns of a counting file with three or more (`ConfigUpload.CountingTable`), and `rfdash.py` rejects such a file (`RfdashUpload.CountingFrame`).
- **Header line of a counting `.csv`.** `rfdash.py` reads a counting `.csv` with a header, so its first line is not counted (`RfdashUpload.CsvCountLosesFirstLine`).
- **Recount rule.** The recount quantity is 0 exactly when the divergence is 0 only for non-negative quantities (`Metrics.RecountZeroIff`). A negative stock is not rejected, and a stock of -2 with a count of 0 diverges but asks for no recount (`Metrics.RecountNegativeStock`).
- **Conservation.** A key's full count is repeated on each expected row that shares the key (`Reconciliation.RepeatedKeyCounts`). The divergences sum to total counted − total expected only when the expected keys are unique (`Reconciliation.CountedTotal`, `Reconciliation.NetDivergenceConserved`).
- **Missing key column.** `calculate_discrepancies` returns an empty table, not an error, when either frame lacks EAN (`Reconciliation.Reconcile`).
- **Check order.** The two revisions fail on the same inputs, but `rfdash.py` reads the merged CONTAGEM before it converts ESTOQUE. So an expected frame with both a CONTAGEM column and a repeated ESTOQUE gives a KeyError there and a repeated-column error in `utils/config.py` (`RfdashReconcile.Discrepancies`, `RfdashReconcile.CheckOrderDiffers`).

## Model

| member | source | states |
|---|---|---|
| ConfigHeaders.NormalizeHeader | utils/config.py:66-68 | every normalised name is canonical: upper-case ASCII letters, digits and underscores, no doubled underscore, none at either end |
| ConfigHeaders.NormalizeCanonical | utils/config.py:66-68 | a canonical name is its own normal form, so the normal forms are exactly the canonical names |
| ConfigHeaders.NormalizeIdempotent | utils/config.py:66-68 | normalising a normalised name changes nothing |
| ConfigHeaders.NormalizeTwoWords | utils/config.py:66-68 | two words of ASCII letters separated by a space become the upper-cased words joined by one underscore |
| ConfigHeaders.NormalizeEntry | utils/config.py:63-69 | a missing (None) name stays missing; any other name becomes a canonical name |
| ConfigHeaders.NormalizeColumnNames | utils/config.py:56-70 | the loop returns one entry per input, and each entry is the normal form of the input at the same position |
| ConfigHeaders.NormValues | utils/config.py:773-775 | the values of to_norm: one normalised name per distinct original name, in order of first appearance (Seqs.Distinct orders by first occurrence); a name is among them exactly when some header normalises to it |
| ConfigHeaders.ToOrig | utils/config.py:776 | to_orig[n] is an original name whose normal form is n, and no later header normalises to n (later keys of the dict overwrite earlier ones); it is None exactly when no name normalises to n |
| ConfigHeaders.FirstIn | utils/config.py:795-799 | the first normalised name in scan order that is a candidate: it is in the sequence and a candidate, nothing before its first occurrence is a candidate, and it is None exactly when nothing is |
| Seqs.Distinct | utils/config.py:773-775 | the distinct elements, each once, in order of first occurrence |
| ConfigHeaders.PickStep | utils/config.py:795-799 | one scan step: a pick already made stays; otherwise the current name is picked when it is a candidate |
| ConfigHeaders.ScanCandidates | utils/config.py:794-800 | the scan loop returns the first EAN candidate and the first stock candidate, each mapped back to its original header |
| ConfigHeaders.SuggestExpectedMapping | utils/config.py:789-800 | suggest_expected_mapping returns the suggestion Suggest describes |
| ConfigHeaders.SuggestSpec | utils/config.py:780-800 | a suggested column exists and normalises into its role's set; a role gets None exactly when no header normalises into its set |
| ConfigHeaders.AccentedCandidatesUnreachable | utils/config.py:780-787 | no normalised name equals the accented candidates CÓDIGO_DE_BARRAS or DISPONÍVEL |
| ConfigHeaders.CodBarrasSaldoAtual | utils/config.py:780-800 | headers "Cod Barras" and "Saldo Atual" give an EAN suggestion and no stock suggestion |
| ConfigHeaders.StandardizeExpected | utils/config.py:825-840 | ValueError exactly when a role is missing from the mapping; a second ValueError exactly when a chosen column is absent; success exactly when, after the rename, EAN and ESTOQUE each name one column; the result has the renamed columns and every row |
| ConfigHeaders.RenamedLookup | utils/config.py:837 | after renaming two different chosen columns, EAN and ESTOQUE read the chosen columns and every untouched column reads as before |
| ConfigHeaders.StandardizedLookup | utils/config.py:838-839 | after the rename, EAN holds stripped text and ESTOQUE holds the stock as an integer (0 when missing or unreadable); other columns are unchanged |
| ConfigHeaders.StandardizeContents | utils/config.py:837-839 | each row of a standardised frame holds the stripped chosen key, the chosen stock as an integer, and every other column unchanged |
| ConfigHeaders.StandardizeSameSource | utils/config.py:837-838 | choosing one column for both roles renames it to ESTOQUE only, so reading EAN fails unless another column already has that name |
| ConfigText.FirstSuccess | utils/config.py:121-125 | the position of the first encoding that decodes the bytes; every earlier encoding fails |
| ConfigText.FirstSuccessAt | utils/config.py:121-125 | the first success is the only position before which everything fails and at which decoding succeeds |
| ConfigText.ReadTextWithFallback | utils/config.py:115-126 | returns the text and name of the first encoding that decodes; when all fail, returns the lenient decode labelled latin1(ignore) |
| ConfigText.LenientUnreachable | utils/config.py:113-126 | when latin1 never fails, the lenient fallback is never reached and the encoding used is utf-8, utf-8-sig or latin1 |
| ConfigText.FirstMax | utils/config.py:130 | max with a key returns a maximal element, and every element before it scores strictly less |
| ConfigText.FallbackSep | utils/config.py:128-130 | the result is one of comma, semicolon, tab and pipe; a comma for an empty sample; otherwise the most frequent of them, with ties going to the earliest in the list |
| ConfigText.FallbackSepGuardRedundant | utils/config.py:130 | on an empty sample the count-based choice would also give the comma |
| ConfigText.ReplaceEach | utils/config.py:526-527 | the replacement loop applies the replacements in dictionary order |
| ConfigText.ReplaceAllSpec | utils/config.py:520-527 | after the replacements no symbol key is left; a text without keys is unchanged |
| ConfigText.CollapseStripSpec | utils/config.py:530 | whitespace runs become single spaces, and neither end is whitespace |
| ConfigText.NormalizedIsNormal | utils/config.py:526-530 | the replacements and whitespace rule give a normal text: no symbol, single inner spaces, no outer whitespace |
| ConfigText.NormalizedNormal | utils/config.py:526-530 | a normal text is left unchanged by the replacements and the whitespace rule |
| ConfigText.CleanStatusForPdf | utils/config.py:513-538 | the method computes the cleaning CleanStatus describes, None and the empty text included |
| ConfigText.CleanStatusSpec | utils/config.py:518-538 | the cleaned status is "+ SOBRA", "- FALTA" or "OK", or else the normalised text itself |
| ConfigText.CleanStatusIdempotent | utils/config.py:513-538 | cleaning a cleaned status changes nothing |
| ConfigText.CanonicalFixed | utils/config.py:531-538 | the prefix rule applied to a normal text gives a text that cleans to itself |
| ConfigText.SobraFixed | utils/config.py:531-538 | "+ SOBRA" cleans to itself |
| ConfigText.FaltaFixed | utils/config.py:531-538 | "- FALTA" cleans to itself |
| ConfigText.OkFixed | utils/config.py:531-538 | "OK" cleans to itself |
| ConfigUpload.CountQuantity | utils/config.py:192-196 | a two-column quantity is the text with comma read as dot, parsed and truncated toward zero; a missing or unreadable quantity counts 1 |
| ConfigUpload.CountingTable | utils/config.py:169-205 | an extension other than txt or csv is refused; a file of no columns is refused; otherwise the result has columns EAN and CONTAGEM and one row per line |
| ConfigUpload.ReadCounting | utils/config.py:184-202 | the in-place column assignments of the counting branch give the table CountingTable describes |
| ConfigUpload.CountedKeysStripped | utils/config.py:201 | each key is the stripped text of the first cell, with no whitespace at either end |
| ConfigUpload.OneColumnCountsOne | utils/config.py:184-187 | with one column, every line counts 1 |
| ConfigUpload.TwoColumnsQuantity | utils/config.py:188-196 | with two or more columns, CONTAGEM is the second cell with comma read as dot, truncated; missing or unreadable counts 1 |
| ConfigUpload.NoCommaParsed | utils/config.py:193 | the text handed to the number parser never holds a comma |
| ConfigUpload.OneColumnGroupCounts | utils/config.py:184-187 | with one column, the per-key sum that calculate_discrepancies takes is the number of lines with that key |
| ConfigViews.Kept | utils/config.py:276-281 | the filtered table keeps the columns and a subsequence of the rows, in order |
| ConfigViews.QuickFilter | utils/config.py:269-282 | the result is present exactly when the input is; it has the input's columns and a subsequence of its rows; a None or empty table, a table without DIVERGÊNCIA, or the mode Tudo (or any unknown mode) returns the input unchanged |
| ConfigViews.QuickFilterCount | utils/config.py:276-281 | a row is kept as often as it occurs in the input when its DIVERGÊNCIA passes the lens's comparison, and never otherwise |
| ConfigViews.SurplusShortfallPartition | utils/config.py:276-281 | with integer divergences, Sobra and Falta share no row and together hold exactly the rows of Divergências |
| ConfigViews.StatusLabel | utils/config.py:262 | SOBRA exactly when the divergence is above 0; FALTA exactly when it is below 0; OK otherwise |
| ConfigViews.AddStatusColumn | utils/config.py:260-267 | assigns STATUS in place from DIVERGÊNCIA, else from DIVERGENCIA, else "N/A" |
| ConfigViews.StatusMatchesFilter | utils/config.py:260-282 | SOBRA rows are the Sobra rows and FALTA rows the Falta rows; with integer divergences, OK rows are exactly those Divergências drops |
| ConfigViews.MissingDivergence | utils/config.py:262-277 | a missing divergence is labelled OK and is still kept by Divergências |
| ConfigViews.StatusInPdf | utils/config.py:513-538 | the PDF cleaning turns each STATUS label into + SOBRA, - FALTA or OK, matching the sign of the divergence |
| Frames.Trunc | utils/config.py:195 | astype(int) truncates toward zero on unbounded integers: the result lies within one of the value, on the value's side of zero (int64 range not modelled) |
| Frames.CoerceInt | utils/config.py:398-399 | to_numeric with coerce, then fillna and astype(int): an integer cell stays; a missing or unreadable cell gives the default; a readable text gives its truncation (on unbounded integers) |
| Metrics.RecountZeroIff | rfdash.py:425-427 | for non-negative quantities, nothing is recounted exactly when stock and count agree |
| Metrics.RecountNegativeStock | rfdash.py:425-427 | with a stock of -2 and a count of 0 the row diverges, yet the recount is 0 |
| Metrics.Surplus | rfdash.py:495 | the surplus is never negative |
| Metrics.Shortfall | rfdash.py:496 | the shortfall is never positive |
| Metrics.AbsDivergence | rfdash.py:497 | the absolute divergence is never negative |
| Metrics.AbsSplit | rfdash.py:495-497 | absolute divergence = surplus − shortfall |
| Metrics.SurplusPlusShortfall | rfdash.py:495-496 | surplus + shortfall = the net divergence |
| Metrics.NetDivergence | rfdash.py:493-497 | on rows of the discrepancy table, the net divergence and surplus + shortfall both equal total counted − total expected |
| Metrics.RecountOnlyDivergent | rfdash.py:498 | the recount summed over divergent rows only equals the recount summed over all rows |
| Metrics.NoDivergenceNoAbs | rfdash.py:497 | rows that all agree have no absolute divergence |
| Metrics.NoRecountWhenAgreeing | rfdash.py:498 | rows that all agree have nothing to recount |
| Metrics.Summary | utils/config.py:352-357 | the five cards: surplus ≥ 0, shortfall ≤ 0, absolute = surplus − shortfall |
| Metrics.Percentage | rfdash.py:513-522 | 0 when the total is 0; otherwise the value times the total is 100 times the part |
| Metrics.Accuracy | rfdash.py:507 | 0 when nothing was expected; otherwise accuracy × E = (E − absolute divergence) × 100; so exactly 100 with no divergence, and between 0 and 100 when the absolute divergence is at most E |
| Metrics.DynamicSummary | rfdash.py:492-523 | None exactly for an empty filtered table; otherwise the stock, counted, surplus, shortfall and recount figures are the sums over the rows, absolute = surplus − shortfall, the accuracy is Accuracy of the totals, and the surplus, shortfall (absolute value), absolute and recount percentages are each Percentage of the figure and the expected total |
| Metrics.PerfectInventory | rfdash.py:492-507 | when every filtered row agrees and something was expected, the accuracy is 100 and the recount is 0 |
| Reconciliation.Reconcile | utils/config.py:375-405 | an empty table when either side lacks EAN; otherwise, for counted quantities held as integer cells in one CONTAGEM column, a failure exactly when pandas raises (repeated EAN on either side, no CONTAGEM in the counted frame, repeated ESTOQUE, or CONTAGEM on both sides) |
| Reconciliation.JoinableSuccess | utils/config.py:383-397 | for counted quantities held as integer cells in one CONTAGEM column, the tables join, giving a table with columns, exactly when both have one EAN, the counted one has CONTAGEM, ESTOQUE is not repeated and the expected one has no CONTAGEM |
| Reconciliation.ReconcileColumns | utils/config.py:394-404 | a joined result keeps the expected columns and has EAN, ESTOQUE, CONTAGEM, DIVERGÊNCIA and PEÇAS A SEREM RELIDAS |
| Reconciliation.PrepareLookup | utils/config.py:389-395 | the prepared expected frame holds the key as text, and its stock reads as the expected quantity, 0 when ESTOQUE is absent |
| Reconciliation.MergeLookup | utils/config.py:397 | what each cell of the outer merge holds: an expected row extended by its key's summed count; a new key under EAN with missing cells and its count |
| Reconciliation.CoerceColumnLookup | utils/config.py:398-399 | coercing a column gives integer cells (0 for missing or unreadable) and leaves the other columns alone |
| Reconciliation.DivergenceStepLookup | utils/config.py:401 | DIVERGÊNCIA = CONTAGEM − ESTOQUE, other columns kept |
| Reconciliation.RecountStepLookup | utils/config.py:402-404 | PEÇAS A SEREM RELIDAS = max(ESTOQUE, CONTAGEM) when DIVERGÊNCIA ≠ 0, else 0; other columns kept |
| Reconciliation.DeriveLookup | utils/config.py:398-404 | after the four derived assignments, each row holds the coerced quantities, their difference and the recount; other columns are kept |
| Reconciliation.DeriveColumns | utils/config.py:398-404 | deriving keeps every column and adds at most the four it assigns |
| Reconciliation.Lines | utils/config.py:392-397 | the reference model of the result has one line per expected row plus one per counted key no expected row has |
| Reconciliation.LineRecord | utils/config.py:401-404 | every line's record satisfies the divergence and recount rules |
| Reconciliation.ReconcileRecords | utils/config.py:392-404 | the result, read as records, is the records of the reference lines, and every row obeys DIVERGÊNCIA = CONTAGEM − ESTOQUE and the recount rule |
| Reconciliation.ReconcileKeys | utils/config.py:397 | row i of the result has line i's key under EAN |
| Reconciliation.LinesCounted | utils/config.py:392-399 | every line carries its key's summed count, 0 for a key nobody counted |
| Reconciliation.KeyOccurrences | utils/config.py:392-397 | a key occurs in the result as often as among the expected rows, plus once when it was counted but not expected |
| Reconciliation.ResultKeys | utils/config.py:397 | a key is in the result exactly when an expected or a counted row has it |
| Reconciliation.UniqueKeys | utils/config.py:392-397 | unique expected keys stay unique in the result |
| Reconciliation.RepeatedKeyCounts | utils/config.py:397 | expected rows with the same key each carry that key's full count |
| Reconciliation.CountedTotal | utils/config.py:392-399 | the CONTAGEM sum of the result is everything counted, plus each expected key's count again for every extra expected row with that key |
| Reconciliation.CountedConserved | utils/config.py:392-399 | with unique expected keys, the CONTAGEM sum of the result is the sum of the counted quantities |
| Reconciliation.StockTotal | utils/config.py:394-398 | the ESTOQUE sum of the result is the expected total; rows that were only counted add 0 |
| Reconciliation.NetDivergenceConserved | utils/config.py:392-401 | with unique expected keys, the DIVERGÊNCIA sum is total counted − total expected |
| RfdashReconcile.Discrepancies | rfdash.py:390-429 | succeeds exactly when the current revision does, with the same table (for the counted frames Reconcile covers); where the errors differ, rfdash.py reports the KeyError for CONTAGEM and the current revision the repeated ESTOQUE |
| RfdashReconcile.CheckOrderDiffers | rfdash.py:411-419 | expected headers EAN, ESTOQUE, ESTOQUE, CONTAGEM: a KeyError for CONTAGEM in rfdash.py, a repeated-column error for ESTOQUE in utils/config.py |
| RfdashReconcile.CalculateDiscrepancies | rfdash.py:390-429 | returns the outcome Discrepancies gives for the frames as passed; afterwards the frames are as CountedAfter and ExpectedAfter describe |
| RfdashReconcile.ConvertKeys | rfdash.py:400-401 | EAN converted to text in place |
| RfdashReconcile.AddStock | rfdash.py:407-408 | a zero ESTOQUE column added in place when there is none |
| RfdashReconcile.MergeFrames | rfdash.py:411-429 | the merge, its failures in rfdash.py's order and the derived columns give the outcome Discrepancies describes |
| RfdashReconcile.Complete | rfdash.py:414-427 | the in-place fill, coercion, divergence and recount assignments give the derived table |
| RfdashReconcile.StockChecks | rfdash.py:407-408 | adding ESTOQUE changes none of the column checks the merge makes |
| RfdashReconcile.MergeChecks | rfdash.py:404-419 | each failing check on the mutated expected frame, in rfdash.py's order (repeated EAN, then CONTAGEM present, then repeated ESTOQUE), gives its error; when all pass, the tables are joinable |
| RfdashReconcile.ConvertedResult | rfdash.py:400-411 | merging the converted frames gives the same result as the current revision |
| RfdashReconcile.TextKeysPairs | rfdash.py:401-404 | converting the counted EAN to text changes none of the grouped pairs |
| RfdashReconcile.ExpectedAfter | rfdash.py:400-408 | the expected frame gains ESTOQUE only when both frames have EAN, the grouping succeeds and ESTOQUE was absent |
| RfdashReconcile.PrepareIdempotent | rfdash.py:400-408 | preparing an already prepared expected frame changes nothing |
| RfdashReconcile.RecallSameResult | rfdash.py:400-408 | calling again on the frames the call changed gives the same outcome, in either revision's check order, so the in-place changes are harmless |
| RfdashUpload.RfdashHeader | rfdash.py:62 | a normalised header is ASCII, has no lower-case letter and no space, has no whitespace at either end, and is as long as the stripped transliteration |
| RfdashUpload.RfdashCanonicalFixed | rfdash.py:62 | a header of that shape is its own normal form |
| RfdashUpload.RfdashNames | rfdash.py:61-62 | one normalised name per header, in order |
| RfdashUpload.RfdashNamesIdempotent | rfdash.py:61-62 | normalising keeps the list length, and normalising twice equals normalising once |
| RfdashUpload.RfdashHeaderChars | rfdash.py:62 | on trimmed ASCII, a space becomes "_", a letter is upper-cased and every other character is kept |
| RfdashUpload.NormalizeLabels | rfdash.py:118-119 | the normalisation fails exactly when a label is a number (unidecode accepts only text) |
| RfdashUpload.ReadFrame | rfdash.py:98-119 | an unknown extension is refused; a .txt file keeps its positions as column labels |
| RfdashUpload.HeaderLineConsumed | rfdash.py:101-119 | a .csv or Excel file loses its first line to the header, and the columns are the normalised first-line texts |
| RfdashUpload.XlsbRejected | rfdash.py:73-81 | an .xlsb sheet with a column has numeric labels, so the header normalisation at line 119 rejects it |
| RfdashUpload.Quantity0 | rfdash.py:134 | a two-column quantity is the text with comma read as dot, parsed and truncated; a non-text or unreadable quantity counts 0 |
| RfdashUpload.CountingFrame | rfdash.py:129-141 | fails exactly when the width is not 1 or 2, or when the two-column quantity column holds a number and no text (the .str accessor fails); succeeds with columns EAN and CONTAGEM; two columns keep every row |
| RfdashUpload.Uploaded | rfdash.py:90-150 | an unknown extension is refused; a successful expected-stock upload names EAN and ESTOQUE; a successful count has columns EAN and CONTAGEM |
| RfdashUpload.ProcessUpload | rfdash.py:90-150 | the in-place renames and assignments give the upload Uploaded describes |
| RfdashUpload.ExpectedColumnsRequired | rfdash.py:122-126 | an expected-stock upload succeeds exactly when the frame read names both EAN and ESTOQUE, and is then that frame |
| RfdashUpload.TxtExpectedRejected | rfdash.py:109-126 | a .txt expected-stock file never passes the required-column check |
| RfdashUpload.TwoColumnCounting | rfdash.py:131-134 | with two columns, each row holds the key as text and the quantity as Quantity0 reads it |
| RfdashUpload.KeyedCount | rfdash.py:138 | the grouping lists each key that is not missing as often as it occurs, and never a missing key |
| RfdashUpload.OneColumnCounts | rfdash.py:135-138 | with one column, each grouped row holds a key of the file that is not missing, and the number of lines with that key |
| RfdashUpload.OneColumnKeys | rfdash.py:135-138 | with one column, every key of the file that is not missing has a grouped row |
| RfdashUpload.OneColumnUnique | rfdash.py:138 | with one column, no key has two grouped rows |
| RfdashUpload.OneColumnTotal | rfdash.py:135-138 | with one column, the grouped counts add up to the number of lines with a key |
| RfdashUpload.TxtCountKeepsLines | rfdash.py:109-112 | a two-column counting .txt that uploads keeps every line |
| RfdashUpload.CsvCountLosesFirstLine | rfdash.py:101-119 | a two-column counting .csv with a text first line that uploads has one line fewer than the file |

## Left out

- Streamlit and the user interface are not modelled:
  - messages, selectors, the data grid and its column filters;
  - `show_temporary_success`, the PDF building and the charts.
  These are display code with no logic to prove.
- File reading and tokenising are not modelled: `pd.read_csv`, `csv.Sniffer` (`detect_csv_dialect`), the Excel readers, temporary files and `gerar_hash`. A file enters the model already split into cells.
- The file extension is a parameter. How it is cut from the file name is not modelled.
- The expected-stock branch of `process_upload` in `utils/config.py` (lines 207-232) is not modelled. It only chooses a reader and returns the frame unchanged.
- `save_metrics` (JSON file output) and `generate_timestamp` (the clock) are not modelled, because they are I/O.
- The global `all_discrepancies` dictionary of `rfdash.py` is not modelled. It is script control flow.
- The NameError at `rfdash.py:539` is noted but not modelled. `accuracy_percentage` is read there even when the filtered table is empty and the variable was never set; this is script control flow.
- Floating point is not modelled. Percentages and accuracy use exact rationals, and `:.2f` formatting is left out.
- Excel cells holding floats are not modelled. A cell is a text, an integer or missing, so an all-NaN float column and a float count are not represented.
- The parsers are abstract. `pd.to_numeric` is any parser, so which texts read as numbers ("1e3", thousands separators) is not fixed. The parser returns finite reals only: a text such as "inf", which pandas reads as infinite, must be treated as unreadable or finite, so the astype(int) failures it causes are not modelled (listed per member below). `unidecode` and non-ASCII `str.upper` are abstract for the same reason.
- Duplicate header names are not mangled: `pd.read_csv` renames a repeated header to "X.1". The model keeps duplicates and reports the errors that repeated names cause later.
- Reconciliation.Merge: the row order of pandas' outer merge is not modelled. The model lists the expected rows in order, then the new keys in order of first appearance, and states the join facts as counts and key sets.
- RfdashReconcile.CalculateDiscrepancies: requires two different frames. Calling it with one frame passed twice (aliasing) is not covered.
- RfdashReconcile.CalculateDiscrepancies: when the expected or the counted frame has a repeated EAN column, RfdashReconcile.ConvertKeys converts only the first of them to text. pandas converts every such column. The outcome is the same failure either way; only the frame left behind differs.
- RfdashReconcile.CalculateDiscrepancies: astype(int) fails on a non-finite number. pd.to_numeric reads "inf" or "-inf" as an infinite float, and fillna keeps it. The model's parser returns only finite reals, so the failure at lines 418-419 is not modelled; a stock or count that parses as infinite is outside the model.
- RfdashReconcile.Discrepancies: the same non-finite failure at lines 418-419 is not modelled.
- Reconciliation.Reconcile: the astype(int) failure on an ESTOQUE or CONTAGEM text that parses as infinite (utils/config.py:398-399) is not modelled, for the reason above. Its failure iff holds for finite parses only.
- Reconciliation.JoinableSuccess: for the same reason, joinable tables always succeed in the model; an infinite quantity would make pandas raise.
- ConfigHeaders.StandardizeExpected: the astype(int) failure on a stock text that parses as infinite (utils/config.py:839) is not modelled. Its success iff holds for finite parses only.
- ConfigUpload.CountingTable: the astype(int) failure on a quantity that parses as infinite (utils/config.py:194-196, caught at 240-242 as `(None, None)`) is not modelled.
- RfdashUpload.CountingFrame: the astype(int) failure on a quantity that parses as infinite (rfdash.py:134, caught at 143-148) is not modelled.
- RfdashUpload.GroupByKey: pandas' groupby sorts the keys (rfdash.py:138, sort=True by default). The model lists them in order of first appearance, so the row order of the grouped counts is not modelled; the grouped facts are stated as counts and key sets.
- ConfigViews.StatusLabel: a text cell under DIVERGÊNCIA is labelled OK, where Python's `>` comparison with a string raises TypeError. The reconciled table only holds integers there.
- ConfigViews.Selects: a text cell under DIVERGÊNCIA is treated as failing `>` and `<`, where pandas raises TypeError. It is treated as passing `!= 0`, as pandas does.
- ConfigUpload.CountingTable: an empty counting file is reported as a file of no columns. pandas raises EmptyDataError instead. Both end in `(None, None)` (lines 197-199 and 237-239).
- Frames.Trunc: pandas' int64 width is not modelled. A value beyond ±2^63 (a text such as "1e20") makes numpy's cast give INT64_MIN rather than the truncation, and the int64 column sums of the summary cards (utils/config.py:353-357, rfdash.py:493-498) can wrap around; both are outside the model, whose integers are unbounded.
- Frames.CoerceInt: for the same reason, a parsed value outside the int64 range is truncated in the model where pandas gives INT64_MIN (utils/config.py:195, 398-399 and 839, rfdash.py:134, 418-419 and 480).
- Reconciliation.Reconcile: counted quantities are taken to be integer or missing cells in a single CONTAGEM column, as both callers produce them (utils/config.py:187 and 196, rfdash.py:480). The model converts each cell to an integer before summing by key; pandas sums the raw cells first (utils/config.py:392) and converts afterwards (line 399). So a counted frame with two CONTAGEM columns (pandas raises TypeError when `pd.to_numeric` receives a frame) and text counts under one key (pandas concatenates "3" and "4" to "34", or raises TypeError on a text mixed with an integer) are outside the model.
- Reconciliation.JoinableSuccess: the same assumption on counted quantities; a counted frame with two CONTAGEM columns joins in the model where pandas raises.
- RfdashReconcile.Discrepancies: the same assumption on counted quantities (rfdash.py:404 sums the raw cells, lines 418-419 convert them).
- ConfigHeaders.NormalizeEntry: a header is a text or missing. `str(col)` at utils/config.py:66 also turns a numeric header, such as an Excel column labelled 2024, into "2024"; numeric headers are not represented.
- `rfdash.py`'s `show_summary` (the two whole-table cards) is not modelled separately. Its totals are `Metrics.TotalStock` and `Metrics.TotalCounted`.
