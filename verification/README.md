# A verified model of the text-coding pipeline

This project models the core of a small multi-label text-coding pipeline
written in Python. Human coders label SMS messages with codes. A logistic
classifier per code is trained on the coded messages and predicts codes for
the rest. The predictions are checked against human-verified labels. The
model covers six pieces of that pipeline:

- `logistic.dfy` (module `Logistic`): the per-code training set-up of
  `train`, and the `predict` and `predict_prob` combinators. The set-up covers
  keyword pseudo-rows, class weights, sample weights, and the `None` slot of a
  code without positives. The learner is abstract: training records the exact
  `fit` call a code column would make, and prediction takes the classifier's
  per-message decision or probability as a function.
- `evaluate.dfy` (module `Evaluate`): `get_prediction_and_gold_vector` and
  the metric part of `evaluate`. The alignment steps are `fillna`,
  `drop_duplicates` by `ID`, the two mask filters, and the sorts by `ID`. The
  alignment is proved equal to an independent description of its result.
- `preprocess.dfy` (module `Preprocess`): code-column selection, the row
  coding of `preprocess_long` and `preprocess_pairs` (including
  `vectorise_codes`), and the dimension check and frequency counts of `save`.
- `messages.dfy` (module `Messages`): what the two prediction scripts share.
  That is the training identifiers, the week and training-identifier filter
  (Python's substring `in`), and the feature index `{x: i for i, x in enumerate(feat_list)}`.
- `predict_multiple.dfy` (module `PredictMultiple`): the prediction table.
  It holds the kept messages with their `1`/empty prediction cells and the
  tag `prediction`, then `add_training_messages` with its per-identifier
  deduplication and the tag `training`.
- `select_multiple.dfy` (module `SelectMultiple`): the selection output,
  `[msgs[i] for i in top]` with Python's list indexing.
- `short_to_long.dfy` (module `ShortToLong`): the wide-to-long recoding.
  It covers `csv.DictReader` rows, the in-place `row[row[column]] = 1` loop,
  and `csv.DictWriter` with `extrasaction='ignore'`.
- `wrappers.dfy` (module `Wrappers`): `Option` and `Result`.
- `pylists.dfy` (module `PyLists`): Python's list indexing, negative indices
  included, used for the selection positions and the text column.

A Python exception is a `Failure` of a `Result`. Loops and in-place updates
in the source are methods with loops, proved equal to specification
functions. Properties are stated about those functions.

## Model

| member | source | states |
|---|---|---|
| Logistic.Column | src/logistic.py:28 | Column `i` of the label matrix has one entry per message, and entry `r` is message `r`'s label. |
| Logistic.CountTrue | src/logistic.py:30 | The positive count is at most the column length, and it is zero exactly when no entry is true. |
| Logistic.CountTrueAppend | src/logistic.py:53 | The positive count of a concatenated label vector is the sum of the two counts. |
| Logistic.CountTrueWithKeywords | src/logistic.py:50-53 | Appending `N_key` true labels raises the positive count by exactly `N_key`. |
| Logistic.KeywordRow | src/logistic.py:46-49 | A keyword pseudo-row has one entry per feature. |
| Logistic.Augment | src/logistic.py:36-53 | Without keywords the data is unchanged and `N_key` is 0. With keywords the first N rows and labels are unchanged, row N+j is the keyword row of index j, every appended label is true, and `N_key` is the number of indices. |
| Logistic.Divide | src/logistic.py:60-61 | numpy scalar division: the exact quotient for a nonzero divisor, otherwise a non-finite value that is nan exactly when the dividend is zero. |
| Logistic.ClassWeightOf | src/logistic.py:56-63 | An unrecognised option is an error, in both directions. `'balanced'` is passed through. `'smoothed'` gives `(N_pos+s)/(N_pos+N_key*w)` for True and `(N_neg+s)/N_neg` for False whenever both divisors are nonzero, with `N_neg` counted before augmentation. |
| Logistic.SampleWeightOf | src/logistic.py:66-70 | None exactly when `keyword_weight == 1`; otherwise length N+N_key, with 1 on the real rows and `keyword_weight` on the keyword rows. |
| Logistic.KeywordFeatures | src/logistic.py:46-49 | The in-place fill of `np.zeros((N_key, F))` yields exactly the keyword rows, one per index. |
| Logistic.SampleWeights | src/logistic.py:69-70 | The in-place fill of `np.ones(N+N_key)` gives 1 before N and `keyword_weight` from N on. |
| Logistic.AugmentColumn | src/logistic.py:36-53 | The imperative augmentation equals `Augment`. |
| Logistic.ChooseClassWeight | src/logistic.py:56-63 | The branch on `weight_option` equals `ClassWeightOf`. |
| Logistic.TrainColumn | src/logistic.py:28-78 | One loop iteration equals the column's slot: `None`, a fit call, or the weight-option error. |
| Logistic.Train | src/logistic.py:6-80 | One slot per code column, in column order. It fails exactly when the weight option is unrecognised and some column has positives, so all-empty columns never reach the check. |
| Logistic.AbsentIffNoPositives | src/logistic.py:30-33 | Slot i is `None` if and only if column i has no positives. |
| Logistic.FittedColumn | src/logistic.py:36-76 | A fitted call has `N+N_key` rows and labels, its first N rows are the real features, its positive count is the column's plus `N_key`, and any sample weights have one entry per row. |
| Logistic.SmoothedWeightsExample | src/logistic.py:58-61 | Two positives among ten rows, smoothing 1 and no keywords give the weights 3/2 and 9/8. |
| Logistic.SmoothedWithoutNegatives | src/logistic.py:59-61 | With every real row positive, the negative weight is a division by zero, so it is not finite. |
| Logistic.Columns | src/logistic.py:123 | One column per slot, each with one entry per message: the fill value for a `None` slot, otherwise the classifier's score of that message. |
| Logistic.Transpose | src/logistic.py:126 | Row i, entry k of the transpose is entry i of column k. |
| Logistic.TransposeTwice | src/logistic.py:126 | Transposing twice gives back the columns. |
| Logistic.NumpyTranspose | src/logistic.py:126 | numpy's transpose of `np.array` of the columns: empty for an empty list, otherwise the transpose. |
| Logistic.Apply | src/logistic.py:112-147 | The shared shape of `predict` and `predict_prob`, corrected for an empty classifier list: a single classifier gives its per-message scores; a list gives one row per message with entry (i, k) the fill value for a `None` slot and otherwise slot k's score on message i. |
| Logistic.ApplyAsWritten | src/logistic.py:121-126 | As written, an empty classifier list gives an array with no rows at all, in `predict` and in `predict_prob`. |
| Logistic.EmptySlotListLosesRows | src/logistic.py:126 | For one message and no classifiers, the as-written result has 0 rows while `Predict` has one empty row. |
| Logistic.EmptySlotListLosesProbabilities | src/logistic.py:145 | For one message and no classifiers, the as-written `predict_prob` has 0 rows while `PredictProb` has one empty row. |
| Logistic.Predict | src/logistic.py:112-128 | A single classifier gives its per-message decisions. A list gives an M×K matrix whose entry (i, k) is false for a `None` slot and otherwise slot k's decision on message i. |
| Logistic.PredictProb | src/logistic.py:130-147 | As `Predict`, with probability 0 for a `None` slot and the positive-class probability otherwise; for an empty classifier list the row count is corrected to one (empty) row per message, where line 145 as written gives none. |
| Logistic.PredictIsThresholdedProbability | src/logistic.py:121-126 | When each classifier decides by a probability above one half, `predict` is `predict_prob` thresholded at one half. |
| Evaluate.FillCell | src/evaluate.py:30 | A missing value becomes 0 and any other value is kept. |
| Evaluate.FillRecord | src/evaluate.py:30 | A filled row keeps its index label and columns, and every cell is the filled cell. |
| Evaluate.FillNa | src/evaluate.py:30 | `fillna(value=0)` fills every row of the table, in place, keeping the row order. |
| Evaluate.FillNaAppend | src/evaluate.py:30 | Filling distributes over concatenation. |
| Evaluate.FilledSchema | src/evaluate.py:30-36 | Filling missing values keeps the columns the table needs and a readable identifier in every row. |
| Evaluate.IdSet | src/evaluate.py:34 | Every row's identifier is in the table's identifier set. |
| Evaluate.Ids | src/evaluate.py:45 | The `ID` column lists row p's identifier at position p. |
| Evaluate.IdSetAppend | src/evaluate.py:38-39 | The identifiers of a concatenation are the union of both tables' identifiers. |
| Evaluate.FirstWith | src/evaluate.py:31 | The first row with an identifier is a row of the table with that identifier. |
| Evaluate.FirstWithAppend | src/evaluate.py:31 | Appending rows does not change the first row of an identifier already present. |
| Evaluate.Dedup | src/evaluate.py:31 | The scan over rows keeps distinct identifiers: every identifier not yet seen, each from its first row. |
| Evaluate.DropDuplicates | src/evaluate.py:31-37 | After `drop_duplicates(subset='ID')`, identifiers are unique, every identifier of the table is kept, and each kept row is the first row with its identifier. |
| Evaluate.DedupOfDistinct | src/evaluate.py:31 | A table without repeated identifiers passes deduplication unchanged. |
| Evaluate.DropDuplicatesIdempotent | src/evaluate.py:31-37 | Deduplicating twice is the same as deduplicating once. |
| Evaluate.Filter | src/evaluate.py:38-47 | A boolean-mask selection keeps exactly the rows satisfying the mask, in order. |
| Evaluate.FilterIds | src/evaluate.py:38-39 | On a deduplicated table, an identifier survives the mask if and only if its row satisfies it. |
| Evaluate.Insert | src/evaluate.py:50-52 | Inserting into a sorted table keeps it sorted and adds exactly the row. |
| Evaluate.SortById | src/evaluate.py:50-52 | `sort_values(by='ID')` gives the same rows in strictly increasing identifier order. |
| Evaluate.SortIds | src/evaluate.py:50-52 | The distinct identifiers, in increasing order. |
| Evaluate.InsertId | src/evaluate.py:50-52 | Inserting an identifier into an increasing list keeps it increasing and adds exactly that identifier. |
| Evaluate.IncreasingUnique | src/evaluate.py:50-52 | Two increasing sequences with the same elements are equal, so both sorted tables list the same identifiers. |
| Evaluate.SortedIdsIncreasing | src/evaluate.py:50-52 | A sorted table's identifiers increase strictly and are exactly its identifier set. |
| Evaluate.SortedHeadIsLeast | src/evaluate.py:50-52 | The first row of a sorted table has an identifier smaller than every later one. |
| Evaluate.VerifiedIdList | src/evaluate.py:38-52 | The verified identifiers are increasing, and each is in both filled tables. |
| Evaluate.ExpectedVectors | src/evaluate.py:58-60 | The two vectors have equal length. |
| Evaluate.Entries | src/evaluate.py:58-60 | Entry p is the code entry of the first row with the p-th identifier. |
| Evaluate.Vector | src/evaluate.py:58-60 | Selecting a column keeps one entry per row, with its index label. |
| Evaluate.SortedFirstRows | src/evaluate.py:50-60 | The sorted kept rows give the entries of the first rows of the sorted identifiers. |
| Evaluate.FirstRowsVector | src/evaluate.py:58-60 | Rows that are the first rows for given identifiers, in order, yield exactly the entries of those identifiers. |
| Evaluate.SortedKeptIds | src/evaluate.py:50-52 | Sorting rows with distinct identifiers by `ID` lists their identifiers in increasing order. |
| Evaluate.SortedRowFirst | src/evaluate.py:50-52 | Sorting keeps every row a first row of the filled table for its identifier. |
| Evaluate.VerifiedRows | src/evaluate.py:38-39 | The kept prediction rows have unique identifiers, which are exactly the identifiers in gold whose first prediction row is tagged `prediction`. |
| Evaluate.GoldRows | src/evaluate.py:45-47 | The kept gold rows have unique identifiers, which are exactly the kept prediction identifiers. |
| Evaluate.Restrict | src/evaluate.py:30-47 | Both kept tables are deduplicated, hold exactly the verified identifiers, and consist of first rows of their filled tables. |
| Evaluate.GetPredictionAndGoldVector | src/evaluate.py:28-66 | The function with the match count of line 62 taken as corrected (`MatchCount`, which cannot fail): the in-place fill, deduplication, filtering and sorting give exactly `ExpectedVectors`, the first prediction and gold rows of each verified identifier, aligned in increasing identifier order. |
| Evaluate.GetPredictionAndGoldVectorAsWritten | src/evaluate.py:28-66 | The function as written: it raises exactly when the two `ExpectedVectors` carry different index labels, and otherwise returns them. |
| Evaluate.SameVerifiedIds | src/evaluate.py:38-47 | Rows whose identifiers are not in gold change neither the verified identifiers nor their first rows. |
| Evaluate.ExtraPredictionRowsIrrelevant | src/evaluate.py:38-47 | Adding prediction rows with identifiers absent from gold leaves both vectors unchanged. |
| Evaluate.Labels | src/evaluate.py:62 | A vector's index labels, one per entry. |
| Evaluate.MatchCount | src/evaluate.py:62 | The match count is at most the length, and equals it exactly when the vectors agree everywhere. |
| Evaluate.MatchCountAsWritten | src/evaluate.py:62 | Comparing the two series fails exactly when their index labels differ; otherwise it gives the positional match count. |
| Evaluate.FillNaWithoutGaps | src/evaluate.py:30-36 | A table without missing values is unchanged by `fillna`. |
| Evaluate.ScenarioSchema | src/evaluate.py:29-37 | The example tables have the expected columns and no missing values. |
| Evaluate.ScenarioPredSchema | src/evaluate.py:35-36 | The example prediction table has the ID, source and code columns and no missing values. |
| Evaluate.ScenarioGoldSchema | src/evaluate.py:29-30 | The example gold table has the ID and code columns and no missing values. |
| Evaluate.ScenarioPredIds | src/evaluate.py:31-39 | The example prediction identifiers are {2, 3, 4}, first found in rows 0, 1 and 2. |
| Evaluate.ScenarioGoldIds | src/evaluate.py:31-39 | The example gold identifiers are {1, 2, 3}; 2 (present twice) is first found in row 1 and 3 in row 3. |
| Evaluate.ScenarioVerifiedSet | src/evaluate.py:38-47 | In the example, the training-tagged row 4 drops out, so the verified identifiers are {2, 3}. |
| Evaluate.ScenarioVerifiedIds | src/evaluate.py:50-52 | In the example, the verified identifiers in order are [2, 3]. |
| Evaluate.ScenarioVectors | src/evaluate.py:58-60 | In the example, the vectors are predictions 0, 1 (labels 0, 1) and gold 0, 1 (labels 1, 3). |
| Evaluate.ScenarioPredEntries | src/evaluate.py:58 | The prediction entries of identifiers 2 and 3 are (0, 0) and (1, 1). |
| Evaluate.ScenarioGoldEntries | src/evaluate.py:60 | The gold entries of identifiers 2 and 3 are (1, 0) and (3, 1). |
| Evaluate.ScenarioComparison | src/evaluate.py:62 | In the example, the comparison as written fails while the positional match count is 2. |
| Evaluate.ScenarioVectorsCompared | src/evaluate.py:62 | Vectors labelled 0, 1 and 1, 3 that agree in value are refused by the labelled comparison, yet match at 2 positions. |
| Evaluate.Fraction | src/evaluate.py:16 | A ratio is undefined exactly when its denominator is zero, otherwise it is the quotient, and it lies in [0, 1] when the numerator does not exceed the denominator. |
| Evaluate.Tally | src/evaluate.py:16 | An outcome count is at most the number of positions. |
| Evaluate.TallyTotal | src/evaluate.py:16 | TP + FP + FN + TN equals the number of positions. |
| Evaluate.TallySwap | src/evaluate.py:16 | Exchanging predictions and gold exchanges the predicted and actual roles of every count. |
| Evaluate.Present | src/evaluate.py:16 | The labels present are the values of either vector. |
| Evaluate.Values | src/evaluate.py:16 | The numeric values of a vector exist exactly when every cell is numeric, and they are the cells in order. |
| Evaluate.Metrics | src/evaluate.py:16 | Binary scoring fails exactly for unequal lengths or a label set that is not binary with positive label 1. Unequal lengths are reported as inconsistent lengths. |
| Evaluate.Evaluate | src/evaluate.py:6-25 | Unequal lengths and non-numeric cells are errors; otherwise the scores are `Metrics` of the values, and the index labels are never consulted. |
| Evaluate.MetricsAreRatios | src/evaluate.py:16 | Precision is TP/(TP+FP) and recall TP/(TP+FN). Each is undefined exactly when its denominator is zero, and F1 is undefined exactly when TP+FP+FN is zero. |
| Evaluate.HarmonicMean | src/evaluate.py:16 | For positive counts, the harmonic mean of a/b and a/c is 2a/(b+c). |
| Evaluate.F1OfCounts | src/evaluate.py:16 | With a true positive, the three count ratios are defined and 2TP/(2TP+FP+FN) is the harmonic mean of TP/(TP+FP) and TP/(TP+FN). |
| Evaluate.F1IsHarmonicMean | src/evaluate.py:16 | With a true positive, all three scores are defined and F1 is the harmonic mean of precision and recall. |
| Evaluate.F1ZeroWithoutTruePositives | src/evaluate.py:16 | A defined F1 is zero exactly when there is no true positive. |
| Evaluate.SwapPredictionAndGold | src/evaluate.py:16 | Exchanging the vectors keeps success, exchanges precision and recall, and keeps F1. |
| Evaluate.VerifiedCountIsGoldPositives | src/evaluate.py:22-25 | With 0/1 gold values, the reported verified count `gold.sum()` is TP + FN. |
| Evaluate.MatchCountIsAgreement | src/evaluate.py:62 | With 0/1 values, the match count is TP + TN. |
| Evaluate.EmptyVectorsUndefined | src/evaluate.py:16-22 | With no verified messages, every score is undefined and the verified count is 0. |
| Evaluate.PerfectAgreement | src/evaluate.py:16-22 | The example vectors score 1 for precision, recall and F1, with verified count 1. |
| Preprocess.ColumnsFrom | src/preprocess.py:79 | The columns from `start` are increasing and are exactly those below the width that are neither the text column nor ignored. |
| Preprocess.CodeColumns | src/preprocess.py:79-120 | `code_cols` is strictly increasing and contains exactly the columns other than `text_col` and `ignore_cols`. |
| Preprocess.Pick | src/preprocess.py:80 | `[row[i] for i in cols]` has one entry per listed column, holding that column's cell. |
| Preprocess.CodeColumnsInRange | src/preprocess.py:79-80 | Every code column indexes the heading row, and there are at most as many as headings. |
| Preprocess.IncreasingBounded | src/preprocess.py:79 | A strictly increasing sequence below a bound is no longer than the bound. |
| Preprocess.SpaceRunFrom | src/preprocess.py:124 | The leading whitespace run found by `strip` is all whitespace and is followed by a non-whitespace character or the end. |
| Preprocess.SpaceRunBack | src/preprocess.py:124 | The trailing whitespace run found by `strip` is all whitespace and is preceded by a non-whitespace character or the start of the kept piece. |
| Preprocess.Strip | src/preprocess.py:124 | `strip` gives the piece between the leading and trailing whitespace (the characters of Python's `str.isspace`), with only whitespace before and after it, and the piece neither starts nor ends with whitespace. |
| Preprocess.DropLast | src/preprocess.py:124 | `s[:-1]` drops the last character, and leaves an empty string empty. |
| Preprocess.EveryThird | src/preprocess.py:124 | `cols[::3]` has ⌈n/3⌉ entries, entry p being element 3p. |
| Preprocess.GroupNames | src/preprocess.py:124 | Group name p is the stripped heading, minus its last character, of code column 3p. |
| Preprocess.ArrayShape | src/preprocess.py:23-156 | `np.array` of equal-length vectors is one-dimensional exactly when the list is empty. |
| Preprocess.CountColumn | src/preprocess.py:27-35 | A column count is at most the number of rows. |
| Preprocess.CountColumnIsCardinality | src/preprocess.py:27-35 | The column sum is the number of rows whose entry in that column is a hit. |
| Preprocess.Zip | src/preprocess.py:40-44 | `zip` pairs element p of each list, up to the shorter length. |
| Preprocess.Save | src/preprocess.py:6-52 | Dimensions-do-not-match exactly when the code matrix's shape is not (N, K). Otherwise code k is paired with the number of messages having it, and feature j with the number of messages where it is nonzero. |
| Preprocess.NoMessagesRejected | src/preprocess.py:20-88 | With no messages, `np.array([])` has shape (0,), so `save` always refuses. |
| Preprocess.CodeRow | src/preprocess.py:85 | A code vector has one entry per code column, entry i being `convert(row[code_cols[i]])`. |
| Preprocess.PreprocessLong | src/preprocess.py:54-90 | A short row is an `IndexError`, in both directions; the text column is read as a Python index, so a negative one counts from the end and removes no code column. When every row fits, an empty file is refused by `save`. Otherwise there is one feature bag and one code vector per row, in order, the code names are the code-column headings, and the saved lists are `save`'s. |
| Preprocess.GroupCodesMembers | src/preprocess.py:136 | A group's codes are exactly (name, value) for each group column whose value is not an uncoded marker. |
| Preprocess.CodeSetMembers | src/preprocess.py:132-137 | A code is in a row's code set exactly when some group has a non-uncoded column whose value with the group name is the code. |
| Preprocess.RowCodeSet | src/preprocess.py:132-137 | The `|=` accumulation fails exactly when a group column lies beyond the row; otherwise it is the row's code set. |
| Preprocess.UnionOf | src/preprocess.py:141 | The global code set holds exactly the codes of some row. |
| Preprocess.Indicator | src/preprocess.py:151-154 | The code vector has length K and is true at the index of every code of the set. |
| Preprocess.IndicatorCount | src/preprocess.py:151-154 | With an injective index into [0, K), the vector has exactly as many true entries as the set has codes. |
| Preprocess.ImageSize | src/preprocess.py:153 | An injective index maps a set to a set of the same size. |
| Preprocess.VectoriseCodes | src/preprocess.py:145-154 | The in-place fill of a fresh all-false array is the indicator vector of the set. |
| Preprocess.Groups | src/preprocess.py:124-133 | `zip(pair_names, pair_indices)` stops at the shorter list and pairs name g with column group g. |
| Preprocess.RowCodeSets | src/preprocess.py:128-137 | One code set per row. |
| Preprocess.BagsAndCodeSets | src/preprocess.py:128-137 | A row too short for the text or a group column is an `IndexError`, in both directions. Otherwise the feature bags and code sets are those of each row, in order. |
| Preprocess.VectoriseAll | src/preprocess.py:156 | Row i of the code matrix is the indicator vector of row i's code set. |
| Preprocess.PreprocessPairs | src/preprocess.py:92-160 | A short row is an `IndexError`, in both directions; the text column is read as a Python index. When every row fits, an empty file is refused by `save`. Otherwise row i's code vector marks exactly its code set under the code index, the code names are the code list, and the saved lists are `save`'s. |
| Messages.Contains | src/predict_multiple.py:31 | Python's `sub in s` holds exactly when `sub` occurs in `s` at some position. |
| Messages.WeekSubstrings | src/predict_multiple.py:31 | For weeks `'12'`, the cells `''`, `'1'`, `'2'` and `'12'` pass the filter and `'21'` and `'3'` do not. |
| Messages.FirstColumn | src/predict_multiple.py:27 | `[row[0] for row in training_reader]` fails exactly when some row is empty, and otherwise lists every first cell in order. |
| Messages.Unlabelled | src/predict_multiple.py:30-32 | The kept rows are rows of the file whose fifth cell is a substring of `weeks` and whose identifier is not a training identifier. |
| Messages.UnlabelledMembers | src/predict_multiple.py:30-32 | A row is kept if and only if it is in the file, has a fifth cell, and passes the filter. |
| Messages.FilterMessages | src/predict_multiple.py:30-32 | The filter loop fails exactly when some row lacks a fifth cell, and otherwise keeps exactly the wanted rows in file order. |
| Messages.Names | src/predict_multiple.py:39 | `[x for x, _ in feats]` lists the names in order. |
| Messages.FeatureDict | src/predict_multiple.py:40 | The feature index has exactly the names as keys, maps each to a position holding it, and keeps the last such position. |
| Messages.DistinctNamesIndex | src/select_multiple.py:31-32 | With distinct names, `feat_dict[feat_list[i]] == i`. |
| Messages.RepeatedNameLastWins | src/select_multiple.py:32 | A repeated name is indexed by its last position. |
| PredictMultiple.PredictionCells | src/predict_multiple.py:61 | Cell k is `1` exactly when code k is predicted, and empty exactly when it is not. |
| PredictMultiple.ExtendWithPredictions | src/predict_multiple.py:60-62 | The extension fails exactly when there are fewer prediction rows than messages. Otherwise message i gains prediction row i's cells and the tag `prediction`. |
| PredictMultiple.PredictedLayout | src/predict_multiple.py:61-62 | An extended message starts with the message, holds `1` exactly at the predicted codes, and ends with `prediction`. |
| PredictMultiple.FirstMatch | src/predict_multiple.py:71-72 | A matching training row exists exactly when some training row has the identifier, and the one found has no earlier match. |
| PredictMultiple.IdsOf | src/predict_multiple.py:73-75 | The identifiers are exactly the first cells of the rows. |
| PredictMultiple.IdsOfAppend | src/predict_multiple.py:75-78 | Appending a row adds exactly its identifier. |
| PredictMultiple.TrainingMessages | src/predict_multiple.py:68-78 | The only error is `IndexError`. The training messages have unique identifiers, all training identifiers, each ends with `training`, and there are no more of them than data rows. |
| PredictMultiple.MatchTraining | src/predict_multiple.py:71-78 | The inner loop: a taken or unknown identifier changes nothing. Otherwise the first matching training row extends the row, or a missing code cell is an `IndexError`. |
| PredictMultiple.AddTrainingMessages | src/predict_multiple.py:68-80 | The nested loops over `reader[1:]` with `seen_messages` give exactly `TrainingMessages` of the data rows. |
| PredictMultiple.FailingRow | src/predict_multiple.py:69-78 | A new training identifier whose first training row lacks a code column stops the whole loop with `IndexError`. |
| PredictMultiple.FailureStays | src/predict_multiple.py:69 | Once a prefix of the data rows fails, the whole run fails. |
| PredictMultiple.SomeRowWithIdSplit | src/predict_multiple.py:69 | Some data row has an identifier exactly when an earlier row or the last row has it. |
| PredictMultiple.TrainingMessageIds | src/predict_multiple.py:69-78 | An identifier has a training message if and only if it is a training identifier, a training row carries it, and some data row has it. |
| PredictMultiple.NewTrainingMessage | src/predict_multiple.py:73-78 | When the last data row adds a message, it is the first data row with its identifier and the message is built from it. |
| PredictMultiple.TrainingMessageRow | src/predict_multiple.py:69-78 | Every training message is the first data row with its identifier, extended with the code cells of the first training row with that identifier and the tag. |
| PredictMultiple.WideRowsKeyed | src/predict_multiple.py:69-70 | Data rows with fifth cells have identifiers. |
| PredictMultiple.PredictionTable | src/predict_multiple.py:27-101 | A written table starts with the heading extended by the code names and `source`; a kept message without the text cell `x[5]` stops the script with an `IndexError` before prediction. |
| PredictMultiple.PredictMultipleRows | src/predict_multiple.py:27-101 | The script's steps give exactly `PredictionTable`: the `IndexError` of a message too short for the filter or for `x[5]`, or the heading, then the extended messages, then the training messages. |
| PredictMultiple.ProvenanceDisjoint | src/predict_multiple.py:60-101 | After the heading come the kept messages, tagged `prediction` and without training identifiers, then the training messages, tagged `training` and with training identifiers. No identifier is in both parts. |
| PredictMultiple.TableProvenance | src/predict_multiple.py:99-101 | In the heading-then-predicted-then-training layout, predicted rows carry the `prediction` tag and no training identifier, training rows carry the `training` tag and a training identifier. |
| PredictMultiple.TextCells | src/predict_multiple.py:25-26 | Every cell read from a CSV file is text. |
| PredictMultiple.PredictedValues | src/predict_multiple.py:60-62 | An extended message holds its text cells, then the integer 1 or the empty text per code. |
| PredictMultiple.ColumnSum | src/predict_multiple.py:93 | `sum` over a column succeeds exactly when every message has an integer there. A text cell in the first message is a `TypeError`. |
| PredictMultiple.Totals | src/predict_multiple.py:89-93 | The totals loop gives one total per code column and needs a name for each. The first column's failure is the loop's failure. |
| PredictMultiple.AllMessages | src/predict_multiple.py:84 | `msgs + training_messages`, with the Python values each row holds. |
| PredictMultiple.PredictionTableAsWritten | src/predict_multiple.py:84-101 | As written, the table can only be written after the totals loop succeeds, and it is then `PredictionTable`. |
| PredictMultiple.TotalsStopTheScript | src/predict_multiple.py:89-101 | Whenever the table holds a message and the first code column is among the first five cells, the script as written stops with a `TypeError`. |
| PredictMultiple.WideTrainingMessage | src/predict_multiple.py:76-78 | A training message keeps the five cells of its data row, so a code column below 5 is one of its CSV text cells. |
| PyLists.PyIndex | src/select_multiple.py:57 | Python list indexing: defined exactly for -len ≤ i < len, counting from the end for a negative i. |
| SelectMultiple.Project | src/select_multiple.py:57 | `[msgs[i] for i in top]` fails exactly when some position is out of range. Otherwise it has one row per position, each the message at that position. |
| SelectMultiple.ProjectedAreMessages | src/select_multiple.py:57 | Every projected row is a kept message. |
| SelectMultiple.SelectionTable | src/select_multiple.py:18-57 | A written table starts with the heading row. |
| SelectMultiple.SelectMultipleRows | src/select_multiple.py:18-57 | The script's steps give exactly `SelectionTable`. |
| SelectMultiple.SelectionRows | src/select_multiple.py:23-57 | The output has `len(top)` data rows, each a row of the file with its week in `weeks` and without a training identifier. |
| ShortToLong.DictRow | src/short_to_long.py:11-18 | A `DictReader` row has exactly the field names as keys. |
| ShortToLong.DictRowCells | src/short_to_long.py:18 | The last position of a field name supplies its cell, or `None` past the end of the line. |
| ShortToLong.Nonblank | src/short_to_long.py:18 | The rows read are non-empty lines of the input; blank lines are skipped. |
| ShortToLong.Recoded | src/short_to_long.py:19-21 | Recoding keeps every key, changes no key outside the codes, and sets every value to 1 or leaves it as it was. |
| ShortToLong.RecodeRow | src/short_to_long.py:19-21 | The in-place loop equals `Recoded`. |
| ShortToLong.RecodedCodes | src/short_to_long.py:19-21 | When no input column is named after a code, a code's key holds 1 exactly when it already did or some column's cell names the code, and the column cells are unchanged. |
| ShortToLong.RecodedIdempotent | src/short_to_long.py:21 | When no input column is named after a code, recoding twice is the same as recoding once. |
| ShortToLong.OverwrittenCell | src/short_to_long.py:19-21 | A column named after a code is overwritten by an earlier column, losing the code its own cell named; the column order decides the outcome. |
| ShortToLong.Written | src/short_to_long.py:15-22 | A written line has one cell per field name: the key's text, or empty for an absent key. |
| ShortToLong.ExtraKeysIgnored | src/short_to_long.py:15-22 | Keys other than the field names never reach the written line. |
| ShortToLong.Fieldnames | src/short_to_long.py:13 | The field names are `ID`, `phone`, `text`, then the codes. |
| ShortToLong.Convert | src/short_to_long.py:11-22 | One heading line, then one line per nonblank input line, in order. Each is the recoded `DictReader` row written under the field names. |
| ShortToLong.WrittenCodes | src/short_to_long.py:19-22 | A code's cell is `1` when some cell named it, and empty when none did and no input column has its name. |

## Left out

- The scikit-learn learner (`LogisticRegression`, its `fit`, `predict` and `predict_proba`) is abstract. Training records the arguments of `fit`, and prediction takes the per-message decision or probability as a function.
- File, pickle and CSV I/O, `print` output, `train_on_file`, the evaluation-file append, the `__main__` blocks and the hard-coded file names are left out. Tables are passed in as values, and each script's output is the sequence of rows it would write.
- The feature helpers of `features.py` (`bag_of_words`, `apply_to_parts`, `vectorise`, `get_global_set`, `feature_list_and_dict`) are not part of this model. The extractor and the feature list and vectors are parameters. `get_global_set` on code sets is the union (`Preprocess.UnionOf`). `feature_list_and_dict` on codes is a parameter required to give one entry per code and an injective index into [0, K).
- `score_by_uncertainty` and `top_N` of `active.py` are not part of this model: the `top` list is the parameter `rank`.
- `select_random.py` is not modelled; it rests on a random shuffle.
- The hard-coded override of `pair_indices` in `preprocess_pairs` is a parameter (`groupColumns`); the discarded `zip` of pairs before it has no effect.
- `predict_multiple.py` and `select_multiple.py` mutate the row lists in place. This is modelled on values. The heading row is itself a row of `reader`. If it passes the message filter, the script's `headings.extend` also grows that kept message, and the model does not capture this aliasing.
- Logistic.Train: keyword indices must lie in [0, F). numpy would wrap a negative index and raise on a large one; neither is modelled.
- Floating point is modelled with exact reals: class weights, sample weights, probabilities and metrics.
- Evaluate.Metrics: a zero denominator gives `Undefined`, where scikit-learn prints a warning and reports 0.0. Non-binary label sets are reported as errors, but only the binary checks are modelled, not the library's full type detection.
- Evaluate.Evaluate: the verified count is `int(gold.sum())`; for the example tables of `Evaluate.PerfectAgreement` it is 1.
- Evaluate.GetPredictionAndGoldVector: every row must carry the `ID` column and the code columns (and `source` in the prediction table); the `KeyError` pandas raises for a missing column is not modelled. Identifiers are numbers or missing; text identifiers, which pandas sorts lexicographically, are not modelled.
- Evaluate.GetPredictionAndGoldVectorAsWritten: the same column and identifier restrictions as `Evaluate.GetPredictionAndGoldVector`.
- Evaluate.Restrict: the same column and identifier restrictions as `Evaluate.GetPredictionAndGoldVector`; a missing `ID` or `source` column is not modelled as a `KeyError`.
- Evaluate.ExtraPredictionRowsIrrelevant: stated for tables with numeric or missing identifiers and all the needed columns, as `Evaluate.GetPredictionAndGoldVector` is.
- Preprocess.PreprocessLong: `convert` followed by the cast to bool is one total parameter, so a conversion that raises (`int('')`) is not modelled.
- Preprocess.Save: the feature frequencies are computed from the feature vectors the parameter `features` returns; their width is not checked against the feature list.
- ShortToLong.DictRow: the cells of a line beyond the field names, which `DictReader` files under the key `None`, are dropped; `DictWriter` with `extrasaction='ignore'` never writes them.
- ShortToLong.Written: the integer 1 the loop stores is written as the text `1`, as `csv.writer` formats it.
- The per-code totals printout of `predict_multiple.py` is modelled only as far as the exception it raises (see Findings); the printed text is left out.

## Findings

| source | as written | input that shows it | evidently intended | confidence | as-written member | corrected member |
|---|---|---|---|---|---|---|
| src/logistic.py:126 | `np.array(predictions).transpose()` of an empty classifier list has shape (0,), so the result has no rows | one message and `classifiers == []`: the result has 0 rows instead of 1 row with no codes | an M×0 matrix, one row per message | not executed | Logistic.ApplyAsWritten, Logistic.EmptySlotListLosesRows | Logistic.Predict |
| src/logistic.py:145 | `np.array(prob).transpose()` of an empty classifier list has shape (0,), so the result has no rows | one message and `classifiers == []`: the result has 0 rows instead of 1 row with no codes | an M×0 matrix of probabilities, one row per message | not executed | Logistic.ApplyAsWritten, Logistic.EmptySlotListLosesProbabilities | Logistic.PredictProb |
| src/evaluate.py:62 | `predictions_vector == golds_vector` compares two Series that keep the index labels of rows from different files; pandas refuses Series that are not identically labelled | gold identifiers 1, 2, 2, 3 and prediction identifiers 2, 3, 4: the vectors have labels 0, 1 and 1, 3 | the number of aligned positions where prediction and gold agree | not executed | Evaluate.MatchCountAsWritten, Evaluate.GetPredictionAndGoldVectorAsWritten, Evaluate.ScenarioComparison | Evaluate.MatchCount |
| src/predict_multiple.py:89-93 | `sum(message[column] for message in all_messages)` adds CSV text cells to 0, which raises `TypeError`, so the prediction file is never written | any run that keeps a message or finds a training message, with `code_columns = range(3, 17)` | print per-code totals, then write the table | not executed | PredictMultiple.PredictionTableAsWritten, PredictMultiple.TotalsStopTheScript | PredictMultiple.PredictionTable |
