# IPL win predictor — a verified model of its data pipeline and inference step

The system predicts, from a match situation in the second innings of an IPL
(Indian Premier League) T20 match, the batting side's chance of winning. It
has three parts, each modelled here:

- **Training-data generation** (`training_data.dfy`, module `TrainingData`),
  from `ipl/generate_training_data.py`:
  - The ball-by-ball deliveries are left-joined to the matches on match id, and rows without a venue are dropped.
  - Per-match running totals of runs and wickets are added. The grouped cumulative sum is a loop with a map accumulator, as pandas computes it.
  - The remaining runs against the fixed target of 200 are derived, along with `over_ball` and `balls_left` with their divide-by-zero guards, the current and required run rates, and the label (1 for second-innings balls).
  - Rows whose rates are infinite or undefined are dropped.
- **Training-set preparation** (`train_model.dfy`, module `TrainModel`, with
  the encoder class in `label_encoding.dfy`), from `ipl/train_model.py`:
  - Five historical franchise names are folded into current ones, in both team columns.
  - Only rows whose teams and venue are in the fixed ten-team and ten-venue lists are kept.
  - The label encoders are fitted on those full lists. Their classes are the sorted distinct names, and a name's code is its position.
  - The ten-column feature table and the label column are built.
- **Inference** (`app.dfy`, module `App`), from `ipl/app.py`:
  - Remaining runs and balls are computed. Overs are held as an integer count of tenths, and `int()` truncates toward zero.
  - The current and required run rates are computed, with their zero guards.
  - It applies the validation guard.
  - The bowling-team choices are every team except the batting team.
  - The three selections are encoded and the ten-field input row is built.
  - The outcome is an encoding failure, a warning, or the two win percentages.

Shared pieces:
- `seqs.dfy` (module `Seqs`) holds `Option`, which stands for a missing pandas cell, and the order-preserving row filter. That filter is what boolean-mask indexing and `dropna` do.
- `tables.dfy` (module `Tables`) holds the record types and the feature column list.

Main results:
- **Running totals.** `GenerateTrainingData` is proved to produce row for row the derived row of each kept delivery, with its running totals. `RunningTotalInOriginalOrder` shows the venue drop before the running totals does not change them: a match is dropped whole or kept whole.
- **Encoding.** `PrepareTrainingSet` is proved to encode every retained row without an unknown label. The encoders give the ten teams and ten venues distinct codes in 0..9 that decode back to the names.
- **Inference.** In the app, selections made through the widgets always encode. A warning is shown exactly when the guard fails. The input row has the training table's columns in the training table's order.

## Model

| member | source | states |
|---|---|---|
| Seqs.Filter | ipl/train_model.py:44-45 | the survivors of a row mask are rows of the input that satisfy the mask, and every input row satisfying it survives |
| Seqs.FilterConcat | ipl/train_model.py:44-45 | masking preserves relative order: filtering a concatenation is the concatenation of the filtered parts |
| Seqs.FilterKeepsAll | ipl/generate_training_data.py:47-48 | a drop whose condition already holds for every row returns the table unchanged |
| Seqs.FilterSplitAt | ipl/generate_training_data.py:26 | a surviving row sits in the filtered table right after the survivors of the rows before it |
| Seqs.FilterLength | ipl/generate_training_data.py:26 | the drop removes exactly the rejected rows: survivors plus rejected rows equal the input count |
| TrainingData.VenueOf | ipl/generate_training_data.py:15-20 | a venue is attached only when some match in the table has the delivery's id and that venue |
| TrainingData.VenueOfFound | ipl/generate_training_data.py:15-20 | with unique match ids, a delivery of a match gets exactly that match's venue |
| TrainingData.VenueOfAbsent | ipl/generate_training_data.py:15-20 | a delivery whose match id is not in the matches table gets no venue (NaN) |
| TrainingData.LeftJoin | ipl/generate_training_data.py:15-20 | the left join keeps every delivery, in order, one row each, with the venue of its match attached |
| TrainingData.KeptSpec | ipl/generate_training_data.py:15-26 | after the join and the venue drop, a delivery survives exactly when its match is known and has a venue, and every survivor carries that venue |
| TrainingData.Kept | ipl/generate_training_data.py:26 | the venue drop never adds rows, and every surviving row has a venue, the one of its match |
| TrainingData.KeptConcat | ipl/generate_training_data.py:26 | the venue drop preserves the order of the deliveries |
| TrainingData.GroupedCumSum | ipl/generate_training_data.py:31 | the loop's output at each row is the sum of the column over that row and all earlier rows of the same match |
| TrainingData.SumForSkip | ipl/generate_training_data.py:31 | rows of other matches leave a match's running total unchanged |
| TrainingData.SumForBounded | ipl/generate_training_data.py:41 | with 0/1 wicket flags the running wicket count never decreases and grows by at most one per row |
| TrainingData.NextInGroup | ipl/generate_training_data.py:31-41 | from one ball of a match to its next ball, the running total grows by exactly the later ball's value (for wickets, by 0 or 1) |
| TrainingData.OverBall | ipl/generate_training_data.py:35-36 | `over_ball` is balls bowled divided by six, except that an exact zero becomes 0.1, so it is never zero |
| TrainingData.BallsLeft | ipl/generate_training_data.py:38-39 | `balls_left` is 120 minus balls counted, except that an exact zero becomes 1, so it is never zero |
| TrainingData.BallsLeftMayBeNegative | ipl/generate_training_data.py:38-39 | the guard does not exclude a negative balls-left count (ball numbers above 6 in the last over) |
| TrainingData.Ratio | ipl/generate_training_data.py:42-43 | a rate is missing exactly when its denominator is zero; otherwise rate times denominator is the numerator |
| TrainingData.ResultLabel | ipl/generate_training_data.py:44 | the label is 1 exactly for the second innings and 0 otherwise |
| TrainingData.MakeRow | ipl/generate_training_data.py:31-44 | a derived row keeps the delivery and venue, has target 200, runs left = 200 - score, the guarded over_ball and balls_left, both rates present and satisfying rate x denominator = numerator, and the innings label |
| TrainingData.GenerateTrainingData | ipl/generate_training_data.py:15-48 | the output has one row per kept delivery, in order, each being MakeRow of that delivery with its per-match running runs and wickets; every row has a venue and both rates, so the final drop removes nothing |
| TrainingData.SumForIsTotal | ipl/generate_training_data.py:31 | the running total at row n is the match's total over the first n rows |
| TrainingData.TotalOfFilter | ipl/generate_training_data.py:26-31 | dropping venue-less rows does not change the total of a match all of whose rows have a venue |
| TrainingData.KeptViaJoin | ipl/generate_training_data.py:15-26 | the kept table is the venue-filtered join, for a prefix of the deliveries too, and every earlier delivery of a kept delivery's match also has the venue |
| TrainingData.RunningTotalFiltered | ipl/generate_training_data.py:26-41 | on any joined table, when all rows of a match up to some row have a venue, the venue drop keeps that row and its running total |
| TrainingData.RunningTotalInOriginalOrder | ipl/generate_training_data.py:26-41 | a surviving delivery's running total in the kept table equals its match's running total in the original delivery order |
| TrainingData.TwoBallExample | ipl/generate_training_data.py:31-41 | two balls of one match with runs [4, 0] and wickets [0, 1] give running scores [4, 4] and running wickets [0, 1] |
| TrainingData.AcrossInningsExample | ipl/generate_training_data.py:31 | the grouping is by match only, so a second-innings running score includes the first innings' runs |
| LabelEncoding.LessIrreflexive | ipl/train_model.py:58-59 | no name sorts strictly before itself |
| LabelEncoding.LessTransitive | ipl/train_model.py:58-59 | the sort order on names is transitive |
| LabelEncoding.LessTotal | ipl/train_model.py:58-59 | of two different names, one sorts before the other |
| LabelEncoding.SortedIsDistinct | ipl/train_model.py:58-59 | strictly sorted classes hold no duplicates |
| LabelEncoding.Insert | ipl/train_model.py:58-59 | inserting a name into sorted classes keeps them sorted and adds exactly that name |
| LabelEncoding.SortedUnique | ipl/train_model.py:58-59 | the fitted classes are strictly sorted and are exactly the distinct names fitted on |
| LabelEncoding.SortedClassesLength | ipl/train_model.py:58-59 | fitting on a list of distinct names gives as many classes as names |
| LabelEncoding.LessAsymmetric | ipl/train_model.py:58-59 | no two names each sort before the other |
| LabelEncoding.SortedByElements | ipl/train_model.py:58-59 | two strictly sorted lists with the same elements are equal, so the fitted classes are determined by the fitted names alone |
| LabelEncoding.SortedUniqueIsSortedClasses | ipl/train_model.py:58-59 | the insertion sort yields the sorted distinct names, and it is the only list that does |
| LabelEncoding.IndexOf | ipl/train_model.py:61-63 | the lookup succeeds exactly for a name present and returns a position holding that name |
| LabelEncoding.LabelEncoder.constructor | ipl/train_model.py:55-56 | a new encoder has no classes |
| LabelEncoding.LabelEncoder.Fit | ipl/train_model.py:58-59 | after fitting, the classes are strictly sorted and are exactly the fitted names, each once |
| LabelEncoding.LabelEncoder.Encode | ipl/train_model.py:61-63 | a name has a code exactly when it is a class, and the code is the position of that class |
| LabelEncoding.LabelEncoder.Decode | ipl/train_model.py:55-63 | a code decodes exactly when it is in range, to one of the classes |
| LabelEncoding.LabelEncoder.Transform | ipl/train_model.py:61-63 | transforming a column succeeds exactly when every name is a class, giving each name's code in order |
| LabelEncoding.DecodeEncode | ipl/train_model.py:55-63 | decoding the code of a known name returns the name |
| LabelEncoding.EncodeDecode | ipl/train_model.py:55-63 | with sorted classes, encoding the name of an in-range code returns the code |
| LabelEncoding.FittedOnVocabulary | ipl/train_model.py:58-63 | an encoder fitted on distinct names gives each a distinct code below their count that decodes back to it |
| TrainModel.VocabulariesDistinct | ipl/train_model.py:11-24 | the team list and the venue list each hold ten distinct names |
| TrainModel.Canonical | ipl/train_model.py:27-41 | a non-historical name is unchanged, a historical name becomes its current team, and no result is a historical name |
| TrainModel.RemapTargetsAreCurrent | ipl/train_model.py:27-33 | every replacement name is a current team and not itself a historical name |
| TrainModel.RemapChangesExactlyHistorical | ipl/train_model.py:27-33 | the remap changes a name exactly when it is one of the five historical names, to its table entry |
| TrainModel.RemapIdempotent | ipl/train_model.py:27-33 | remapping twice equals remapping once |
| TrainModel.RemapColumnsIndependent | ipl/train_model.py:27-41 | the two column remaps commute, each remaps its own column from its own value, and no other field changes |
| TrainModel.Canonicalised | ipl/train_model.py:27-41 | the remapped table has the same rows in the same order, each with both team columns remapped |
| TrainModel.Retained | ipl/train_model.py:44-45 | the two filters never add rows, and every survivor has both teams and its venue in the vocabularies |
| TrainModel.RetainedSpec | ipl/train_model.py:44-45 | a row survives the two filters exactly when its remapped teams and venue are in the vocabularies, and survivors are otherwise unchanged |
| TrainModel.RetainedConcat | ipl/train_model.py:44-45 | survivors keep their relative order |
| TrainModel.DropMissingVenueRemovesNothing | ipl/train_model.py:45-52 | the `dropna` on venue removes nothing after the venue filter |
| TrainModel.EncodersCoverVocabularies | ipl/train_model.py:55-63 | encoders fitted on the full lists give each of the ten teams and ten venues a distinct code in 0..9 that decodes back to the name |
| TrainModel.HistoricalNameSameCode | ipl/train_model.py:27-62 | a historical name, remapped and encoded, gets the code of its current name encoded directly |
| TrainModel.RetainedKeepsRates | ipl/train_model.py:27-45 | remapping and filtering keep the rate columns present and leave only rows in the vocabularies |
| TrainModel.FeatureRowOf | ipl/train_model.py:66-70 | a feature row carries the three given codes in the team and venue columns and the row's over_ball, score, wickets, runs left, balls left and both rates |
| TrainModel.FeatureTable | ipl/train_model.py:66-70 | the feature table has one feature row per retained row, in order, built from that row's codes |
| TrainModel.LabelColumn | ipl/train_model.py:72 | the label column has one entry per row, the row's `result` |
| TrainModel.BattingColumn | ipl/train_model.py:61 | the batting-team column of the table, row for row |
| TrainModel.BowlingColumn | ipl/train_model.py:62 | the bowling-team column of the table, row for row |
| TrainModel.VenueColumn | ipl/train_model.py:63 | the venue column of the table, row for row |
| TrainModel.EncodeRow | ipl/train_model.py:61-70 | a row encodes exactly when both teams and the venue are known classes and both rates are present, each code decodes back to the row's name, and the encoded row is the row's feature row for those codes |
| TrainModel.RetainedIsEncodable | ipl/train_model.py:44-63 | with encoders that know the full vocabularies, every retained row's three columns transform without an unknown label and every retained row encodes |
| TrainModel.FeatureTableEncodes | ipl/train_model.py:61-70 | the table built from the transformed columns is, row for row, the encoding of the retained row |
| TrainModel.PrepareTrainingSet | ipl/train_model.py:27-72 | the encoders hold the sorted full vocabularies; X and y have one entry per retained row; X's entry is that row's encoding (so no retained row hits an unknown label) and y's is its result |
| App.RemainingRuns | ipl/app.py:42 | remaining runs plus runs scored equal the target; they are non-negative exactly when runs do not exceed the target, and zero exactly when they equal it |
| App.TruncDiv10 | ipl/app.py:43 | `int()` of a tenth truncates toward zero, for negative numerators too |
| App.RemainingBalls | ipl/app.py:36-43 | balls left are (20 - overs) x 6 truncated; in the slider range 3.0..20.0 they lie in 0..102; they are zero exactly for overs 19.9..20.1 |
| App.Crr | ipl/app.py:44 | with overs > 0 the current rate times the overs is the runs, and otherwise it is 0 |
| App.Rrr | ipl/app.py:45 | with balls left the required rate times the overs left is the remaining runs, and otherwise it is 0 |
| App.RrrZeroAtTwentyOvers | ipl/app.py:43-45 | at 20 overs no balls are left and the required rate is 0 |
| App.RrrSign | ipl/app.py:45 | with balls left, the required rate is positive exactly when runs are still needed and zero exactly when none are |
| App.Invalid | ipl/app.py:69 | a state passes the guard exactly when the run deficit is non-negative, at most 20 overs are bowled and at most 10 wickets have fallen; a passing state has a non-negative ball count |
| App.ValidStateHasNonNegativeRemainders | ipl/app.py:42-69 | a state passing the guard has non-negative remaining runs, balls and required rate |
| App.WidgetsOnlyTripTheRunCheck | ipl/app.py:36-39 | within the widget ranges the guard fails exactly when the runs exceed the target |
| App.BowlingChoices | ipl/app.py:29-31 | the bowling choices are exactly the teams other than the batting team |
| App.SelectedTeamsDiffer | ipl/app.py:29-31 | a bowling team picked from the choices is a known team different from the batting team |
| App.InputColumnsMatchTraining | ipl/app.py:53-64 | the input row's column names, as listed in the app, are the training table's ten column names in the same order |
| App.InputRow | ipl/app.py:53-64 | the input row holds the codes, the overs, the runs, the wickets, the remaining runs and balls and the two rates |
| App.EncodeInputs | ipl/app.py:48-50 | encoding succeeds exactly when the encoders know all three selections, each code decodes back to its selection, and the encoded row is the input row for those codes |
| App.SelectionsAlwaysEncode | ipl/app.py:23-50 | selections offered by the widgets (the encoders' classes) always encode, and the two teams get different codes |
| App.Predict | ipl/app.py:68-76 | the app warns exactly when the encoded state fails the guard, and otherwise reports class-1 and class-0 probabilities times 100 |
| App.PredictOnSelections | ipl/app.py:23-76 | with widget selections, the app warns exactly on an invalid state and predicts otherwise, and for a probability pair summing to one the percentages sum to 100 |

## Left out

- File input and output: reading and writing the CSV files, pickling the model and encoders, and the console diagnostics. The tables are parameters and results instead.
- The classifier: the train/test split and the random-forest fit. `predict_proba` is the function parameter `proba` of `App.Predict`.
- Streamlit and matplotlib: page setup, the widgets, the spinner, the metrics and the pie chart. The widget values are the fields of `App.Inputs`, and their ranges are `App.InWidgetRange`.
- The exception handlers around prediction and around the explanation text.
- The text-explanation template in `llm_utils.py`, which has no decision logic.
- Floating point: `over + ball/6`, the rates and the percentages use exact reals. The app's overs are integer tenths, so `int((20 - overs) * 6)` is computed exactly. The float computation can differ from it by one near integer boundaries.
- TrainingData.LeftJoin: requires unique match ids, so the model does not describe the merge when ids repeat; pandas would then emit one joined row per matching match.
- Missing numeric cells are left out. Run, wicket, over and ball values are integers.
- The join's extra `id` column and the other pass-through columns are left out. The rows carry only the fields the later steps read.
- TrainModel.PrepareTrainingSet: requires both rate columns present in its input. The first stage guarantees this (`GenerateTrainingData` ensures `RatesFinite`), and the stage does not handle missing rates itself.
- LabelEncoding.LabelEncoder.Fit: the encoder library is not part of this model. Its classes are modelled as the distinct names sorted by character code point, the order in which numpy sorts strings.
- App.Predict: the encoding at `ipl/app.py:48-50` runs before the button is pressed. An unknown name would stop the app with an exception; `EncodingFailed` stands for that.
