# Travel-booking language model tools, in Dafny

This project models the two data tools of a flight-booking chatbot project. They sit between a dialogue corpus and a language-understanding service.

- **The dataset converter** (`tools/train_test_split.py`, module `Split` in `split.dfy`):
  - It reads the first turn of every conversation of the corpus.
  - It finds the intent argument and the entity arguments of that turn's acts.
  - It locates each entity value in the turn's text, case-insensitively, and records its character span.
  - It splits the resulting utterances into a train prefix of `floor(N * train_size)` utterances and a test suffix.
  - It also resolves the train and test fractions given on the command line, with their defaults, complements and range checks.
- **The accuracy scorer** (`tools/do_predictions.py`, class `Predict` of module `Predictions` in `predictions.dfy`):
  - It keeps a report of seven running scores: the intent, the five entity kinds and the overall accuracy.
  - It scores each test utterance against the answer of the prediction service:
    - a correct top intent adds one point;
    - each entity label whose first predicted instance has the right type averages its kind's score with 1;
    - the share of matched labels is averaged into the overall accuracy.
  - It stops after `count` utterances. With "all", it scores every utterance.

Python exceptions that escape become the `Err` case of a `Result`: `KeyError`, `ValueError` from `str.index`, `IndexError` on a conversation without turns, and the size errors. Exceptions the source catches become the value the source then returns.

The prediction service is a function parameter `oracle` from text to answer, so every property holds for all possible answers. `split_examples.dfy` and `predictions_examples.dfy` prove the unit-test cases of `tests/tools_test.py` and small scoring examples.

What is proved, in short:

- **Span finder.** The span found is the first case-insensitive occurrence, and "not found" holds exactly when there is none.
- **Label extraction.** Extraction keeps exactly the recognised, non-sentinel arguments. It aborts on the first malformed argument. The last intent wins, and "book" is the default. Every label comes from an argument and lies inside the text.
- **Partition.** Conversion preserves the order of the conversations. The train part holds exactly `floor(N * f)` of them for a valid fraction `f`.
- **Size resolver.** It follows the source's case table, and every accepted pair is a pair of fractions summing to at most 1.
- **Scorer:**
  - Each method computes the scoring function of the old report.
  - Scores stay in range: the intent score is at least 0, and every other score is in [0, 1].
  - The intent score counts exactly the correctly predicted intents.
  - Over a whole run, an entity kind's score starting from `x` is averaged with 1 once per matching label of that kind. After `m` such matches it is `1 - (1 - x) / 2^m`.
  - The scorer processes exactly `count` utterances. "all" means every one, a count above the list means every one, and a count of 0 or less means exactly one of a non-empty list.

## Model

| member | source | states |
|---|---|---|
| Split.IndexFrom | P10_02_outils/tools/train_test_split.py:22 | the position returned is an occurrence of the needle with no occurrence between the start position and it; no position means no occurrence at any position from the start on |
| Split.GetEntityIndex | P10_02_outils/tools/train_test_split.py:11-24 | the span is the first case-insensitive occurrence of the literal and ends `len(literal)` after its start; it fails with NotFound(literal) exactly when the literal occurs nowhere |
| Split.FirstOccurrenceFound | P10_02_outils/tools/train_test_split.py:22-24 | converse of the span finder: whenever the literal first occurs at `start`, the finder returns exactly `start..start+len(literal)` |
| Split.GetEntity | P10_02_outils/tools/train_test_split.py:26-53 | no label exactly when the value is missing, is "-1", the key is missing or not one of the five kinds; otherwise it fails exactly when the value is absent from the text, and the label names the key and spans the value's first occurrence |
| Split.LabelFound | P10_02_outils/tools/train_test_split.py:44-48 | converse of GetEntity: a kept argument whose value first occurs at `start` yields the label `start..start+len(val)` of its key |
| Split.GetIntents | P10_02_outils/tools/train_test_split.py:66-96 | the loop over acts returns the specification ExtractTurn: the first failing argument's error, else the last intent name (or "book") and the labels of the kept arguments in order |
| Split.WalkAct | P10_02_outils/tools/train_test_split.py:82-91 | the inner loop over one act's arguments reports exactly the first exception of the arguments so far; without one, it carries on the last intent name and the labels of the kept arguments |
| Split.LastIntentWins | P10_02_outils/tools/train_test_split.py:84-86 | the intent name is the value of the last intent argument; later arguments that are not intents do not change it |
| Split.NoIntentIsEmpty | P10_02_outils/tools/train_test_split.py:79 | with no intent argument the collected intent name stays empty |
| Split.NoIntentIsBook | P10_02_outils/tools/train_test_split.py:93-94 | a turn with no intent argument is named "book" |
| Split.CollectedAppend | P10_02_outils/tools/train_test_split.py:81-91 | labels are appended in argument order: the labels of a concatenation of argument lists concatenate |
| Split.FailurePersists | P10_02_outils/tools/train_test_split.py:81-91 | once an argument fails, later arguments do not change the error the extraction reports |
| Split.FailureRest | P10_02_outils/tools/train_test_split.py:84-89 | an argument that raises, after arguments that raise nothing, decides the exception of its whole act |
| Split.AbortAfter | P10_02_outils/tools/train_test_split.py:81-89 | once the arguments of the acts so far raise, the whole turn fails with that exception |
| Split.IgnoredArgument | P10_02_outils/tools/train_test_split.py:41-42 | an intent argument or an argument valued "-1" contributes no label, wherever it stands |
| Split.CollectedComplete | P10_02_outils/tools/train_test_split.py:88-91 | every non-intent argument that yields a label contributes that label, wherever it stands: the converse of CollectedSound |
| Split.CollectedSound | P10_02_outils/tools/train_test_split.py:88-91 | there are at most as many labels as arguments, and each label is what some non-intent, non-skipped argument yields on the text |
| Split.LabelsWellFormed | P10_02_outils/tools/train_test_split.py:44-48 | every label of a converted turn names one of the five kinds and spans a range inside the text |
| Split.FirstTurnOnly | P10_02_outils/tools/train_test_split.py:116-120 | only the first turn is read: later turns do not change the utterance, whose text is the first turn's text |
| Split.ConvertToLuis | P10_02_outils/tools/train_test_split.py:109-126 | succeeds exactly when every conversation converts, else reports the first failure; train followed by test is the converted conversations in order, and train holds the first `floor(N * train_size)` of them, clipped to 0..N |
| Split.TrainCountExact | P10_02_outils/tools/train_test_split.py:112 | for a fraction in [0, 1] the train part holds exactly `floor(N * train_size)` utterances; 0 gives none and 1 gives all |
| Split.GetTrainTestSize | P10_02_outils/tools/train_test_split.py:137-176 | both unset gives (0.75, 0.25); one given is completed to sum to 1; the test check, the train check and the sum check reject in that order; a negative train size with no test size fails on comparing None; every accepted pair lies in [0, 1] and sums to at most 1 |
| SplitExamples.SpanExample | P10_02_outils/tests/tools_test.py:21-26 | "name" is found at 3..7 in "My name is Roberto" |
| SplitExamples.EntityExample | P10_02_outils/tests/tools_test.py:28-33 | the destination city "Atlantis" is labelled 27..35 in the test sentence |
| SplitExamples.SizeExamples | P10_02_outils/tests/tools_test.py:47-56 | the unit-test size pairs: (0.20, 0.80), (0.20, None), (None, None) resolve as asserted; (100, 10) and (0.90, 0.20) are rejected |
| Predictions.ScoreLabels | P10_02_outils/tools/do_predictions.py:102-114 | the label loop keeps the keys of the report and counts at most one hit per label |
| Predictions.HitRate | P10_02_outils/tools/do_predictions.py:115-117 | the share of hits is in [0, 1], is 0 exactly with no hit, and is 1 exactly when every one of at least one label hit |
| Predictions.ScoreAll | P10_02_outils/tools/do_predictions.py:136-139 | scoring utterances keeps the set of keys of the report |
| Predictions.LabelsInRange | P10_02_outils/tools/do_predictions.py:104-114 | the label loop keeps the intent score non-negative and every other score in [0, 1] |
| Predictions.EntitiesWellFormed | P10_02_outils/tools/do_predictions.py:94-117 | the entity check keeps exactly the seven keys and every score in its range |
| Predictions.UtteranceInRange | P10_02_outils/tools/do_predictions.py:138-139 | scoring one utterance keeps every score in its range |
| Predictions.MeanWithOnesClosedForm | P10_02_outils/tools/do_predictions.py:87-90 | `m` successive means with 1 turn a score `x` into `1 - (1 - x) / 2^m` |
| Predictions.Pow2 | P10_02_outils/tools/do_predictions.py:89-90 | the divisor after repeated halving is at least 1 |
| Predictions.MatchCount | P10_02_outils/tools/do_predictions.py:109 | the matching labels of a kind are at most the labels |
| Predictions.MeanWithOnesAdd | P10_02_outils/tools/do_predictions.py:87-90 | means with 1 compose: `a` of them and then `b` more are `a + b` of them |
| Predictions.EntityScoreCountsMatches | P10_02_outils/tools/do_predictions.py:104-110 | after the label loop an entity kind's score is its old score averaged with 1 once per label of that kind whose first predicted instance has that type |
| Predictions.EntityScoreStep | P10_02_outils/tools/do_predictions.py:138-139 | scoring one utterance averages an entity kind's score with 1 once per matching label of that kind |
| Predictions.EntityScoreOverRun | P10_02_outils/tools/do_predictions.py:136-139 | over a whole run, an entity kind's score is its starting score averaged with 1 once per matching label of that kind in all scored utterances |
| Predictions.HitsAreMatches | P10_02_outils/tools/do_predictions.py:109-111 | when every label names a key of the report, the hit count is the number of labels whose first predicted instance has their type |
| Predictions.UnnamedUnchanged | P10_02_outils/tools/do_predictions.py:104-114 | the label loop leaves unchanged a score that no label names |
| Predictions.IntentHits | P10_02_outils/tools/do_predictions.py:75 | the correctly predicted intents are at most the utterances |
| Predictions.IntentScoreCountsHits | P10_02_outils/tools/do_predictions.py:75-76 | when the labels name entity kinds only, the intent score grows by exactly the number of utterances whose predicted top intent is the expected one |
| Predictions.ConvertedRecognized | P10_02_outils/tools/train_test_split.py:44-48 | the utterances the converter produces have labels of the five kinds only, so the intent count above applies to them |
| Predictions.Processed | P10_02_outils/tools/do_predictions.py:133-144 | the scorer processes every utterance for "all" and for a count at least the list's length, the first `n` for a count `n` within the list, exactly one of a non-empty list for a count of 0 or less, and none of an empty list |
| Predictions.ProcessedContinue | P10_02_outils/tools/do_predictions.py:136-144 | while the counter has not run out, the next utterance is one the scorer processes; at the end of the list it has processed all it should |
| Predictions.ProcessedStop | P10_02_outils/tools/do_predictions.py:142-144 | when the counter runs out after utterance `i`, the scorer has processed exactly `i` |
| Predictions.Predict.constructor | P10_02_outils/tools/do_predictions.py:28-36 | a fresh report holds the seven keys, all at 0 |
| Predictions.Predict.UpdateAccuracy | P10_02_outils/tools/do_predictions.py:78-92 | with the key present, its score becomes old + value, halved for "mean", and nothing else changes; with the key missing (a KeyError) the report is unchanged and the method says so |
| Predictions.Predict.CheckIntent | P10_02_outils/tools/do_predictions.py:67-76 | the report gains one intent point exactly when the intents are equal, and stays well formed |
| Predictions.Predict.CheckEntities | P10_02_outils/tools/do_predictions.py:94-117 | the loop leaves the report equal to the entity-check function of the old report, which keeps it well formed |
| Predictions.Predict.ScoreOne | P10_02_outils/tools/do_predictions.py:137-139 | the body of the scoring loop: the report becomes the scoring of one utterance against one answer, and stays well formed |
| Predictions.Predict.Predict | P10_02_outils/tools/do_predictions.py:119-149 | the returned report is the scoring of the first `Processed(count, N)` utterances, in order, applied to the old report, and it stays well formed |
| PredictionsExamples.TwoHits | P10_02_outils/tools/do_predictions.py:87-90 | two hits on a fresh entity score give 0.5 and then 0.75 |
| PredictionsExamples.OneGoodAnswer | P10_02_outils/tools/do_predictions.py:67-117 | on a fresh report, a correctly predicted intent and a matched single label give an intent score of 1, an entity score of 0.5 and an overall accuracy of 0.5 |
| PredictionsExamples.WrongIntentNoLabels | P10_02_outils/tools/do_predictions.py:115-117 | a wrong intent with no labels leaves the intent score alone and halves the overall accuracy |

## Left out

- File and JSON I/O: `get_json`, `save_intents`, reading the corpus and writing the two output files. The converter returns the train and test lists instead.
- Command-line parsing (`parse_args`, `__main__` in both tools) and the file-existence check. The `--count` option is parsed as an integer, so "all" is reachable only from code that calls `predict` directly. The model keeps both forms of the count.
- `Predict.luis_predict` and the configuration it reads: the HTTP call to the service is the `oracle` parameter.
- `time.sleep` between requests, since timing does not affect the report.
- `tools/authoring_and_predict.py` and `tests/bot_test.py` are not part of this model.
- The progress messages printed by the converter.
- Python floats are modelled as exact reals. IEEE rounding of the means and of `len(data) * train_size` is not modelled.
- `str.lower` is modelled as ASCII lower-casing. Unicode case mapping, which can change string length, is not modelled.
- JSON shapes other than the argument fields are fixed by the datatypes: a turn always has `labels.acts`, an act always has `args`, and an utterance always has its three fields. The `KeyError` a malformed corpus would raise on them is not modelled. Missing `key`/`val` argument fields and an empty `turns` list are modelled.
- Predictions.Predict.CheckEntities: requires every instance list it looks up to be non-empty. The source raises an uncaught `IndexError` on `[0]` of an empty list, and the model does not cover that failure.
- Predictions.Predict.Predict: requires the same of the service's answers for the utterances it processes, for the same reason. Answers for utterances past the count are unconstrained.
- The unit test that writes and reads back a JSON file (`test_save_intents`) and the command-line parser test are about I/O left out above.
