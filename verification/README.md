# Mental health assessment: feature encoder and classifier adapter

This project models the prediction step of the mental-health assessment form.
The form collects an age and eight categorical answers: gender, family history,
work interference, remote work, benefits, care options, supervisor and mental
versus physical health. On "Predict" it turns these answers into a fixed
24-column numeric row. It reshapes that row into a one-row batch and gives the
batch to a pre-trained classifier's `predict` and `predict_proba`. Finally it
reports class 0 as "Unlikely" and any other (integer) class as "Likely", and prints
probability column 0 as Unlikely and column 1 as Likely.

Modules:

- `Survey` (survey.dfy): the answer set, the eight questions, each select box's option list, and `FromForm`, which says what the widgets can produce.
- `Encoder` (encoder.dfy): `Encode`, written column by column as the form does. It also holds an independent layout: `Columns`, `Offset` and the `OneHot` equality encoding of one group. Lemmas show the two agree.
- `Groups` (groups.dfy): what each categorical group of the row holds. This covers one-hot-ness and sums, all-zero groups for unlisted values, and display order versus column order.
- `Decoder` (decoder.dfy): a decoder from rows back to answer sets. It is the partner that shows the encoding loses nothing (round trips both ways, injectivity).
- `Batch` (batch.dfy): `reshape(rows, -1)` and its inverse `Flatten`.
- `Adapter` (adapter.dfy): the opaque classifier as two total functions on batches, and `Assess`, one press of the button.
- `Options` (options.dfy): a small optional-value type used by the decoder.

Points about the code that the model keeps as they are:

- The encoder does no validation. An answer outside a group's column names gives an all-zero group (`Groups.UnlistedAnswerGivesZeroGroup`). The age range comes only from the number input's bounds, so `Encode` is total. The range appears only in `Survey.FromForm`, which the lemmas about form answers require.
- Every integer class other than 0 reads as Likely (`Adapter.LabelOf`).
- Columns are numbered from 0, with the age at 0 and the last column at 23 (`Groups.WorkedExample`).
- The code handles no errors. An exception raised while loading or calling the classifier is not modelled.

## Model

| member | source | states |
|---|---|---|
| Survey.FieldsEnumeratesQuestions | Mental_health_prediction_app.py:92-99 | There are eight categorical questions, each listed once in layout order |
| Encoder.Encode | Mental_health_prediction_app.py:104-117 | The row has exactly 24 entries and column 0 holds the age unchanged |
| Encoder.EncodeGroup | Mental_health_prediction_app.py:106-116 | For every question, that group's columns are the equality tests of the answer against the column names, in the code's column order |
| Encoder.LayoutTiles | Mental_health_prediction_app.py:104-117 | The groups follow the age column in the fixed question order, with no gap or overlap, and end at column 24; no group names a value twice |
| Encoder.EncodeFollowsLayout | Mental_health_prediction_app.py:104-117 | The whole row equals the age followed by the equality-encoded groups concatenated in question order |
| Groups.ListedValueIsOneHot | Mental_health_prediction_app.py:106-116 | A value among a group's distinct column names gives exactly one 1.0, at that value's column, with 0.0 elsewhere; the group sums to 1 |
| Groups.UnlistedValueIsZero | Mental_health_prediction_app.py:106-116 | A value that is none of the column names gives an all-zero group that sums to 0 |
| Groups.GroupIsOneHot | Mental_health_prediction_app.py:106-116 | In the encoded row, a listed answer lights exactly its own column of its group, and the group sums to 1 |
| Groups.UnlistedAnswerGivesZeroGroup | Mental_health_prediction_app.py:106-116 | The encoder does not validate: an answer outside its group's names leaves that group all zero instead of failing |
| Groups.ColumnMeaning | Mental_health_prediction_app.py:106-116 | Column Offset(f)+k is 1.0 exactly when the answer equals the k-th column name, and 0.0 exactly when it does not |
| Groups.MenuMatchesColumns | Mental_health_prediction_app.py:92-116 | Each select box offers the same values (as a multiset) that its group has columns for |
| Groups.FormAnswersAreListed | Mental_health_prediction_app.py:92-99 | Every answer the widgets can produce is one of its group's column names |
| Groups.FormAnswersEncodeOneHot | Mental_health_prediction_app.py:91-116 | For every form answer, every group is one-hot, sums to 1, and lights the column given by the answer's value |
| Groups.DisplayOrderIsNotColumnOrder | Mental_health_prediction_app.py:97-116 | Care options and mental-vs-physical are displayed in a different order from their columns; the first option shown for each lands in the middle column (16 and 22) |
| Groups.WorkedExample | Mental_health_prediction_app.py:104-117 | The concrete answer set (30, Male, No, Sometimes, No, Yes, Yes, Yes, Yes) encodes to the stated 24-entry row |
| Decoder.DecodeEncode | Mental_health_prediction_app.py:104-117 | Every answer set whose answers are all listed is read back unchanged from its row |
| Decoder.EncodeDecode | Mental_health_prediction_app.py:104-117 | Every well-formed row (24 wide, whole-number age, one-hot groups) decodes, and the decoded answers re-encode to that same row |
| Decoder.FormRowsAreWellFormed | Mental_health_prediction_app.py:91-117 | Every row built from a form answer is well formed, and its age column lies in 18..100 |
| Decoder.EncodeInjective | Mental_health_prediction_app.py:104-117 | Two form answer sets with the same row are equal |
| Batch.Chunk | Mental_health_prediction_app.py:118-119 | Cutting a list into rows of a fixed width gives that many rows of that width, and reading them in order gives the list back |
| Batch.Reshape | Mental_health_prediction_app.py:119 | reshape(rows, -1) gives `rows` rows of the inferred width, which read in order give the original list |
| Batch.SingleRow | Mental_health_prediction_app.py:119 | reshape(1, -1) gives the batch whose only row is the list itself |
| Adapter.InputBatch | Mental_health_prediction_app.py:118-119 | The batch submitted is 1 x 24 and its only row is the encoded answer set |
| Adapter.LabelClassRoundTrip | Mental_health_prediction_app.py:126-129 | On classes 0 and 1 the label reading is inverse to the class of each label; every non-zero class reads as Likely |
| Adapter.Interpret | Mental_health_prediction_app.py:126-134 | The label is Unlikely exactly when the first prediction is 0; Unlikely and Likely are probability columns 0 and 1 of the first row |
| Adapter.Assess | Mental_health_prediction_app.py:118-134 | The label is Unlikely exactly when predict on the batch [Encode(a)] gives 0; the two probabilities are columns 0 and 1 of predict_proba on that same batch |
| Adapter.AssessConsultsOneBatch | Mental_health_prediction_app.py:122-123 | Two classifiers that answer alike on the one batch [Encode(a)] give the same assessment: both calls see that same array and nothing else |
| Adapter.AssessLabelMatchesClass | Mental_health_prediction_app.py:126-129 | For a binary class, the reported label's class is the predicted class |

## Left out

- Page configuration, CSS, the background image and its base64 encoding, the resources column and the footer. These are presentation and file I/O.
- Loading the pickled classifier from `Mental_Health.sav`. The classifier is a parameter (`Adapter.Classifier`), two total functions that are never changed.
- The classifier's internals: its decision threshold, its tie-breaking, and whether its two probabilities sum to 1. These belong to the trained artifact, not to this code.
- The `.2f` formatting of the probabilities and the HTML around the messages. `Assessment` carries the label and the unformatted probabilities.
- Adapter.Interpret: predicted classes are modelled as integers. The code compares `prediction[0] == 0` against whatever label type the loaded classifier returns. With non-numeric labels, such as the strings "No"/"Yes", that test is never true and the form always prints "Likely". The model cannot express such a classifier.
- Adapter.Interpret: requires at least one predicted class and one probability row with at least two columns. On a shorter output the Python indexing raises IndexError, and that crash is not modelled.
- Adapter.Assess: requires the classifier to return at least one class and one probability row with at least two columns. On a shorter output the Python indexing raises IndexError, and that crash is not modelled.
- Numeric width: numpy's float64 is modelled as `real`. This is exact for the values that occur (whole-number ages 18..100, 0.0 and 1.0). The age widget's integer result is modelled as `int`.
- The second copy of the form (`Mental health prediction app.py`) is the same encoder with different presentation. It is not modelled separately.
