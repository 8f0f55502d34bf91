# Credit risk prediction: encode-and-align model

This project models the encode-and-align step of a small credit-risk form
(`app.py`). One submitted applicant is turned into the numeric row the
pre-trained classifier expects, and the classifier's answer is turned into a
risk label. The step has three pieces:

- **Safe encoding** (`safe_encode`). A categorical value is trimmed,
  lower-cased and looked up in its field's fitted label encoder. An unknown
  value silently gets the code of the encoder's first class. A field without
  an encoder passes its raw value through.
- **Row construction and alignment.** The nine columns are built in a fixed
  order, and only the five categorical ones are encoded. When the classifier
  declares `feature_names_in_`, every expected column the row lacks is added
  in place with value 0. The row is then replaced by its projection onto the
  expected columns, in the expected order.
- **Label mapping.** A prediction of 1 shows "Good (Low Risk)"; any other
  value shows "Bad (High Risk)".

Modules, one file each:

- `wrappers.dfy` — `Option` and `Result`.
- `text.dfy` — `Text`: Python's `str.strip()` and `str.lower()` on ASCII, and the normal form `safe_encode` looks up.
- `frames.dfy` — `Frames`: the one-row DataFrame, a `Frame` class over a sequence of labelled cells, with in-place column assignment (`df[col] = v`) and column selection (`df[names]`).
- `safe_encoding.dfy` — `SafeEncoding`: label encoders, the encoder table and `safe_encode`.
- `alignment.dfy` — `Alignment`: the schema alignment, as a specification function (`Aligned`) and as the in-place method (`Align`) whose loop runs over the set of missing names.
- `prediction.dfy` — `Prediction`: the row construction, the label, and one whole submission (`Assess`).

Inputs that come from outside the code are parameters. These are the encoder
table (a map from field name to encoder, where any field may be absent), the
classifier (an uninterpreted function from the aligned row to an integer,
plus its optional list of expected names), and the applicant's form values.

## Model

| member | source | states |
|---|---|---|
| Text.TrimLeft | app.py:78 | `lstrip`: the result is a suffix of the input, everything dropped is whitespace, and the result does not start with whitespace |
| Text.TrimRight | app.py:78 | `rstrip`: the result is a prefix of the input, everything dropped is whitespace, and the result does not end with whitespace |
| Text.Lower | app.py:78 | `lower()` keeps the length and maps each character to its lower-case form, position by position |
| Text.Strip | app.py:78 | `strip()` keeps no outer whitespace and is no longer than its input; it returns the empty string exactly when the value is all whitespace |
| Text.Normalize | app.py:77-78 | the looked-up form is no longer than the raw value, has no outer whitespace and no upper-case ASCII letter |
| Text.StripIsMiddle | app.py:78 | stripping keeps one contiguous middle part of the value and drops only whitespace on both sides; the kept part, when not empty, starts and ends with a non-whitespace character |
| Text.StripPadded | app.py:78 | whitespace added on either side does not change the stripped value |
| Text.NormalizeIgnoresCase | app.py:77-78 | values equal up to ASCII case normalise to the same string |
| Text.NormalizeIgnoresPadding | app.py:77-78 | values equal up to surrounding whitespace normalise to the same string |
| Text.NormalizeIdempotent | app.py:77-78 | normalising a normalised value changes nothing |
| Frames.Names | app.py:102 | the column labels of a frame, one per column, in column order |
| Frames.Get | app.py:106-109 | looking a label up succeeds exactly when the frame has a column with that label, and yields the value of such a column |
| Frames.Assign | app.py:108 | `df[col] = v` appends a new last column when the label is absent, and otherwise keeps the labels and their order |
| Frames.Project | app.py:109 | `df[names]` has one column per requested name, labelled with that name, in the requested order, and each of them is a column of the frame |
| Frames.GetAssign | app.py:108 | after `df[col] = v` the label `col` holds `v` and every other label holds what it held before |
| Frames.AssignKeepsDistinct | app.py:108 | assigning a column keeps the frame's labels unique |
| Frames.GetUnique | app.py:109 | with unique labels, looking up a column's label yields that column's value |
| Frames.GetUniform | app.py:109 | when all columns carrying a label hold the same value, the lookup yields that value |
| Frames.Frame.constructor | app.py:102 | `pd.DataFrame(input_data)` holds exactly the given columns, in the given order |
| Frames.Frame.SetColumn | app.py:108 | the in-place `df[col] = v` keeps the labels unique and leaves the frame's columns as `Assign` of the old ones |
| Frames.Frame.Select | app.py:109 | `df[names]` is a new frame holding the columns named `names`, in that order, and it has unique labels when `names` does |
| SafeEncoding.IndexOf | app.py:81 | the code of a value is the position of its first occurrence in `classes_`, and there is a code exactly when the value is a class |
| SafeEncoding.Transform | app.py:81-84 | `transform` gives a code exactly for a known class; the code is a position holding that class, the only one when the encoder is fitted |
| SafeEncoding.Lookup | app.py:73-75 | `encoders.get(field)` finds an encoder exactly when one is registered for the field |
| SafeEncoding.SafeEncode | app.py:71-84 | no encoder: the raw value unchanged; a known normalised value: its class position; an unknown one: code 0; it fails exactly when the encoder has no class to fall back to |
| SafeEncoding.TransformRoundTrip | app.py:81 | for a fitted encoder (distinct classes), coding the class at a position gives that position back |
| SafeEncoding.KnownValueCode | app.py:80-81 | a value whose normal form is the class at position `i` of a fitted encoder is coded `i` |
| SafeEncoding.FallbackIsFirstClass | app.py:82-84 | an unknown value gets exactly the code the encoder gives its first class |
| SafeEncoding.EncodeIgnoresCase | app.py:77-81 | with an encoder present, values equal up to case get the same result |
| SafeEncoding.EncodeIgnoresPadding | app.py:77-81 | with an encoder present, surrounding whitespace does not change the result |
| Alignment.Missing | app.py:106 | the missing names are exactly the expected names the frame has no column for |
| Alignment.Aligned | app.py:105-109 | without a schema the row is unchanged; with one it has one column per expected name, in the expected order, and each column is the frame's own column or a 0 column for a name the frame lacked |
| Alignment.AlignedSchema | app.py:109 | the aligned row's labels are exactly the expected names, in the expected order, so no other column survives |
| Alignment.AlignedLookup | app.py:106-109 | an expected column that was present keeps its value, an expected column that was missing holds 0, and no other label can be looked up |
| Alignment.AlignedIdempotent | app.py:105-109 | aligning an aligned row again against the same schema, or against none, changes nothing |
| Alignment.AlignedDistinct | app.py:109 | against a schema without repeated names the aligned row has unique labels |
| Alignment.GetAppend | app.py:108-109 | looking up in the zero-filled frame finds an original column before any added one |
| Alignment.AppendZero | app.py:107-108 | one turn of the `for col in missing` loop appends a 0 column for a label the frame lacks, as a new last column |
| Alignment.ZeroFilledAligns | app.py:107-109 | once every missing label has its 0 column, all expected labels are present and selecting them gives the aligned row |
| Alignment.Align | app.py:105-109 | the returned frame's columns are `Aligned` of the row as built; without a schema it is the same frame, untouched; with one, the loop has appended one 0 column per missing name and nothing else, and a new frame is returned |
| Prediction.BuildRecord | app.py:90-100 | the row has the nine labels in their fixed order, the four numeric fields copied and the five categorical fields as `safe_encode` gives them; it fails exactly when a registered categorical encoder has no classes |
| Prediction.RiskLabel | app.py:115-118 | the label is "Good (Low Risk)" exactly when the prediction is 1 and "Bad (High Risk)" exactly when it is not |
| Prediction.Outcome | app.py:89-118 | a submission succeeds exactly when the row can be built, it then shows one of the two risk labels, and otherwise it reports the row's encoding error |
| Prediction.Assess | app.py:89-118 | one submission yields the label of the classifier's answer on the aligned row, or the encoding error that stopped it |
| Prediction.FeatureOrderDistinct | app.py:90-100 | the nine column labels are pairwise different |
| Prediction.RecordDistinct | app.py:90-102 | the built row has unique labels, so it is a valid frame |
| Prediction.OutcomeTotal | app.py:71-118 | when every registered categorical encoder has a class, a submission never fails and shows one of the two labels |
| Prediction.NoSchemaKeepsRecord | app.py:102-105 | without declared feature names the classifier sees the row as built, in construction order |
| Prediction.NumericFieldsIgnoreEncoders | app.py:90-100 | Age, Job, Credit amount and Duration do not depend on the encoders |
| Prediction.SameCodesSameOutcome | app.py:90-118 | two applicants with the same numeric fields and the same categorical codes get the same row and the same outcome |
| Prediction.MixedCaseSameCode | app.py:77-81 | with an encoder for the field, "Male " is coded like "male" |
| Prediction.MixedCaseSexSameOutcome | app.py:77-118 | with a Sex encoder, Sex "Male " gives the same outcome as "male" |
| Prediction.UnknownSavingsFallsBack | app.py:82-84 | when every registered categorical encoder has a class, the row is built, and an unknown Saving accounts value leaves code 0 in its column |
| Prediction.MissingCheckingEncoderPassesThrough | app.py:73-75 | when every registered categorical encoder has a class, the row is built, and without a Checking account encoder the raw text sits in its column |

## Left out

- Artifact loading (`load_resources`, app.py:8-22): joblib file I/O and Streamlit caching. The encoder table and the classifier are parameters. The warning for a missing encoder file is an I/O side effect; the model only covers its consequence, a field absent from the table.
- The Streamlit page, form widgets and result rendering (app.py:27-66, 116-118): presentation only. `RiskLabel` gives the label text shown inside the success or error message; the emoji and the rest of the message are not modelled.
- The widget ranges (Age 18-80, Job 0-3, Credit amount at least 0, Duration at least 1) and the fixed choice lists: nothing in the step depends on them, so they are not preconditions.
- `model.predict` (app.py:112): an opaque pre-trained classifier, modelled as an uninterpreted total function. A failure inside it (a schema mismatch, a raw string it cannot use) is not modelled.
- Text.Normalize: models `str.strip()` and `str.lower()` on ASCII only. Stripping removes the ASCII characters Python treats as whitespace (space, tab, line feed, vertical tab, form feed, carriage return, and 0x1C-0x1F). Non-ASCII whitespace and non-ASCII case mapping are not modelled.
- `str()` coercion of non-string raw values (app.py:78): categorical values are modelled as strings.
- SafeEncoding.Transform: models `LabelEncoder.transform` as "index of the first occurrence in `classes_`". A fitted encoder's classes are unique, which `Fitted` states; sklearn's sorted-array search is not modelled.
- Frames.Frame.Select: requires every selected label to be present. pandas would raise `KeyError` otherwise, but `Align` only selects after zero-filling, so that path is never reached.
- pandas internals: dtypes, the one-row list wrapping of each cell, and frames with repeated column labels. Every frame the step builds has unique labels.
