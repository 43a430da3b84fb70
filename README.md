# Wine-quality prediction form: input validation

This project models the input validation of a small wine-quality prediction
web application, and proves properties of that model in Dafny. The
application serves a form with eleven physico-chemical measurements of a
wine: fixed acidity, volatile acidity, citric acid, residual sugar,
chlorides, free and total sulfur dioxide, density, pH, sulphates and
alcohol. A regression model predicts a quality score from them.

Validation happens twice.

- **Server side** (`app.py`, the POST branch of `/predict`). The route reads
  the eleven fields and converts each with `float()`. It checks each value
  against an inclusive range table, in a fixed order. The first field out of
  range produces an error naming it: underscores become spaces, then
  `str.title()` is applied, and the bounds are added. Only when every check
  passes are the values assembled, in field order, into the vector handed to
  the model. Module `App` (`app.dfy`) holds this part. The string
  operations it uses are in module `PyStrings` (`py_strings.dfy`).
- **Client side** (`static/js/script.js`). The script has the same range
  table and a per-field check that accepts an empty input. A whole-form
  check marks every failing input and also enforces `required`. The script
  also holds placeholder and sample data, a "Fill Sample Data" button that
  cycles through three data sets, and a four-band wording of the predicted
  score. Module `Script` (`script.dfy`) holds this part.
- Module `CrossCheck` (`cross_check.dfy`) relates the two sides. The two
  range tables are identical. Both sides decide a parsed value the same
  way. Every sample data set gets through the server's validation. The two
  sides name the pH field differently ("pH" in the browser, "Ph" from the
  server's `str.title()`).

Parsing is abstract. On the server, a form is a map from field name to
`Option<real>`. An absent key is a field that was not sent. `None` is text
that `float()` rejects. On the client, each input carries the number
`parseFloat` gives, or `None` for NaN. Numbers are exact reals.

Three details of the route's error handling shape the model:

- A non-numeric field gives the generic message "Please enter valid numeric
  values for all fields", which names no field (app.py:88-89).
- All eleven conversions run before any range check (app.py:29-39 precede
  app.py:71-74). So a non-numeric field wins over an earlier field that is
  out of range.
- A field missing from the request raises a lookup error, which is not a
  `ValueError`. The route's catch-all handler turns it into a "Prediction
  failed" message (app.py:90-92).

## Model

| member | source | states |
|---|---|---|
| `App.ValidationRules` | app.py:42-54 | The server's range table, with the eleven fields and their bounds; every lower bound is at most its upper bound |
| `App.ParseFields` | app.py:29-39 | Parsing succeeds iff every key is present and numeric; the values then come in key order and equal the parsed form entries; an error names a key that really failed, and every key before it parsed |
| `App.ParseStopsAtFirstFailure` | app.py:29-39 | The first key, in parse order, that is missing or not a number decides the error |
| `App.FirstOutOfRange` | app.py:71-74 | Gives the first index whose value is outside its inclusive range, with every earlier value within range; gives None iff every value is within range |
| `App.CheckRanges` | app.py:71-74 | The early-return loop over `inputs.items()` returns exactly the first out-of-range index |
| `App.LabelAt` | app.py:74 | In the shown name an underscore becomes a space, the first letter of each word is upper case and every other letter lower case |
| `App.Validate` | app.py:29-89 | A ready result holds exactly 11 values in field order, equal to the form's and each within its bounds; a range error names a table field whose value is outside the bounds it reports, which are that field's table bounds, with the title-cased name; a missing-field error names an absent key, and the generic numeric error means some key is present but not numeric; in both cases every earlier key is present and numeric |
| `App.Index` | app.py:26-89 | The route handler (parse, scan, assemble) gives exactly the outcome `Validate` specifies |
| `App.ErrorMessage` | app.py:71-92 | Every outcome except a ready vector re-renders the form with a message that starts with the warning sign; a non-numeric field gives the fixed generic text, a missing field "Prediction failed: " and the exception text, and a range error the field's title-cased name followed by " should be between ", the lower bound, " and " and the upper bound |
| `App.FieldKeysDistinct` | app.py:57-69 | The eleven field names are distinct, so the `inputs` dictionary keeps all eleven values |
| `App.RulesCoverFields` | app.py:42-72 | Every field read has a range rule and every rule belongs to a field read, so the lookup on line 72 never fails |
| `App.NotNumericWins` | app.py:29-89 | A non-numeric field whose earlier fields are all present gives the generic numeric error, whatever the later fields hold, even when one of them is missing |
| `App.MissingFieldReported` | app.py:29-92 | A missing field whose earlier fields are all present and numeric is the error reported |
| `App.ScanStopsAt` | app.py:71-74 | The range scan over the assembled inputs stops at the first value outside its range |
| `App.FirstOutOfRangeReported` | app.py:71-74 | When all fields parse, the first field out of range is reported, with its title-cased name and exactly its table bounds |
| `App.ReadyExactlyWhenAllWithin` | app.py:71-81 | The model is invoked iff every field parses and lies within its inclusive range, and it receives the values in field order |
| `App.LaterFieldsIgnored` | app.py:57-74 | Among forms whose eleven fields all parse, fields after the first out-of-range one do not influence the result |
| `App.LabelOfSnakeCase` | app.py:74 | A name of lower-case words joined by underscores is shown as the capitalised words joined by spaces |
| `App.LabelOfVolatileAcidity` | app.py:74 | `volatile_acidity` is shown as "Volatile Acidity" |
| `App.LabelOfPh` | app.py:74 | `pH` is shown as "Ph" |
| `PyStrings.ReplaceCharAt` | app.py:74 | `replace('_', ' ')` replaces every underscore and keeps every other character |
| `PyStrings.TitleFromAt` | app.py:74 | The left-to-right `title()` scan lower-cases a letter after a letter, upper-cases any other letter and keeps non-letters |
| `PyStrings.Title` | app.py:74 | `title()` keeps the length, upper-cases each letter that starts a word, lower-cases the other letters and keeps non-letters |
| `PyStrings.TitleOfSnakeCase` | app.py:74 | `title()` after `replace('_', ' ')` on lower-case words joined by underscores gives the capitalised words joined by spaces |
| `Script.ValidationRules` | static/js/script.js:9-21 | The client's range table; every lower bound is at most its upper bound |
| `Script.ValidateField` | static/js/script.js:54-70 | Empty input is accepted whatever the rule; non-empty input is accepted iff it parses to a number within the inclusive range |
| `Script.TrimEmptyIffBlank` | static/js/script.js:98 | `trim()` gives the empty string iff the text is all white space or line terminators |
| `Script.ValidateForm` | static/js/script.js:87-106 | Every input is visited and marked iff it fails its rule or is required and blank; the result is true iff the form is valid and iff no input is marked |
| `Script.RequiredEmptyBlocksSubmit` | static/js/script.js:58-102 | A required empty input passes `validateField` but makes the form invalid |
| `Script.PlaceholdersWithinRules` | static/js/script.js:113-126 | Every placeholder value has a rule and lies within it; the placeholders equal the first sample |
| `Script.SamplesWithinRules` | static/js/script.js:128-169 | Each sample data set covers exactly the ruled fields and lies within the rules |
| `Script.IndexAfterCycles` | static/js/script.js:171-212 | After n fills the sample index is n mod 3: it starts at 0 and cycles 0, 1, 2, 0, ... |
| `Script.InitialCaptionNamesFirstSample` | static/js/script.js:217-226 | The button is created reading "1/3", the caption for the initial index 0 |
| `Script.SampleCursor.constructor` | static/js/script.js:171 | The index starts at 0 |
| `Script.SampleCursor.FillSampleData` | static/js/script.js:181-220 | The fill writes the data set at the current index, advances the index modulo 3 (so it stays in [0, 3)), and captions the button with the next index plus one, of 3 |
| `Script.QualityBand` | static/js/script.js:237-265 | Scores of at least 7 are Excellent, [6, 7) Good, [5, 6) Average, and anything else, NaN included, Below Average |
| `Script.QualityBandMonotone` | static/js/script.js:237-265 | A higher score never gets a lower band |
| `Script.GetQualityDescription` | static/js/script.js:237-265 | Each description and each colour is given exactly for its band |
| `CrossCheck.RuleTablesAgree` | static/js/script.js:9-21 | The client table has the same fields as the server's `validation_rules` (app.py:42-54), with identical bounds |
| `CrossCheck.ClientRulesCoverServerFields` | static/js/script.js:9-21 | The client has a rule for exactly the eleven fields the server reads |
| `CrossCheck.FieldCheckAgrees` | static/js/script.js:63-69 | For non-empty input that parses, the client accepts a field iff the server's range check does |
| `CrossCheck.SamplesReachModel` | static/js/script.js:128-169 | Submitting any sample data set passes server validation, and the model gets the sample's values in field order |
| `CrossCheck.PhNamedDifferently` | static/js/script.js:18 | The client labels pH "pH"; the server's error names it "Ph" |

## Left out

- The `/train` route (app.py:15-21): it runs a shell command. Its error branch cannot fire, because `os.system` does not raise on a non-zero exit.
- The model evaluation and experiment-tracking component (`src/datascience/components/model_evaluation.py`): it wraps library metrics, file I/O and remote uploads.
- The prediction itself (app.py:80-86): the model is opaque, and `round(float(...), 2)` is floating-point rounding. `Ready(features)` stands for "the model is invoked with these features".
- Exceptions raised while the model is built or invoked, or while its result is converted (app.py:80-84), are not modelled. A `ValueError` from any of these is caught by the handler at app.py:88-89 and shown as the generic numeric-values message. Any other exception is shown as "Prediction failed" (app.py:90-92).
- Flask routing and template rendering. The outcome datatype stands in for the rendered page.
- The catch-all handler prints the exception to standard output before re-rendering the form (app.py:91). This is not modelled.
- Concrete number parsing is abstracted to `Option<real>`. So three things are not modelled: Python's `float()` accepting "nan" and "inf" (which then fail the range check), JavaScript's `parseFloat` accepting numeric prefixes such as "7.4abc", and browser sanitising of number inputs.
- Bounds and values are exact decimals. IEEE-754 rounding at the bounds is not modelled.
- Numbers are not rendered as text. `App.ErrorMessage` takes the rendering of a bound and the exception text as parameters.
- The model treats only ASCII letters as cased, and keeps every other character unchanged. Python's `str.title()` also cases non-ASCII letters. The eleven field names are ASCII.
- Which inputs are marked as errors is modelled, as `Script.ValidateForm`'s `marked` result. The page effects themselves are not modelled: the CSS classes added and removed, the message texts shown, the loading spinner, event listeners, the delayed submit, console logging and dispatched events.
- `validateField` also runs on `input` and `blur` events. This is not modelled.
- `fillSampleData` writes values into the page's inputs and re-validates them (the result is only logged). `Script.SampleCursor.FillSampleData` instead returns the data set it writes.
- `validationRules[name]` in JavaScript also finds members inherited through the object prototype. The model treats the table as a plain map.
- Placeholder and sample values are strings in the script (such as "0.70"). The model keeps their numeric values.
- The emoji in the quality descriptions, the sample button caption and the messages are garbled in the script's source text. They are omitted, except for the warning sign that starts server messages.
- `App.Label`'s own contract states only the length. What it computes is stated by `App.LabelAt` and `App.LabelOfSnakeCase`.
