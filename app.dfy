/**
 * The POST branch of the `/predict` route (app.py, `index()`): read the
 * eleven wine measurements from the submitted form, check each against a
 * fixed inclusive range, and hand the values to the regression model in a
 * fixed order.
 *
 * A submitted form is a map from field name to the result of Python's
 * `float()` on the submitted text: a missing key is a field the browser did
 * not send, `None` a text that `float()` rejects.  The model itself is
 * outside this model: `Ready(features)` is the vector it would be given.
 */
module App {
  import opened Wrappers
  import PyStrings

  /** An inclusive range of accepted values. */
  datatype Bounds = Bounds(min: real, max: real)

  /** The submitted form: field name to parsed number (None: not a number). */
  type Form = map<string, Option<real>>

  /** What the route does with one submission. */
  datatype Outcome =
    | NotNumeric                          // "Please enter valid numeric values for all fields"
    | MissingField(key: string)           // lookup of an absent key; reported as "Prediction failed"
    | OutOfRange(field: string, display: string, min: real, max: real)
    | Ready(features: seq<real>)          // the vector the model is invoked with

  /** The eleven fields, in the order they are parsed, checked and sent to the model. */
  const FieldKeys: seq<string> := [
    "fixed_acidity", "volatile_acidity", "citric_acid", "residual_sugar",
    "chlorides", "free_sulfur_dioxide", "total_sulfur_dioxide", "density",
    "pH", "sulphates", "alcohol"]

  /** The server's `validation_rules` table. */
  function ValidationRules(): (rules: map<string, Bounds>)
    ensures forall k :: k in rules ==> rules[k].min <= rules[k].max
  {
    map[
      "fixed_acidity" := Bounds(3.8, 15.9),
      "volatile_acidity" := Bounds(0.08, 1.58),
      "citric_acid" := Bounds(0.0, 1.66),
      "residual_sugar" := Bounds(0.6, 65.8),
      "chlorides" := Bounds(0.009, 0.611),
      "free_sulfur_dioxide" := Bounds(1.0, 289.0),
      "total_sulfur_dioxide" := Bounds(6.0, 440.0),
      "density" := Bounds(0.98711, 1.03898),
      "pH" := Bounds(2.72, 4.01),
      "sulphates" := Bounds(0.22, 2.0),
      "alcohol" := Bounds(8.0, 15.0)]
  }

  /** The chained comparison `min_val <= value <= max_val`. */
  predicate Within(value: real, b: Bounds) {
    b.min <= value <= b.max
  }

  /** The name shown in a range error: underscores become spaces, then `str.title()`. */
  function Label(key: string): (shown: string)
    ensures |shown| == |key|
  {
    PyStrings.Title(PyStrings.ReplaceChar(key, '_', ' '))
  }

  /**
   * Each character of the shown name: an underscore is a space, the first
   * letter of each word is upper case, every other letter lower case.
   */
  lemma LabelAt(key: string)
    ensures forall i :: 0 <= i < |key| ==>
      Label(key)[i] == (if key[i] == '_' then ' '
                        else if !PyStrings.IsCased(key[i]) then key[i]
                        else if PyStrings.StartsWord(key, i) then PyStrings.ToUpper(key[i])
                        else PyStrings.ToLower(key[i]))
  {
    PyStrings.ReplaceCharAt(key, '_', ' ');
  }

  // ---------------------------------------------------------------- parsing

  /** Why reading one field failed. */
  datatype ParseFailure = KeyMissing(key: string) | NotNumber(key: string)

  /** What `float(request.form[key])` does for one key. */
  function FieldFailure(form: Form, key: string): Option<ParseFailure> {
    if key !in form then Some(KeyMissing(key))
    else if form[key].None? then Some(NotNumber(key))
    else None
  }

  /**
   * The eleven parse statements, one key after the other: the first key that
   * is missing or not a number aborts the whole parse.
   */
  function ParseFields(form: Form, keys: seq<string>): (r: Result<seq<real>, ParseFailure>)
    ensures r.Ok? <==> forall i :: 0 <= i < |keys| ==> FieldFailure(form, keys[i]).None?
    ensures r.Ok? ==> (|r.value| == |keys| &&
      forall i :: 0 <= i < |keys| ==> keys[i] in form && form[keys[i]] == Some(r.value[i]))
    ensures r.Err? ==> r.error.key in keys && FieldFailure(form, r.error.key) == Some(r.error)
    ensures r.Err? ==>
      exists i :: 0 <= i < |keys| && keys[i] == r.error.key &&
        forall j :: 0 <= j < i ==> FieldFailure(form, keys[j]).None?
  {
    if keys == [] then Ok([])
    else match FieldFailure(form, keys[0])
      case Some(failure) => Err(failure)
      case None =>
        match ParseFields(form, keys[1..])
        case Err(failure) => Err(failure)
        case Ok(rest) => Ok([form[keys[0]].value] + rest)
  }

  /** The first key whose parse fails decides the error. */
  lemma {:induction false} ParseStopsAtFirstFailure(form: Form, keys: seq<string>, i: nat)
    requires i < |keys| && FieldFailure(form, keys[i]).Some?
    requires forall j :: 0 <= j < i ==> FieldFailure(form, keys[j]).None?
    ensures ParseFields(form, keys) == Err(FieldFailure(form, keys[i]).value)
  {
    if i > 0 {
      forall j | 0 <= j < i - 1 ensures FieldFailure(form, keys[1..][j]).None? {
        assert keys[1..][j] == keys[j + 1];
      }
      ParseStopsAtFirstFailure(form, keys[1..], i - 1);
    }
  }

  // ----------------------------------------------------------- range check

  /** The `inputs` dictionary: field names paired with their values, in insertion order. */
  function Inputs(values: seq<real>): (inputs: seq<(string, real)>)
    requires |values| == |FieldKeys|
    ensures |inputs| == |FieldKeys|
    ensures forall i :: 0 <= i < |inputs| ==> inputs[i] == (FieldKeys[i], values[i])
  {
    seq(|FieldKeys|, i requires 0 <= i < |FieldKeys| => (FieldKeys[i], values[i]))
  }

  /** Every field name has a rule, so `validation_rules[field]` never fails. */
  predicate Covered(inputs: seq<(string, real)>, rules: map<string, Bounds>) {
    forall i :: 0 <= i < |inputs| ==> inputs[i].0 in rules
  }

  /**
   * The index of the first input outside its inclusive range, if any: every
   * input before it is within its range.
   */
  function FirstOutOfRange(inputs: seq<(string, real)>, rules: map<string, Bounds>): (r: Option<nat>)
    requires Covered(inputs, rules)
    ensures r.Some? ==> r.value < |inputs| && !Within(inputs[r.value].1, rules[inputs[r.value].0])
    ensures r.Some? ==> forall j :: 0 <= j < r.value ==> Within(inputs[j].1, rules[inputs[j].0])
    ensures r.None? <==> forall j :: 0 <= j < |inputs| ==> Within(inputs[j].1, rules[inputs[j].0])
  {
    if inputs == [] then None
    else if !Within(inputs[0].1, rules[inputs[0].0]) then Some(0)
    else
      assert forall j :: 0 <= j < |inputs| - 1 ==> inputs[1..][j] == inputs[j + 1];
      match FirstOutOfRange(inputs[1..], rules)
      case None => None
      case Some(k) => Some(k + 1)
  }

  /**
   * The `for field, value in inputs.items()` loop: the first field outside
   * its range stops the scan.
   */
  method CheckRanges(inputs: seq<(string, real)>, rules: map<string, Bounds>) returns (r: Option<nat>)
    requires Covered(inputs, rules)
    ensures r == FirstOutOfRange(inputs, rules)
  {
    var i := 0;
    while i < |inputs|
      invariant 0 <= i <= |inputs|
      invariant forall j :: 0 <= j < i ==> Within(inputs[j].1, rules[inputs[j].0])
    {
      var (field, value) := inputs[i];
      var b := rules[field];
      if !(b.min <= value <= b.max) {
        return Some(i);
      }
      i := i + 1;
    }
    return None;
  }

  // ------------------------------------------------------------ the route

  /**
   * What the route does with a submitted form: parse all eleven fields,
   * then report the first field outside its range, else send the values to
   * the model in field order.
   */
  function Validate(form: Form): (r: Outcome)
    ensures r.Ready? ==> (|r.features| == |FieldKeys| &&
      forall i :: 0 <= i < |FieldKeys| ==>
        FieldKeys[i] in form && form[FieldKeys[i]] == Some(r.features[i]) &&
        Within(r.features[i], ValidationRules()[FieldKeys[i]]))
    ensures r.OutOfRange? ==> (r.field in FieldKeys && r.display == Label(r.field) &&
      r.field in form && form[r.field].Some? &&
      Bounds(r.min, r.max) == ValidationRules()[r.field] &&
      !Within(form[r.field].value, Bounds(r.min, r.max)))
    ensures r.MissingField? ==> r.key in FieldKeys && r.key !in form
    ensures r.MissingField? ==>
      exists i :: 0 <= i < |FieldKeys| && FieldKeys[i] == r.key &&
        forall j :: 0 <= j < i ==> FieldKeys[j] in form && form[FieldKeys[j]].Some?
    ensures r.NotNumeric? ==>
      exists i :: 0 <= i < |FieldKeys| && FieldKeys[i] in form && form[FieldKeys[i]].None? &&
        forall j :: 0 <= j < i ==> FieldKeys[j] in form && form[FieldKeys[j]].Some?
  {
    match ParseFields(form, FieldKeys)
    case Err(KeyMissing(key)) => MissingField(key)
    case Err(NotNumber(_)) => NotNumeric
    case Ok(values) =>
      match FirstOutOfRange(Inputs(values), ValidationRules())
      case Some(i) =>
        var b := ValidationRules()[FieldKeys[i]];
        OutOfRange(FieldKeys[i], Label(FieldKeys[i]), b.min, b.max)
      case None => Ready(values)
  }

  /** The route handler, step by step as the source runs it. */
  method Index(form: Form) returns (r: Outcome)
    ensures r == Validate(form)
  {
    var parsed := ParseFields(form, FieldKeys);
    if parsed.Err? {
      r := if parsed.error.KeyMissing? then MissingField(parsed.error.key) else NotNumeric;
      return;
    }
    var values := parsed.value;
    var rules := ValidationRules();
    var inputs := Inputs(values);
    var bad := CheckRanges(inputs, rules);
    if bad.Some? {
      var field := inputs[bad.value].0;
      var b := rules[field];
      return OutOfRange(field, Label(field), b.min, b.max);
    }
    r := Ready(values);
  }

  /** The message the form is re-rendered with, or None when the model is invoked. */
  function ErrorMessage(r: Outcome, repr: real -> string, exceptionText: string): (m: Option<string>)
    ensures m.None? <==> r.Ready?
    ensures m.Some? ==> |m.value| >= |Warning| && m.value[..|Warning|] == Warning
    ensures r.NotNumeric? ==> m == Some(Warning + "Please enter valid numeric values for all fields")
    ensures r.MissingField? ==> (m.Some? && m.value[|Warning|..] == "Prediction failed: " + exceptionText)
    ensures r.OutOfRange? ==> (m.Some? && |m.value| > |Warning| + |r.display| &&
      m.value[|Warning|..|Warning| + |r.display|] == r.display &&
      m.value[|Warning| + |r.display|..] == " should be between " + repr(r.min) + " and " + repr(r.max))
  {
    match r
    case NotNumeric => Some(Warning + "Please enter valid numeric values for all fields")
    case MissingField(_) => Some(Warning + "Prediction failed: " + exceptionText)
    case OutOfRange(_, display, min, max) =>
      Some(Warning + display + " should be between " + repr(min) + " and " + repr(max))
    case Ready(_) => None
  }

  /** The warning sign and space that start every error message. */
  const Warning: string := "\U{26A0}\U{FE0F} "
  // ------------------------------------------------------------ properties

  /** Every field of the form parses as a number. */
  predicate AllParse(form: Form) {
    forall i :: 0 <= i < |FieldKeys| ==> FieldKeys[i] in form && form[FieldKeys[i]].Some?
  }

  /** The parsed values of a form whose fields all parse, in field order. */
  function Values(form: Form): (values: seq<real>)
    requires AllParse(form)
    ensures |values| == |FieldKeys|
    ensures forall i :: 0 <= i < |FieldKeys| ==> form[FieldKeys[i]] == Some(values[i])
  {
    seq(|FieldKeys|, i requires 0 <= i < |FieldKeys| => form[FieldKeys[i]].value)
  }

  /** No field name occurs twice, so the `inputs` dictionary keeps all eleven values. */
  lemma FieldKeysDistinct()
    ensures forall i, j :: 0 <= i < j < |FieldKeys| ==> FieldKeys[i] != FieldKeys[j]
  {
  }

  /** The rule table has exactly the eleven field names as keys. */
  lemma RulesCoverFields()
    ensures forall i :: 0 <= i < |FieldKeys| ==> FieldKeys[i] in ValidationRules()
    ensures forall k :: k in ValidationRules() ==> k in FieldKeys
  {
  }

  /**
   * A field that is not a number, with every earlier field present, gives
   * the generic numeric error whatever the later fields hold (present,
   * missing or out of range): every parse happens before any range check.
   */
  lemma NotNumericWins(form: Form, i: nat)
    requires i < |FieldKeys| && FieldKeys[i] in form && form[FieldKeys[i]].None?
    requires forall j :: 0 <= j < i ==> FieldKeys[j] in form
    ensures Validate(form) == NotNumeric
  {
    // The first failing key, which ParseFields reports, is at or before i and is present.
  }

  /** A missing field that comes before any unparsable one is the error reported. */
  lemma MissingFieldReported(form: Form, i: nat)
    requires i < |FieldKeys| && FieldKeys[i] !in form
    requires forall j :: 0 <= j < i ==> FieldKeys[j] in form && form[FieldKeys[j]].Some?
    ensures Validate(form) == MissingField(FieldKeys[i])
  {
    ParseStopsAtFirstFailure(form, FieldKeys, i);
  }

  /** The range scan over the eleven values stops at the first one outside its range. */
  lemma ScanStopsAt(values: seq<real>, rules: map<string, Bounds>, i: nat)
    requires |values| == |FieldKeys| && Covered(Inputs(values), rules)
    requires i < |FieldKeys| && !Within(values[i], rules[FieldKeys[i]])
    requires forall j :: 0 <= j < i ==> Within(values[j], rules[FieldKeys[j]])
    ensures FirstOutOfRange(Inputs(values), rules) == Some(i)
  {
    var inputs := Inputs(values);
    assert inputs[i] == (FieldKeys[i], values[i]);
    forall j | 0 <= j < i ensures Within(inputs[j].1, rules[inputs[j].0]) {
      assert inputs[j] == (FieldKeys[j], values[j]);
    }
  }

  /**
   * When every field parses, the first field outside its range is the one
   * reported, with that field's bounds and its title-cased name.
   */
  lemma FirstOutOfRangeReported(form: Form, i: nat)
    requires AllParse(form)
    requires i < |FieldKeys| && !Within(form[FieldKeys[i]].value, ValidationRules()[FieldKeys[i]])
    requires forall j :: 0 <= j < i ==> Within(form[FieldKeys[j]].value, ValidationRules()[FieldKeys[j]])
    ensures Validate(form) == OutOfRange(FieldKeys[i], Label(FieldKeys[i]),
      ValidationRules()[FieldKeys[i]].min, ValidationRules()[FieldKeys[i]].max)
  {
    var values := ParseFields(form, FieldKeys).value;
    RulesCoverFields();
    ScanStopsAt(values, ValidationRules(), i);
  }

  /**
   * Validation succeeds exactly when every field parses and lies within its
   * inclusive range; the model then receives the values in field order.
   */
  lemma ReadyExactlyWhenAllWithin(form: Form)
    ensures Validate(form).Ready? <==>
      AllParse(form) &&
      forall i :: 0 <= i < |FieldKeys| ==> Within(form[FieldKeys[i]].value, ValidationRules()[FieldKeys[i]])
    ensures Validate(form).Ready? ==> Validate(form).features == Values(form)
  {
    if AllParse(form) {
      var values := ParseFields(form, FieldKeys).value;
      assert values == Values(form);
      if forall i :: 0 <= i < |FieldKeys| ==> Within(form[FieldKeys[i]].value, ValidationRules()[FieldKeys[i]]) {
        forall j | 0 <= j < |FieldKeys|
          ensures Within(Inputs(values)[j].1, ValidationRules()[Inputs(values)[j].0])
        {
          assert Inputs(values)[j] == (FieldKeys[j], form[FieldKeys[j]].value);
        }
      }
    }
  }

  /**
   * Once field i is the first outside its range, the fields after it do not
   * change the outcome: another form that agrees up to field i and still
   * parses everywhere gets the same answer.
   */
  lemma LaterFieldsIgnored(form: Form, other: Form, i: nat)
    requires AllParse(form) && AllParse(other)
    requires i < |FieldKeys| && !Within(form[FieldKeys[i]].value, ValidationRules()[FieldKeys[i]])
    requires forall j :: 0 <= j < i ==> Within(form[FieldKeys[j]].value, ValidationRules()[FieldKeys[j]])
    requires forall j :: 0 <= j <= i ==> form[FieldKeys[j]] == other[FieldKeys[j]]
    ensures Validate(other) == Validate(form)
  {
    FirstOutOfRangeReported(form, i);
    FirstOutOfRangeReported(other, i);
  }

  /**
   * A field name made of lower-case words joined by underscores is shown as
   * the capitalised words joined by spaces.
   */
  lemma LabelOfSnakeCase(key: string, words: seq<string>)
    requires |words| > 0 && forall i :: 0 <= i < |words| ==> PyStrings.LowerWord(words[i])
    requires key == PyStrings.JoinWith(words, '_')
    ensures Label(key) == PyStrings.JoinWith(PyStrings.CapitalizeAll(words), ' ')
  {
    PyStrings.TitleOfSnakeCase(words);
  }

  /** volatile_acidity is shown as Volatile Acidity. */
  lemma LabelOfVolatileAcidity()
    ensures Label("volatile_acidity") == "Volatile Acidity"
  {
    VolatileAcidityLabel("volatile_acidity");
  }

  /** LabelOfVolatileAcidity, with the key passed in so that the verifier does not unfold the literal. */
  lemma VolatileAcidityLabel(key: string)
    requires key == "volatile_acidity"
    ensures Label(key) == "Volatile Acidity"
  {
    var first, second := "volatile", "acidity";
    assert PyStrings.LowerWord(first) && PyStrings.LowerWord(second);
    LabelOfSnakeCase(key, [first, second]);
    assert PyStrings.CapitalizeAll([first, second]) == [PyStrings.Capitalized(first), PyStrings.Capitalized(second)];
  }

  /** `str.title()` lower-cases every letter after the first of a word: pH is shown as Ph. */
  lemma LabelOfPh()
    ensures Label("pH") == "Ph"
  {
    PhLabel("pH");
  }

  /** LabelOfPh, with the key passed in so that the verifier does not unfold the literal. */
  lemma PhLabel(key: string)
    requires key == "pH"
    ensures Label(key) == "Ph"
  {
    var shown := Label(key);
    LabelAt(key);
    assert PyStrings.StartsWord(key, 0) && !PyStrings.StartsWord(key, 1);
    assert shown[0] == 'P' && shown[1] == 'h';
  }
}
