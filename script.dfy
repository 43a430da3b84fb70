/**
 * The browser side of the prediction form (static/js/script.js): the range
 * table, the per-field and whole-form checks run before the form is
 * submitted, the sample data the "Fill Sample Data" button cycles through,
 * and the wording of a predicted quality score.
 *
 * `parseFloat` is abstract: an input carries the number it parses to, or
 * None where JavaScript would produce NaN.  Page effects (error styling,
 * messages, the loading spinner, events) are not modelled.
 */
module Script {
  import opened Wrappers

  /** One entry of `validationRules`. */
  datatype Rule = Rule(min: real, max: real, display: string)

  /** The client's `validationRules` table. */
  function ValidationRules(): (rules: map<string, Rule>)
    ensures forall k :: k in rules ==> rules[k].min <= rules[k].max
  {
    map[
      "fixed_acidity" := Rule(3.8, 15.9, "Fixed Acidity"),
      "volatile_acidity" := Rule(0.08, 1.58, "Volatile Acidity"),
      "citric_acid" := Rule(0.0, 1.66, "Citric Acid"),
      "residual_sugar" := Rule(0.6, 65.8, "Residual Sugar"),
      "chlorides" := Rule(0.009, 0.611, "Chlorides"),
      "free_sulfur_dioxide" := Rule(1.0, 289.0, "Free Sulfur Dioxide"),
      "total_sulfur_dioxide" := Rule(6.0, 440.0, "Total Sulfur Dioxide"),
      "density" := Rule(0.98711, 1.03898, "Density"),
      "pH" := Rule(2.72, 4.01, "pH"),
      "sulphates" := Rule(0.22, 2.0, "Sulphates"),
      "alcohol" := Rule(8.0, 15.0, "Alcohol")]
  }

  // ------------------------------------------------------------ one field

  /**
   * `validateField`: an empty input is accepted without looking at the rule;
   * any other input must parse to a number within the rule's inclusive range.
   */
  function ValidateField(value: string, parsed: Option<real>, rule: Rule): (ok: bool)
    ensures value == "" ==> ok
    ensures value != "" ==> (ok <==> parsed.Some? && rule.min <= parsed.value <= rule.max)
  {
    if value == "" then true
    else
      match parsed
      case None => false
      case Some(v) => !(v < rule.min || v > rule.max)
  }

  // ------------------------------------------------------------- trimming

  /** The characters `String.prototype.trim` removes: white space and line terminators. */
  predicate IsWhitespace(c: char) {
    c == '\t' || c == '\n' || c == '\U{000B}' || c == '\U{000C}' || c == '\r' ||
    c == ' ' || c == '\U{00A0}' || c == '\U{1680}' || ('\U{2000}' <= c <= '\U{200A}') ||
    c == '\U{2028}' || c == '\U{2029}' || c == '\U{202F}' || c == '\U{205F}' ||
    c == '\U{3000}' || c == '\U{FEFF}'
  }

  /** Drops the leading white space. */
  function TrimStart(s: string): (r: string)
    ensures |r| <= |s|
  {
    if s != [] && IsWhitespace(s[0]) then TrimStart(s[1..]) else s
  }

  /** Drops the trailing white space. */
  function TrimEnd(s: string): (r: string)
    ensures |r| <= |s|
  {
    if s != [] && IsWhitespace(s[|s| - 1]) then TrimEnd(s[..|s| - 1]) else s
  }

  /** `s.trim()`. */
  function Trim(s: string): string {
    TrimEnd(TrimStart(s))
  }

  /** A string trims to the empty string exactly when it is all white space. */
  lemma {:induction false} TrimEmptyIffBlank(s: string)
    ensures Trim(s) == "" <==> forall i :: 0 <= i < |s| ==> IsWhitespace(s[i])
  {
    if s == [] {
    } else if IsWhitespace(s[0]) {
      TrimEmptyIffBlank(s[1..]);
      assert forall i :: 1 <= i < |s| ==> s[i] == s[1..][i - 1];
    } else {
      assert TrimStart(s) == s;
      TrimEndKeepsNonBlank(s);
    }
  }

  /** A string that does not start with white space keeps its first character when trimmed at the end. */
  lemma {:induction false} TrimEndKeepsNonBlank(s: string)
    requires s != [] && !IsWhitespace(s[0])
    ensures TrimEnd(s) != [] && TrimEnd(s)[0] == s[0]
  {
    if IsWhitespace(s[|s| - 1]) {
      assert |s| > 1;
      TrimEndKeepsNonBlank(s[..|s| - 1]);
    }
  }

  // ------------------------------------------------------------ whole form

  /** A number input of the form, as `validateForm` sees it. */
  datatype FormInput = FormInput(name: string, value: string, parsed: Option<real>, required: bool)

  /** Whether the input has a rule and fails it. */
  predicate FailsRule(input: FormInput) {
    input.name in ValidationRules() &&
    !ValidateField(input.value, input.parsed, ValidationRules()[input.name])
  }

  /** Whether the input is required but blank after trimming. */
  predicate MissingRequired(input: FormInput) {
    input.required && Trim(input.value) == ""
  }

  /** Whether `validateForm` marks the input as erroneous. */
  predicate Rejected(input: FormInput) {
    FailsRule(input) || MissingRequired(input)
  }

  /**
   * The form may be submitted: every input that has a rule passes
   * `validateField`, and no required input is blank.
   */
  predicate FormValid(inputs: seq<FormInput>) {
    forall i :: 0 <= i < |inputs| ==>
      (inputs[i].name in ValidationRules() ==>
         ValidateField(inputs[i].value, inputs[i].parsed, ValidationRules()[inputs[i].name])) &&
      (inputs[i].required ==> Trim(inputs[i].value) != "")
  }

  /**
   * `validateForm`: visits every input (it does not stop at the first
   * failure), marking each one that fails, and clears the flag if any does.
   */
  method ValidateForm(inputs: seq<FormInput>) returns (isValid: bool, marked: seq<bool>)
    ensures |marked| == |inputs|
    ensures forall i :: 0 <= i < |inputs| ==> marked[i] == Rejected(inputs[i])
    ensures isValid == FormValid(inputs)
    ensures isValid <==> forall i :: 0 <= i < |inputs| ==> !marked[i]
  {
    var rules := ValidationRules();
    isValid := true;
    marked := [];
    for i := 0 to |inputs|
      invariant |marked| == i
      invariant forall j :: 0 <= j < i ==> marked[j] == Rejected(inputs[j])
      invariant isValid <==> forall j :: 0 <= j < i ==> !Rejected(inputs[j])
    {
      var input := inputs[i];
      var flagged := false;
      if input.name in rules && !ValidateField(input.value, input.parsed, rules[input.name]) {
        isValid := false;
        flagged := true;
      }
      if input.required && Trim(input.value) == "" {
        isValid := false;
        flagged := true;
      }
      marked := marked + [flagged];
    }
  }

  /**
   * A required input left empty blocks submission, although `validateField`
   * on its own accepts the empty string.
   */
  lemma RequiredEmptyBlocksSubmit(inputs: seq<FormInput>, i: nat)
    requires i < |inputs| && inputs[i].required && inputs[i].value == ""
    ensures forall rule :: ValidateField(inputs[i].value, inputs[i].parsed, rule)
    ensures !FormValid(inputs)
  {
    assert Trim(inputs[i].value) == "";
  }

  // ---------------------------------------------------------- sample data

  /** The numbers behind the `placeholders` hints. */
  const Placeholders: map<string, real> := map[
    "fixed_acidity" := 7.4, "volatile_acidity" := 0.70, "citric_acid" := 0.00,
    "residual_sugar" := 1.9, "chlorides" := 0.076, "free_sulfur_dioxide" := 11.0,
    "total_sulfur_dioxide" := 34.0, "density" := 0.99780, "pH" := 3.51,
    "sulphates" := 0.56, "alcohol" := 9.4]

  /** The numbers behind `sampleDataSets`. */
  const SampleDataSets: seq<map<string, real>> := [
    map[
      "fixed_acidity" := 7.4, "volatile_acidity" := 0.70, "citric_acid" := 0.00,
      "residual_sugar" := 1.9, "chlorides" := 0.076, "free_sulfur_dioxide" := 11.0,
      "total_sulfur_dioxide" := 34.0, "density" := 0.99780, "pH" := 3.51,
      "sulphates" := 0.56, "alcohol" := 9.4],
    map[
      "fixed_acidity" := 8.1, "volatile_acidity" := 0.28, "citric_acid" := 0.40,
      "residual_sugar" := 6.9, "chlorides" := 0.050, "free_sulfur_dioxide" := 30.0,
      "total_sulfur_dioxide" := 97.0, "density" := 0.99510, "pH" := 3.26,
      "sulphates" := 0.44, "alcohol" := 10.1],
    map[
      "fixed_acidity" := 7.8, "volatile_acidity" := 0.88, "citric_acid" := 0.00,
      "residual_sugar" := 2.6, "chlorides" := 0.098, "free_sulfur_dioxide" := 25.0,
      "total_sulfur_dioxide" := 67.0, "density" := 0.99680, "pH" := 3.20,
      "sulphates" := 0.68, "alcohol" := 9.8]]

  /** Every value of the data set has a rule and lies within it. */
  predicate WithinRules(data: map<string, real>) {
    forall k :: k in data ==>
      k in ValidationRules() && ValidationRules()[k].min <= data[k] <= ValidationRules()[k].max
  }

  /** The placeholders are all within the rules, and they are the first sample. */
  lemma PlaceholdersWithinRules()
    ensures WithinRules(Placeholders)
    ensures Placeholders == SampleDataSets[0]
  {
  }

  /** Every sample data set covers every ruled field and lies within the rules. */
  lemma SamplesWithinRules(n: nat)
    requires n < |SampleDataSets|
    ensures SampleDataSets[n].Keys == ValidationRules().Keys
    ensures WithinRules(SampleDataSets[n])
  {
  }

  // ------------------------------------------------------ sample cycling

  /** The index after one fill: `(currentSampleIndex + 1) % sampleDataSets.length`. */
  function Advance(index: nat): (next: nat)
    ensures next < |SampleDataSets|
  {
    (index + 1) % |SampleDataSets|
  }

  /** The index after n fills, starting from the initial 0. */
  function IndexAfter(fills: nat): nat {
    if fills == 0 then 0 else Advance(IndexAfter(fills - 1))
  }

  /** The n-th fill (counting from 0) writes sample n mod 3; the cycle is 0, 1, 2, 0, ... */
  lemma {:induction false} IndexAfterCycles(fills: nat)
    ensures IndexAfter(fills) == fills % |SampleDataSets|
  {
    if fills > 0 {
      IndexAfterCycles(fills - 1);
    }
  }

  /** The digit character for a number below ten. */
  function Digit(n: nat): (c: char)
    requires n < 10
    ensures '0' <= c <= '9'
  {
    ('0' as int + n) as char
  }

  /** The button text naming the sample the next click fills, counting from 1. */
  function Caption(index: nat): string
    requires index < |SampleDataSets|
  {
    "Fill Sample Data " + [Digit(index + 1)] + "/" + [Digit(|SampleDataSets|)]
  }

  /** The text the button is created with. */
  const InitialCaption: string := "Fill Sample Data 1/3"

  /** The button is created naming the first sample, as the index starts at 0. */
  lemma InitialCaptionNamesFirstSample()
    ensures InitialCaption == Caption(IndexAfter(0))
  {
  }

  /** The sample-data button: `currentSampleIndex` and `fillSampleData`. */
  class SampleCursor {
    var currentSampleIndex: nat
    ghost var fills: nat

    ghost predicate Valid()
      reads this
    {
      currentSampleIndex == IndexAfter(fills) && currentSampleIndex < |SampleDataSets|
    }

    constructor ()
      ensures Valid() && fills == 0 && currentSampleIndex == 0
    {
      currentSampleIndex := 0;
      fills := 0;
    }

    /**
     * Returns the data set written into the form and the new button text;
     * the index moves on to the next data set, wrapping after the last.
     */
    method FillSampleData() returns (sample: map<string, real>, caption: string)
      requires Valid()
      modifies this
      ensures Valid() && fills == old(fills) + 1
      ensures sample == SampleDataSets[old(currentSampleIndex)]
      ensures currentSampleIndex == Advance(old(currentSampleIndex))
      ensures caption == Caption(currentSampleIndex)
    {
      sample := SampleDataSets[currentSampleIndex];
      currentSampleIndex := (currentSampleIndex + 1) % |SampleDataSets|;
      fills := fills + 1;
      caption := Caption(currentSampleIndex);
    }
  }

  // ------------------------------------------------------ quality wording

  /** The four wordings of a predicted score, from worst to best. */
  datatype Band = BelowAverage | Average | Good | Excellent

  /** The band's position from worst (0) to best (3). */
  function Rank(b: Band): nat {
    match b
    case BelowAverage => 0
    case Average => 1
    case Good => 2
    case Excellent => 3
  }

  /**
   * The band of `getQualityDescription`: thresholds 7, 6 and 5, each
   * inclusive; a score that does not parse falls through to the lowest band.
   */
  function QualityBand(score: Option<real>): (b: Band)
    ensures b == Excellent <==> score.Some? && score.value >= 7.0
    ensures b == Good <==> score.Some? && 6.0 <= score.value < 7.0
    ensures b == Average <==> score.Some? && 5.0 <= score.value < 6.0
    ensures b == BelowAverage <==> score.None? || score.value < 5.0
  {
    match score
    case None => BelowAverage
    case Some(q) =>
      if q >= 7.0 then Excellent
      else if q >= 6.0 then Good
      else if q >= 5.0 then Average
      else BelowAverage
  }

  /** A higher score never gets a worse wording. */
  lemma QualityBandMonotone(x: real, y: real)
    requires x <= y
    ensures Rank(QualityBand(Some(x))) <= Rank(QualityBand(Some(y)))
  {
  }

  /** The description and colour shown for a score. */
  datatype Quality = Quality(description: string, color: string)

  /** `getQualityDescription` without its emoji: the description and colour of each band. */
  function GetQualityDescription(score: Option<real>): (q: Quality)
    ensures q.description == "Excellent Wine" <==> QualityBand(score) == Excellent
    ensures q.description == "Good Wine" <==> QualityBand(score) == Good
    ensures q.description == "Average Wine" <==> QualityBand(score) == Average
    ensures q.description == "Below Average Wine" <==> QualityBand(score) == BelowAverage
    ensures q.color == "#27ae60" <==> QualityBand(score) == Excellent
    ensures q.color == "#2ecc71" <==> QualityBand(score) == Good
    ensures q.color == "#f39c12" <==> QualityBand(score) == Average
    ensures q.color == "#e74c3c" <==> QualityBand(score) == BelowAverage
  {
    match QualityBand(score)
    case Excellent => Quality("Excellent Wine", "#27ae60")
    case Good => Quality("Good Wine", "#2ecc71")
    case Average => Quality("Average Wine", "#f39c12")
    case BelowAverage => Quality("Below Average Wine", "#e74c3c")
  }
}
