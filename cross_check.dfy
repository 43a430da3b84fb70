/**
 * How the browser-side checks (static/js/script.js) relate to the server's
 * (app.py): the same table of ranges, the same decision on a parsed value,
 * sample data the server accepts, and the names each side shows.
 */
module CrossCheck {
  import opened Wrappers
  import App
  import Script

  /** The two range tables have the same fields and identical bounds. */
  lemma RuleTablesAgree()
    ensures Script.ValidationRules().Keys == App.ValidationRules().Keys
    ensures forall k :: k in App.ValidationRules() ==>
      Script.ValidationRules()[k].min == App.ValidationRules()[k].min &&
      Script.ValidationRules()[k].max == App.ValidationRules()[k].max
  {
  }

  /** The client has a rule for exactly the eleven fields the server reads. */
  lemma ClientRulesCoverServerFields()
    ensures forall i :: 0 <= i < |App.FieldKeys| ==> App.FieldKeys[i] in Script.ValidationRules()
    ensures forall k :: k in Script.ValidationRules() ==> k in App.FieldKeys
  {
  }

  /**
   * On a non-empty input that parses, the browser accepts a field exactly
   * when the server's range check does.
   */
  lemma FieldCheckAgrees(key: string, value: string, v: real)
    requires key in App.ValidationRules() && value != ""
    ensures Script.ValidateField(value, Some(v), Script.ValidationRules()[key]) ==
      App.Within(v, App.ValidationRules()[key])
  {
    RuleTablesAgree();
  }

  /** The form the server receives when every field holds the data set's value. */
  function Submitted(data: map<string, real>): (form: App.Form)
    ensures form.Keys == data.Keys
    ensures forall k :: k in data ==> form[k] == Some(data[k])
  {
    map k | k in data :: Some(data[k])
  }

  /**
   * Submitting any of the sample data sets reaches the model, with the
   * sample's values in field order.
   */
  lemma SamplesReachModel(n: nat)
    requires n < |Script.SampleDataSets|
    ensures App.Validate(Submitted(Script.SampleDataSets[n])).Ready?
    ensures forall i :: 0 <= i < |App.FieldKeys| ==>
      App.Validate(Submitted(Script.SampleDataSets[n])).features[i] == Script.SampleDataSets[n][App.FieldKeys[i]]
  {
    var data := Script.SampleDataSets[n];
    var form := Submitted(data);
    Script.SamplesWithinRules(n);
    RuleTablesAgree();
    ClientRulesCoverServerFields();
    assert App.AllParse(form);
    App.ReadyExactlyWhenAllWithin(form);
  }
  // ----------------------------------------------------------- field names

  /**
   * The one field the two sides name differently: the browser shows "pH",
   * the server's `str.title()` turns it into "Ph".
   */
  lemma PhNamedDifferently()
    ensures "pH" in App.ValidationRules() && "pH" in Script.ValidationRules()
    ensures App.Label("pH") == "Ph" && Script.ValidationRules()["pH"].display == "pH"
  {
    App.LabelOfPh();
  }
}
