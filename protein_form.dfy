/**
 * The profile form: per-field range checks while typing, the full check on
 * submit, and the toggling of dietary preferences.
 */
module ProteinForm {
  import opened Common

  /**
   * A numeric input's value: empty, or the number the browser accepted
   * (a `type="number"` input reports anything else as empty).
   */
  datatype FieldValue = Blank | Entered(number: real)

  /** The form's state object. */
  datatype FormData = FormData(
    name: string,
    age: FieldValue,
    gender: string,
    height: FieldValue,
    weight: FieldValue,
    dietaryPreferences: seq<string>)

  const EmptyForm := FormData("", Blank, "", Blank, Blank, [])

  const AgeKey := "age"
  const HeightKey := "height"
  const WeightKey := "weight"

  const AgeRangeMessage := "Age must be between 1 and 100 years"
  const HeightRangeMessage := "Height must be between 50 and 272 cm"
  const WeightRangeMessage := "Weight must be between 5 and 500 kg"

  const AgeFormMessage := "Please enter a valid age between 1 and 100 years"
  const HeightFormMessage := "Please enter a valid height between 50 and 272 cm"
  const WeightFormMessage := "Please enter a valid weight between 5 and 500 kg"

  /** `parseInt` of a number's decimal text: the integer part, truncated toward zero. */
  function ParseInt(x: real): (n: int)
    ensures x >= 0.0 ==> n as real <= x < n as real + 1.0
    ensures x < 0.0 ==> n as real - 1.0 < x <= n as real
  {
    if x >= 0.0 then x.Floor else -((-x).Floor)
  }

  predicate AgeInRange(v: real) { 1 <= ParseInt(v) <= 100 }
  predicate HeightInRange(v: real) { 50 <= ParseInt(v) <= 272 }
  predicate WeightInRange(v: real) { 5.0 <= v <= 500.0 }

  /** The range test that goes with a field name; other names have none. */
  predicate InRange(field: string, v: real) {
    if field == AgeKey then AgeInRange(v)
    else if field == HeightKey then HeightInRange(v)
    else WeightInRange(v)
  }

  /** The message `validateField` records for a field that is out of range. */
  function RangeMessage(field: string): string {
    if field == AgeKey then AgeRangeMessage
    else if field == HeightKey then HeightRangeMessage
    else WeightRangeMessage
  }

  predicate IsChecked(field: string) {
    field == AgeKey || field == HeightKey || field == WeightKey
  }

  /**
   * The error map `validateForm` builds from scratch: an entry for every
   * field that is empty or out of range.
   */
  function FormErrors(data: FormData): (errors: map<string, string>)
    ensures AgeKey in errors <==> data.age.Blank? || !AgeInRange(data.age.number)
    ensures HeightKey in errors <==> data.height.Blank? || !HeightInRange(data.height.number)
    ensures WeightKey in errors <==> data.weight.Blank? || !WeightInRange(data.weight.number)
    ensures forall k :: k in errors ==> IsChecked(k)
  {
    var a := if data.age.Blank? || !AgeInRange(data.age.number)
      then map[AgeKey := AgeFormMessage] else map[];
    var h := if data.height.Blank? || !HeightInRange(data.height.number)
      then a[HeightKey := HeightFormMessage] else a;
    if data.weight.Blank? || !WeightInRange(data.weight.number)
      then h[WeightKey := WeightFormMessage] else h
  }

  /** The form passes exactly when all three numbers are present and in range. */
  lemma FormValidIffAllInRange(data: FormData)
    ensures FormErrors(data) == map[] <==>
      && data.age.Entered? && AgeInRange(data.age.number)
      && data.height.Entered? && HeightInRange(data.height.number)
      && data.weight.Entered? && WeightInRange(data.weight.number)
  {
    var errors := FormErrors(data);
    if errors != map[] {
      var k :| k in errors;
      assert IsChecked(k);
    }
  }

  /** `parseInt` lets a fractional value through at the top of the range: 272.5 cm passes. */
  lemma FractionalHeightPasses()
    ensures HeightInRange(272.5) && !WeightInRange(500.5)
  {
  }

  /** `prefs.filter(p => p !== preference)`. */
  function RemoveAll(prefs: seq<string>, preference: string): (r: seq<string>)
    ensures preference !in r
    ensures forall x :: x != preference ==> (x in r <==> x in prefs)
    ensures IsSubsequence(r, prefs)
    ensures |r| == |prefs| - multiset(prefs)[preference]
  {
    if prefs == [] then []
    else
      var rest := RemoveAll(prefs[1..], preference);
      assert prefs == [prefs[0]] + prefs[1..];
      if prefs[0] == preference then rest
      else
        assert ([prefs[0]] + rest)[1..] == rest;
        [prefs[0]] + rest
  }

  /** The list update of `handleDietaryChange`. */
  function Toggle(prefs: seq<string>, preference: string): (r: seq<string>)
    ensures preference in r <==> preference !in prefs
    ensures forall x :: x != preference ==> (x in r <==> x in prefs)
  {
    if preference in prefs then RemoveAll(prefs, preference) else prefs + [preference]
  }

  /** Removing a value that is absent changes nothing. */
  lemma {:induction false} RemoveAbsent(prefs: seq<string>, preference: string)
    requires preference !in prefs
    ensures RemoveAll(prefs, preference) == prefs
  {
    if prefs != [] {
      RemoveAbsent(prefs[1..], preference);
      assert prefs == [prefs[0]] + prefs[1..];
    }
  }

  /** Filtering distributes over concatenation. */
  lemma {:induction false} RemoveAppend(xs: seq<string>, ys: seq<string>, preference: string)
    ensures RemoveAll(xs + ys, preference) == RemoveAll(xs, preference) + RemoveAll(ys, preference)
  {
    if xs != [] {
      assert (xs + ys)[1..] == xs[1..] + ys;
      RemoveAppend(xs[1..], ys, preference);
    } else {
      assert xs + ys == ys;
    }
  }

  /** Selecting and then deselecting a preference restores the list. */
  lemma ToggleTwiceRestores(prefs: seq<string>, preference: string)
    requires preference !in prefs
    ensures Toggle(Toggle(prefs, preference), preference) == prefs
  {
    RemoveAppend(prefs, [preference], preference);
    RemoveAbsent(prefs, preference);
    assert RemoveAll([preference], preference) == [];
  }

  /** A newly selected preference goes to the end, after the others in their order. */
  lemma ToggleAppends(prefs: seq<string>, preference: string)
    requires preference !in prefs
    ensures Toggle(prefs, preference)[..|prefs|] == prefs
    ensures Toggle(prefs, preference)[|prefs|] == preference
  {
  }

  /** The React component's state: the form data and the visible error messages. */
  class Form {
    var formData: FormData
    var errors: map<string, string>

    /** Every field starts empty and no error is shown. */
    constructor()
      ensures formData == EmptyForm && errors == map[]
    {
      formData := EmptyForm;
      errors := map[];
    }

    /**
     * `validateField(name, value)`: only the named field's entry can change;
     * it is set when a present value is out of range and removed otherwise,
     * and a field without a check leaves the map as it was.
     */
    method ValidateField(field: string, value: FieldValue)
      modifies this
      ensures formData == old(formData)
      ensures !IsChecked(field) ==> errors == old(errors)
      ensures forall k :: k != field ==> (k in errors <==> k in old(errors))
      ensures forall k :: k != field && k in errors ==> errors[k] == old(errors)[k]
      ensures IsChecked(field) ==>
        (field in errors <==> value.Entered? && !InRange(field, value.number))
      ensures IsChecked(field) && field in errors ==> errors[field] == RangeMessage(field)
    {
      var newErrors := errors;
      if field == AgeKey {
        if value.Entered? && (ParseInt(value.number) < 1 || ParseInt(value.number) > 100) {
          newErrors := newErrors[AgeKey := AgeRangeMessage];
        } else {
          newErrors := newErrors - {AgeKey};
        }
      } else if field == HeightKey {
        if value.Entered? && (ParseInt(value.number) < 50 || ParseInt(value.number) > 272) {
          newErrors := newErrors[HeightKey := HeightRangeMessage];
        } else {
          newErrors := newErrors - {HeightKey};
        }
      } else if field == WeightKey {
        if value.Entered? && (value.number < 5.0 || value.number > 500.0) {
          newErrors := newErrors[WeightKey := WeightRangeMessage];
        } else {
          newErrors := newErrors - {WeightKey};
        }
      }
      errors := newErrors;
    }

    /**
     * `validateForm()`: the error map is rebuilt from the current data, and
     * the form is valid exactly when no entry was recorded.
     */
    method ValidateForm() returns (valid: bool)
      modifies this
      ensures formData == old(formData)
      ensures errors == FormErrors(formData)
      ensures valid <==> errors == map[]
    {
      var newErrors: map<string, string> := map[];
      if formData.age.Blank? || ParseInt(formData.age.number) < 1 || ParseInt(formData.age.number) > 100 {
        newErrors := newErrors[AgeKey := AgeFormMessage];
      }
      if formData.height.Blank? || ParseInt(formData.height.number) < 50 || ParseInt(formData.height.number) > 272 {
        newErrors := newErrors[HeightKey := HeightFormMessage];
      }
      if formData.weight.Blank? || formData.weight.number < 5.0 || formData.weight.number > 500.0 {
        newErrors := newErrors[WeightKey := WeightFormMessage];
      }
      errors := newErrors;
      valid := |newErrors.Keys| == 0;
    }

    /**
     * `handleSubmit`: the data handed to `onSubmit`, or `None` when the
     * form is invalid and nothing is submitted.
     */
    method HandleSubmit() returns (submitted: Option<FormData>)
      modifies this
      ensures formData == old(formData)
      ensures errors == FormErrors(formData)
      ensures submitted.Some? <==> errors == map[]
      ensures submitted.Some? ==> submitted.value == formData
    {
      var valid := ValidateForm();
      if !valid {
        return None;
      }
      submitted := Some(formData);
    }

    /** `handleDietaryChange(preference)`: toggles one preference and leaves everything else. */
    method HandleDietaryChange(preference: string)
      modifies this
      ensures formData == old(formData).(dietaryPreferences := Toggle(old(formData.dietaryPreferences), preference))
      ensures errors == old(errors)
    {
      var prefs := formData.dietaryPreferences;
      if preference in prefs {
        prefs := RemoveAll(prefs, preference);
      } else {
        prefs := prefs + [preference];
      }
      formData := formData.(dietaryPreferences := prefs);
    }
  }

  /**
   * While typing and on submit a present value gets the same verdict: the
   * field check records an error exactly when the form check does.
   */
  lemma FieldAndFormAgree(data: FormData, field: string, errors: map<string, string>)
    requires IsChecked(field)
    requires field == AgeKey ==> data.age.Entered?
    requires field == HeightKey ==> data.height.Entered?
    requires field == WeightKey ==> data.weight.Entered?
    ensures var v := if field == AgeKey then data.age else if field == HeightKey then data.height else data.weight;
      field in FormErrors(data) <==> !InRange(field, v.number)
  {
  }

  /**
   * An empty field is flagged on submit, while `Form.ValidateField` clears
   * its entry as the user types.
   */
  lemma BlankFlaggedOnSubmit(data: FormData)
    requires data.age.Blank? || data.height.Blank? || data.weight.Blank?
    ensures FormErrors(data) != map[]
  {
  }
}
