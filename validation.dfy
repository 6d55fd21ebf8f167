/**
 * What `trigger(fieldIds)` and the `errors` map compute from the registered
 * rules. This is react-hook-form's behaviour, not the repository's; it is
 * stated here as an explicit assumption about that library:
 *  - a required rule fails on a missing value: the empty string (an untouched
 *    input, or the dropdown's "Select..." option), an unticked checkbox, or no
 *    value at all (no radio option chosen);
 *  - length rules are checked only on a non-empty string value, and when both
 *    fail (they cannot both fail unless min > max) the maximum's message wins;
 *  - the required check comes first and one message is reported per field.
 */
module Validation {
  import opened Wrappers
  import opened FormTypes
  import opened FieldRules
  import opened Decimal

  /** A field's current value in the form state. */
  datatype Value = Text(text: string) | Checked(on: bool) | Unset

  predicate Missing(v: Value)
  {
    v == Text("") || v == Checked(false) || v == Unset
  }

  /** JavaScript's `.length`: UTF-16 code units, two for a character outside the Basic Multilingual Plane. */
  function Utf16Length(s: string): (n: nat)
    ensures n >= |s|
    ensures (forall i :: 0 <= i < |s| ==> s[i] as int < 0x1_0000) ==> n == |s|
    decreases |s|
  {
    if s == [] then 0 else (if s[0] as int < 0x1_0000 then 1 else 2) + Utf16Length(s[1..])
  }

  /** Declarative reading of a rule set: every declared constraint holds of the value. */
  predicate Satisfies(rules: Rules, v: Value)
  {
    && (rules.required.Some? ==> !Missing(v))
    && (v.Text? && v.text != "" && rules.minLength.Some? ==> Utf16Length(v.text) >= rules.minLength.value.value)
    && (v.Text? && v.text != "" && rules.maxLength.Some? ==> Utf16Length(v.text) <= rules.maxLength.value.value)
  }

  /** The one error message reported for a value, or None when it passes. */
  function Validate(rules: Rules, v: Value): (r: Option<string>)
    ensures r.None? <==> Satisfies(rules, v)
    // required is checked first
    ensures rules.required.Some? && Missing(v) ==> r == rules.required
    // any other failure reports the message of a length rule the value breaks
    ensures r.Some? && r != rules.required ==>
      v.Text? && v.text != "" &&
      ((rules.maxLength.Some? && Utf16Length(v.text) > rules.maxLength.value.value && r.value == rules.maxLength.value.message) ||
       (rules.minLength.Some? && Utf16Length(v.text) < rules.minLength.value.value && r.value == rules.minLength.value.message))
  {
    if rules.required.Some? && Missing(v) then rules.required
    else if v.Text? && v.text != "" then
      var length := Utf16Length(v.text);
      if rules.maxLength.Some? && length > rules.maxLength.value.value then Some(rules.maxLength.value.message)
      else if rules.minLength.Some? && length < rules.minLength.value.value then Some(rules.minLength.value.message)
      else None
    else None
  }

  /** A field that was never given a value reads as Unset. */
  function ValueOf(values: map<string, Value>, id: string): Value
  {
    if id in values then values[id] else Unset
  }

  /** The error reported for one field: none when it is not registered, else under its own derived rules. */
  function FieldError(f: FormField, values: map<string, Value>): (r: Option<string>)
    ensures !Registered(f) ==> r.None?
    ensures Registered(f) ==> (r.None? <==> Satisfies(DeriveRules(f), ValueOf(values, f.fieldId)))
  {
    if Registered(f) then Validate(DeriveRules(f), ValueOf(values, f.fieldId)) else None
  }

  /** `trigger(ids)` for the ids of `fields`: true when no field reports an error. */
  predicate SectionValid(fields: seq<FormField>, values: map<string, Value>)
  {
    forall i :: 0 <= i < |fields| ==> FieldError(fields[i], values).None?
  }

  /** The `errors` entries `trigger` leaves for `fields`: one message per failing field. */
  function SectionErrors(fields: seq<FormField>, values: map<string, Value>): (errors: map<string, string>)
    ensures forall id :: id in errors ==> id in FieldIds(fields)
    ensures forall i :: 0 <= i < |fields| && FieldError(fields[i], values).Some? ==> fields[i].fieldId in errors
    decreases |fields|
  {
    if fields == [] then map[]
    else
      var rest := SectionErrors(fields[1..], values);
      assert forall id :: id in FieldIds(fields[1..]) ==> id in FieldIds(fields);
      match FieldError(fields[0], values)
      case Some(m) => rest[fields[0].fieldId := m]
      case None => rest
  }

  /** An entry holds the message of the first field, in section order, that fails under that id. */
  lemma {:induction false} EntryIsFirstFailingMessage(fields: seq<FormField>, values: map<string, Value>, i: nat)
    requires i < |fields| && FieldError(fields[i], values).Some?
    requires forall j :: 0 <= j < i && fields[j].fieldId == fields[i].fieldId ==> FieldError(fields[j], values).None?
    ensures SectionErrors(fields, values)[fields[i].fieldId] == FieldError(fields[i], values).value
    decreases |fields|
  {
    if i > 0 {
      var tail := fields[1..];
      assert fields[i] == tail[i - 1];
      forall j | 0 <= j < i - 1 && tail[j].fieldId == tail[i - 1].fieldId
        ensures FieldError(tail[j], values).None?
      {
        assert tail[j] == fields[j + 1];
      }
      EntryIsFirstFailingMessage(tail, values, i - 1);
    }
  }

  /** With unique ids, a field has an entry in the error map exactly when it fails validation, and the entry is its message. */
  lemma {:induction false} ErrorEntryIffInvalid(fields: seq<FormField>, values: map<string, Value>, i: nat)
    requires UniqueIds(fields)
    requires i < |fields|
    ensures fields[i].fieldId in SectionErrors(fields, values) <==> FieldError(fields[i], values).Some?
    ensures FieldError(fields[i], values).Some? ==>
      SectionErrors(fields, values)[fields[i].fieldId] == FieldError(fields[i], values).value
    decreases |fields|
  {
    var tail := fields[1..];
    if i > 0 {
      ErrorEntryIffInvalid(tail, values, i - 1);
      assert fields[i] == tail[i - 1];
    }
    if FieldError(fields[i], values).Some? {
      EntryIsFirstFailingMessage(fields, values, i);
    }
  }

  /** The section is valid exactly when no error entry is left for it. */
  lemma SectionValidIffNoErrors(fields: seq<FormField>, values: map<string, Value>)
    requires UniqueIds(fields)
    ensures SectionValid(fields, values) <==> SectionErrors(fields, values) == map[]
  {
    var errors := SectionErrors(fields, values);
    if SectionValid(fields, values) && errors != map[] {
      var id :| id in errors;
      var k :| 0 <= k < |fields| && FieldIds(fields)[k] == id;
      ErrorEntryIffInvalid(fields, values, k);
      assert false;
    }
  }

  /** A required email field left empty blocks with "Email is required". */
  lemma EmptyRequiredEmail(f: FormField)
    requires f.fieldType == "email" && f.fieldLabel == "Email" && f.required && f.validationMessage.None?
    ensures Validate(DeriveRules(f), Text("")) == Some("Email is required")
  {
    assert f.fieldLabel + " is required" == "Email is required";
  }

  /** A required radio without options is never registered, so it never reports an error. */
  lemma OptionlessRadioNeverFails(f: FormField, values: map<string, Value>)
    requires f.fieldType == "radio" && f.required && f.options == []
    ensures FieldError(f, values).None?
  {
  }

  /** One emoji is two UTF-16 code units, so it breaks a maximum length of 1. */
  lemma EmojiBreaksMaxLengthOne(rules: Rules)
    requires rules.required.None? && rules.minLength.None? && rules.maxLength == Some(LengthRule(1, "too long"))
    ensures Validate(rules, Text("\U{1F600}")) == Some("too long")
  {
    assert Utf16Length("\U{1F600}") == 2;
  }

  /** Four characters against a minimum of five report the default minimum-length message. */
  lemma TooShortText(f: FormField)
    requires f.fieldType == "text" && f.minLength == Some(5) && f.maxLength.None? && f.validationMessage.None?
    ensures Validate(DeriveRules(f), Text("abcd")) == Some("Minimum length is 5")
  {
    assert IntToDecimal(5) == "5";
    assert Utf16Length("abcd") == 4;
    assert "Minimum length is " + "5" == "Minimum length is 5";
  }
}
