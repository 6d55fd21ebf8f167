/**
 * The validation options DynamicForm hands to `register(field.fieldId, {...})`,
 * derived from a field descriptor by dispatching on its `type` tag.
 */
module FieldRules {
  import opened Wrappers
  import opened FormTypes
  import opened Decimal

  /** The five render branches: every tag other than the four named ones gets a plain input. */
  datatype Widget = TextArea | Dropdown | Radio | Checkbox | Input

  function WidgetOf(fieldType: string): (w: Widget)
    ensures w == TextArea <==> fieldType == "textarea"
    ensures w == Dropdown <==> fieldType == "dropdown"
    ensures w == Radio <==> fieldType == "radio"
    ensures w == Checkbox <==> fieldType == "checkbox"
  {
    if fieldType == "textarea" then TextArea
    else if fieldType == "dropdown" then Dropdown
    else if fieldType == "radio" then Radio
    else if fieldType == "checkbox" then Checkbox
    else Input
  }

  /**
   * `register` is called for the field at all. A radio registers once per option
   * inside `options?.map(...)`, so a radio without options registers nothing and
   * no rule of it is ever checked.
   */
  predicate Registered(f: FormField)
  {
    !(WidgetOf(f.fieldType) == Radio && |f.options| == 0)
  }

  /** A `{ value, message }` length bound. */
  datatype LengthRule = LengthRule(value: int, message: string)

  /**
   * The rules of one registered field. `required` is the message when the
   * field is required (the source passes `false` otherwise); an absent length
   * rule is the source's `undefined`.
   */
  datatype Rules = Rules(required: Option<string>, minLength: Option<LengthRule>, maxLength: Option<LengthRule>)

  /** `field.validation?.message` is truthy: present and not the empty string. */
  predicate HasCustomMessage(f: FormField)
  {
    f.validationMessage.Some? && f.validationMessage.value != ""
  }

  /** `field.validation?.message || fallback`. */
  function MessageOr(f: FormField, fallback: string): string
  {
    if HasCustomMessage(f) then f.validationMessage.value else fallback
  }

  /** A numeric bound is truthy: present and not zero. */
  predicate Truthy(bound: Option<int>)
  {
    bound.Some? && bound.value != 0
  }

  function RequiredRule(f: FormField): Option<string>
  {
    if f.required then Some(MessageOr(f, f.fieldLabel + " is required")) else None
  }

  function BoundRule(f: FormField, bound: Option<int>, prefix: string): Option<LengthRule>
  {
    if Truthy(bound) then Some(LengthRule(bound.value, MessageOr(f, prefix + IntToDecimal(bound.value)))) else None
  }

  /** The options object of each of the five `register` calls, chosen by the field's type. */
  function DeriveRules(f: FormField): (r: Rules)
    // required: present exactly for required fields, in every branch
    ensures r.required.Some? <==> f.required
    ensures f.required ==>
      r.required.value == (if HasCustomMessage(f) then f.validationMessage.value else f.fieldLabel + " is required")
    // length bounds: only text areas and plain inputs, and only for a non-zero bound
    ensures r.minLength.Some? <==>
      f.fieldType !in {"dropdown", "radio", "checkbox"} && f.minLength.Some? && f.minLength.value != 0
    ensures r.maxLength.Some? <==>
      f.fieldType !in {"dropdown", "radio", "checkbox"} && f.maxLength.Some? && f.maxLength.value != 0
    ensures r.minLength.Some? ==> r.minLength.value.value == f.minLength.value
    ensures r.maxLength.Some? ==> r.maxLength.value.value == f.maxLength.value
    ensures r.minLength.Some? ==>
      r.minLength.value.message ==
        (if HasCustomMessage(f) then f.validationMessage.value else "Minimum length is " + IntToDecimal(f.minLength.value))
    ensures r.maxLength.Some? ==>
      r.maxLength.value.message ==
        (if HasCustomMessage(f) then f.validationMessage.value else "Maximum length is " + IntToDecimal(f.maxLength.value))
  {
    match WidgetOf(f.fieldType)
    case TextArea | Input =>
      Rules(RequiredRule(f), BoundRule(f, f.minLength, "Minimum length is "), BoundRule(f, f.maxLength, "Maximum length is "))
    case Dropdown | Radio | Checkbox =>
      Rules(RequiredRule(f), None, None)
  }

  /** Without a custom message, two different declared minimum bounds produce two different messages. */
  lemma MinLengthMessageNamesBound(f: FormField, g: FormField)
    requires !HasCustomMessage(f) && !HasCustomMessage(g)
    requires DeriveRules(f).minLength.Some? && DeriveRules(g).minLength.Some?
    requires DeriveRules(f).minLength.value.message == DeriveRules(g).minLength.value.message
    ensures f.minLength == g.minLength
  {
    var p := "Minimum length is ";
    var sf, sg := IntToDecimal(f.minLength.value), IntToDecimal(g.minLength.value);
    assert (p + sf)[|p|..] == sf;
    assert (p + sg)[|p|..] == sg;
    IntToDecimalInjective(f.minLength.value, g.minLength.value);
  }
}
