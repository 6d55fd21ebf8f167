/**
 * The form definition the form service returns. The source imports these shapes
 * from `@/types/form`, which is not part of this model; they are inferred from
 * how src/components/DynamicForm.tsx reads them.
 */
module FormTypes {
  import opened Wrappers

  /** One choice of a dropdown or radio field. */
  datatype FieldOption = FieldOption(optionLabel: string, value: string)

  /**
   * A field descriptor. `fieldType` and `fieldLabel` are the source's `type`
   * and `label` (the type tag is kept as the raw string the service sends);
   * `validationMessage` is `validation?.message`.
   * Absent length bounds and an absent custom message are `None`.
   */
  datatype FormField = FormField(
    fieldId: string,
    fieldType: string,
    fieldLabel: string,
    required: bool,
    minLength: Option<int>,
    maxLength: Option<int>,
    validationMessage: Option<string>,
    options: seq<FieldOption>)

  datatype FormSection = FormSection(title: string, description: string, fields: seq<FormField>)

  datatype Form = Form(formTitle: string, sections: seq<FormSection>)

  /** The service wraps the form: the component reads `formData.form`. */
  datatype FormResponse = FormResponse(form: Form)

  /** `fields.map(field => field.fieldId)`: the ids of a section, in order. */
  function FieldIds(fields: seq<FormField>): (ids: seq<string>)
    ensures |ids| == |fields|
    ensures forall i :: 0 <= i < |fields| ==> ids[i] == fields[i].fieldId
  {
    seq(|fields|, i requires 0 <= i < |fields| => fields[i].fieldId)
  }

  /** No two fields of a list share an id. */
  predicate UniqueIds(fields: seq<FormField>)
  {
    forall i, j :: 0 <= i < j < |fields| ==> fields[i].fieldId != fields[j].fieldId
  }
}
