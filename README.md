# Section wizard and login gate of the dynamic form client

A model of the two components of a small web client that holds its logic:

- **DynamicForm** loads a form definition for a roll number. The definition has a title and
  ordered sections of typed fields. The component then walks the user through the sections
  one at a time. Its state is four cells: `formData`, `currentSection`, `loading` and `error`.
  The model has a value type `DynamicForm.State`, pure transitions on it (`FetchSettled`,
  `NextState`, `PrevState`), a `Render` function that picks the screen, and a class
  `DynamicForm.Component` whose handler methods update the four fields. Each handler is
  proved to follow the pure transition and to keep the invariant `Inv`: the section index
  stays within a non-empty form.
- **Rule derivation**: each field descriptor is turned into the options object handed to
  `register`. This is pure and is modelled as `FieldRules.DeriveRules`, dispatching on the
  field's type tag.
- **LoginForm**: the submit handler checks both inputs for emptiness and calls the
  registration service. On success it reports the roll number to the parent (`onLogin`); on
  failure it shows a fixed message. `loading` is reset in every case. The handler is split at
  its one `await`: `HandleSubmit` runs up to the call and `CreateUserSettled` runs the rest.
  Between the two, the inputs and the button are disabled.

Each awaited call is a parameter of the handler that awaits it:
- `getForm` is a `FetchOutcome`;
- the boolean `trigger` resolves to is `sectionValid`;
- `createUser` is `registered`.

`setFocus` and `onLogin` become return values, or entries in ghost logs (`triggered`,
`registrations`, `logins`).

Validation itself belongs to react-hook-form, which is not part of this model. The module
`Validation` states its behaviour as an explicit assumption, and only the lemmas that name
`Validation` depend on it. The assumed behaviour:
- required fails on `""`, an unticked checkbox, or no value;
- length rules apply only to non-empty strings, and count UTF-16 code units as JavaScript's `.length` does;
- a field that was never registered has no rules, so it never fails;
- the required message comes first, and the maximum's message wins over the minimum's.

The form types module `@/types/form` is not part of this model. `FormTypes` infers its shapes
from how the component reads them. An unselected dropdown holds `""` because of its
placeholder option.

Two details of the code that the model keeps:
- The default required message is `<label> is required`, with no trailing period.
- A successful load does not reset `currentSection`. It is still 0 only because the load
  happens once, while loading.

## Model

| member | source | states |
|---|---|---|
| FormTypes.FieldIds | src/components/DynamicForm.tsx:33 | the ids handed to `trigger` are the shown section's field ids, one per field, in order |
| Decimal.NatToDecimal | src/components/DynamicForm.tsx:85 | the printed bound is a non-empty string of decimal digits with no leading zero |
| Decimal.NatRoundTrip | src/components/DynamicForm.tsx:85 | reading the printed digits back gives the number |
| Decimal.IntToDecimal | src/components/DynamicForm.tsx:142-143 | a negative bound prints with a leading minus sign followed by digits; others print as digits only (bounds below 10^21 in magnitude, see Left out) |
| Decimal.IntRoundTrip | src/components/DynamicForm.tsx:142-143 | reading the printed bound back gives `n`, for every integer |
| Decimal.IntToDecimalInjective | src/components/DynamicForm.tsx:85-86 | different bounds print differently |
| FieldRules.WidgetOf | src/components/DynamicForm.tsx:81-151 | the type tags textarea, dropdown, radio and checkbox each select their own branch; every other tag falls to the plain input |
| FieldRules.DeriveRules | src/components/DynamicForm.tsx:81-151 | required rule present iff `required`, in all five branches; its message is the custom message if non-empty, else `<label> is required`; min/max rules only for textarea and plain input, only for a non-zero bound, with the bound's value and the custom or `Minimum/Maximum length is <n>` message |
| FieldRules.MinLengthMessageNamesBound | src/components/DynamicForm.tsx:85 | without a custom message, equal default minimum messages mean equal bounds |
| Validation.Validate | src/components/DynamicForm.tsx:34 | (assumed library behaviour) no error iff every declared rule holds, lengths counted in UTF-16 code units; a required field with a missing value reports the required message; any other error is the message of a length rule the non-empty text breaks |
| Validation.Utf16Length | src/components/DynamicForm.tsx:142-143 | the length the bounds are compared with is at least the character count, and equals it when no character lies outside the Basic Multilingual Plane |
| Validation.FieldError | src/components/DynamicForm.tsx:113-117 | a field that is not registered (a radio without options) never reports an error; a registered one reports none iff its derived rules are satisfied |
| Validation.OptionlessRadioNeverFails | src/components/DynamicForm.tsx:113-117 | a required radio without options registers nothing, so it never blocks Next |
| Validation.EmojiBreaksMaxLengthOne | src/components/DynamicForm.tsx:143 | one emoji counts as two code units and so breaks a maximum length of 1 |
| Validation.SectionErrors | src/components/DynamicForm.tsx:39 | (assumed) the error map has keys only among the section's ids, and an entry for every failing registered field; an unregistered field has none |
| Validation.EntryIsFirstFailingMessage | src/components/DynamicForm.tsx:152-158 | (assumed) the entry under an id is the Validate message of the first failing field with that id (no earlier field with the id fails), the message the error display shows |
| Validation.ErrorEntryIffInvalid | src/components/DynamicForm.tsx:39 | (assumed) with unique ids, a field has an error entry exactly when it is registered and fails its derived rules, and that entry is the message Validate reports for it, which is the message shown under the field |
| Validation.SectionValidIffNoErrors | src/components/DynamicForm.tsx:34-39 | (assumed) `trigger` is true exactly when it leaves no error entry for the section |
| Validation.EmptyRequiredEmail | src/components/DynamicForm.tsx:141 | a required email field labelled Email left empty reports `Email is required` |
| Validation.TooShortText | src/components/DynamicForm.tsx:142 | four characters against `minLength` 5 report `Minimum length is 5` |
| DynamicForm.Initial | src/components/DynamicForm.tsx:12-15 | on mount: section 0, loading, no error, no form data |
| DynamicForm.FetchSettled | src/components/DynamicForm.tsx:19-28 | success stores the form and failure sets exactly the load-failed message; either way loading ends false and the section index is untouched |
| DynamicForm.Render | src/components/DynamicForm.tsx:52-66 | priority loading, error, missing data; a section is shown iff not loading, no error, data present and index in range, and rendering faults iff the index is out of range there; Previous shown iff index > 0; last iff index = length - 1 |
| DynamicForm.NextState | src/components/DynamicForm.tsx:35-36 | the index moves by exactly one iff validation passed; a failed validation leaves the whole state unchanged; nothing but the index ever changes |
| DynamicForm.PrevState | src/components/DynamicForm.tsx:44-46 | the index moves back by exactly one; nothing else changes |
| DynamicForm.FirstErrorIndex | src/components/DynamicForm.tsx:39 | the position of the first id with an error entry, with no earlier id having one; none when no id has one |
| DynamicForm.FocusTarget | src/components/DynamicForm.tsx:39-40 | focus goes to the first id with an error entry, if that id is non-empty; nothing is focused when no id has an entry |
| DynamicForm.StepKeepsInv | src/components/DynamicForm.tsx:162-186 | any offered event keeps the index within a non-empty form |
| DynamicForm.RunKeepsInv | src/components/DynamicForm.tsx:162-186 | from any state meeting the invariant, every sequence of events keeps it: Previous only above 0, Next never on the last section |
| DynamicForm.InvRendersSection | src/components/DynamicForm.tsx:62-65 | once loaded without error, a section is shown exactly when the form has one |
| DynamicForm.NextXorSubmit | src/components/DynamicForm.tsx:171-186 | a shown section offers exactly one of Next and Submit |
| DynamicForm.FirstLoadShowsFirstSection | src/components/DynamicForm.tsx:19-28 | a successful first load shows section 0 without a Previous button |
| DynamicForm.FailedLoadShowsMessage | src/components/DynamicForm.tsx:57-61 | a failed load shows the fixed message |
| DynamicForm.NextAdvancesIffSectionSatisfied | src/components/DynamicForm.tsx:32-36 | (assumed `trigger`) Next advances iff every registered field of the shown section satisfies its derived rules; a radio without options cannot block it |
| DynamicForm.FocusOnFirstInvalid | src/components/DynamicForm.tsx:37-41 | if the error map is the one `trigger` produced, focus lands on the first invalid registered field in section order; unregistered fields are skipped |
| DynamicForm.Component.constructor | src/components/DynamicForm.tsx:11-16 | the new component is in the initial state, has issued exactly one `getForm` call with its roll number, and no `trigger` call |
| DynamicForm.Component.FetchForm | src/components/DynamicForm.tsx:19-28 | the fields follow FetchSettled and the invariant holds; no further request or `trigger` call is made |
| DynamicForm.Component.HandleNext | src/components/DynamicForm.tsx:32-42 | exactly one `trigger` call, on the shown section's ids; the fields follow NextState; a failure focuses FocusTarget of those ids |
| DynamicForm.Component.HandlePrev | src/components/DynamicForm.tsx:44-46 | the fields follow PrevState and no `trigger` call is made |
| LoginForm.Initial | src/components/LoginForm.tsx:9-12 | both inputs empty, no error, not loading |
| LoginForm.BeginSubmit | src/components/LoginForm.tsx:14-20 | no call iff an input is empty; then the required message is set and loading is untouched; otherwise `createUser` gets both inputs and loading becomes true |
| LoginForm.SettleSubmit | src/components/LoginForm.tsx:21-28 | `onLogin` is called iff `createUser` succeeded, with the current roll number; a failure sets the fixed message; loading ends false whatever the outcome |
| LoginForm.RunKeepsInv | src/components/LoginForm.tsx:16-20 | a call is outstanding only for two non-empty inputs |
| LoginForm.ErrorNeverCleared | src/components/LoginForm.tsx:11-29 | once an error is shown, no sequence of events clears it, a successful login included |
| LoginForm.FrozenWhileLoading | src/components/LoginForm.tsx:56-81 | while a call is outstanding, edits and submissions change nothing because the controls are disabled |
| LoginForm.OnLoginGetsSubmittedRollNumber | src/components/LoginForm.tsx:22-23 | `onLogin` receives the roll number that was submitted |
| LoginForm.WhitespacePassesGate | src/components/LoginForm.tsx:16 | whitespace-only inputs pass the emptiness check and reach `createUser` |
| LoginForm.Component.constructor | src/components/LoginForm.tsx:8-12 | the new component is in the initial state, with no calls made |
| LoginForm.Component.SetRollNumber | src/components/LoginForm.tsx:56-64 | only while enabled; changes only the roll number |
| LoginForm.Component.SetName | src/components/LoginForm.tsx:66-76 | only while enabled; changes only the name |
| LoginForm.Component.HandleSubmit | src/components/LoginForm.tsx:14-22 | the fields follow BeginSubmit; a `createUser` call is recorded iff the gate passed |
| LoginForm.Component.CreateUserSettled | src/components/LoginForm.tsx:22-28 | the fields follow SettleSubmit; `onLogin` is recorded iff registration succeeded, with the submitted roll number |

## Left out

- src/services/api.ts: HTTP calls to the form service. Each call appears only as its success or failure, as a handler parameter.
- src/app/page.tsx and src/app/layout.tsx: layout, plus a nullable roll number set once by `onLogin`. They have no logic of their own.
- Submit on the last section (`handleSubmit(onSubmit)`, src/components/DynamicForm.tsx:48-50, 74): `onSubmit` only logs the answers. It is a terminal no-op, so the model only marks where the Submit button is offered.
- The `|| []` fallback in `handleNext` (line 33): it applies only without form data, and then the Next button is not rendered. `HandleNext` requires that the button is offered.
- React effect scheduling: a refetch when `rollNumber` changes, and stale responses that are never cancelled. The model's fetch settles once, while loading. This matches how page.tsx uses the component.
- react-hook-form internals are not modelled: the `onChange` revalidation on every keystroke, `ErrorMessage` rendering, `setFocus`, and how `errors` is refreshed. `Validation` states the assumed semantics. `HandleNext` takes the error map as given and makes no claim that it is fresh.
- Validation.Validate: a radio is treated as missing when it has no value. The library instead checks whether any option is ticked, so a ticked radio option whose value is `""` would pass.
- Validation.SectionErrors: error keys are treated as flat ids. The library nests keys for ids containing dots.
- FieldRules.DeriveRules: length bounds are integers. Fractional and NaN bounds, and their printed form, are not modelled. `validation` and `validation.message` being absent are merged into one `None`.
- Validation.EntryIsFirstFailingMessage: repeated field ids are outside the library assumption. react-hook-form keeps one registration per name, so two fields sharing an id share one set of rules and one error entry, which the model does not capture. The lemmas that matter for focus require unique ids.
- Decimal.IntToDecimal: prints every digit. JavaScript prints integral numbers of magnitude 10^21 or more in exponent form (`${1e21}` is `1e+21`), and JSON bounds above 2^53 are rounded before printing. Neither is modelled, so messages for such bounds differ.
- The JSX markup, CSS classes and test ids.
