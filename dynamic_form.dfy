/**
 * The DynamicForm component: it loads a form definition for a roll number and
 * walks the user through its sections one at a time. The component's state is
 * its four `useState` cells; `State` is their value, `Component` the object whose
 * handlers update them. Each awaited call is a parameter of the handler that
 * awaits it: the outcome of `getForm`, and the boolean `trigger` resolves to.
 */
module DynamicForm {
  import opened Wrappers
  import opened FormTypes
  import opened Validation

  const LoadFailedMessage := "Failed to load form. Please try again."

  datatype State = State(formData: Option<FormResponse>, currentSection: int, loading: bool, error: string)

  /** The state on mount. */
  function Initial(): (s: State)
    ensures s.formData.None? && s.currentSection == 0 && s.loading && s.error == ""
  {
    State(None, 0, true, "")
  }

  /** How the awaited `getForm` call settled. */
  datatype FetchOutcome = Loaded(data: FormResponse) | LoadFailed

  /** The rest of `fetchForm` once `getForm` has settled, `finally` included. */
  function FetchSettled(s: State, outcome: FetchOutcome): (t: State)
    ensures !t.loading && t.currentSection == s.currentSection
    ensures t.formData == (if outcome.Loaded? then Some(outcome.data) else s.formData)
    ensures t.error == (if outcome.Loaded? then s.error else LoadFailedMessage)
  {
    match outcome
    case Loaded(data) => s.(formData := Some(data), loading := false)
    case LoadFailed => s.(error := LoadFailedMessage, loading := false)
  }

  /** What the component renders. */
  datatype Screen =
    | LoadingScreen
    | ErrorScreen(message: string)
    | Blank                    // `return null` when there is no form data
    | RenderFault              // `sections[currentSection]` is undefined, so reading its title throws
    | SectionScreen(formTitle: string, section: FormSection, hasPrev: bool, isLast: bool)

  function Render(s: State): (v: Screen)
    // priority: loading, then error, then missing data
    ensures v == LoadingScreen <==> s.loading
    ensures v == ErrorScreen(s.error) <==> !s.loading && s.error != ""
    ensures v == Blank <==> !s.loading && s.error == "" && s.formData.None?
    ensures v == RenderFault <==>
      !s.loading && s.error == "" && s.formData.Some? && !(0 <= s.currentSection < |s.formData.value.form.sections|)
    ensures v.SectionScreen? <==>
      !s.loading && s.error == "" && s.formData.Some? && 0 <= s.currentSection < |s.formData.value.form.sections|
    ensures v.SectionScreen? ==>
      && v.formTitle == s.formData.value.form.formTitle
      && v.section == s.formData.value.form.sections[s.currentSection]
      && (v.hasPrev <==> s.currentSection > 0)
      && (v.isLast <==> s.currentSection == |s.formData.value.form.sections| - 1)
  {
    if s.loading then LoadingScreen
    else if s.error != "" then ErrorScreen(s.error)
    else if s.formData.None? then Blank
    else
      var form := s.formData.value.form;
      if 0 <= s.currentSection < |form.sections| then
        SectionScreen(form.formTitle, form.sections[s.currentSection], s.currentSection > 0,
                      s.currentSection == |form.sections| - 1)
      else RenderFault
  }

  /** The Next button is rendered: a section is shown and it is not the last. */
  predicate NextOffered(s: State)
  {
    Render(s).SectionScreen? && !Render(s).isLast
  }

  /** The Previous button is rendered. */
  predicate PrevOffered(s: State)
  {
    Render(s).SectionScreen? && Render(s).hasPrev
  }

  /** The Submit button is rendered in place of Next. */
  predicate SubmitOffered(s: State)
  {
    Render(s).SectionScreen? && Render(s).isLast
  }

  /** The section a state shows; used by the handlers, which only run while one is shown. */
  function ShownSection(s: State): FormSection
    requires Render(s).SectionScreen?
  {
    s.formData.value.form.sections[s.currentSection]
  }

  /** `handleNext`'s state change once `trigger` has resolved to `sectionValid`. */
  function NextState(s: State, sectionValid: bool): (t: State)
    ensures t.currentSection == s.currentSection + 1 <==> sectionValid
    ensures t == s.(currentSection := t.currentSection)
    ensures !sectionValid ==> t == s
  {
    if sectionValid then s.(currentSection := s.currentSection + 1) else s
  }

  /** `handlePrev`: one section back, whatever the fields hold. */
  function PrevState(s: State): (t: State)
    ensures t.currentSection == s.currentSection - 1
    ensures t == s.(currentSection := t.currentSection)
  {
    s.(currentSection := s.currentSection - 1)
  }

  /**
   * The first id, in section order, that has an entry in the error map, given as
   * its position. `errors[id]` is an object when present, so presence is truthiness.
   */
  function FirstErrorIndex(ids: seq<string>, errors: map<string, string>): (r: Option<nat>)
    ensures r.Some? ==> r.value < |ids| && ids[r.value] in errors
    ensures r.Some? ==> forall j :: 0 <= j < r.value ==> ids[j] !in errors
    ensures r.None? ==> forall j :: 0 <= j < |ids| ==> ids[j] !in errors
    decreases |ids|
  {
    if ids == [] then None
    else if ids[0] in errors then Some(0)
    else
      match FirstErrorIndex(ids[1..], errors)
      case Some(i) => Some(i + 1)
      case None => None
  }

  /**
   * The field `handleNext` focuses after a failed validation. `if (firstErrorField)`
   * tests the found id for truthiness, so an empty id found first focuses nothing.
   */
  function FocusTarget(ids: seq<string>, errors: map<string, string>): (r: Option<string>)
    ensures r.Some? ==> r.value != "" && r.value in errors && r.value in ids
    ensures (forall j :: 0 <= j < |ids| ==> ids[j] !in errors) ==> r.None?
    ensures forall i :: 0 <= i < |ids| && ids[i] in errors && (forall j :: 0 <= j < i ==> ids[j] !in errors) ==>
      r == (if ids[i] != "" then Some(ids[i]) else None)
  {
    match FirstErrorIndex(ids, errors)
    case Some(i) => if ids[i] != "" then Some(ids[i]) else None
    case None => None
  }

  /**
   * The invariant the handlers keep: the index never goes negative, loading
   * means nothing has arrived yet, and once a non-empty form is present the
   * index names one of its sections.
   */
  predicate Inv(s: State)
  {
    && 0 <= s.currentSection
    && (s.loading ==> s.currentSection == 0 && s.formData.None? && s.error == "")
    && (s.formData.Some? && |s.formData.value.form.sections| > 0 ==>
          s.currentSection < |s.formData.value.form.sections|)
  }

  /** User and network events; a click only happens on a rendered button. */
  datatype Event = FetchDone(outcome: FetchOutcome) | NextClicked(sectionValid: bool) | PrevClicked

  predicate Enabled(s: State, e: Event)
  {
    match e
    case FetchDone(_) => s.loading
    case NextClicked(_) => NextOffered(s)
    case PrevClicked => PrevOffered(s)
  }

  function Step(s: State, e: Event): State
  {
    if !Enabled(s, e) then s
    else match e
      case FetchDone(outcome) => FetchSettled(s, outcome)
      case NextClicked(ok) => NextState(s, ok)
      case PrevClicked => PrevState(s)
  }

  function Run(s: State, events: seq<Event>): State
    decreases |events|
  {
    if events == [] then s else Run(Step(s, events[0]), events[1..])
  }

  lemma StepKeepsInv(s: State, e: Event)
    requires Inv(s)
    ensures Inv(Step(s, e))
  {
  }

  /** From mount, whatever happens, the section index stays within the form. */
  lemma {:induction false} RunKeepsInv(s: State, events: seq<Event>)
    requires Inv(s)
    ensures Inv(Run(s, events))
    decreases |events|
  {
    if events != [] {
      StepKeepsInv(s, events[0]);
      RunKeepsInv(Step(s, events[0]), events[1..]);
    }
  }

  /** Under the invariant, rendering fails only on a form with no sections. */
  lemma InvRendersSection(s: State)
    requires Inv(s)
    requires !s.loading && s.error == "" && s.formData.Some?
    ensures Render(s).SectionScreen? <==> |s.formData.value.form.sections| > 0
  {
  }

  /** A shown section gets exactly one of Next and Submit. */
  lemma NextXorSubmit(s: State)
    requires Render(s).SectionScreen?
    ensures NextOffered(s) != SubmitOffered(s)
  {
  }

  /** A load that succeeds with a non-empty form shows its first section without a Previous button. */
  lemma FirstLoadShowsFirstSection(form: FormResponse)
    requires |form.form.sections| > 0
    ensures Render(FetchSettled(Initial(), Loaded(form))) ==
      SectionScreen(form.form.formTitle, form.form.sections[0], false, |form.form.sections| == 1)
  {
  }

  /** A load that fails shows the fixed message. */
  lemma FailedLoadShowsMessage()
    ensures Render(FetchSettled(Initial(), LoadFailed)) == ErrorScreen(LoadFailedMessage)
  {
  }

  /**
   * If `trigger` behaves as Validation assumes, Next advances exactly when every
   * registered field of the shown section satisfies the rules derived from it.
   */
  lemma NextAdvancesIffSectionSatisfied(s: State, values: map<string, Value>)
    requires NextOffered(s)
    ensures var fields := ShownSection(s).fields;
      NextState(s, SectionValid(fields, values)).currentSection == s.currentSection + 1 <==>
      forall i :: 0 <= i < |fields| && FieldRules.Registered(fields[i]) ==>
        Satisfies(FieldRules.DeriveRules(fields[i]), ValueOf(values, fields[i].fieldId))
  {
  }

  /**
   * If the error map read after `trigger` is the one `trigger` produced for the
   * section, the focus goes to the first invalid field (unless its id is empty).
   */
  lemma {:induction false} FocusOnFirstInvalid(fields: seq<FormField>, values: map<string, Value>, i: nat)
    requires UniqueIds(fields)
    requires i < |fields| && FieldError(fields[i], values).Some?
    requires forall j :: 0 <= j < i ==> FieldError(fields[j], values).None?
    ensures FocusTarget(FieldIds(fields), SectionErrors(fields, values)) ==
      if fields[i].fieldId != "" then Some(fields[i].fieldId) else None
  {
    var ids, errors := FieldIds(fields), SectionErrors(fields, values);
    ErrorEntryIffInvalid(fields, values, i);
    forall j | 0 <= j < i
      ensures ids[j] !in errors
    {
      ErrorEntryIffInvalid(fields, values, j);
    }
  }

  /** The component instance: its four state cells, plus ghost records of every `getForm` and `trigger` call. */
  class Component {
    const rollNumber: string
    var formData: Option<FormResponse>
    var currentSection: int
    var loading: bool
    var error: string
    ghost var triggered: seq<seq<string>>
    ghost var formRequests: seq<string>

    function Snapshot(): State
      reads this
    {
      State(formData, currentSection, loading, error)
    }

    constructor(rollNumber: string)
      ensures this.rollNumber == rollNumber
      ensures Snapshot() == Initial() && Inv(Snapshot())
      ensures triggered == []
      // the mount effect issues the one `getForm(rollNumber)` call
      ensures formRequests == [rollNumber]
    {
      this.rollNumber := rollNumber;
      formData, currentSection, loading, error := None, 0, true, "";
      triggered := [];
      formRequests := [rollNumber];
    }

    /** `fetchForm` after `getForm(rollNumber)` settled; the effect's single fetch is in flight while loading. */
    method FetchForm(outcome: FetchOutcome)
      requires loading
      requires Inv(Snapshot())
      modifies this
      ensures Snapshot() == FetchSettled(old(Snapshot()), outcome) && Inv(Snapshot())
      ensures triggered == old(triggered) && formRequests == old(formRequests)
    {
      match outcome {
        case Loaded(data) =>
          formData := Some(data);
        case LoadFailed =>
          error := LoadFailedMessage;
      }
      loading := false;
    }

    /**
     * `handleNext`, with `sectionValid` the value `trigger(fieldIds)` resolved to
     * and `errors` the error map it reads afterwards. Returns what it focuses.
     */
    method HandleNext(sectionValid: bool, errors: map<string, string>) returns (focus: Option<string>)
      requires NextOffered(Snapshot())
      requires Inv(Snapshot())
      modifies this
      ensures triggered == old(triggered) + [FieldIds(ShownSection(old(Snapshot())).fields)]
      ensures formRequests == old(formRequests)
      ensures Snapshot() == NextState(old(Snapshot()), sectionValid) && Inv(Snapshot())
      ensures focus == if sectionValid then None else FocusTarget(FieldIds(ShownSection(old(Snapshot())).fields), errors)
    {
      var fieldIds := FieldIds(formData.value.form.sections[currentSection].fields);
      triggered := triggered + [fieldIds];
      if sectionValid {
        currentSection := currentSection + 1;
        focus := None;
      } else {
        focus := FocusTarget(fieldIds, errors);
      }
    }

    /** `handlePrev`: no validation runs. */
    method HandlePrev()
      requires PrevOffered(Snapshot())
      requires Inv(Snapshot())
      modifies this
      ensures Snapshot() == PrevState(old(Snapshot())) && Inv(Snapshot())
      ensures triggered == old(triggered) && formRequests == old(formRequests)
    {
      currentSection := currentSection - 1;
    }
  }
}
