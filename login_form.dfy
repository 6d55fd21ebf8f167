/**
 * The LoginForm component: two text inputs and a submit handler that registers
 * the user with the service and then reports the roll number to its parent.
 * `handleSubmit` is split at its one `await`: `HandleSubmit` runs up to the
 * `createUser` call, `CreateUserSettled` runs the rest once the call has
 * succeeded or failed.
 */
module LoginForm {
  import opened Wrappers

  const RequiredMessage := "Both Roll Number and Name are required"
  const RegisterFailedMessage := "Failed to register user. Please try again."

  datatype State = State(rollNumber: string, name: string, error: string, loading: bool)

  /** The arguments of a `createUser` call. */
  datatype Registration = Registration(rollNumber: string, name: string)

  function Initial(): (s: State)
    ensures s.rollNumber == "" && s.name == "" && s.error == "" && !s.loading
  {
    State("", "", "", false)
  }

  /** The inputs and the button carry `disabled={loading}`. */
  predicate ControlsDisabled(s: State)
  {
    s.loading
  }

  /** The state after the synchronous part of `handleSubmit`, and the `createUser` call it issues, if any. */
  datatype Begun = Begun(state: State, call: Option<Registration>)

  function BeginSubmit(s: State): (r: Begun)
    // the gate: an empty (falsy) input stops before any network call
    ensures r.call.None? <==> s.rollNumber == "" || s.name == ""
    ensures r.call.None? ==> r.state == s.(error := RequiredMessage)
    ensures r.call.Some? ==>
      r.call.value == Registration(s.rollNumber, s.name) && r.state == s.(loading := true)
  {
    if s.rollNumber == "" || s.name == "" then Begun(s.(error := RequiredMessage), None)
    else Begun(s.(loading := true), Some(Registration(s.rollNumber, s.name)))
  }

  /** The state after the handler resumes, and the argument `onLogin` is called with, if it is. */
  datatype Settled = Settled(state: State, login: Option<string>)

  function SettleSubmit(s: State, registered: bool): (r: Settled)
    ensures !r.state.loading
    ensures r.state.rollNumber == s.rollNumber && r.state.name == s.name
    ensures r.login.Some? <==> registered
    ensures r.login.Some? ==> r.login.value == s.rollNumber
    ensures r.state.error == (if registered then s.error else RegisterFailedMessage)
  {
    if registered then Settled(s.(loading := false), Some(s.rollNumber))
    else Settled(s.(error := RegisterFailedMessage, loading := false), None)
  }

  /** User edits, submissions, and the settling of an outstanding `createUser` call. */
  datatype Event = EditRollNumber(text: string) | EditName(text: string) | Submit | CreateUserDone(registered: bool)

  /** Edits and submissions need enabled controls; only an outstanding call can settle. */
  predicate Enabled(s: State, e: Event)
  {
    match e
    case CreateUserDone(_) => s.loading
    case _ => !ControlsDisabled(s)
  }

  function Step(s: State, e: Event): State
  {
    if !Enabled(s, e) then s
    else match e
      case EditRollNumber(text) => s.(rollNumber := text)
      case EditName(text) => s.(name := text)
      case Submit => BeginSubmit(s).state
      case CreateUserDone(ok) => SettleSubmit(s, ok).state
  }

  function Run(s: State, events: seq<Event>): State
    decreases |events|
  {
    if events == [] then s else Run(Step(s, events[0]), events[1..])
  }

  /** A call is outstanding only for inputs that passed the gate. */
  predicate Inv(s: State)
  {
    s.loading ==> s.rollNumber != "" && s.name != ""
  }

  lemma {:induction false} RunKeepsInv(s: State, events: seq<Event>)
    requires Inv(s)
    ensures Inv(Run(s, events))
    decreases |events|
  {
    if events != [] {
      RunKeepsInv(Step(s, events[0]), events[1..]);
    }
  }

  /** No step ever clears the error: a message once shown stays, even after a successful login. */
  lemma {:induction false} ErrorNeverCleared(s: State, events: seq<Event>)
    requires s.error != ""
    ensures Run(s, events).error != ""
    decreases |events|
  {
    if events != [] {
      ErrorNeverCleared(Step(s, events[0]), events[1..]);
    }
  }

  /** While a call is outstanding nothing but its settling changes the state. */
  lemma {:induction false} FrozenWhileLoading(s: State, events: seq<Event>)
    requires s.loading
    requires forall k :: 0 <= k < |events| ==> !events[k].CreateUserDone?
    ensures Run(s, events) == s
    decreases |events|
  {
    if events != [] {
      FrozenWhileLoading(Step(s, events[0]), events[1..]);
    }
  }

  /** `onLogin` receives the roll number that was submitted, whatever the user tried in between. */
  lemma {:induction false} OnLoginGetsSubmittedRollNumber(s: State, between: seq<Event>)
    requires BeginSubmit(s).call.Some?
    requires forall k :: 0 <= k < |between| ==> !between[k].CreateUserDone?
    ensures SettleSubmit(Run(BeginSubmit(s).state, between), true).login == Some(BeginSubmit(s).call.value.rollNumber)
  {
    FrozenWhileLoading(BeginSubmit(s).state, between);
  }

  /** Whitespace is truthy: blank-looking inputs pass the gate and reach `createUser`. */
  lemma WhitespacePassesGate()
    ensures BeginSubmit(State(" ", " ", "", false)).call == Some(Registration(" ", " "))
  {
  }

  /** The component instance, with ghost records of the calls it makes out. */
  class Component {
    var rollNumber: string
    var name: string
    var error: string
    var loading: bool
    ghost var registrations: seq<Registration>
    ghost var logins: seq<string>

    function Snapshot(): State
      reads this
    {
      State(rollNumber, name, error, loading)
    }

    constructor()
      ensures Snapshot() == Initial() && Inv(Snapshot())
      ensures registrations == [] && logins == []
    {
      rollNumber, name, error, loading := "", "", "", false;
      registrations, logins := [], [];
    }

    /** The roll-number input's `onChange`; the input is disabled while loading. */
    method SetRollNumber(text: string)
      requires !ControlsDisabled(Snapshot())
      modifies this
      ensures Snapshot() == old(Snapshot()).(rollNumber := text)
      ensures registrations == old(registrations) && logins == old(logins)
    {
      rollNumber := text;
    }

    /** The name input's `onChange`; the input is disabled while loading. */
    method SetName(text: string)
      requires !ControlsDisabled(Snapshot())
      modifies this
      ensures Snapshot() == old(Snapshot()).(name := text)
      ensures registrations == old(registrations) && logins == old(logins)
    {
      name := text;
    }

    /** `handleSubmit` up to the awaited `createUser`; returns the call it issues. */
    method HandleSubmit() returns (call: Option<Registration>)
      requires !ControlsDisabled(Snapshot())
      requires Inv(Snapshot())
      modifies this
      ensures Snapshot() == BeginSubmit(old(Snapshot())).state && call == BeginSubmit(old(Snapshot())).call
      ensures registrations == old(registrations) + (if call.Some? then [call.value] else [])
      ensures logins == old(logins)
      ensures Inv(Snapshot())
    {
      if rollNumber == "" || name == "" {
        error := RequiredMessage;
        call := None;
        return;
      }
      loading := true;
      call := Some(Registration(rollNumber, name));
      registrations := registrations + [call.value];
    }

    /** The rest of `handleSubmit` once `createUser` succeeded (`registered`) or threw. */
    method CreateUserSettled(registered: bool)
      requires loading
      requires Inv(Snapshot())
      modifies this
      ensures Snapshot() == SettleSubmit(old(Snapshot()), registered).state
      ensures logins == old(logins) + (if registered then [old(rollNumber)] else [])
      ensures registrations == old(registrations)
      ensures Inv(Snapshot())
    {
      if registered {
        logins := logins + [rollNumber];
      } else {
        error := RegisterFailedMessage;
      }
      loading := false;
    }
  }
}
