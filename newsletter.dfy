/**
 * The newsletter signup form: four pieces of component state (`email`,
 * `isSubmitting`, `formState`, `errorMessage`) driven by the input's change
 * handler and by `handleSubmit`, whose simulated request suspends on a
 * one-second timer.
 *
 * The suspended request is the field `pending`: `handleSubmit` runs up to
 * its `await` when the form is submitted, and the rest of it runs when the
 * timer fires (`Settle`). There is no clock; the timer firing is an event.
 *
 * `Form`, `Step` and `Run` give the machine as values, so that properties of
 * whole event sequences can be stated; the class `SignupForm` is the
 * component itself, each of its methods proved to take exactly one `Step`.
 */
module Newsletter {
  import opened Base
  import opened EmailValidator
  import EmailExamples

  // ---------------------------------------------------------------------
  // Props and their defaults
  // ---------------------------------------------------------------------

  /** The optional props; `id` is accepted and never used. */
  datatype SignupProps = SignupProps(
    id: string,
    title: Option<string>,
    description: Option<string>,
    buttonText: Option<string>,
    placeholderText: Option<string>)

  /** The props after default-value destructuring. */
  datatype SignupConfig = SignupConfig(
    title: string,
    description: string,
    buttonText: string,
    placeholderText: string)

  const DefaultTitle: string := "Stay Updated on Our Progress"
  const DefaultDescription: string :=
    "Join our newsletter to receive the latest updates about our product development, funding rounds, and launch dates."
  const DefaultButtonText: string := "Subscribe"
  const DefaultPlaceholder: string := "Enter your email"

  /** Each omitted prop takes its default; each supplied one is used verbatim; `id` plays no part. */
  function ResolveSignupProps(p: SignupProps): (c: SignupConfig)
    ensures p.title.None? ==> c.title == DefaultTitle
    ensures p.title.Some? ==> c.title == p.title.value
    ensures p.description.None? ==> c.description == DefaultDescription
    ensures p.description.Some? ==> c.description == p.description.value
    ensures p.buttonText.None? ==> c.buttonText == DefaultButtonText
    ensures p.buttonText.Some? ==> c.buttonText == p.buttonText.value
    ensures p.placeholderText.None? ==> c.placeholderText == DefaultPlaceholder
    ensures p.placeholderText.Some? ==> c.placeholderText == p.placeholderText.value
  {
    SignupConfig(
      p.title.GetOr(DefaultTitle),
      p.description.GetOr(DefaultDescription),
      p.buttonText.GetOr(DefaultButtonText),
      p.placeholderText.GetOr(DefaultPlaceholder))
  }

  // ---------------------------------------------------------------------
  // The state machine as values
  // ---------------------------------------------------------------------

  datatype FormState = Idle | Success | Error

  /** The component state, plus whether a `handleSubmit` call is suspended on its timer. */
  datatype Form = Form(
    email: string,
    isSubmitting: bool,
    formState: FormState,
    errorMessage: string,
    pending: bool)

  const InvalidEmailMessage: string := "Please enter a valid email address"
  const BusyLabel: string := "Subscribing..."

  /** The state on mount. */
  const Initial: Form := Form("", false, Idle, "", false)

  /** What can happen to the form: the user edits the input, presses submit, or the timer fires. */
  datatype Event = EditEmail(value: string) | PressSubmit | TimerFires

  /** Input and button are enabled exactly when nothing is in flight and the form has not succeeded. */
  predicate Enabled(f: Form) {
    !f.isSubmitting && f.formState != Success
  }

  /**
   * `handleSubmit` up to its `await`: an invalid address is rejected at once
   * and nothing else changes; a valid one starts the simulated request and
   * leaves the input and any earlier error text as they were.
   */
  function AfterSubmit(f: Form): (g: Form)
    ensures g.email == f.email
    ensures !ValidEmail(f.email) ==> g == f.(formState := Error, errorMessage := InvalidEmailMessage)
    ensures ValidEmail(f.email) ==> g.isSubmitting && g.pending && g.formState == Idle
    ensures ValidEmail(f.email) ==> g.errorMessage == f.errorMessage
    ensures Inv(f) && Enabled(f) ==> Inv(g)
  {
    if !ValidEmail(f.email) then
      f.(formState := Error, errorMessage := InvalidEmailMessage)
    else
      f.(isSubmitting := true, formState := Idle, pending := true)
  }

  /**
   * The rest of `handleSubmit` once the timer resolves: success, the input
   * cleared, and (from `finally`) no request in flight; the error text is kept.
   */
  function AfterSettle(f: Form): (g: Form)
    ensures g.formState == Success && g.email == ""
    ensures !g.isSubmitting && !g.pending && !Enabled(g)
    ensures g.errorMessage == f.errorMessage
    ensures Inv(f) ==> Inv(g)
  {
    f.(formState := Success, email := "", isSubmitting := false, pending := false)
  }

  /**
   * The states the form can be in. `errorMessage` is never cleared, so it may
   * hold the invalid-address message in any state; it holds nothing else.
   */
  predicate Inv(f: Form) {
    && f.pending == f.isSubmitting
    && (f.isSubmitting ==> f.formState == Idle && ValidEmail(f.email))
    && (f.formState == Success ==> f.email == "")
    && (f.errorMessage == "" || f.errorMessage == InvalidEmailMessage)
    && (f.formState == Error ==> f.errorMessage == InvalidEmailMessage)
  }

  /**
   * One event. A disabled input or button delivers nothing; the timer fires
   * only for a suspended request.
   */
  function Step(f: Form, e: Event): (g: Form)
    ensures Inv(f) ==> Inv(g)
    ensures Inv(f) && f.formState == Success ==> g == f
    ensures f.isSubmitting && e.PressSubmit? ==> g == f
    ensures f.formState != Success && g.formState == Success ==> e.TimerFires? && f.pending
    ensures g.email != f.email ==> e.EditEmail? || e.TimerFires?
  {
    match e
    case EditEmail(v) => if Enabled(f) then f.(email := v) else f
    case PressSubmit => if Enabled(f) then AfterSubmit(f) else f
    case TimerFires => if f.pending then AfterSettle(f) else f
  }

  /** A sequence of events, in order. */
  function Run(f: Form, es: seq<Event>): (g: Form)
    ensures Inv(f) ==> Inv(g)
    ensures Inv(f) && f.formState == Success ==> g == f
    decreases |es|
  {
    if es == [] then f else Run(Step(f, es[0]), es[1..])
  }

  /** Running two sequences one after the other is running their concatenation. */
  lemma {:induction false} RunAppend(f: Form, es: seq<Event>, more: seq<Event>)
    ensures Run(f, es + more) == Run(Run(f, es), more)
    decreases |es|
  {
    if es == [] {
      assert es + more == more;
    } else {
      assert (es + more)[0] == es[0];
      assert (es + more)[1..] == es[1..] + more;
      RunAppend(Step(f, es[0]), es[1..], more);
    }
  }

  /**
   * Every state reachable from mount keeps the invariant; in particular a
   * request is never in flight after success, and the only error text ever
   * shown is the invalid-address message.
   */
  lemma ReachableStates(es: seq<Event>)
    ensures Inv(Run(Initial, es))
    ensures Run(Initial, es).isSubmitting ==> Run(Initial, es).formState != Success
    ensures Run(Initial, es).formState == Error ==> Run(Initial, es).errorMessage == InvalidEmailMessage
  {
    assert Inv(Initial);
  }

  /** Once the form has succeeded no sequence of events changes anything: there is no reset. */
  lemma {:induction false} SuccessIsFinal(es: seq<Event>, more: seq<Event>)
    requires Run(Initial, es).formState == Success
    ensures Run(Initial, es + more) == Run(Initial, es)
  {
    ReachableStates(es);
    RunAppend(Initial, es, more);
  }

  /** Run over a two- and a three-event sequence, one step at a time. */
  lemma RunThree(f: Form, e1: Event, e2: Event, e3: Event)
    ensures Run(f, [e1, e2]) == Step(Step(f, e1), e2)
    ensures Run(f, [e1, e2, e3]) == Step(Step(Step(f, e1), e2), e3)
  {
    var f1 := Step(f, e1);
    var f2 := Step(f1, e2);
    assert [e1, e2][1..] == [e2] && [e2][1..] == [];
    assert Run(f1, [e2]) == Run(f2, []);
    assert [e1, e2, e3][1..] == [e2, e3] && [e2, e3][1..] == [e3] && [e3][1..] == [];
    assert Run(f2, [e3]) == Run(Step(f2, e3), []);
    assert Run(f1, [e2, e3]) == Run(f2, [e3]);
  }

  /** Typing a valid address and submitting starts the request; the timer then completes it. */
  lemma SubscribeFlow(addr: string)
    requires ValidEmail(addr)
    ensures Run(Initial, [EditEmail(addr), PressSubmit]) == Form(addr, true, Idle, "", true)
    ensures Run(Initial, [EditEmail(addr), PressSubmit, TimerFires]) == Form("", false, Success, "", false)
  {
    RunThree(Initial, EditEmail(addr), PressSubmit, TimerFires);
  }

  /** Typing an invalid address and submitting fails at once: no request starts and the input keeps its text. */
  lemma RejectFlow(addr: string)
    requires !ValidEmail(addr)
    ensures Run(Initial, [EditEmail(addr), PressSubmit]) == Form(addr, false, Error, InvalidEmailMessage, false)
  {
    RunThree(Initial, EditEmail(addr), PressSubmit, PressSubmit);
  }

  /**
   * An address the browser's own e-mail check lets through but `validateEmail`
   * rejects ("a@b") fails; correcting it and submitting again starts the
   * request while the old error text stays in `errorMessage`.
   */
  lemma StaleErrorMessage(addr: string)
    requires ValidEmail(addr)
    ensures Run(Initial, [EditEmail("a@b"), PressSubmit, EditEmail(addr), PressSubmit])
      == Form(addr, true, Idle, InvalidEmailMessage, true)
  {
    EmailExamples.RejectsMissingDot();
    RejectFlow("a@b");
    var rejected := Run(Initial, [EditEmail("a@b"), PressSubmit]);
    RunAppend(Initial, [EditEmail("a@b"), PressSubmit], [EditEmail(addr), PressSubmit]);
    assert [EditEmail("a@b"), PressSubmit] + [EditEmail(addr), PressSubmit]
      == [EditEmail("a@b"), PressSubmit, EditEmail(addr), PressSubmit];
    RunThree(rejected, EditEmail(addr), PressSubmit, PressSubmit);
  }

  /** The concrete subscription run with "user@example.com". */
  lemma SubscribeExample()
    ensures Run(Initial, [EditEmail("user@example.com"), PressSubmit, TimerFires])
      == Form("", false, Success, "", false)
  {
    EmailExamples.AcceptsExampleAddress();
    SubscribeFlow("user@example.com");
  }

  // ---------------------------------------------------------------------
  // What is displayed
  // ---------------------------------------------------------------------

  datatype Alert = SuccessAlert | ErrorAlert(message: string)

  /** The parts of the rendered form that depend on state. */
  datatype View = View(
    inputValue: string,
    placeholder: string,
    inputDisabled: bool,
    buttonDisabled: bool,
    buttonLabel: string,
    alert: Option<Alert>)

  /** The input, the button and at most one alert, derived from the state. */
  function Render(f: Form, c: SignupConfig): (v: View)
    ensures v.inputDisabled == v.buttonDisabled == !Enabled(f)
    ensures v.inputValue == f.email && v.placeholder == c.placeholderText
    ensures f.isSubmitting ==> v.buttonLabel == BusyLabel
    ensures !f.isSubmitting ==> v.buttonLabel == c.buttonText
    ensures v.buttonLabel == BusyLabel <==> f.isSubmitting || c.buttonText == BusyLabel
    ensures v.alert == Some(SuccessAlert) <==> f.formState == Success
    ensures v.alert == Some(ErrorAlert(f.errorMessage)) <==> f.formState == Error
    ensures v.alert == None <==> f.formState == Idle
  {
    View(
      f.email,
      c.placeholderText,
      f.isSubmitting || f.formState == Success,
      f.isSubmitting || f.formState == Success,
      if f.isSubmitting then BusyLabel else c.buttonText,
      match f.formState
      case Idle => None
      case Success => Some(SuccessAlert)
      case Error => Some(ErrorAlert(f.errorMessage)))
  }

  /**
   * In every reachable state: while the request is in flight the controls
   * are disabled, the label is the busy label and no alert shows; the
   * success alert comes with disabled controls and an empty input; the
   * error alert reads the invalid-address message with the controls enabled.
   */
  lemma ReachableViews(es: seq<Event>, c: SignupConfig)
    ensures var f := Run(Initial, es); var v := Render(f, c);
      && (f.pending ==> v.buttonDisabled && v.buttonLabel == BusyLabel && v.alert == None)
      && (v.alert == Some(SuccessAlert) ==> v.inputDisabled && v.inputValue == "" && v.buttonLabel == c.buttonText)
      && (v.alert.Some? && v.alert.value.ErrorAlert? ==>
            v.alert.value.message == InvalidEmailMessage && !v.inputDisabled && v.buttonLabel == c.buttonText)
  {
    ReachableStates(es);
  }

  // ---------------------------------------------------------------------
  // The component
  // ---------------------------------------------------------------------

  class SignupForm {
    const config: SignupConfig
    var email: string
    var isSubmitting: bool
    var formState: FormState
    var errorMessage: string
    /** A `handleSubmit` call is suspended on its timer. */
    var pending: bool

    function Snapshot(): Form
      reads this
    {
      Form(email, isSubmitting, formState, errorMessage, pending)
    }

    predicate Valid()
      reads this
    {
      Inv(Snapshot())
    }

    /** Mount: resolve the props and start from the initial state. */
    constructor(props: SignupProps)
      ensures Valid()
      ensures config == ResolveSignupProps(props)
      ensures Snapshot() == Initial
      ensures email == "" && !isSubmitting && formState == Idle && errorMessage == "" && !pending
    {
      config := ResolveSignupProps(props);
      email := "";
      isSubmitting := false;
      formState := Idle;
      errorMessage := "";
      pending := false;
    }

    /** The displayed form. */
    function Rendered(): View
      reads this
    {
      Render(Snapshot(), config)
    }

    /** The input's change handler; a disabled input delivers no change. */
    method ChangeEmail(value: string)
      requires Valid()
      modifies this
      ensures Valid()
      ensures Snapshot() == Step(old(Snapshot()), EditEmail(value))
      ensures email == if old(Enabled(Snapshot())) then value else old(email)
      ensures isSubmitting == old(isSubmitting) && formState == old(formState)
      ensures errorMessage == old(errorMessage) && pending == old(pending)
    {
      if !isSubmitting && formState != Success {
        email := value;
      }
    }

    /**
     * `handleSubmit` up to its `await`. The form delivers a submit only
     * while its controls are enabled.
     */
    method HandleSubmit()
      requires Valid() && Enabled(Snapshot())
      modifies this
      ensures Valid()
      ensures Snapshot() == AfterSubmit(old(Snapshot()))
      ensures Snapshot() == Step(old(Snapshot()), PressSubmit)
      ensures !ValidEmail(email) ==> formState == Error && errorMessage == InvalidEmailMessage
      ensures !ValidEmail(email) ==> !isSubmitting && !pending
      ensures ValidEmail(email) ==> isSubmitting && pending && formState == Idle
      ensures ValidEmail(email) ==> errorMessage == old(errorMessage)
      ensures email == old(email)
    {
      if !ValidEmail(email) {
        formState := Error;
        errorMessage := InvalidEmailMessage;
        return;
      }
      isSubmitting := true;
      formState := Idle;
      pending := true;
    }

    /** The user presses the button (or Enter in the input); nothing happens while they are disabled. */
    method Submit()
      requires Valid()
      modifies this
      ensures Valid()
      ensures Snapshot() == Step(old(Snapshot()), PressSubmit)
      ensures !old(Enabled(Snapshot())) ==> Snapshot() == old(Snapshot())
      ensures email == old(email)
    {
      if !isSubmitting && formState != Success {
        HandleSubmit();
      }
    }

    /** The timer resolves: the rest of `handleSubmit`, including its `finally`. */
    method Settle()
      requires Valid() && pending
      modifies this
      ensures Valid()
      ensures Snapshot() == Step(old(Snapshot()), TimerFires)
      ensures formState == Success && email == "" && !isSubmitting && !pending
      ensures errorMessage == old(errorMessage)
      ensures !Enabled(Snapshot())
    {
      formState := Success;
      email := "";
      isSubmitting := false;
      pending := false;
    }
  }
}
