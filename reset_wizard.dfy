/**
 * The three-step password reset page (components/ResetPassword.tsx). Each
 * step renders one form, and only that form's callbacks can run, so each
 * event belongs to one step.
 */
module ResetWizard {
  import opened Wrappers

  datatype Step = EmailStep | VerifyStep | ResetStep

  datatype Event =
    | RequestSucceeded(email: string)   // RequestResetForm's onSuccess(email)
    | CodeVerified                      // VerifyCodeForm's onSuccess
    | ChangeEmail                       // VerifyCodeForm's onChangeEmail

  datatype Wizard = Wizard(step: Step, email: string)

  /** `useState("email")`, `useState("")`. */
  function Init(): Wizard {
    Wizard(EmailStep, "")
  }

  /** The event's callback belongs to the form rendered at `step`. */
  predicate Offered(step: Step, e: Event) {
    match e
    case RequestSucceeded(_) => step == EmailStep
    case CodeVerified => step == VerifyStep
    case ChangeEmail => step == VerifyStep
  }

  /** What the callback's state setters do. */
  function Apply(w: Wizard, e: Event): (r: Wizard)
    ensures e.RequestSucceeded? ==> r == Wizard(VerifyStep, e.email)
    ensures e.CodeVerified? ==> r == w.(step := ResetStep)
    ensures e.ChangeEmail? ==> r == w.(step := EmailStep)
  {
    match e
    case RequestSucceeded(email) => Wizard(VerifyStep, email)
    case CodeVerified => w.(step := ResetStep)
    case ChangeEmail => w.(step := EmailStep)
  }

  /** The wizard after a run of events, applied in order. */
  function Run(w: Wizard, events: seq<Event>): Wizard
    decreases |events|
  {
    if events == [] then w else Apply(Run(w, events[..|events| - 1]), events[|events| - 1])
  }

  /** Every event of the run was offered by the step it arrived at. */
  predicate Admissible(w: Wizard, events: seq<Event>)
    decreases |events|
  {
    events == [] ||
    (Admissible(w, events[..|events| - 1]) && Offered(Run(w, events[..|events| - 1]).step, events[|events| - 1]))
  }

  /** The email of the most recent request success of the run. */
  function LastRequested(events: seq<Event>): Option<string>
    decreases |events|
  {
    if events == [] then None
    else if events[|events| - 1].RequestSucceeded? then Some(events[|events| - 1].email)
    else LastRequested(events[..|events| - 1])
  }

  /** `reset` is entered only from `verify`, and `verify` only by a request success. */
  lemma EnteringSteps(w: Wizard, e: Event)
    requires Offered(w.step, e)
    ensures Apply(w, e).step == ResetStep && w.step != ResetStep ==> w.step == VerifyStep && e == CodeVerified
    ensures Apply(w, e).step == VerifyStep && w.step != VerifyStep ==> e.RequestSucceeded?
  {
  }

  /**
   * The setters themselves do not look at the step: a code-form callback that
   * ran after the page went back to `email` would jump straight to `reset`.
   */
  lemma SettersIgnoreStep(email: string)
    ensures Apply(Wizard(EmailStep, email), CodeVerified) == Wizard(ResetStep, email)
    ensures !Offered(EmailStep, CodeVerified)
  {
  }

  /**
   * Along any run from the start, the stored email is the one most recently
   * reported by a request success, and the wizard leaves `email` only after
   * such a report.
   */
  lemma {:induction false} EmailIsLastRequested(events: seq<Event>)
    requires Admissible(Init(), events)
    ensures Run(Init(), events).email == LastRequested(events).GetOr("")
    ensures Run(Init(), events).step != EmailStep ==> LastRequested(events).Some?
    decreases |events|
  {
    if events != [] {
      EmailIsLastRequested(events[..|events| - 1]);
    }
  }

  /** An offered event extends an admissible run by one step of `Apply`. */
  lemma AdmissibleSnoc(events: seq<Event>, e: Event)
    requires Admissible(Init(), events) && Offered(Run(Init(), events).step, e)
    ensures Admissible(Init(), events + [e])
    ensures Run(Init(), events + [e]) == Apply(Run(Init(), events), e)
  {
    assert (events + [e])[..|events|] == events;
  }

  /**
   * The page's state as a class. The callbacks are only invoked at the step
   * whose form holds them; `history` records the events seen so far.
   */
  class ResetPage {
    var step: Step
    var email: string
    ghost var history: seq<Event>

    function State(): Wizard
      reads this
    {
      Wizard(step, email)
    }

    ghost predicate Valid()
      reads this
    {
      Admissible(Init(), history) && State() == Run(Init(), history)
    }

    constructor ()
      ensures Valid() && State() == Init() && history == []
    {
      step, email := EmailStep, "";
      history := [];
    }

    /** `onSuccess(email)` of the request form: store the email and go to `verify`. */
    method RequestSucceeded(reported: string)
      requires Valid() && Offered(step, Event.RequestSucceeded(reported))
      modifies this
      ensures Valid() && history == old(history) + [Event.RequestSucceeded(reported)]
      ensures step == VerifyStep && email == reported
    {
      AdmissibleSnoc(history, Event.RequestSucceeded(reported));
      email := reported;
      step := VerifyStep;
      history := history + [Event.RequestSucceeded(reported)];
    }

    /** `onSuccess` of the code form: go to `reset`. */
    method CodeVerified()
      requires Valid() && Offered(step, Event.CodeVerified)
      modifies this
      ensures Valid() && history == old(history) + [Event.CodeVerified]
      ensures step == ResetStep && email == old(email)
    {
      AdmissibleSnoc(history, Event.CodeVerified);
      step := ResetStep;
      history := history + [Event.CodeVerified];
    }

    /** `onChangeEmail` of the code form: back to `email`, keeping the stored email. */
    method ChangeEmail()
      requires Valid() && Offered(step, Event.ChangeEmail)
      modifies this
      ensures Valid() && history == old(history) + [Event.ChangeEmail]
      ensures step == EmailStep && email == old(email)
    {
      AdmissibleSnoc(history, Event.ChangeEmail);
      step := EmailStep;
      history := history + [Event.ChangeEmail];
    }

    /** Whatever the page went through, a step other than `email` shows the last reported email. */
    lemma StoredEmail()
      requires Valid()
      ensures email == LastRequested(history).GetOr("")
      ensures step != EmailStep ==> LastRequested(history).Some?
    {
      EmailIsLastRequested(history);
    }
  }
}
