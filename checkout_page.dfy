/**
 * The checkout page object over the storefront's checkout form. Step one
 * has three text fields; "Continue" moves to step two only when all three
 * are filled, and otherwise shows the error for the first empty field in
 * the order first name, last name, postal code.
 */
module CheckoutPage {
  import opened Wrappers

  /** The checkout step the browser is on. */
  datatype Step = StepOne | StepTwo

  /** The three fields of step one, in form order. */
  datatype Field = FirstName | LastName | PostalCode

  /** What the checkout form shows: the three field values, the step, and the error banner. */
  datatype FormState = FormState(firstName: string, lastName: string, postalCode: string, step: Step, error: Option<string>)

  /** Every banner starts with this text. */
  const ErrorPrefix: string := "Error: "

  const FirstNameRequired: string := ErrorPrefix + "First Name is required"
  const LastNameRequired: string := ErrorPrefix + "Last Name is required"
  const PostalCodeRequired: string := ErrorPrefix + "Postal Code is required"

  /** The banner text the storefront shows for a missing field. */
  function ErrorText(f: Field): string {
    match f
    case FirstName => FirstNameRequired
    case LastName => LastNameRequired
    case PostalCode => PostalCodeRequired
  }

  /** The order of the fields on the form. */
  function FieldIndex(f: Field): nat {
    match f
    case FirstName => 0
    case LastName => 1
    case PostalCode => 2
  }

  function FieldValue(s: FormState, f: Field): string {
    match f
    case FirstName => s.firstName
    case LastName => s.lastName
    case PostalCode => s.postalCode
  }

  /** Step one as the test reaches it: every field empty, no error shown. */
  const EmptyForm: FormState := FormState("", "", "", StepOne, None)

  /** The first empty field in form order, if any. */
  function FirstEmptyField(s: FormState): (r: Option<Field>)
    ensures r == Some(FirstName) <==> s.firstName == ""
    ensures r == Some(LastName) <==> s.firstName != "" && s.lastName == ""
    ensures r == Some(PostalCode) <==> s.firstName != "" && s.lastName != "" && s.postalCode == ""
    ensures r == None <==> s.firstName != "" && s.lastName != "" && s.postalCode != ""
  {
    if s.firstName == "" then Some(FirstName)
    else if s.lastName == "" then Some(LastName)
    else if s.postalCode == "" then Some(PostalCode)
    else None
  }

  /**
   * Typing `value` into field `f` replaces its content and nothing else.
   * Off step one the model leaves the state unchanged, whereas Playwright's
   * `fill` would wait for the absent field until it times out; no call in
   * the suite fills a field off step one.
   */
  function Fill(s: FormState, f: Field, value: string): (r: FormState)
    ensures s.step != StepOne ==> r == s
    ensures r.step == s.step && r.error == s.error
    ensures s.step == StepOne ==> FieldValue(r, f) == value
    ensures forall g: Field :: g != f ==> FieldValue(r, g) == FieldValue(s, g)
  {
    if s.step != StepOne then s
    else
      match f
      case FirstName => s.(firstName := value)
      case LastName => s.(lastName := value)
      case PostalCode => s.(postalCode := value)
  }

  /** `fillCheckoutForm`: first name, then last name, then postal code; on step one each field ends up with its value. */
  function FillForm(s: FormState, first: string, last: string, postal: string): (r: FormState)
    ensures s.step == StepOne ==> r == s.(firstName := first, lastName := last, postalCode := postal)
    ensures s.step != StepOne ==> r == s
  {
    Fill(Fill(Fill(s, FirstName, first), LastName, last), PostalCode, postal)
  }

  /** Clearing the three fields in turn: on step one all three end up empty, so the first name is the first missing field. */
  function Clear(s: FormState): (r: FormState)
    ensures r.step == s.step && r.error == s.error
    ensures s.step == StepOne ==> r.firstName == "" && r.lastName == "" && r.postalCode == ""
    ensures s.step == StepOne ==> FirstEmptyField(r) == Some(FirstName)
    ensures s.step != StepOne ==> r == s
  {
    Fill(Fill(Fill(s, FirstName, ""), LastName, ""), PostalCode, "")
  }

  /**
   * Clicking "Continue": step two when the form is complete, otherwise the
   * first missing field's error. The typed values are kept either way. Off
   * step one the model leaves the state unchanged, whereas Playwright's
   * `click` would wait for the absent button until it times out; no call in
   * the suite presses "Continue" off step one.
   */
  function Submit(s: FormState): (r: FormState)
    ensures r.firstName == s.firstName && r.lastName == s.lastName && r.postalCode == s.postalCode
    ensures s.step != StepOne ==> r == s
    ensures s.step == StepOne ==> (r.step == StepTwo <==> s.firstName != "" && s.lastName != "" && s.postalCode != "")
    ensures s.step == StepOne && r.step == StepOne ==> r.error.Some? && FieldsEditable(r)
  {
    if s.step != StepOne then s
    else
      match FirstEmptyField(s)
      case None => s.(step := StepTwo, error := None)
      case Some(f) => s.(error := Some(ErrorText(f)))
  }

  /** Going back from step two in the browser returns to an empty step one. */
  function NavigateBack(s: FormState): FormState {
    if s.step == StepTwo then EmptyForm else s
  }

  /** The three fields accept input exactly while step one is shown. */
  predicate FieldsEditable(s: FormState) {
    s.step == StepOne
  }

  /**
   * A blocked submission shows the error for the first empty field, keeps
   * the field values and stays on step one, where the fields stay editable.
   */
  lemma BlockedSubmitNamesFirstEmptyField(s: FormState, f: Field)
    requires s.step == StepOne && FirstEmptyField(s) == Some(f)
    ensures Submit(s) == s.(error := Some(ErrorText(f)))
    ensures FieldsEditable(Submit(s))
    ensures FieldValue(s, f) == ""
    ensures forall g: Field :: FieldIndex(g) < FieldIndex(f) ==> FieldValue(s, g) != ""
  {
  }

  /** Submitting the untouched form stays on step one with the first-name error. */
  lemma EmptySubmitShowsFirstNameError()
    ensures Submit(EmptyForm) == FormState("", "", "", StepOne, Some(FirstNameRequired))
  {
  }

  /** The checkout page in the browser, driven one action at a time. */
  class CheckoutPage {
    var firstName: string
    var lastName: string
    var postalCode: string
    var step: Step
    var error: Option<string>

    /** What the page currently shows. */
    function State(): FormState
      reads this
    {
      FormState(firstName, lastName, postalCode, step, error)
    }

    /** The page as the test opens it, on step one with nothing typed. */
    constructor ()
      ensures State() == EmptyForm
    {
      firstName, lastName, postalCode, step, error := "", "", "", StepOne, None;
    }

    method SetState(s: FormState)
      modifies this
      ensures State() == s
    {
      firstName, lastName, postalCode, step, error := s.firstName, s.lastName, s.postalCode, s.step, s.error;
    }

    method FillFirstName(value: string)
      modifies this
      ensures State() == Fill(old(State()), FirstName, value)
    {
      SetState(Fill(State(), FirstName, value));
    }

    method FillLastName(value: string)
      modifies this
      ensures State() == Fill(old(State()), LastName, value)
    {
      SetState(Fill(State(), LastName, value));
    }

    method FillPostalCode(value: string)
      modifies this
      ensures State() == Fill(old(State()), PostalCode, value)
    {
      SetState(Fill(State(), PostalCode, value));
    }

    method ClickContinue()
      modifies this
      ensures State() == Submit(old(State()))
    {
      SetState(Submit(State()));
    }

    method FillCheckoutForm(first: string, last: string, postal: string)
      modifies this
      ensures State() == FillForm(old(State()), first, last, postal)
    {
      FillFirstName(first);
      FillLastName(last);
      FillPostalCode(postal);
    }

    /** Fill the form, then press "Continue" once. */
    method CompleteCheckout(first: string, last: string, postal: string)
      modifies this
      ensures State() == Submit(FillForm(old(State()), first, last, postal))
    {
      FillCheckoutForm(first, last, postal);
      ClickContinue();
    }

    method ClearAllFields()
      modifies this
      ensures State() == Clear(old(State()))
    {
      FillFirstName("");
      FillLastName("");
      FillPostalCode("");
    }

    /** The browser's back navigation. */
    method GoBack()
      modifies this
      ensures State() == NavigateBack(old(State()))
    {
      SetState(NavigateBack(State()));
    }
  }
}
