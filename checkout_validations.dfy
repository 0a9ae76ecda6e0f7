/**
 * The strict checkout validation tests: six partially filled forms that
 * must each be refused with the right error, a complete form that must be
 * accepted, and the fields staying editable after every refusal.
 */
module CheckoutValidations {
  import opened Wrappers
  import opened Seqs
  import opened Interfaces
  import opened CheckoutPage

  /** One partial-completion scenario: which fields get the customer's value (the others get ""), and the error expected. */
  datatype Scenario = Scenario(description: string, fillFirst: bool, fillLast: bool, fillPostal: bool, expectedError: string)

  const TestScenarios: seq<Scenario> := [
    Scenario("Only First Name filled", true, false, false, "Last Name is required"),
    Scenario("Only Last Name filled", false, true, false, "First Name is required"),
    Scenario("Only Postal Code filled", false, false, true, "First Name is required"),
    Scenario("Missing First Name", false, true, true, "First Name is required"),
    Scenario("Missing Last Name", true, false, true, "Last Name is required"),
    Scenario("Missing Postal Code", true, true, false, "Postal Code is required")
  ]

  /** One submission of the editability test: the field left with `value`, the others filled from the profile. */
  datatype Submission = Submission(field: string, value: string)

  const InvalidSubmissions: seq<Submission> := [
    Submission("firstName", ""),
    Submission("lastName", ""),
    Submission("postalCode", "")
  ]

  /** The short text each scenario expects for a missing field. */
  function ShortError(f: Field): string {
    match f
    case FirstName => "First Name is required"
    case LastName => "Last Name is required"
    case PostalCode => "Postal Code is required"
  }

  /** The form a scenario leaves filled in, starting from `s`. */
  function ScenarioForm(sc: Scenario, info: CustomerInfo, s: FormState): FormState {
    FillForm(s,
      if sc.fillFirst then info.firstName else "",
      if sc.fillLast then info.lastName else "",
      if sc.fillPostal then info.zipCode else "")
  }

  /** A scenario passes when its submission stays on step one and the banner contains the expected text. */
  predicate ScenarioPasses(sc: Scenario, after: FormState) {
    after.step != StepTwo && after.error.Some? && IsSubstring(sc.expectedError, after.error.value)
  }

  /** The banner text contains a scenario's expected text exactly for the field that text names. */
  lemma ShortErrorMatches(f: Field, g: Field)
    ensures IsSubstring(ShortError(g), ErrorText(f)) <==> f == g
  {
    if f == g {
      BannerHoldsShortError(f);
    } else {
      BannerLacksOtherLetter(f, g);
      NotSubstringByFirstChar(ShortError(g), ErrorText(f));
    }
  }

  /** Each banner is "Error: " followed by the short text for its field. */
  lemma BannerHoldsShortError(f: Field)
    ensures IsSubstring(ShortError(f), ErrorText(f))
  {
    assert ErrorText(f) == ErrorPrefix + ShortError(f) + "";
    SubstringOfConcat(ErrorPrefix, ShortError(f), "");
  }

  /** The short text for another field starts with a letter (F, L or P) that its banner lacks. */
  lemma BannerLacksOtherLetter(f: Field, g: Field)
    requires f != g
    ensures ShortError(g)[0] !in ErrorText(f)
  {
    var c := ShortError(g)[0];
    assert c in "FLP" && c !in ErrorPrefix;
    assert c !in ShortError(f) by {
      match f
      case FirstName => assert c != 'F';
      case LastName => assert c != 'L';
      case PostalCode => assert c != 'P';
    }
    assert ErrorText(f) == ErrorPrefix + ShortError(f);
    CharNotInConcat(c, ErrorPrefix, ShortError(f));
  }

  lemma CharNotInConcat(c: char, a: string, b: string)
    requires c !in a && c !in b
    ensures c !in a + b
  {
  }

  /** A text whose first letter does not occur in `hay` is not part of it. */
  lemma NotSubstringByFirstChar(needle: string, hay: string)
    requires |needle| > 0 && needle[0] !in hay
    ensures !IsSubstring(needle, hay)
  {
    forall k | 0 <= k <= |hay| ensures !OccursAt(needle, hay, k) {
      if k + |needle| <= |hay| {
        assert hay[k..k + |needle|][0] == hay[k] != needle[0];
      }
    }
  }

  /** Each scenario's expected text is the short form of the field it expects to be reported. */
  lemma ScenarioExpectations(k: nat)
    requires k < |TestScenarios|
    ensures var sc := TestScenarios[k];
      sc.expectedError == ShortError(
        if !sc.fillFirst then FirstName else if !sc.fillLast then LastName else PostalCode)
    ensures !(TestScenarios[k].fillFirst && TestScenarios[k].fillLast && TestScenarios[k].fillPostal)
  {
  }

  /**
   * A scenario started from any empty step-one form passes exactly when the
   * profile values it types are non-empty: typing "" where the scenario
   * means to fill a field moves the reported field earlier.
   */
  lemma ScenarioPassesIff(k: nat, info: CustomerInfo, s: FormState)
    requires k < |TestScenarios| && s.step == StepOne
    ensures var sc := TestScenarios[k];
      ScenarioPasses(sc, Submit(ScenarioForm(sc, info, s))) <==>
        (sc.fillFirst ==> info.firstName != "") &&
        (sc.fillFirst && sc.fillLast ==> info.lastName != "")
  {
    var sc := TestScenarios[k];
    var form := ScenarioForm(sc, info, s);
    ScenarioExpectations(k);
    var expected := if !sc.fillFirst then FirstName else if !sc.fillLast then LastName else PostalCode;
    var f := FirstEmptyField(form);
    assert f.Some?;
    ShortErrorMatches(f.value, expected);
  }

  /** The six scenarios between them pass exactly when the profile's first and last names are non-empty; the postal code is never typed into a scenario whose outcome it decides. */
  lemma AllScenariosPassIff(info: CustomerInfo, s: FormState)
    requires s.step == StepOne
    ensures (forall k :: 0 <= k < |TestScenarios| ==> ScenarioPasses(TestScenarios[k], Submit(ScenarioForm(TestScenarios[k], info, s))))
      <==> info.firstName != "" && info.lastName != ""
  {
    forall k | 0 <= k < |TestScenarios| {
      ScenarioPassesIff(k, info, s);
    }
    if !(info.firstName != "" && info.lastName != "") {
      ScenarioPassesIff(if info.firstName == "" then 0 else 5, info, s);
    }
  }

  /**
   * "Strict field validation prevents progression": submit the empty form,
   * run the six scenarios (clearing the form after each), then submit the
   * complete form. It passes exactly when the customer profile has all three
   * values.
   */
  method StrictFieldValidation(info: CustomerInfo) returns (passed: bool)
    ensures passed <==> info.firstName != "" && info.lastName != "" && info.zipCode != ""
  {
    var page := new CheckoutPage();
    page.ClickContinue();
    EmptySubmitShowsFirstNameError();
    var ok := RunScenarios(page, info);
    if !ok {
      return false;
    }
    page.FillFirstName(info.firstName);
    page.FillLastName(info.lastName);
    page.FillPostalCode(info.zipCode);
    page.ClickContinue();
    passed := page.step == StepTwo;
  }

  /**
   * Run the six scenarios in order from an empty step-one form, clearing the
   * form after each; stop at the first that fails. All pass exactly when the
   * profile's first and last names are non-empty, and then the form is empty
   * again.
   */
  method RunScenarios(page: CheckoutPage, info: CustomerInfo) returns (ok: bool)
    requires page.State() == EmptyForm.(error := page.error)
    modifies page
    ensures ok <==> info.firstName != "" && info.lastName != ""
    ensures ok ==> page.State() == EmptyForm.(error := page.error)
  {
    for k := 0 to |TestScenarios|
      invariant page.State() == EmptyForm.(error := page.error)
      invariant forall j :: 0 <= j < k ==> ScenarioPasses(TestScenarios[j], Submit(ScenarioForm(TestScenarios[j], info, EmptyForm)))
    {
      var passed := PlayScenario(page, k, info);
      if !passed {
        return false;
      }
    }
    AllScenariosPassIff(info, EmptyForm);
    ok := true;
  }

  /**
   * One pass of the scenario loop from an empty step-one form: the
   * scenario's three fills, continue, the check on the banner, and, when the
   * check holds, the reset. The check holds exactly when the profile values
   * the scenario types are non-empty where they decide the first empty field.
   */
  method PlayScenario(page: CheckoutPage, k: nat, info: CustomerInfo) returns (passed: bool)
    requires k < |TestScenarios| && page.State() == EmptyForm.(error := page.error)
    modifies page
    ensures passed <==> ScenarioPasses(TestScenarios[k], Submit(ScenarioForm(TestScenarios[k], info, EmptyForm)))
    ensures passed <==> (TestScenarios[k].fillFirst ==> info.firstName != "") &&
                        (TestScenarios[k].fillFirst && TestScenarios[k].fillLast ==> info.lastName != "")
    ensures passed ==> page.State() == EmptyForm.(error := page.error)
  {
    var sc := TestScenarios[k];
    ghost var start := page.State();
    page.FillFirstName(if sc.fillFirst then info.firstName else "");
    page.FillLastName(if sc.fillLast then info.lastName else "");
    page.FillPostalCode(if sc.fillPostal then info.zipCode else "");
    page.ClickContinue();
    ScenarioRound(k, info, start);
    passed := page.error.Some? && IsSubstring(sc.expectedError, page.error.value);
    if passed {
      page.ClearAllFields();
    }
  }

  /**
   * One round of the scenario loop from an empty step-one form with any
   * banner: the outcome is that of the empty form, the check made on the
   * banner is the scenario's pass condition, and clearing gives back an
   * empty step-one form.
   */
  lemma ScenarioRound(k: nat, info: CustomerInfo, start: FormState)
    requires k < |TestScenarios| && start == EmptyForm.(error := start.error)
    ensures var sc := TestScenarios[k];
      var after := Submit(ScenarioForm(sc, info, start));
      && after == Submit(ScenarioForm(sc, info, EmptyForm))
      && Clear(after) == EmptyForm.(error := after.error)
      && (ScenarioPasses(sc, after) <==> after.error.Some? && IsSubstring(sc.expectedError, after.error.value))
      && (ScenarioPasses(sc, after) <==>
        (sc.fillFirst ==> info.firstName != "") && (sc.fillFirst && sc.fillLast ==> info.lastName != ""))
  {
    var sc := TestScenarios[k];
    ScenarioExpectations(k);
    ScenarioFormIgnoresError(EmptyForm, start, info);
    ScenarioStaysOnStepOne(sc, info, start);
    ScenarioPassesIff(k, info, EmptyForm);
  }

  /**
   * A scenario that leaves a field unfilled is refused: the form stays on
   * step one with a banner, and clearing it gives back the empty form with
   * that banner.
   */
  lemma ScenarioStaysOnStepOne(sc: Scenario, info: CustomerInfo, s: FormState)
    requires s.step == StepOne && !(sc.fillFirst && sc.fillLast && sc.fillPostal)
    ensures Submit(ScenarioForm(sc, info, s)).step == StepOne
    ensures Submit(ScenarioForm(sc, info, s)).error.Some?
    ensures Clear(Submit(ScenarioForm(sc, info, s))) ==
      s.(firstName := "", lastName := "", postalCode := "", error := Submit(ScenarioForm(sc, info, s)).error)
  {
  }

  /** Which field values a scenario leaves, and so its outcome, do not depend on the error shown before it. */
  lemma ScenarioFormIgnoresError(s: FormState, t: FormState, info: CustomerInfo)
    requires s.step == StepOne && t == s.(error := t.error)
    ensures forall sc :: Submit(ScenarioForm(sc, info, t)) == Submit(ScenarioForm(sc, info, s))
  {
  }

  /** The values the editability test types for one submission. */
  function SubmissionValue(sub: Submission, field: string, profileValue: string): string {
    if sub.field == field then sub.value else profileValue
  }

  /**
   * "Field editability remains consistent": the fields are editable at the
   * start and after each refused submission, the complete form is accepted,
   * and after going back the fields are editable again. It passes exactly
   * when the customer profile has all three values.
   */
  method FieldEditabilityConsistency(info: CustomerInfo) returns (passed: bool)
    ensures passed <==> info.firstName != "" && info.lastName != "" && info.zipCode != ""
  {
    var page := new CheckoutPage();
    assert FieldsEditable(page.State());

    for k := 0 to |InvalidSubmissions|
      invariant page.step == StepOne && page.firstName == "" && page.lastName == "" && page.postalCode == ""
    {
      var sub := InvalidSubmissions[k];
      page.FillFirstName(SubmissionValue(sub, "firstName", info.firstName));
      page.FillLastName(SubmissionValue(sub, "lastName", info.lastName));
      page.FillPostalCode(SubmissionValue(sub, "postalCode", info.zipCode));
      page.ClickContinue();
      assert FieldsEditable(page.State());
      page.ClearAllFields();
    }

    page.FillFirstName(info.firstName);
    page.FillLastName(info.lastName);
    page.FillPostalCode(info.zipCode);
    page.ClickContinue();
    if page.step != StepTwo {
      return false;
    }
    page.GoBack();
    assert FieldsEditable(page.State());
    passed := true;
  }
}
