/** The two-step sign-up form (app/auth/register/page.tsx): step navigation,
    the Continue/submit enabling, and the password-mismatch guard in front
    of the auth provider's `register`. */
module RegisterWizard {
  import AuthProvider

  datatype RegisterForm = RegisterForm(
    name: string,
    email: string,
    password: string,
    confirmPassword: string,
    role: string,
    phone: string,
    specialization: string,
    hospitalId: string)

  datatype Wizard = Wizard(step: int, form: RegisterForm)

  /** `nextStep`: forward only from the first step. */
  function NextStep(w: Wizard): (v: Wizard)
    ensures w.step < 2 ==> v.step == w.step + 1
    ensures w.step >= 2 ==> v.step == w.step
    ensures v.form == w.form
  {
    if w.step < 2 then w.(step := w.step + 1) else w
  }

  /** `prevStep`: back only from beyond the first step. */
  function PrevStep(w: Wizard): (v: Wizard)
    ensures w.step > 1 ==> v.step == w.step - 1
    ensures w.step <= 1 ==> v.step == w.step
    ensures v.form == w.form
  {
    if w.step > 1 then w.(step := w.step - 1) else w
  }

  /** `canProceed`: on step 1 the name, email, phone and role must be filled
      in; on any other step the two password fields. */
  function CanProceed(w: Wizard): (ok: bool)
    ensures w.step == 1 ==>
      (ok <==> w.form.name != "" && w.form.email != "" && w.form.phone != "" && w.form.role != "")
    ensures w.step != 1 ==> (ok <==> w.form.password != "" && w.form.confirmPassword != "")
  {
    if w.step == 1 then w.form.name != "" && w.form.email != "" && w.form.phone != "" && w.form.role != ""
    else w.form.password != "" && w.form.confirmPassword != ""
  }

  /** Each step's check reads only that step's fields: the first ignores the
      passwords, the others ignore name, email, phone and role. */
  lemma CanProceedReadsOwnStep(w: Wizard, other: RegisterForm)
    ensures (w.step == 1 && other.name == w.form.name && other.email == w.form.email
             && other.phone == w.form.phone && other.role == w.form.role)
      ==> (CanProceed(w) <==> CanProceed(w.(form := other)))
    ensures (w.step != 1 && other.password == w.form.password
             && other.confirmPassword == w.form.confirmPassword)
      ==> (CanProceed(w) <==> CanProceed(w.(form := other)))
  {
  }

  /** The buttons below the form: Continue before the last step, Previous
      after the first, and the submit button on the last. */
  function ContinueEnabled(w: Wizard): (enabled: bool)
    ensures w.step >= 2 ==> !enabled
    ensures w.step == 1 ==>
      (enabled <==> w.form.name != "" && w.form.email != "" && w.form.phone != "" && w.form.role != "")
    ensures w.step < 1 ==> (enabled <==> w.form.password != "" && w.form.confirmPassword != "")
  {
    w.step < 2 && CanProceed(w)
  }

  function SubmitEnabled(w: Wizard, isLoading: bool): (enabled: bool)
    ensures enabled <==> w.step >= 2 && !isLoading && w.form.password != "" && w.form.confirmPassword != ""
    ensures enabled ==> !ContinueEnabled(w)
  {
    w.step >= 2 && !isLoading && CanProceed(w)
  }

  /** A navigation click. */
  datatype Nav = Continue | Previous

  /** The wizard after a run of clicks on rendered, enabled buttons, starting
      from step 1; a click on a button that is absent or disabled is
      ignored, as the browser does. */
  function Navigate(form: RegisterForm, clicks: seq<Nav>): (w: Wizard)
    ensures w.form == form
    ensures clicks == [] ==> w.step == 1
    decreases |clicks|
  {
    if clicks == [] then Wizard(1, form)
    else
      var w := Navigate(form, clicks[..|clicks| - 1]);
      match clicks[|clicks| - 1]
      case Continue => if ContinueEnabled(w) then NextStep(w) else w
      case Previous => if w.step > 1 then PrevStep(w) else w
  }

  /** Whatever is clicked, the wizard is on step 1 or step 2, and it reaches
      step 2 only through a Continue that the first step's fields enabled. */
  lemma {:induction false} StepsStayInRange(form: RegisterForm, clicks: seq<Nav>)
    ensures Navigate(form, clicks).step in {1, 2}
    ensures Navigate(form, clicks).step == 2 ==> CanProceed(Wizard(1, form))
    decreases |clicks|
  {
    if clicks != [] {
      StepsStayInRange(form, clicks[..|clicks| - 1]);
    }
  }

  /** What submitting does: a mismatch stops before the provider is called;
      otherwise the provider registers the user. */
  datatype SubmitOutcome = PasswordMismatch | Registered(session: AuthProvider.Session)

  /** `handleSubmit`. */
  function HandleSubmit(w: Wizard, session: AuthProvider.Session): (r: SubmitOutcome)
    ensures r.PasswordMismatch? <==> w.form.password != w.form.confirmPassword
    ensures r.Registered? ==> r.session.user.Some? && r.session.stored == r.session.user
    ensures r.Registered? ==> var u := r.session.user.value;
      u.email == w.form.email && u.name == w.form.name && u.role == w.form.role
  {
    if w.form.password != w.form.confirmPassword then PasswordMismatch
    else Registered(AuthProvider.Register(session, AuthProvider.RegisterData(w.form.email, w.form.name, w.form.role)))
  }

  /** The page lists password requirements (eight characters, mixed case, a
      digit) but checks only that the two entries agree: a one-letter
      password registers. */
  lemma RequirementsNotEnforced(session: AuthProvider.Session)
    ensures var w := Wizard(2, RegisterForm("A", "a@b", "x", "x", AuthProvider.Patient, "1", "", ""));
      SubmitEnabled(w, false) && HandleSubmit(w, session).Registered?
  {
  }
}
