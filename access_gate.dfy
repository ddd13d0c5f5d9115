/** The onboarding wizard of the React client (AccessGate.jsx): the four
    steps and their validators, the Google and one-time-code sign-in of
    step 1, and the final submit.

    Requests are parameters (`Failed` when they throw); `login` and
    `refreshUser` of the session store are reduced to whether they throw.
    Toasts and the loading spinner's intermediate states are left out. */
module AccessGate {
  import opened Common
  import opened Rows

  datatype AuthMethod = Google | Email | Mobile

  datatype OtpState = Input | Verify

  datatype Form = Form(name: string, email: string, phone: string, countryCode: string,
                       reason: string, pledgeAccepted: bool, otp: string)

  const EmptyForm := Form("", "", "", "+1", "", false, "")

  /** `isStepValid`: whether the wizard's continue button is enabled. */
  function StepValid(step: int, f: Form): (ok: bool)
    ensures ok ==> 2 <= step <= 4
    ensures step == 2 ==> (ok <==> |f.name| >= 2 && |f.phone| >= 5)
    ensures step == 3 ==> (ok <==> |f.reason| > 20)
    ensures step == 4 ==> (ok <==> f.pledgeAccepted)
  {
    match step
    case 2 => |f.name| >= 2 && |f.phone| >= 5
    case 3 => |f.reason| > 20
    case 4 => f.pledgeAccepted
    case _ => false
  }

  /** Who the one-time code goes to. */
  datatype Target = ByEmail(email: string) | ByPhone(phone: string, countryCode: string)

  /** The send payload: the email for the email method, the phone and its
      country code otherwise. */
  function TargetOf(m: AuthMethod, f: Form): (t: Target)
    ensures m == Email <==> t.ByEmail?
    ensures t.ByEmail? ==> t.email == f.email
    ensures t.ByPhone? ==> t.phone == f.phone && t.countryCode == f.countryCode
  {
    if m == Email then ByEmail(f.email) else ByPhone(f.phone, f.countryCode)
  }

  /** The verify payload adds the code to the same target. */
  datatype VerifyPayload = VerifyPayload(code: string, target: Target)

  /** The `sendOtp` validation message, if any. */
  function SendProblem(m: AuthMethod, f: Form): (p: Option<string>)
    ensures p.None? <==> !(m == Email && '@' !in f.email) && !(m == Mobile && |f.phone| < 8)
    ensures m == Email && p.Some? ==> p.value == "Invalid email address."
    ensures m == Mobile && p.Some? ==> p.value == "Invalid mobile number."
  {
    if m == Email && '@' !in f.email then Some("Invalid email address.")
    else if m == Mobile && |f.phone| < 8 then Some("Invalid mobile number.")
    else None
  }

  /** The `/user/onboard` body. */
  datatype Onboard = Onboard(email: string, name: string, phone: string, countryCode: string, reason: string)

  /** The `/auth/otp/verify` answer: the user record's name (maybe absent)
      and its email. */
  datatype Verified = Verified(name: Field, email: string)

  class Wizard {
    var currentStep: int
    var authMethod: AuthMethod
    var otpState: OtpState
    var form: Form
    var isLoading: bool
    var message: string
    var navigatedTo: Option<string>

    ghost predicate Valid()
      reads this
    {
      1 <= currentStep <= 4
    }

    constructor ()
      ensures Valid() && currentStep == 1 && authMethod == Google && otpState == Input
      ensures form == EmptyForm && !isLoading && message == "" && navigatedTo.None?
    {
      currentStep, authMethod, otpState, form := 1, Google, Input, EmptyForm;
      isLoading, message, navigatedTo := false, "", None;
    }

    /** A choice in the method toggle clears the message and any code. */
    method SelectMethod(m: AuthMethod)
      requires Valid()
      modifies this
      ensures Valid()
      ensures authMethod == m && message == "" && otpState == Input && form == old(form).(otp := "")
      ensures currentStep == old(currentStep) && isLoading == old(isLoading) && navigatedTo == old(navigatedTo)
    {
      authMethod, message, otpState := m, "", Input;
      form := form.(otp := "");
    }

    /** `sendOtp`: an invalid email or phone only sets a message; otherwise
        the code is requested, and on success the wizard waits for it. */
    method SendOtp(reply: Outcome<Field>) returns (sent: Option<Target>)
      requires Valid()
      modifies this
      ensures Valid()
      ensures SendProblem(authMethod, form).Some? ==>
        && sent.None? && message == SendProblem(authMethod, form).value
        && otpState == old(otpState) && isLoading == old(isLoading)
      ensures SendProblem(authMethod, form).None? ==> sent == Some(TargetOf(authMethod, form)) && !isLoading
      ensures SendProblem(authMethod, form).None? && reply.Ok? ==>
        otpState == Verify && message == OrElse(reply.value, "Access Protocol Dispatched.")
      ensures SendProblem(authMethod, form).None? && reply.Failed? ==>
        otpState == old(otpState) && message == "Failed to initialize security protocol."
      ensures currentStep == old(currentStep) && form == old(form) && authMethod == old(authMethod)
      ensures navigatedTo == old(navigatedTo)
    {
      message := "";
      var problem := SendProblem(authMethod, form);
      if problem.Some? {
        message := problem.value;
        return None;
      }
      isLoading := true;
      sent := Some(TargetOf(authMethod, form));
      match reply {
        case Ok(text) =>
          otpState := Verify;
          message := OrElse(text, "Access Protocol Dispatched.");
        case Failed(_) =>
          message := "Failed to initialize security protocol.";
      }
      isLoading := false;
    }

    /** `verifyOtp`: a verified code and a successful login take the
        record's name (or "Agent") and email and move to step 2; either
        failing only sets "Invalid code.". */
    method VerifyOtp(reply: Outcome<Verified>, loginOk: bool) returns (sent: VerifyPayload)
      requires Valid()
      modifies this
      ensures Valid()
      ensures sent == VerifyPayload(old(form).otp, TargetOf(authMethod, old(form)))
      ensures reply.Ok? && loginOk ==>
        && currentStep == 2 && message == old(message)
        && form == old(form).(name := OrElse(reply.value.name, "Agent"), email := reply.value.email)
      ensures !(reply.Ok? && loginOk) ==>
        currentStep == old(currentStep) && form == old(form) && message == "Invalid code."
      ensures !isLoading && otpState == old(otpState) && authMethod == old(authMethod) && navigatedTo == old(navigatedTo)
    {
      isLoading := true;
      sent := VerifyPayload(form.otp, TargetOf(authMethod, form));
      if reply.Ok? && loginOk {
        form := form.(name := OrElse(reply.value.name, "Agent"), email := reply.value.email);
        currentStep := 2;
      } else {
        message := "Invalid code.";
      }
      isLoading := false;
    }

    /** `handleGoogleSuccess`: the Google profile's name and email fill the
        form, then a successful login moves to step 2; a failed profile
        request or login sets "Authentication failed.". */
    method GoogleSuccess(profile: Outcome<(string, string)>, loginOk: bool)
      requires Valid()
      modifies this
      ensures Valid()
      ensures profile.Ok? ==> form == old(form).(name := profile.value.0, email := profile.value.1)
      ensures profile.Failed? ==> form == old(form)
      ensures profile.Ok? && loginOk ==> currentStep == 2 && message == old(message)
      ensures !(profile.Ok? && loginOk) ==> currentStep == old(currentStep) && message == "Authentication failed."
      ensures !isLoading && otpState == old(otpState) && authMethod == old(authMethod) && navigatedTo == old(navigatedTo)
    {
      isLoading := true;
      if profile.Ok? {
        form := form.(name := profile.value.0, email := profile.value.1);
        if loginOk {
          currentStep := 2;
        } else {
          message := "Authentication failed.";
        }
      } else {
        message := "Authentication failed.";
      }
      isLoading := false;
    }

    /** `handleNext`, reachable only through a continue button that the
        step's validator enables: the next step below step 4, the final
        submit at step 4.  `sessionEmail` is the signed-in user's email
        field. */
    method HandleNext(sessionEmail: Field, onboard: Outcome<Row>) returns (sent: Option<Onboard>)
      requires Valid() && StepValid(currentStep, form)
      modifies this
      ensures Valid()
      ensures old(currentStep) < 4 ==>
        && currentStep == old(currentStep) + 1 && sent.None?
        && navigatedTo == old(navigatedTo) && isLoading == old(isLoading)
      ensures old(currentStep) == 4 ==>
        && currentStep == 4 && !isLoading
        && sent == Some(Onboard(OrElse(sessionEmail, form.email), form.name, form.phone, form.countryCode, form.reason))
        && navigatedTo == (if onboard.Ok? then Some("/verification") else old(navigatedTo))
      ensures form == old(form) && message == old(message) && otpState == old(otpState) && authMethod == old(authMethod)
    {
      if currentStep < 4 {
        currentStep := currentStep + 1;
        return None;
      }
      sent := FinalSubmit(sessionEmail, onboard);
    }

    /** `handleFinalSubmit`: the onboarding request, then `refreshUser`
        (which catches its own failures) and the move to the clearance
        page. */
    method FinalSubmit(sessionEmail: Field, onboard: Outcome<Row>) returns (sent: Option<Onboard>)
      modifies this
      ensures sent == Some(Onboard(OrElse(sessionEmail, form.email), form.name, form.phone, form.countryCode, form.reason))
      ensures navigatedTo == (if onboard.Ok? then Some("/verification") else old(navigatedTo))
      ensures !isLoading && currentStep == old(currentStep) && form == old(form) && message == old(message)
      ensures otpState == old(otpState) && authMethod == old(authMethod)
    {
      isLoading := true;
      sent := Some(Onboard(OrElse(sessionEmail, form.email), form.name, form.phone, form.countryCode, form.reason));
      if onboard.Ok? {
        navigatedTo := Some("/verification");
      }
      isLoading := false;
    }

    /** The inputs' `onChange` handlers: the edited form replaces the old
        one and nothing else changes. */
    method SetForm(f: Form)
      requires Valid()
      modifies this
      ensures Valid() && form == f
      ensures currentStep == old(currentStep) && authMethod == old(authMethod) && otpState == old(otpState)
      ensures message == old(message) && isLoading == old(isLoading) && navigatedTo == old(navigatedTo)
    {
      form := f;
    }

    /** "Change credentials", shown only while the code is awaited: back to
        entering the email or phone, with the form and message kept. */
    method ChangeCredentials()
      requires Valid() && otpState == Verify
      modifies this
      ensures Valid()
      ensures otpState == Input
      ensures currentStep == old(currentStep) && authMethod == old(authMethod) && form == old(form)
      ensures message == old(message) && isLoading == old(isLoading) && navigatedTo == old(navigatedTo)
    {
      otpState := Input;
    }

    /** `handleBack`: the previous step above step 1, the home page at
        step 1. */
    method HandleBack()
      requires Valid()
      modifies this
      ensures Valid()
      ensures old(currentStep) > 1 ==> currentStep == old(currentStep) - 1 && navigatedTo == old(navigatedTo)
      ensures old(currentStep) == 1 ==> currentStep == 1 && navigatedTo == Some("/")
      ensures form == old(form) && message == old(message) && otpState == old(otpState)
      ensures authMethod == old(authMethod) && isLoading == old(isLoading)
    {
      if currentStep > 1 {
        currentStep := currentStep - 1;
      } else {
        navigatedTo := Some("/");
      }
    }
  }
}
