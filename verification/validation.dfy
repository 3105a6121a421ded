/** The client-side checks `handleSignUp` runs on the registration form before any
    network call. They run in a fixed order and the first failing one decides the
    outcome. */
module Validation {
  import opened Common
  import opened Credentials

  /** The values read from the form when it is submitted. `image` is the preview
      produced by the image upload (`null` until a file was accepted). */
  datatype SignUpForm = SignUpForm(
    fullname: string,
    username: string,
    email: string,
    password: string,
    confirmPassword: string,
    phone: string,
    division: string,
    zilla: string,
    upzilla: string,
    village: string,
    image: Option<string>)

  /** The outcome of the checks, named after the failure that stopped them. */
  datatype Verdict = Mismatch | Missing | BadEmail | WeakPassword | Pass

  /** JavaScript truthiness of a string or of a possibly-null string. */
  predicate Present(s: string) { s != "" }
  predicate PresentImage(image: Option<string>) { image.Some? && image.value != "" }

  /** Every one of the eleven fields is truthy. */
  predicate AllPresent(f: SignUpForm) {
    && Present(f.fullname) && Present(f.username) && Present(f.email)
    && Present(f.password) && Present(f.confirmPassword) && Present(f.phone)
    && Present(f.division) && Present(f.zilla) && Present(f.upzilla)
    && Present(f.village) && PresentImage(f.image)
  }

  /** The ordered chain of checks. A form passes exactly when all four checks hold. */
  function Validate(f: SignUpForm): (v: Verdict)
    ensures v == Pass <==>
      f.password == f.confirmPassword && AllPresent(f)
      && EmailAccepted(f.email) && PasswordAccepted(f.password)
  {
    if f.password != f.confirmPassword then Mismatch
    else if !AllPresent(f) then Missing
    else if !EmailAccepted(f.email) then BadEmail
    else if !PasswordAccepted(f.password) then WeakPassword
    else Pass
  }

  /** The first failing check decides the verdict, read against the two regular
      expressions themselves. */
  lemma ValidationOrder(f: SignUpForm)
    ensures Validate(f) == Mismatch <==> f.password != f.confirmPassword
    ensures Validate(f) == Missing <==> f.password == f.confirmPassword && !AllPresent(f)
    ensures Validate(f) == BadEmail <==>
      f.password == f.confirmPassword && AllPresent(f) && !MatchesEmailPattern(f.email)
    ensures Validate(f) == WeakPassword <==>
      f.password == f.confirmPassword && AllPresent(f) && MatchesEmailPattern(f.email)
      && !MatchesPasswordPattern(f.password)
    ensures Validate(f) == Pass <==>
      f.password == f.confirmPassword && AllPresent(f) && MatchesEmailPattern(f.email)
      && MatchesPasswordPattern(f.password)
  {
    EmailAcceptedIffPattern(f.email);
    PasswordAcceptedIffPattern(f.password);
  }

  /** With matching passwords, a missing field is reported before the email or the
      password strength are looked at. */
  lemma MissingBeforeFormat(f: SignUpForm)
    requires f.password == f.confirmPassword
    requires f.image.None? || f.email == "" || f.village == ""
    ensures Validate(f) == Missing
  {
  }

  /** A password lacking a digit never passes validation. */
  lemma DigitlessPasswordFails(f: SignUpForm)
    requires forall k :: 0 <= k < |f.password| ==> !IsDigit(f.password[k])
    ensures Validate(f) != Pass
  {
    DigitlessPasswordRejected(f.password);
  }
}
