/** What a registration submission does: the image-size gate of the upload handler,
    and the create-account → update-profile → save-profile chain that follows a
    successful validation. Calls into the identity provider and the backend are
    recorded as effects; their outcomes are inputs. */
module SignUp {
  import opened Common
  import opened Validation

  // ---------------------------------------------------------------------------
  // Image upload
  // ---------------------------------------------------------------------------

  /** Largest accepted image, in bytes: 10 MiB. */
  const MaxImageBytes: nat := 10 * 1024 * 1024

  /** The chosen file: its size, and the data URL the browser's reader yields for it. */
  datatype ImageFile = ImageFile(size: nat, dataUrl: string)

  /** The page state the upload handler touches, and the dialog it showed, if any. */
  datatype UploadStep = UploadStep(imagePreview: Option<string>, isSubmitting: bool, dialog: Option<Popup>)

  /** The size error. Its text names 5MB although the bound is 10 MiB. */
  const SizeErrorDialog := DialogBox("Error!", "Image size is too large. Please upload an image smaller than 5MB.")

  predicate ImageTooLarge(size: nat) { size > MaxImageBytes }

  /** The upload handler: no file leaves everything as it was; an oversized file is
      rejected with an error and clears the submitting flag; any other file becomes the
      preview. */
  function UploadImage(file: Option<ImageFile>, preview: Option<string>, submitting: bool): (r: UploadStep)
    ensures file.None? ==> r == UploadStep(preview, submitting, None)
    ensures file.Some? ==> (r.dialog.Some? <==> file.value.size > 10485760)
    ensures r.dialog.Some? ==> r.dialog.value == SizeErrorDialog && r.imagePreview == preview && !r.isSubmitting
    ensures file.Some? && r.dialog.None? ==>
      r.imagePreview == Some(file.value.dataUrl) && r.isSubmitting == submitting
  {
    match file
    case None => UploadStep(preview, submitting, None)
    case Some(f) =>
      if ImageTooLarge(f.size) then UploadStep(preview, false, Some(SizeErrorDialog))
      else UploadStep(Some(f.dataUrl), submitting, None)
  }

  /** The bound is inclusive: a file of exactly 10 MiB is accepted, one byte more is not. */
  lemma TenMiBBoundary(url: string, preview: Option<string>, submitting: bool)
    ensures UploadImage(Some(ImageFile(10485760, url)), preview, submitting).dialog.None?
    ensures UploadImage(Some(ImageFile(10485761, url)), preview, submitting).dialog.Some?
  {
  }

  // ---------------------------------------------------------------------------
  // Submission chain
  // ---------------------------------------------------------------------------

  /** The profile record posted to the backend (`POST /user/saveInfo`). */
  datatype UserData = UserData(
    firebaseUid: string,
    fullname: string,
    username: string,
    email: string,
    phone: string,
    division: string,
    zilla: string,
    upzilla: string,
    village: string,
    image: Option<string>,
    password: string,
    confirmPassword: string)

  /** Outcome of creating the identity-provider account. */
  datatype CreateResult = Created(uid: string) | CreateRejected(code: string, message: string)
  /** Outcome of setting the account's display name. */
  datatype UpdateResult = ProfileUpdated | ProfileRejected
  /** Outcome of the backend save: the parsed reply, or a request/parse error. */
  datatype SaveResult = SaveReplied(success: bool, message: string) | SaveError

  /** The messages a submission can show the user. */
  datatype Notice =
    | CheckFailed(verdict: Verdict)       // the alert for a failed client-side check; `Respond`
                                          // builds it only for a verdict other than Pass
    | AlreadyRegistered                   // account creation refused: email in use
    | CreateError(message: string)        // account creation refused for another reason
    | Registered                          // the backend saved the profile
    | RegistrationFailed(message: string) // the backend refused the profile
    | SaveFailed                          // the save request or its reply failed

  /** How a notice is shown: a browser alert, or a dialog with a title. */
  datatype Popup = AlertBox(text: string) | DialogBox(title: string, text: string)

  /** The exact text of each notice. The client-side checks and the generic creation
      error use the browser's alert, every other notice a titled dialog; a refusal from
      the backend is shown with the backend's own message. `CheckFailed(Pass)` is never
      shown and renders as an empty alert only to keep the function total. */
  function Render(n: Notice): (r: Popup)
    ensures r.AlertBox? <==> n.CheckFailed? || n.CreateError?
    ensures n.RegistrationFailed? ==> r.DialogBox? && r.text == n.message
    ensures n.CreateError? ==> |r.text| > |n.message| && r.text[|r.text| - |n.message|..] == n.message
  {
    match n
    case CheckFailed(v) =>
      AlertBox(match v
        case Mismatch => "Password doesn't match"
        case Missing => "All fields are required"
        case BadEmail => "Invalid email address"
        case WeakPassword =>
          "Password must be at least 8 characters long and contain at least one uppercase letter, one lowercase letter, one digit, and one special character."
        case Pass => "")
    case AlreadyRegistered => DialogBox("Registration Failed", "Email is already registered. Try logging in.")
    case CreateError(message) => AlertBox("An error occurred: " + message)
    case Registered =>
      DialogBox("User Registered Successfully", "Email Verification link has been sent to your email address.")
    case RegistrationFailed(message) => DialogBox("Registration Failed", message)
    case SaveFailed => DialogBox("Error", "Something went wrong while saving your data.")
  }

  /** Observable effects, in the order they happen. */
  datatype Effect =
    | SetSubmitting(on: bool)
    | Show(notice: Notice)
    | CreateUser(email: string, password: string)
    | UpdateProfile(displayName: string)
    | SaveInfo(body: UserData)
    | SignOut
    | GoToConfirmation    // navigation to the "/confirmation" page

  /** Effects that reach the identity provider or the backend. */
  predicate IsExternalCall(e: Effect) {
    e.CreateUser? || e.UpdateProfile? || e.SaveInfo? || e.SignOut?
  }

  const EmailInUse := "auth/email-already-in-use"

  /** The form a profile record was built from (the record without its identifier). */
  function FormOf(d: UserData): SignUpForm {
    SignUpForm(d.fullname, d.username, d.email, d.password, d.confirmPassword, d.phone,
               d.division, d.zilla, d.upzilla, d.village, d.image)
  }

  /** The profile payload: the form's fields and the new account's identifier. Nothing
      of the form is lost: the form can be read back from the payload. */
  function Payload(uid: string, f: SignUpForm): (d: UserData)
    ensures d.firebaseUid == uid && FormOf(d) == f
  {
    UserData(uid, f.fullname, f.username, f.email, f.phone, f.division, f.zilla,
             f.upzilla, f.village, f.image, f.password, f.confirmPassword)
  }

  /** The value of the submitting flag after `trace`, starting from `init`. */
  function SubmittingAfter(trace: seq<Effect>, init: bool): bool {
    if |trace| == 0 then init
    else SubmittingAfter(trace[1..], if trace[0].SetSubmitting? then trace[0].on else init)
  }

  /** The external calls of `trace`, in order. */
  function ExternalCalls(trace: seq<Effect>): seq<Effect> {
    if |trace| == 0 then []
    else (if IsExternalCall(trace[0]) then [trace[0]] else []) + ExternalCalls(trace[1..])
  }

  /** The notices `trace` shows, in order. */
  function Shown(trace: seq<Effect>): seq<Notice> {
    if |trace| == 0 then []
    else (if trace[0].Show? then [trace[0].notice] else []) + Shown(trace[1..])
  }

  lemma {:induction false} SubmittingAfterAppend(a: seq<Effect>, b: seq<Effect>, init: bool)
    ensures SubmittingAfter(a + b, init) == SubmittingAfter(b, SubmittingAfter(a, init))
  {
    if |a| > 0 {
      assert (a + b)[1..] == a[1..] + b;
      SubmittingAfterAppend(a[1..], b, if a[0].SetSubmitting? then a[0].on else init);
    } else {
      assert a + b == b;
    }
  }

  lemma {:induction false} ExternalCallsAppend(a: seq<Effect>, b: seq<Effect>)
    ensures ExternalCalls(a + b) == ExternalCalls(a) + ExternalCalls(b)
  {
    if |a| > 0 {
      assert (a + b)[1..] == a[1..] + b;
      ExternalCallsAppend(a[1..], b);
    } else {
      assert a + b == b;
    }
  }

  /** Every external call in a trace is among its `ExternalCalls`. */
  lemma {:induction false} ExternalCallsComplete(trace: seq<Effect>, e: Effect)
    requires e in trace && IsExternalCall(e)
    ensures e in ExternalCalls(trace)
  {
    if trace[0] != e {
      assert e in trace[1..];
      ExternalCallsComplete(trace[1..], e);
    }
  }

  /** Every entry of `ExternalCalls` comes from the trace. */
  lemma {:induction false} ExternalCallsSound(trace: seq<Effect>, e: Effect)
    requires e in ExternalCalls(trace)
    ensures e in trace && IsExternalCall(e)
  {
    var head := if IsExternalCall(trace[0]) then [trace[0]] else [];
    if e !in head {
      assert e in ExternalCalls(trace[1..]);
      ExternalCallsSound(trace[1..], e);
    }
  }

  /** A trace without external calls contributes none. */
  lemma {:induction false} QuietCalls(a: seq<Effect>)
    requires forall i :: 0 <= i < |a| ==> !IsExternalCall(a[i])
    ensures ExternalCalls(a) == []
  {
    if |a| > 0 {
      QuietCalls(a[1..]);
    }
  }

  /** The flag after `[e] + rest`. */
  lemma SubmittingAfterCons(e: Effect, rest: seq<Effect>, init: bool)
    ensures SubmittingAfter([e] + rest, init) == SubmittingAfter(rest, if e.SetSubmitting? then e.on else init)
  {
    assert ([e] + rest)[1..] == rest;
  }

  /** The calls of `[e] + rest`. */
  lemma ExternalCallsCons(e: Effect, rest: seq<Effect>)
    ensures ExternalCalls([e] + rest) == (if IsExternalCall(e) then [e] else []) + ExternalCalls(rest)
  {
    assert ([e] + rest)[1..] == rest;
  }

  lemma {:induction false} ShownAppend(a: seq<Effect>, b: seq<Effect>)
    ensures Shown(a + b) == Shown(a) + Shown(b)
  {
    if |a| > 0 {
      assert (a + b)[1..] == a[1..] + b;
      ShownAppend(a[1..], b);
    } else {
      assert a + b == b;
    }
  }

  /** The notices of `[e] + rest`. */
  lemma ShownCons(e: Effect, rest: seq<Effect>)
    ensures Shown([e] + rest) == (if e.Show? then [e.notice] else []) + Shown(rest)
  {
    assert ([e] + rest)[1..] == rest;
  }

  /** Every notice a trace shows is among its `Shown`. */
  lemma {:induction false} ShownComplete(trace: seq<Effect>, n: Notice)
    requires Show(n) in trace
    ensures n in Shown(trace)
  {
    if trace[0] != Show(n) {
      assert Show(n) in trace[1..];
      ShownComplete(trace[1..], n);
    }
  }

  /** Every entry of `Shown` is shown by the trace. */
  lemma {:induction false} ShownSound(trace: seq<Effect>, n: Notice)
    requires n in Shown(trace)
    ensures Show(n) in trace
  {
    var head := if trace[0].Show? then [trace[0].notice] else [];
    if n !in head {
      assert n in Shown(trace[1..]);
      ShownSound(trace[1..], n);
    }
  }

  /** The full chain of external calls a successful registration makes. */
  function FullChain(f: SignUpForm, uid: string): seq<Effect> {
    [CreateUser(f.email, f.password), UpdateProfile(f.username), SaveInfo(Payload(uid, f)), SignOut]
  }

  /** How many calls of the chain a validated submission makes: account creation
      always, and each further call only once the previous one succeeded. */
  function ChainSteps(create: CreateResult, update: UpdateResult, save: SaveResult): nat {
    if create.CreateRejected? then 1
    else if update == ProfileRejected then 2
    else if !(save.SaveReplied? && save.success) then 3
    else 4
  }

  /** How many calls of the chain a submission with verdict `v` makes: none unless
      every check passed. */
  function StepsReached(v: Verdict, create: CreateResult, update: UpdateResult, save: SaveResult): nat {
    if v != Pass then 0 else ChainSteps(create, update, save)
  }

  /** The identifier the chain's payload carries (none exists when creation failed). */
  function UidOf(create: CreateResult): string {
    if create.Created? then create.uid else ""
  }

  /** A notice followed by lowering the flag: how every failure, and the final step of
      a success, ends. */
  function Conclude(n: Notice): (r: seq<Effect>)
    ensures !SubmittingAfter(r, true) && !SubmittingAfter(r, false)
    ensures ExternalCalls(r) == []
  {
    var r := [Show(n), SetSubmitting(false)];
    assert r == [Show(n)] + [SetSubmitting(false)];
    SubmittingAfterCons(Show(n), [SetSubmitting(false)], true);
    SubmittingAfterCons(Show(n), [SetSubmitting(false)], false);
    QuietCalls(r);
    r
  }

  /** Effects after the backend save returned: on success the dialog, then the
      session is closed and the confirmation page is shown. */
  function AfterSave(save: SaveResult): (r: seq<Effect>)
    ensures !SubmittingAfter(r, true) && !SubmittingAfter(r, false)
    ensures ExternalCalls(r) == if save.SaveReplied? && save.success then [SignOut] else []
  {
    match save
    case SaveReplied(ok, message) =>
      if ok then
        var done := Conclude(Registered);
        var tail := [SignOut, GoToConfirmation];
        assert tail == [SignOut] + [GoToConfirmation];
        SubmittingAfterAppend(done, tail, true);
        SubmittingAfterAppend(done, tail, false);
        SubmittingAfterCons(SignOut, [GoToConfirmation], false);
        ExternalCallsAppend(done, tail);
        ExternalCallsCons(SignOut, [GoToConfirmation]);
        QuietCalls([GoToConfirmation]);
        done + tail
      else Conclude(RegistrationFailed(message))
    case SaveError => Conclude(SaveFailed)
  }

  /** What the user sees after the save: the dialog for the outcome comes first and is
      the only notice shown; the confirmation page follows exactly on success, as the
      last step. */
  lemma AfterSaveOutcome(save: SaveResult)
    ensures var r := AfterSave(save);
      && |r| > 0
      && (forall i :: 0 < i < |r| ==> !r[i].Show?)
      && (save.SaveReplied? && save.success ==> r[0] == Show(Registered))
      && (save.SaveReplied? && !save.success ==> r[0] == Show(RegistrationFailed(save.message)))
      && (save.SaveError? ==> r[0] == Show(SaveFailed))
      && (GoToConfirmation in r <==> save.SaveReplied? && save.success)
      && (GoToConfirmation in r ==> r[|r| - 1] == GoToConfirmation)
  {
    var r := AfterSave(save);
    if save.SaveReplied? && save.success {
      assert r == [Show(Registered), SetSubmitting(false), SignOut, GoToConfirmation];
    } else if save.SaveReplied? {
      assert r == [Show(RegistrationFailed(save.message)), SetSubmitting(false)];
    } else {
      assert r == [Show(SaveFailed), SetSubmitting(false)];
    }
  }

  /** The notice for a rejected account creation. */
  function CreateFailureNotice(code: string, message: string): (n: Notice)
    ensures n == AlreadyRegistered <==> code == EmailInUse
  {
    if code == EmailInUse then AlreadyRegistered else CreateError(message)
  }

  /** Effects after the display-name update settled, for the account `uid`. */
  function AfterUpdate(f: SignUpForm, uid: string, update: UpdateResult, save: SaveResult): (r: seq<Effect>)
    ensures !SubmittingAfter(r, true) && !SubmittingAfter(r, false)
    ensures ExternalCalls(r) ==
      if update == ProfileRejected then []
      else [SaveInfo(Payload(uid, f))] + (if save.SaveReplied? && save.success then [SignOut] else [])
    ensures update == ProfileRejected ==> Shown(r) == []
  {
    match update
    case ProfileRejected =>
      var r := [SetSubmitting(false)];
      ShownCons(SetSubmitting(false), []);
      SubmittingAfterCons(SetSubmitting(false), [], true);
      SubmittingAfterCons(SetSubmitting(false), [], false);
      assert r == [SetSubmitting(false)] + [];
      QuietCalls(r);
      r
    case ProfileUpdated =>
      var tail := AfterSave(save);
      SubmittingAfterCons(SaveInfo(Payload(uid, f)), tail, true);
      SubmittingAfterCons(SaveInfo(Payload(uid, f)), tail, false);
      ExternalCallsCons(SaveInfo(Payload(uid, f)), tail);
      [SaveInfo(Payload(uid, f))] + tail
  }

  /** Effects after the account creation settled. */
  function AfterCreate(f: SignUpForm, create: CreateResult, update: UpdateResult, save: SaveResult): (r: seq<Effect>)
    ensures !SubmittingAfter(r, true) && !SubmittingAfter(r, false)
    ensures create.CreateRejected? ==> r == Conclude(CreateFailureNotice(create.code, create.message))
    ensures create.CreateRejected? ==> ExternalCalls(r) == []
    ensures create.Created? ==>
      ExternalCalls(r) == [UpdateProfile(f.username)] + ExternalCalls(AfterUpdate(f, create.uid, update, save))
  {
    match create
    case CreateRejected(code, message) => Conclude(CreateFailureNotice(code, message))
    case Created(uid) =>
      var tail := AfterUpdate(f, uid, update, save);
      SubmittingAfterCons(UpdateProfile(f.username), tail, true);
      SubmittingAfterCons(UpdateProfile(f.username), tail, false);
      ExternalCallsCons(UpdateProfile(f.username), tail);
      [UpdateProfile(f.username)] + tail
  }

  /** The effects of a submission of `f` whose checks returned `v`. */
  function Respond(f: SignUpForm, v: Verdict, create: CreateResult, update: UpdateResult, save: SaveResult): (trace: seq<Effect>)
    ensures |trace| > 0 && trace[0] == SetSubmitting(true)
    ensures !SubmittingAfter(trace, false)
  {
    if v != Pass then
      SubmittingAfterCons(SetSubmitting(true), Conclude(CheckFailed(v)), false);
      [SetSubmitting(true)] + Conclude(CheckFailed(v))
    else
      var rest := [CreateUser(f.email, f.password)] + AfterCreate(f, create, update, save);
      SubmittingAfterCons(CreateUser(f.email, f.password), AfterCreate(f, create, update, save), true);
      SubmittingAfterCons(SetSubmitting(true), rest, false);
      [SetSubmitting(true)] + rest
  }

  /** One run of the submit handler on the form's values, given how each external call
      turns out: the flag is raised first and is down again once everything has
      settled. Whether the browser lets the handler run at all is outside the model. */
  function Submit(f: SignUpForm, create: CreateResult, update: UpdateResult, save: SaveResult): (trace: seq<Effect>)
    ensures |trace| > 0 && trace[0] == SetSubmitting(true)
    ensures !SubmittingAfter(trace, false)
  {
    Respond(f, Validate(f), create, update, save)
  }

  /** After the display-name update the calls continue along the chain. */
  lemma AfterUpdateFollowsChain(f: SignUpForm, uid: string, update: UpdateResult, save: SaveResult)
    ensures ExternalCalls(AfterUpdate(f, uid, update, save))
         == FullChain(f, uid)[2..ChainSteps(Created(uid), update, save)]
  {
    var chain := FullChain(f, uid);
    var n := ChainSteps(Created(uid), update, save);
    var calls := ExternalCalls(AfterUpdate(f, uid, update, save));
    assert |chain| == 4 && chain[2] == SaveInfo(Payload(uid, f)) && chain[3] == SignOut;
    ChainTail(chain);
    if update == ProfileRejected {
      assert n == 2 && calls == [];
    } else if !(save.SaveReplied? && save.success) {
      assert n == 3 && calls == [chain[2]];
    } else {
      assert n == 4 && calls == [chain[2]] + [chain[3]];
    }
  }

  /** The tails of a four-call chain after its first two calls. */
  lemma ChainTail(chain: seq<Effect>)
    requires |chain| == 4
    ensures chain[2..2] == [] && chain[2..3] == [chain[2]] && chain[2..4] == [chain[2]] + [chain[3]]
  {
  }

  /** After account creation the calls continue along the chain. */
  lemma AfterCreateFollowsChain(f: SignUpForm, create: CreateResult, update: UpdateResult, save: SaveResult)
    ensures ExternalCalls(AfterCreate(f, create, update, save))
         == FullChain(f, UidOf(create))[1..ChainSteps(create, update, save)]
  {
    var chain := FullChain(f, UidOf(create));
    var n := ChainSteps(create, update, save);
    match create
    case CreateRejected(_, _) =>
      assert n == 1;
      assert chain[1..n] == [];
    case Created(uid) =>
      assert 2 <= n <= |chain| && chain[1] == UpdateProfile(f.username);
      var rest := AfterUpdate(f, uid, update, save);
      assert ExternalCalls(AfterCreate(f, create, update, save)) == [chain[1]] + ExternalCalls(rest);
      AfterUpdateFollowsChain(f, uid, update, save);
      SliceAfterFirst(chain, n);
  }

  /** Dropping the first element of a prefix of length at least two. */
  lemma SliceAfterFirst(chain: seq<Effect>, n: nat)
    requires 2 <= n <= |chain|
    ensures chain[1..n] == [chain[1]] + chain[2..n]
  {
  }

  lemma RespondFollowsChain(f: SignUpForm, v: Verdict, create: CreateResult, update: UpdateResult, save: SaveResult)
    ensures ExternalCalls(Respond(f, v, create, update, save))
         == FullChain(f, UidOf(create))[..StepsReached(v, create, update, save)]
  {
    var create1 := CreateUser(f.email, f.password);
    var rest := if v != Pass then Conclude(CheckFailed(v))
                else [create1] + AfterCreate(f, create, update, save);
    assert Respond(f, v, create, update, save) == [SetSubmitting(true)] + rest;
    ExternalCallsCons(SetSubmitting(true), rest);
    if v == Pass {
      var chain := FullChain(f, UidOf(create));
      var n := ChainSteps(create, update, save);
      ExternalCallsCons(create1, AfterCreate(f, create, update, save));
      AfterCreateFollowsChain(f, create, update, save);
      assert chain[..n] == [chain[0]] + chain[1..n];
    }
  }

  /** The external calls of a submission are the first steps of the chain, each made
      only once the previous one succeeded: none for an invalid form, then account
      creation, display-name update, profile save and sign-out. */
  lemma SubmitFollowsChain(f: SignUpForm, create: CreateResult, update: UpdateResult, save: SaveResult)
    ensures ExternalCalls(Submit(f, create, update, save))
         == FullChain(f, UidOf(create))[..StepsReached(Validate(f), create, update, save)]
  {
    RespondFollowsChain(f, Validate(f), create, update, save);
  }

  /** A form failing any check makes no call to the identity provider or the backend,
      and the user is told which check failed. */
  lemma InvalidFormMakesNoCall(f: SignUpForm, create: CreateResult, update: UpdateResult, save: SaveResult)
    requires Validate(f) != Pass
    ensures forall e :: e in Submit(f, create, update, save) ==> !IsExternalCall(e)
    ensures Show(CheckFailed(Validate(f))) in Submit(f, create, update, save)
    ensures forall e :: e in Submit(f, create, update, save) && e.Show? ==> e == Show(CheckFailed(Validate(f)))
  {
    var trace := Submit(f, create, update, save);
    SubmitFollowsChain(f, create, update, save);
    assert ExternalCalls(trace) == [];
    forall e | e in trace ensures !IsExternalCall(e) {
      if IsExternalCall(e) {
        ExternalCallsComplete(trace, e);
      }
    }
    assert trace[1] == Show(CheckFailed(Validate(f)));
    SubmitNotices(f, create, update, save);
    forall e | e in trace && e.Show? ensures e == Show(CheckFailed(Validate(f))) {
      ShownComplete(trace, e.notice);
    }
  }

  /** The account is created exactly when the form passed every check. */
  lemma CreateIffValid(f: SignUpForm, create: CreateResult, update: UpdateResult, save: SaveResult)
    ensures CreateUser(f.email, f.password) in Submit(f, create, update, save) <==> Validate(f) == Pass
  {
    var trace := Submit(f, create, update, save);
    SubmitFollowsChain(f, create, update, save);
    if Validate(f) == Pass {
      assert trace[1] == CreateUser(f.email, f.password);
    } else if CreateUser(f.email, f.password) in trace {
      ExternalCallsComplete(trace, CreateUser(f.email, f.password));
      assert false;
    }
  }

  /** Within the chain, the save comes third and carries the payload. */
  lemma SaveInChainPrefix(f: SignUpForm, uid: string, n: nat, d: UserData)
    requires n <= 4 && SaveInfo(d) in FullChain(f, uid)[..n]
    ensures n > 2 && d == Payload(uid, f)
  {
    var chain := FullChain(f, uid);
    var k :| 0 <= k < n && chain[..n][k] == SaveInfo(d);
    assert chain[k] == SaveInfo(d);
    assert chain[0].CreateUser? && chain[1].UpdateProfile? && chain[3].SignOut?;
  }

  /** A trace whose calls are a prefix of the chain saves only the chain's payload,
      and only when the prefix reaches the save. */
  lemma SaveInTrace(trace: seq<Effect>, f: SignUpForm, uid: string, n: nat, d: UserData)
    requires n <= 4 && ExternalCalls(trace) == FullChain(f, uid)[..n]
    requires SaveInfo(d) in trace
    ensures n > 2 && d == Payload(uid, f)
  {
    ExternalCallsComplete(trace, SaveInfo(d));
    SaveInChainPrefix(f, uid, n, d);
  }

  lemma RespondSaveOnlyAfterBothSteps(f: SignUpForm, v: Verdict, create: CreateResult, update: UpdateResult, save: SaveResult, d: UserData)
    requires SaveInfo(d) in Respond(f, v, create, update, save)
    ensures v == Pass && create.Created? && update == ProfileUpdated
    ensures d == Payload(create.uid, f)
  {
    RespondFollowsChain(f, v, create, update, save);
    SaveInTrace(Respond(f, v, create, update, save), f, UidOf(create), StepsReached(v, create, update, save), d);
  }

  /** The profile is saved only after the account was created and renamed, and it
      carries the new account's identifier. */
  lemma SaveOnlyAfterBothSteps(f: SignUpForm, create: CreateResult, update: UpdateResult, save: SaveResult, d: UserData)
    requires SaveInfo(d) in Submit(f, create, update, save)
    ensures Validate(f) == Pass && create.Created? && update == ProfileUpdated
    ensures d == Payload(create.uid, f) && d.firebaseUid == create.uid
  {
    RespondSaveOnlyAfterBothSteps(f, Validate(f), create, update, save, d);
  }

  /** A form that passes and whose account and display name are set up is saved. */
  lemma SaveReachedWhenBothSucceed(f: SignUpForm, uid: string, save: SaveResult)
    requires Validate(f) == Pass
    ensures SaveInfo(Payload(uid, f)) in Submit(f, Created(uid), ProfileUpdated, save)
  {
    SubmitFollowsChain(f, Created(uid), ProfileUpdated, save);
    var chain := FullChain(f, uid);
    var n := StepsReached(Validate(f), Created(uid), ProfileUpdated, save);
    assert chain[..n][2] == SaveInfo(Payload(uid, f));
    ExternalCallsSound(Submit(f, Created(uid), ProfileUpdated, save), SaveInfo(Payload(uid, f)));
  }

  /** A rejected account creation shows the "already registered" dialog exactly for
      the email-in-use error code, and the generic alert otherwise. */
  lemma CreateErrorMapping(f: SignUpForm, code: string, message: string, update: UpdateResult, save: SaveResult)
    requires Validate(f) == Pass
    ensures Show(AlreadyRegistered) in Submit(f, CreateRejected(code, message), update, save) <==> code == EmailInUse
    ensures code != EmailInUse ==> Show(CreateError(message)) in Submit(f, CreateRejected(code, message), update, save)
  {
    var notice := CreateFailureNotice(code, message);
    RespondPassed(f, CreateRejected(code, message), update, save);
    assert AfterCreate(f, CreateRejected(code, message), update, save) == [Show(notice), SetSubmitting(false)];
  }

  /** The effects after account creation, when the account is renamed: the save, then
      whatever its outcome brings. */
  lemma AfterRenamed(f: SignUpForm, uid: string, save: SaveResult)
    ensures AfterCreate(f, Created(uid), ProfileUpdated, save)
         == [UpdateProfile(f.username), SaveInfo(Payload(uid, f))] + AfterSave(save)
  {
  }

  /** The effects of a passing form: the flag, account creation, and what follows. */
  lemma RespondPassed(f: SignUpForm, create: CreateResult, update: UpdateResult, save: SaveResult)
    ensures Respond(f, Pass, create, update, save)
         == [SetSubmitting(true)] + ([CreateUser(f.email, f.password)] + AfterCreate(f, create, update, save))
  {
  }

  /** The effects of a failing form: the flag, the check's alert, the flag lowered. */
  lemma RespondFailed(f: SignUpForm, v: Verdict, create: CreateResult, update: UpdateResult, save: SaveResult)
    requires v != Pass
    ensures Respond(f, v, create, update, save) == [SetSubmitting(true)] + Conclude(CheckFailed(v))
  {
  }

  lemma AfterCreateNavigates(f: SignUpForm, create: CreateResult, update: UpdateResult, save: SaveResult)
    ensures GoToConfirmation in AfterCreate(f, create, update, save) <==>
      create.Created? && update == ProfileUpdated && save.SaveReplied? && save.success
  {
    match create
    case CreateRejected(code, message) =>
      assert AfterCreate(f, create, update, save) == Conclude(CreateFailureNotice(code, message));
    case Created(uid) =>
      if update == ProfileRejected {
        assert AfterCreate(f, create, update, save) == [UpdateProfile(f.username), SetSubmitting(false)];
      } else {
        AfterRenamed(f, uid, save);
        AfterSaveOutcome(save);
      }
  }

  lemma RespondNavigates(f: SignUpForm, v: Verdict, create: CreateResult, update: UpdateResult, save: SaveResult)
    ensures GoToConfirmation in Respond(f, v, create, update, save) <==>
      v == Pass && create.Created? && update == ProfileUpdated && save.SaveReplied? && save.success
  {
    if v != Pass {
      RespondFailed(f, v, create, update, save);
      assert Conclude(CheckFailed(v)) == [Show(CheckFailed(v)), SetSubmitting(false)];
    } else {
      RespondPassed(f, create, update, save);
      AfterCreateNavigates(f, create, update, save);
    }
  }

  /** The confirmation page is reached exactly when every check passed, the account
      was created and renamed, and the backend replied with success. */
  lemma NavigatesIffRegistered(f: SignUpForm, create: CreateResult, update: UpdateResult, save: SaveResult)
    ensures GoToConfirmation in Submit(f, create, update, save) <==>
      Validate(f) == Pass && create.Created? && update == ProfileUpdated
      && save.SaveReplied? && save.success
  {
    RespondNavigates(f, Validate(f), create, update, save);
  }

  /** A notice appears in `AfterSave(save)` only as its first effect. */
  lemma SaveNoticeFirst(save: SaveResult, n: Notice)
    ensures |AfterSave(save)| > 0
    ensures Show(n) in AfterSave(save) <==> AfterSave(save)[0] == Show(n)
  {
    AfterSaveOutcome(save);
    var tail := AfterSave(save);
    if Show(n) in tail {
      var i :| 0 <= i < |tail| && tail[i] == Show(n);
      assert i == 0;
    }
  }

  lemma RespondSaveNotice(f: SignUpForm, uid: string, save: SaveResult, n: Notice)
    ensures |AfterSave(save)| > 0
    ensures Show(n) in Respond(f, Pass, Created(uid), ProfileUpdated, save) <==> AfterSave(save)[0] == Show(n)
  {
    var tail := AfterSave(save);
    var rest := AfterCreate(f, Created(uid), ProfileUpdated, save);
    RespondPassed(f, Created(uid), ProfileUpdated, save);
    AfterRenamed(f, uid, save);
    SaveNoticeFirst(save, n);
    assert Show(n) in rest <==> Show(n) in tail;
  }

  /** Once the account exists and is renamed, the dialog shown matches the backend's
      answer: the success dialog exactly when it reports success, its own message when
      it refuses, and the generic error when the request or its reply fails. */
  lemma SaveOutcomeNotice(f: SignUpForm, uid: string, save: SaveResult)
    requires Validate(f) == Pass
    ensures Show(Registered) in Submit(f, Created(uid), ProfileUpdated, save)
        <==> save.SaveReplied? && save.success
    ensures save.SaveReplied? && !save.success ==>
      Show(RegistrationFailed(save.message)) in Submit(f, Created(uid), ProfileUpdated, save)
    ensures save.SaveError? ==> Show(SaveFailed) in Submit(f, Created(uid), ProfileUpdated, save)
  {
    AfterSaveOutcome(save);
    RespondSaveNotice(f, uid, save, Registered);
    if save.SaveReplied? && !save.success {
      RespondSaveNotice(f, uid, save, RegistrationFailed(save.message));
    }
    if save.SaveError? {
      RespondSaveNotice(f, uid, save, SaveFailed);
    }
  }

  /** The notices a submission with verdict `v` shows, by outcome: the failed check's
      alert; the creation error; nothing when the display-name update fails; and after
      the save the success dialog, the backend's refusal, or the generic error. */
  function ExpectedNotices(v: Verdict, create: CreateResult, update: UpdateResult, save: SaveResult): seq<Notice> {
    if v != Pass then [CheckFailed(v)]
    else match create
      case CreateRejected(code, message) => [CreateFailureNotice(code, message)]
      case Created(_) =>
        if update == ProfileRejected then []
        else match save
          case SaveReplied(ok, message) => if ok then [Registered] else [RegistrationFailed(message)]
          case SaveError => [SaveFailed]
  }

  lemma ConcludeShown(n: Notice)
    ensures Shown(Conclude(n)) == [n]
  {
    ShownCons(Show(n), [SetSubmitting(false)]);
    ShownCons(SetSubmitting(false), []);
  }

  lemma AfterSaveShown(save: SaveResult)
    ensures Shown(AfterSave(save)) == ExpectedNotices(Pass, Created(""), ProfileUpdated, save)
  {
    match save
    case SaveReplied(ok, message) =>
      if ok {
        ConcludeShown(Registered);
        ShownAppend(Conclude(Registered), [SignOut, GoToConfirmation]);
        ShownCons(SignOut, [GoToConfirmation]);
        ShownCons(GoToConfirmation, []);
      } else {
        ConcludeShown(RegistrationFailed(message));
      }
    case SaveError =>
      ConcludeShown(SaveFailed);
  }

  lemma AfterCreateShown(f: SignUpForm, create: CreateResult, update: UpdateResult, save: SaveResult)
    ensures Shown(AfterCreate(f, create, update, save)) == ExpectedNotices(Pass, create, update, save)
  {
    match create
    case CreateRejected(code, message) =>
      ConcludeShown(CreateFailureNotice(code, message));
    case Created(uid) =>
      var tail := AfterUpdate(f, uid, update, save);
      ShownCons(UpdateProfile(f.username), tail);
      if update == ProfileRejected {
        ShownCons(SetSubmitting(false), []);
      } else {
        ShownCons(SaveInfo(Payload(uid, f)), AfterSave(save));
        AfterSaveShown(save);
      }
  }

  lemma RespondShown(f: SignUpForm, v: Verdict, create: CreateResult, update: UpdateResult, save: SaveResult)
    ensures Shown(Respond(f, v, create, update, save)) == ExpectedNotices(v, create, update, save)
  {
    if v != Pass {
      RespondFailed(f, v, create, update, save);
      ShownCons(SetSubmitting(true), Conclude(CheckFailed(v)));
      ConcludeShown(CheckFailed(v));
    } else {
      var rest := AfterCreate(f, create, update, save);
      RespondPassed(f, create, update, save);
      ShownCons(SetSubmitting(true), [CreateUser(f.email, f.password)] + rest);
      ShownCons(CreateUser(f.email, f.password), rest);
      AfterCreateShown(f, create, update, save);
    }
  }

  /** The notices of a submission, in order, are exactly those its verdict and the
      outcomes of its calls call for: one alert for a failed check, one notice for a
      refused account, none after a failed display-name update, and one dialog for
      the save's outcome. */
  lemma SubmitNotices(f: SignUpForm, create: CreateResult, update: UpdateResult, save: SaveResult)
    ensures Shown(Submit(f, create, update, save)) == ExpectedNotices(Validate(f), create, update, save)
  {
    RespondShown(f, Validate(f), create, update, save);
  }

  lemma RespondRegistered(f: SignUpForm, v: Verdict, create: CreateResult, update: UpdateResult, save: SaveResult)
    ensures Show(Registered) in Respond(f, v, create, update, save) <==>
      v == Pass && create.Created? && update == ProfileUpdated && save.SaveReplied? && save.success
  {
    var trace := Respond(f, v, create, update, save);
    RespondShown(f, v, create, update, save);
    if Show(Registered) in trace {
      ShownComplete(trace, Registered);
    }
    if Registered in Shown(trace) {
      ShownSound(trace, Registered);
    }
  }

  /** "User Registered Successfully" is shown exactly when every check passed, the
      account was created and renamed, and the backend replied with success. */
  lemma RegisteredIffSaved(f: SignUpForm, create: CreateResult, update: UpdateResult, save: SaveResult)
    ensures Show(Registered) in Submit(f, create, update, save) <==>
      Validate(f) == Pass && create.Created? && update == ProfileUpdated
      && save.SaveReplied? && save.success
  {
    RespondRegistered(f, Validate(f), create, update, save);
  }

  /** A failed display-name update shows nothing, although the account exists and no
      profile is saved. */
  lemma SilentProfileFailure(f: SignUpForm, uid: string, save: SaveResult)
    requires Validate(f) == Pass
    ensures Shown(Submit(f, Created(uid), ProfileRejected, save)) == []
    ensures forall d :: SaveInfo(d) !in Submit(f, Created(uid), ProfileRejected, save)
  {
    SubmitNotices(f, Created(uid), ProfileRejected, save);
    forall d ensures SaveInfo(d) !in Submit(f, Created(uid), ProfileRejected, save) {
      if SaveInfo(d) in Submit(f, Created(uid), ProfileRejected, save) {
        SaveOnlyAfterBothSteps(f, Created(uid), ProfileRejected, save, d);
      }
    }
  }
}
