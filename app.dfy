/** The shared page script of the upload and login pages: the file-selection validator,
    the submit button's life cycle, the password-visibility toggle and the login handler.
    Each event is a method of the page; the two `setTimeout` callbacks of the submit
    handler are methods that fire once for each pending timer. */
module App {
  import opened Wrappers
  import Dashboard

  /** The selected file as the File API describes it. */
  datatype FileInfo = FileInfo(name: string, mimeType: string, size: nat)

  const ValidTypes: seq<string> := ["image/jpeg", "image/png"]

  /** 5 MiB */
  const MaxSize: nat := 5 * 1024 * 1024

  datatype Verdict = Accepted | InvalidType | TooLarge

  /** The two guards of `handleFileSelection`, type first. */
  function Validate(f: FileInfo): (v: Verdict)
  {
    if f.mimeType !in ValidTypes then InvalidType
    else if f.size > MaxSize then TooLarge
    else Accepted
  }

  /** A file is accepted exactly when its type is JPEG or PNG (exactly those strings) and
      it is at most 5 MiB; each rejection names the first guard that failed. */
  lemma {:induction false} ValidateCharacterised(f: FileInfo)
    ensures Validate(f) == Accepted <==>
      (f.mimeType == "image/jpeg" || f.mimeType == "image/png") && f.size <= 5242880
    ensures Validate(f) == InvalidType <==> f.mimeType != "image/jpeg" && f.mimeType != "image/png"
    ensures Validate(f) == TooLarge <==>
      (f.mimeType == "image/jpeg" || f.mimeType == "image/png") && f.size > 5242880
  {
  }

  /** The type is checked before the size: a file wrong on both counts gets only the type
      error. */
  lemma {:induction false} TypeCheckedFirst(f: FileInfo)
    requires f.mimeType != "image/jpeg" && f.mimeType != "image/png" && f.size > MaxSize
    ensures Validate(f) == InvalidType
    ensures VerdictAlert(Validate(f)) == Alert("Please upload a valid JPG or PNG image.", Danger)
  {
  }

  /** The size limit is inclusive: exactly 5 MiB passes, one byte more does not. */
  lemma {:induction false} SizeLimitInclusive(name: string)
    ensures Validate(FileInfo(name, "image/png", 5242880)) == Accepted
    ensures Validate(FileInfo(name, "image/jpeg", 5242881)) == TooLarge
    ensures Validate(FileInfo(name, "image/jpg", 10)) == InvalidType
  {
  }

  datatype AlertKind = Danger | Warning | Success

  /** The text and the Bootstrap style of `messageAlert`. */
  datatype Alert = Alert(message: string, kind: AlertKind)

  /** The alert `handleFileSelection` shows for each verdict. */
  function VerdictAlert(v: Verdict): (a: Alert)
    ensures a.kind == Success <==> v == Accepted
  {
    match v
    case InvalidType => Alert("Please upload a valid JPG or PNG image.", Danger)
    case TooLarge => Alert("File size exceeds 5MB limit.", Danger)
    case Accepted => Alert("File selected successfully. Ready to submit!", Success)
  }

  datatype SubmitLabel = SubmitVerification | Processing | Submitted

  /** The new `type` of the password input: `text` for `password`, `password` for anything
      else, a missing attribute (None) included. */
  function ToggledType(current: Option<string>): (r: string)
    ensures r == "password" || r == "text"
    ensures r == "text" <==> current == Some("password")
  {
    if current == Some("password") then "text" else "password"
  }

  /** Toggling twice restores the type exactly when it was `password` or `text`; after
      one toggle it is always one of the two, so from then on the toggle is an involution. */
  lemma {:induction false} ToggleTwiceRestores(current: Option<string>)
    ensures Some(ToggledType(Some(ToggledType(current)))) == current <==>
      current == Some("password") || current == Some("text")
    ensures var once := Some(ToggledType(current));
      Some(ToggledType(Some(ToggledType(once)))) == once
  {
  }

  /** The login response body: `data.token` and `data.message`, each possibly absent. */
  datatype LoginBody = LoginBody(token: Option<string>, message: Option<string>)

  /** How the login request ends: a response whose body parsed as JSON, with
      `response.ok`; or a thrown error (the request failed, or the body was not JSON). */
  datatype LoginOutcome = Answered(ok: bool, body: LoginBody) | Threw

  /** What `localStorage.setItem` stores for a value: its string form, `"undefined"` when
      it is absent. The stored text is empty, and so fails a later `!token` test, exactly
      when the value was the empty string; an absent token is stored as a non-empty text. */
  function StorageText(v: Option<string>): (r: string)
    ensures r == [] <==> v == Some([])
    ensures v.None? ==> r == "undefined"
  {
    if v.None? then "undefined" else v.value
  }

  /** `data.message || 'Login failed'` */
  function LoginErrorText(message: Option<string>): (r: string)
    ensures r != []
    ensures message.Some? && message.value != [] ==> r == message.value
    ensures message.None? || message.value == [] ==> r == "Login failed"
  {
    if message.None? || message.value == [] then "Login failed" else message.value
  }

  class FormPage {
    /** `fileUpload.files` */
    var files: seq<FileInfo>
    var submitDisabled: bool
    var submitLabel: SubmitLabel
    /** The upload label shows this file, or the default prompt when None. */
    var labelFile: Option<FileInfo>
    var alert: Option<Alert>
    /** Submit timeouts (3 s) and reset timeouts (5 s) scheduled and not yet fired. */
    var pendingVerify: nat
    var pendingReset: nat
    /** The password input's `type` attribute. */
    var passwordType: Option<string>
    /** The toggle icon's `fa-eye` and `fa-eye-slash` classes. */
    var eyeIcon: bool
    var eyeSlashIcon: bool
    /** localStorage */
    var storage: map<string, string>
    /** The text of `loginError` once it is shown. */
    var loginError: Option<string>
    /** Where `window.location.href` was sent. */
    var location: Option<string>

    /** The page as its markup and storage have it when the script starts. */
    constructor (stored: map<string, string>, buttonDisabled: bool, inputType: Option<string>,
                 eye: bool, eyeSlash: bool)
      ensures storage == stored && submitDisabled == buttonDisabled && passwordType == inputType
      ensures eyeIcon == eye && eyeSlashIcon == eyeSlash
      ensures files == [] && labelFile == None && alert == None && submitLabel == SubmitVerification
      ensures pendingVerify == 0 && pendingReset == 0 && loginError == None && location == None
    {
      storage, submitDisabled, passwordType := stored, buttonDisabled, inputType;
      eyeIcon, eyeSlashIcon := eye, eyeSlash;
      files, labelFile, alert, submitLabel := [], None, None, SubmitVerification;
      pendingVerify, pendingReset, loginError, location := 0, 0, None, None;
    }

    /** `showAlert` (its 5-second hiding timeout is not modelled). */
    method ShowAlert(a: Alert)
      modifies this`alert
      ensures alert == Some(a)
    {
      alert := Some(a);
    }

    /** `handleFileSelection`: with no file nothing changes; a file failing a guard only
        raises that guard's alert; an accepted file is shown on the label and enables the
        submit button. */
    method HandleFileSelection()
      modifies this`alert, this`labelFile, this`submitDisabled
      ensures files == [] ==> unchanged(this)
      ensures files != [] ==> alert == Some(VerdictAlert(Validate(files[0])))
      ensures files != [] && Validate(files[0]) != Accepted ==>
        submitDisabled == old(submitDisabled) && labelFile == old(labelFile)
      ensures files != [] && Validate(files[0]) == Accepted ==>
        !submitDisabled && labelFile == Some(files[0])
    {
      if files != [] {
        var file := files[0];
        var verdict := Validate(file);
        if verdict != Accepted {
          ShowAlert(VerdictAlert(verdict));
          return;
        }
        labelFile := Some(file);
        submitDisabled := false;
        ShowAlert(VerdictAlert(verdict));
      }
    }

    /** The submit button is enabled only while the input holds an accepted file. */
    ghost predicate SubmitGuarded()
      reads this
    {
      !submitDisabled ==> files != [] && Validate(files[0]) == Accepted
    }

    /** `handleFileSelection` with the submit button disabled again when the file fails a
        guard, so that a rejected file chosen after an accepted one cannot be submitted. */
    method HandleFileSelectionCorrected()
      modifies this`alert, this`labelFile, this`submitDisabled
      ensures files == [] ==> unchanged(this)
      ensures files != [] ==> alert == Some(VerdictAlert(Validate(files[0])))
      ensures files != [] ==> (submitDisabled <==> Validate(files[0]) != Accepted)
      ensures files != [] ==>
        labelFile == (if Validate(files[0]) == Accepted then Some(files[0]) else old(labelFile))
      ensures files != [] ==> SubmitGuarded()
    {
      if files != [] {
        var file := files[0];
        var verdict := Validate(file);
        if verdict != Accepted {
          submitDisabled := true;
          ShowAlert(VerdictAlert(verdict));
          return;
        }
        labelFile := Some(file);
        submitDisabled := false;
        ShowAlert(VerdictAlert(verdict));
      }
    }

    /** The input's `change` event with the corrected selection handler. */
    method ChooseFilesCorrected(chosen: seq<FileInfo>)
      modifies this`files, this`alert, this`labelFile, this`submitDisabled
      ensures files == chosen
      ensures chosen == [] ==>
        alert == old(alert) && labelFile == old(labelFile) && submitDisabled == old(submitDisabled)
      ensures chosen != [] ==> (submitDisabled <==> Validate(chosen[0]) != Accepted) && SubmitGuarded()
      ensures chosen != [] ==>
        (alert == Some(VerdictAlert(Validate(chosen[0])))
         && labelFile == (if Validate(chosen[0]) == Accepted then Some(chosen[0]) else old(labelFile)))
    {
      files := chosen;
      HandleFileSelectionCorrected();
    }

    /** The input's `change` event after the user picked `chosen`. */
    method ChooseFiles(chosen: seq<FileInfo>)
      modifies this`files, this`alert, this`labelFile, this`submitDisabled
      ensures files == chosen
      ensures chosen == [] ==>
        alert == old(alert) && labelFile == old(labelFile) && submitDisabled == old(submitDisabled)
      ensures chosen != [] ==>
        alert == Some(VerdictAlert(Validate(chosen[0])))
        && submitDisabled == (Validate(chosen[0]) != Accepted && old(submitDisabled))
        && labelFile == (if Validate(chosen[0]) == Accepted then Some(chosen[0]) else old(labelFile))
    {
      files := chosen;
      HandleFileSelection();
    }

    /** A `drop` on the upload area: an empty drop changes nothing; otherwise the dropped
        files become the input's files and are validated. */
    method DropFiles(dropped: seq<FileInfo>)
      modifies this`files, this`alert, this`labelFile, this`submitDisabled
      ensures dropped == [] ==> unchanged(this)
      ensures dropped != [] ==>
        files == dropped && alert == Some(VerdictAlert(Validate(dropped[0])))
        && submitDisabled == (Validate(dropped[0]) != Accepted && old(submitDisabled))
        && labelFile == (if Validate(dropped[0]) == Accepted then Some(dropped[0]) else old(labelFile))
    {
      if dropped != [] {
        files := dropped;
        HandleFileSelection();
      }
    }

    /** A click on the submit button (delivered only while it is enabled): without a file a
        warning and nothing else; with one the button is disabled, shows "Processing..."
        and the 3-second timeout is scheduled. */
    method OnSubmitClick()
      requires !submitDisabled
      modifies this`alert, this`submitDisabled, this`submitLabel, this`pendingVerify
      ensures files == [] ==>
        alert == Some(Alert("Please select a file first.", Warning))
        && submitDisabled == old(submitDisabled) && submitLabel == old(submitLabel)
        && pendingVerify == old(pendingVerify)
      ensures files != [] ==>
        submitDisabled && submitLabel == Processing && pendingVerify == old(pendingVerify) + 1
        && alert == old(alert)
    {
      if files == [] {
        ShowAlert(Alert("Please select a file first.", Warning));
        return;
      }
      submitDisabled := true;
      submitLabel := Processing;
      pendingVerify := pendingVerify + 1;
    }

    /** The 3-second timeout: the success alert, the "Submitted" label, and the 5-second
        reset timeout scheduled. */
    method VerifyTimeoutFires()
      requires pendingVerify > 0
      modifies this`alert, this`submitLabel, this`pendingVerify, this`pendingReset
      ensures alert == Some(Alert("Your tree planting has been verified! 10 GreenCoins added to your account.", Success))
      ensures submitLabel == Submitted
      ensures pendingVerify == old(pendingVerify) - 1 && pendingReset == old(pendingReset) + 1
    {
      ShowAlert(Alert("Your tree planting has been verified! 10 GreenCoins added to your account.", Success));
      submitLabel := Submitted;
      pendingVerify := pendingVerify - 1;
      pendingReset := pendingReset + 1;
    }

    /** The 5-second timeout: `resetForm`. */
    method ResetTimeoutFires()
      requires pendingReset > 0
      modifies this`files, this`labelFile, this`submitDisabled, this`submitLabel, this`pendingReset
      ensures files == [] && labelFile == None && submitDisabled && submitLabel == SubmitVerification
      ensures pendingReset == old(pendingReset) - 1
    {
      pendingReset := pendingReset - 1;
      ResetForm();
    }

    /** `resetForm`: the input is cleared, the label shows the prompt again and the submit
        button is disabled with its original caption, whatever the state before. */
    method ResetForm()
      modifies this`files, this`labelFile, this`submitDisabled, this`submitLabel
      ensures files == [] && labelFile == None && submitDisabled && submitLabel == SubmitVerification
    {
      files := [];
      labelFile := None;
      submitDisabled := true;
      submitLabel := SubmitVerification;
    }

    /** A click on the password toggle: the new type, and both icon classes flipped. */
    method TogglePassword()
      modifies this`passwordType, this`eyeIcon, this`eyeSlashIcon
      ensures passwordType == Some(ToggledType(old(passwordType)))
      ensures eyeIcon == !old(eyeIcon) && eyeSlashIcon == !old(eyeSlashIcon)
    {
      passwordType := Some(ToggledType(passwordType));
      eyeIcon := !eyeIcon;
      eyeSlashIcon := !eyeSlashIcon;
    }

    /** Submitting the login form: only an ok response writes the token to storage and
        leaves for the dashboard; any other ending shows an error and leaves storage as it
        was. */
    method OnLoginSubmit(outcome: LoginOutcome)
      modifies this`storage, this`loginError, this`location
      ensures outcome.Answered? && outcome.ok ==>
        storage == old(storage)[Dashboard.TokenKey := StorageText(outcome.body.token)]
        && location == Some("dashboard.html") && loginError == old(loginError)
      ensures outcome.Answered? && !outcome.ok ==>
        storage == old(storage) && location == old(location)
        && loginError == Some(LoginErrorText(outcome.body.message))
      ensures outcome.Threw? ==>
        storage == old(storage) && location == old(location) && loginError == Some("Server error")
    {
      match outcome {
        case Answered(ok, body) =>
          if !ok {
            loginError := Some(LoginErrorText(body.message));
          } else {
            storage := storage[Dashboard.TokenKey := StorageText(body.token)];
            location := Some("dashboard.html");
          }
        case Threw =>
          loginError := Some("Server error");
      }
    }
  }

  /** A twice-clicked toggle, on the page: the input is back to the type it had when that
      type was `password` or `text`. */
  method ToggleTwice(inputType: Option<string>) returns (restored: bool)
    ensures restored <==> inputType == Some("password") || inputType == Some("text")
  {
    var page := new FormPage(map[], true, inputType, true, false);
    page.TogglePassword();
    page.TogglePassword();
    ToggleTwiceRestores(inputType);
    restored := page.passwordType == inputType;
  }

  /** Select an accepted file, submit, let both timeouts fire: the form ends cleared with
      the submit button disabled again. */
  method SubmitCycle(f: FileInfo) returns (cleared: bool, disabled: bool)
    requires Validate(f) == Accepted
    ensures cleared && disabled
  {
    var page := new FormPage(map[], true, Some("password"), true, false);
    page.ChooseFiles([f]);
    page.OnSubmitClick();
    page.VerifyTimeoutFires();
    page.ResetTimeoutFires();
    cleared := page.files == [];
    disabled := page.submitDisabled;
  }

  /** An accepted file, then a rejected one, then a click on submit, on the page as
      written: the rejection leaves the button enabled, and the rejected file is submitted. */
  method RejectedAfterAccepted(good: FileInfo, bad: FileInfo) returns (submitted: Option<FileInfo>)
    requires Validate(good) == Accepted && Validate(bad) != Accepted
    ensures submitted == Some(bad)
  {
    var page := new FormPage(map[], true, Some("password"), true, false);
    page.ChooseFiles([good]);
    page.ChooseFiles([bad]);
    page.OnSubmitClick();
    submitted := if page.pendingVerify > 0 && page.files != [] then Some(page.files[0]) else None;
  }

  /** The same selections with the corrected handler: the button ends disabled, so the
      rejected file cannot be submitted. */
  method RejectedAfterAcceptedCorrected(good: FileInfo, bad: FileInfo) returns (submitEnabled: bool)
    requires Validate(good) == Accepted && Validate(bad) != Accepted
    ensures !submitEnabled
  {
    var page := new FormPage(map[], true, Some("password"), true, false);
    page.ChooseFilesCorrected([good]);
    page.ChooseFilesCorrected([bad]);
    submitEnabled := !page.submitDisabled;
  }

  /** An ok login, then the dashboard's token test: it sends the user back to the login
      page exactly when the server answered with an empty token. A response without any
      token is stored as "undefined" and lets the user in. */
  method TokenCheckAfterLogin(stored: map<string, string>, body: LoginBody) returns (sentBack: bool)
    ensures sentBack <==> body.token == Some([])
  {
    var page := new FormPage(stored, true, Some("password"), true, false);
    page.OnLoginSubmit(Answered(true, body));
    sentBack := Dashboard.TokenMissing(page.storage);
  }
}
