# greencoin-frontend: the cooldown, the tree check and the upload form, in Dafny

The greencoin web client lets a signed-in user photograph a tree; an on-device classifier
decides whether the photo may be sent, the backend credits a coin, and a five-minute
cooldown after every accepted upload is meant to keep the upload button disabled. As
written, the cooldown only shows its countdown and the button ends up enabled (see
"## Findings"). This project models
the two page scripts that hold these rules and proves what they do:

- `public/dashboard.js`: the cooldown test (`checkCooldown`), the countdown ticker
  (`startCooldownTimer` and its `update` closure), the acceptance rule for a photo (the
  `prediction.some(...)` test in `captureAndUpload`), the update of `lastUploadTime` and its
  stored copy in `uploadImage`, the initial value read from storage (line 7), the camera
  stream replacement in `startCamera`, and the DOMContentLoaded handler that wires them.
- `public/app.js`: the file-selection validator (`handleFileSelection`), the submit button
  and its two timeouts, `resetForm`, the password-visibility toggle and the login handler.

Modules (one file each):

| file | module | contents |
|---|---|---|
| wrappers.dfy | Wrappers | `Option` |
| js_text.dfy | JsText | the ECMAScript built-ins the scripts rely on: `parseInt`, integer `toString`, `padStart`, `toLowerCase`, `includes` |
| cooldown.dfy | Cooldown | the cooldown window, the value read back from storage, `Math.round(ms / 1000)`, the `m:ss` text and the countdown |
| tree_check.dfy | TreeCheck | predictions and the acceptance rule |
| dashboard.dfy | Dashboard | class `DashboardPage`: the page's module-level variables, the button and indicator state, localStorage, the live camera tracks; one method per handler |
| app.dfy | App | the validator, the toggle and the login rules as functions; class `FormPage` with one method per handler |

How the browser appears in the model:

- Each event is a method call: the script running is the constructor, DOMContentLoaded is
  `OnDomReady`, a click is `On...Click`. One firing of `setInterval(update, 1000)` is
  `Tick`, and `RunIntervalUntilCleared` is the browser firing it until it is cleared. Each
  `setTimeout` callback of the submit handler is a method that may fire once per pending
  timeout.
- `startCamera` is split at its `await`. `BeginStartCamera` stops the current stream's
  tracks and leaves a pending request. `CameraResolved` is that request resolving, and it
  may come after any number of further clicks.
- localStorage is a `map<string, string>` field. `Date.now()` is a parameter `now` (a
  non-negative integer). What `getUserMedia`, `model.predict`, `fetch` and `response.json()`
  yield is a parameter: `Option<Stream>`, `PredictOutcome`, `UploadOutcome`, `LoginOutcome`.
- Predictions are (class name, probability) pairs with the probability a `real`. For an
  IEEE double `p`, `p > 0.7` in JavaScript and `p > 0.7` over the reals agree. No double
  lies strictly between the double nearest 0.7 (just below 0.7) and the next double (just
  above it).
- The browser delivers a click only to an enabled button, so the click handlers require
  the button to be enabled. A listener that `setupEventListeners` adds exists only after the
  model has loaded, so those handlers require `modelLoaded`.
- `Math.round(ms / 1000)` on integer milliseconds is `(ms + 500) / 1000` with floor
  division. The double quotient is rounded correctly and the halves `k + 0.5` are exact
  doubles, so the two agree.

Choices the code makes, which the model follows:

- One global `lastUploadTime` key, not one key per user.
- The photo passes when *some* prediction qualifies, not only the most confident one.
- The class name is matched as a substring after lower-casing, not exactly.
- The threshold is a strict `> 0.7`, not `>=` and not a setting.
- `captureAndUpload` never checks the cooldown. The cooldown was meant to be enforced only
  by disabling the upload button, and once the camera section is open the capture button
  uploads regardless.
- The camera tracks are stopped only when the camera is started again, not on every exit
  path.
- A rate-limit response is treated like any other response that is not ok.

## Model

| member | source | states |
|---|---|---|
| Cooldown.Remaining | public/dashboard.js:138-143 | the remaining time is positive exactly while `now < lastUploadTime + 300000`, and at most 300000 once `now >= lastUploadTime` |
| Cooldown.BlockedExactlyInWindow | public/dashboard.js:140-143 | an upload is blocked iff `now < lastUploadTime + 300000`; at exactly `lastUploadTime + 300000` it is not blocked, one millisecond earlier it is |
| Cooldown.MissingOrGarbageStartsAtZero | public/dashboard.js:7 | a missing key (`getItem` gives `null`, which parseInt reads as "null") or a stored text without a number gives `lastUploadTime = 0`, and from `now = 300000` on nothing is blocked |
| Cooldown.StoredUploadTimeRoundTrip | public/dashboard.js:286 | the text a successful upload stores (`lastUploadTime.toString()`) is read back at the next page load as the same time |
| JsText.ParseInt | public/dashboard.js:7 | `parseInt(s)` without a radix, as the ECMAScript steps give it; its properties are stated by `JsText.ParseIntOfNatToString`, `JsText.ParseIntNoDigits`, `JsText.TrimStart` and `JsText.DigitRunLength` |
| JsText.NatToString | public/dashboard.js:286 | `toString` of a non-negative integer; its properties are stated by `JsText.NatToStringIsDecimal`, `JsText.DigitsValueOfNatToString` and `JsText.ParseIntOfNatToString` |
| Cooldown.InitialLastUploadTime | public/dashboard.js:7 | `parseInt` of the stored text, with a missing key read as "null" and NaN or 0 giving 0; stated by `Cooldown.MissingOrGarbageStartsAtZero` and `Cooldown.StoredUploadTimeRoundTrip` |
| Cooldown.Blocked | public/dashboard.js:138-143 | the `remaining > 0` test of `checkCooldown`; stated by `Cooldown.BlockedExactlyInWindow` |
| Cooldown.SecondsField | public/dashboard.js:167 | `secs.toString().padStart(2, '0')`; stated by `Cooldown.SecondsFieldDigits` |
| Cooldown.ClockText | public/dashboard.js:165-167 | the timer text; stated by `Cooldown.ClockTextReadsBack` and `Cooldown.SecondsFieldDigits` |
| Dashboard.GetItem | public/dashboard.js:7 | `localStorage.getItem`, with None for `null`; stated through `Dashboard.DashboardPage.constructor` and `Cooldown.MissingOrGarbageStartsAtZero` |
| Dashboard.PhotoAccepted | public/dashboard.js:229-235 | the classifier answered and some prediction names a tree; stated by `Dashboard.DashboardPage.CaptureAndUpload` and `TreeCheck.IsTree` |
| TreeCheck.NamesTree | public/dashboard.js:231-232 | the test applied to one prediction; stated by `TreeCheck.IsTree` and `TreeCheck.SubstringInAnyCase` |
| App.Validate | public/app.js:39-50 | the two guards of `handleFileSelection`; stated by `App.ValidateCharacterised`, `App.TypeCheckedFirst` and `App.SizeLimitInclusive` |
| JsText.ParseIntOfNatToString | public/dashboard.js:7 | `parseInt(String(n)) == n` for every non-negative integer `n` |
| JsText.ParseIntNoDigits | public/dashboard.js:7 | a text that starts with neither white space, a sign nor a digit (such as "null") parses to NaN |
| JsText.TrimStart | public/dashboard.js:7 | parseInt's skipping of leading white space: the result is a suffix of the input, everything dropped is white space, and what remains does not start with white space |
| JsText.DigitRunLength | public/dashboard.js:7 | parseInt reads the longest run of digits: every character of the run is a digit, and the character after it is not |
| JsText.NatToStringIsDecimal | public/dashboard.js:286 | `toString` of a non-negative integer is a non-empty string of decimal digits with no leading zero |
| JsText.DigitsValueOfNatToString | public/dashboard.js:286 | the digits `toString` writes denote the number again |
| Cooldown.RoundSeconds | public/dashboard.js:157 | `Math.round(ms / 1000)` is the whole second `s` with `1000*s - 500 <= ms < 1000*s + 500` (halves round up) |
| Cooldown.RoundSecondsStep | public/dashboard.js:157-168 | taking 1000 from the counter takes exactly one from the rounded seconds |
| JsText.PadStart | public/dashboard.js:167 | `padStart` yields a string of the requested width (or the input if it is longer), ending with the input and filled in front |
| Cooldown.SecondsFieldDigits | public/dashboard.js:166-167 | the seconds field `secs.toString().padStart(2, '0')` for `secs` in 0..59 is exactly two digits that denote `secs` |
| Cooldown.ClockTextReadsBack | public/dashboard.js:165-167 | the timer text is minutes, a colon and exactly two digits below 60, and an independent reader of `m:ss` gets back `mins*60 + secs`, the rounded number of seconds |
| Cooldown.CountdownLength | public/dashboard.js:156-172 | from any start the ticker shows exactly `Math.round(ms/1000)` texts (none if that is not positive) before it stops |
| Cooldown.CountdownAt | public/dashboard.js:156-172 | the i-th text shows `Math.round(ms/1000) - i` seconds, which is positive: every second from the start down to 1 appears once, in descending order |
| JsText.ToLowerAscii | public/dashboard.js:231 | `toLowerCase` restricted to ASCII: the letters A-Z become a-z and every other character stays, so the length is kept |
| JsText.Includes | public/dashboard.js:231 | `includes(sub)` holds iff `sub` occurs at some index of the string |
| TreeCheck.IsTree | public/dashboard.js:230-233 | the photo passes iff some prediction's lower-cased class name contains "tree" and its probability is strictly above 0.7 |
| TreeCheck.EmptyRejects | public/dashboard.js:230-233 | an empty classifier output rejects the photo |
| TreeCheck.OrderDoesNotMatter | public/dashboard.js:230-233 | two classifier outputs with the same predictions in any order get the same verdict |
| TreeCheck.SubstringInAnyCase | public/dashboard.js:231-232 | "TREE", "oak tree" and "Oak TREE" at 0.71 qualify; "oak tree" at exactly 0.7 does not; "tre" never does |
| TreeCheck.ClassifierScenarios | public/dashboard.js:230-235 | a tree at 0.92 next to a dog at 0.3 passes; a lone tree at 0.5 does not |
| Dashboard.FailureText | public/dashboard.js:250 | the message shown for a failure is the error's message, or "Upload failed" when that is empty |
| Dashboard.DashboardPage.constructor | public/dashboard.js:4-8 | the script reads `lastUploadTime` from storage with parseInt, NaN and 0 giving 0; no interval, stream or live track yet |
| Dashboard.DashboardPage.OnDomReady | public/dashboard.js:16-49 | as written: once the model loads, the cooldown check runs and then the upload button ends up enabled whatever the check found. While blocked, the interval, indicator, timer text and counter are as the check sets them, in each of its three cases (no timer element, a countdown that finishes at once, a running one). When not blocked, they are untouched. If the model fails to load, nothing changes |
| Dashboard.DashboardPage.OnDomReadyCorrected | public/dashboard.js:34-38 | with the button enabled before the check, it ends up disabled exactly while the cooldown is running and its countdown has not already finished. While blocked, the interval, indicator, timer text and counter are as the check sets them, in each of its three cases. When not blocked, they are untouched |
| Dashboard.DashboardPage.CheckCooldown | public/dashboard.js:138-148 | blocked: button disabled and indicator shown, then the timer starts with the remaining ms; not blocked: nothing changes, so the button is never enabled here |
| Dashboard.DashboardPage.StartCooldownTimer | public/dashboard.js:150-173 | the old interval is cleared; with no timer element nothing else happens; otherwise `update` runs at once and a new interval is set, even when that first run already found the countdown over |
| Dashboard.DashboardPage.UpdateTimer | public/dashboard.js:156-169 | rounded seconds <= 0: interval cleared, button enabled, indicator hidden; otherwise the `m:ss` text is shown and the counter loses exactly 1000 |
| Dashboard.DashboardPage.Tick | public/dashboard.js:156-172 | each firing strictly lowers the number of firings left. While counting, it shows the next second of the countdown, takes exactly 1000 from the counter, and leaves the button and the indicator as they were. At the end, it clears the interval, enables the button and hides the indicator, with the text and counter untouched |
| Dashboard.DashboardPage.RunIntervalUntilCleared | public/dashboard.js:156-172 | the interval stops after finitely many firings. The seconds it went through are exactly the countdown, and after each firing the timer element displayed that second's `m:ss` text. It leaves the button enabled and the indicator hidden |
| Dashboard.DashboardPage.StopTracks | public/dashboard.js:178-180 | after `forEach(track => track.stop())` none of the stream's tracks is live and no other track changed |
| Dashboard.DashboardPage.BeginStartCamera | public/dashboard.js:176-182 | up to the `await`: exactly the current stream's tracks are stopped, one more request is pending, and `currentStream` is untouched; from a state with at most one live stream, nothing is live |
| Dashboard.DashboardPage.CameraResolved | public/dashboard.js:182-183 | as written: the acquired stream becomes current and its tracks are added to the live ones (a thrown request changes nothing but the pending count); afterwards at most one stream is live exactly when nothing but the new stream's tracks was live |
| Dashboard.DashboardPage.CameraResolvedCorrected | public/dashboard.js:176-183 | with the current stream stopped again before it is replaced, at most one stream stays live whenever that held before, and then exactly the new stream's tracks are live |
| Dashboard.DashboardPage.OnUploadClick | public/dashboard.js:199-202 | the camera section is shown and the camera request started; the button stays enabled, so clicks may overlap |
| Dashboard.SequentialCameraRequests | public/dashboard.js:176-202 | as written, two clicks each resolved before the next leave no track of the first stream live |
| Dashboard.OverlappingCameraRequests | public/dashboard.js:176-202 | as written, two clicks before the first request resolves leave every track of the first stream live when the two streams share no track |
| Dashboard.OverlappingCameraRequestsCorrected | public/dashboard.js:176-202 | with the corrected resolution, the same two overlapping clicks leave only the last stream's tracks live |
| Dashboard.DashboardPage.CaptureAndUpload | public/dashboard.js:209-254 | `lastUploadTime` and its stored copy become `now` only when the photo passed and the response was ok; a rejected photo returns before uploading; a classifier failure, a response that is not ok or a thrown error leaves both unchanged and shows the error |
| Dashboard.DashboardPage.UploadImage | public/dashboard.js:256-298 | only `response.ok` moves `lastUploadTime` and storage to `now` and asks for a reload; otherwise the response text or the thrown message is passed on, with nothing changed |
| Dashboard.ReloadAfterUpload | public/dashboard.js:34-38 | after an accepted upload at `t` and the reload it triggers, at any `now` in `[t, t + 300000)` the page is blocked and yet its upload button is enabled |
| Dashboard.ReloadAfterUploadCorrected | public/dashboard.js:34-38 | with the corrected handler the reloaded page keeps the button disabled until the last half second of the cooldown |
| App.ValidateCharacterised | public/app.js:39-50 | a file is accepted iff its type is exactly `image/jpeg` or `image/png` and its size is at most 5 MiB; it is a type error iff the type is neither; a size error iff the type is good and the size is over |
| App.TypeCheckedFirst | public/app.js:42-49 | a file with a bad type that is also too large gets only the type error |
| App.SizeLimitInclusive | public/app.js:40-47 | exactly 5242880 bytes passes, 5242881 does not, and `image/jpg` is not a valid type |
| App.VerdictAlert | public/app.js:43-58 | the alert is the success style exactly when the file was accepted |
| App.ToggledType | public/app.js:163-165 | the new input type is `text` iff it was `password`, and is always `password` or `text` |
| App.ToggleTwiceRestores | public/app.js:163-165 | toggling twice restores the type iff it was `password` or `text`; after one toggle, two more always restore it |
| App.StorageText | public/app.js:146 | what `setItem` stores for `data.token`: `"undefined"` when the response has no token, and an empty text exactly when the token was the empty string |
| Dashboard.TokenMissing | public/dashboard.js:4-13 | the `!token` test: the key is missing or holds the empty text; stated by `App.TokenCheckAfterLogin` |
| App.TokenCheckAfterLogin | public/dashboard.js:4-13 | after an ok login (`setItem` at app.js:146), the dashboard's `!token` test sends the user back exactly when the server sent an empty token; a response without a token lets the user in |
| App.LoginErrorText | public/app.js:142-143 | the login error is the server's non-empty message, and "Login failed" otherwise |
| App.FormPage.constructor | public/app.js:1-7 | the form starts with no files, the default label, no alert, no pending timeouts, and the markup's button and input type |
| App.FormPage.ShowAlert | public/app.js:96-106 | the alert shows the given text and style |
| App.FormPage.HandleFileSelection | public/app.js:36-60 | no file: nothing changes; a rejected file: only its alert, the button untouched; an accepted file: shown on the label, submit enabled, success alert |
| App.FormPage.ChooseFiles | public/app.js:32-34 | the chosen files become the input's files. The first is validated as above: its alert, the label showing it only if accepted, and the button enabled if accepted and otherwise as it was |
| App.FormPage.DropFiles | public/app.js:20-28 | an empty drop changes nothing. Otherwise the dropped files replace the input's files, and the first is validated as for `ChooseFiles` |
| App.FormPage.HandleFileSelectionCorrected | public/app.js:36-60 | with the button disabled again on a rejected file: the button is enabled exactly when the first file is accepted, so it is enabled only while an accepted file is selected |
| App.FormPage.ChooseFilesCorrected | public/app.js:32-34 | the chosen files become the input's files, validated with the corrected handler: the first file's alert, the label showing it only if accepted, and the button enabled exactly when it is accepted |
| App.RejectedAfterAccepted | public/app.js:36-69 | as written, a rejected file chosen after an accepted one is the one the submit click sends on |
| App.RejectedAfterAcceptedCorrected | public/app.js:36-69 | with the corrected handler, the same selections end with the submit button disabled |
| App.FormPage.OnSubmitClick | public/app.js:63-72 | with no file a warning and nothing else; with a file the button is disabled, shows "Processing..." and one timeout is scheduled |
| App.FormPage.VerifyTimeoutFires | public/app.js:73-81 | the success alert and the "Submitted" caption; the reset timeout is scheduled |
| App.FormPage.ResetTimeoutFires | public/app.js:80 | the reset timeout runs `resetForm` |
| App.FormPage.ResetForm | public/app.js:85-94 | whatever the state before, the file input is cleared, the label is reset and submit is disabled with its original caption |
| App.FormPage.TogglePassword | public/app.js:162-168 | the input type becomes the toggled type, and both icon classes flip |
| App.FormPage.OnLoginSubmit | public/app.js:125-155 | only an ok response writes the token to storage and goes to the dashboard; a response that is not ok shows the server's message and a thrown error "Server error", both with storage unchanged |
| App.ToggleTwice | public/app.js:162-168 | on the page, two clicks on the toggle give back the original type iff it was `password` or `text` |
| App.SubmitCycle | public/app.js:63-94 | accepted file, submit, both timeouts: the form ends with no file and the submit button disabled |

## Findings

| source | as written | input that shows it | evidently intended | confidence | as-written member | corrected member |
|---|---|---|---|---|---|---|
| public/dashboard.js:34-38 | the DOMContentLoaded handler calls `checkCooldown()`, which disables the upload button during the cooldown, and then sets `uploadBtn.disabled = false` unconditionally | an upload accepted at `t` stores `t` and reloads the page; the reloaded page at any `now` with `t <= now < t + 300000` is blocked and its upload button is enabled (up to `t + 299500` it also shows the countdown) | the button is enabled when the model is ready, and the cooldown check then has the last word | high (not executed) | Dashboard.ReloadAfterUpload | Dashboard.ReloadAfterUploadCorrected |
| public/dashboard.js:176-184, 199-202 | `startCamera` stops `currentStream`'s tracks and then awaits `getUserMedia` before it assigns `currentStream`; the upload button stays enabled, so a second click can start a second request while the first is pending | two clicks on the upload button before the first camera request resolves: both stop the same old stream, the first new stream becomes current and is then replaced without being stopped, and its tracks stay live | the stream that is replaced is always stopped, so at most one stream is live | medium (not executed) | Dashboard.OverlappingCameraRequests | Dashboard.OverlappingCameraRequestsCorrected |
| public/app.js:42-50, 64-69 | a file that fails a guard only raises an alert and returns, so a submit button enabled by an earlier accepted file stays enabled while the rejected file is selected | choose an accepted file, then a rejected one, then click submit: the click goes ahead with the rejected file | a rejected file cannot be submitted: the button is enabled only while an accepted file is selected | medium (not executed) | App.RejectedAfterAccepted | App.RejectedAfterAcceptedCorrected |

## Left out

- The network requests. The outcomes of the upload POST and the login POST are parameters. `loadUserProfile` and `loadHistory` are not modelled at all: both fall back to a default on an error, so they cannot make the DOMContentLoaded handler fail, and what they return only feeds rendering. The e-mail and password sent with the login are not modelled.
- The HTML of `updateProfileUI`, `updateHistoryUI`, the upload label and the prediction area, and every SweetAlert dialog. These are rendering; the prediction area is a `Notice` value. The success dialog's reload is the `reloadRequested` flag.
- Canvas drawing, the timestamp overlay, `getUserMedia` and `toBlob`: device and graphics calls. `toBlob` or `FormData` throwing counts as a thrown upload error.
- `tmImage.load` and `model.predict`: foreign code; their results are parameters.
- The timing of `setInterval` and `setTimeout`: each firing is a method call, and the 1000, 3000 and 5000 ms delays are not modelled.
- The 5-second timeout that hides `messageAlert`, and the drag-over styling and navbar scroll effect: UI.
- The `toFixed(2)` size in megabytes: floating-point formatting.
- The log-in redirect of `dashboard.js` (lines 11-13) is navigation. The test that decides it is `Dashboard.TokenMissing`.
- The element-presence checks in `app.js` (`if (fileUpload)`, `if (submitBtn)`, `if (messageAlert)`, `if (togglePassword && passwordInput)`): the form is modelled with every element present. The presence of `cooldownTimer` in `dashboard.js` is modelled.
- parseInt on a number above 2^53, which JavaScript rounds to a double: the model keeps it exact. `NatToString` is valid below 10^21, where JavaScript switches to exponent notation.
- JsText.ToLowerAscii: lower-cases only A-Z and keeps the length. JavaScript `toLowerCase` also maps non-ASCII letters, and U+0130 becomes two code units. A class name made of ASCII letters is unaffected. The "tree" test is unaffected too, because no non-ASCII character lower-cases to `t`, `r` or `e` and none lower-cases to nothing.
- `public/script.js` (map, animated counters, parallax, a simulated progress bar), `public/upload.js` (two placeholder submit handlers with presence checks only) and `public/service-worker.js` (a cache-first fetch): UI and browser-cache I/O.
- The camera-error dialog of `startCamera` (a SweetAlert): a thrown `getUserMedia` is modelled only by its effect on the page state, which is none.
