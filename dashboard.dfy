/** The dashboard page: its module-level state (`lastUploadTime`, `currentStream`, the
    cooldown interval), the upload button and cooldown indicator it switches, and the
    handlers that change them. Browser events are the methods: the page script running
    (the constructor), DOMContentLoaded, a click, one firing of the cooldown interval.
    What the browser or the network answers is a parameter. */
module Dashboard {
  import opened Wrappers
  import opened JsText
  import opened Cooldown
  import opened TreeCheck

  type TrackId = nat

  /** A MediaStream, by the ids of its tracks. */
  datatype Stream = Stream(tracks: seq<TrackId>)

  function TrackSet(s: Option<Stream>): set<TrackId>
  {
    match s
    case None => {}
    case Some(stream) => set t | t in stream.tracks
  }

  /** `localStorage.getItem(key)`, with None for `null`. */
  function GetItem(storage: map<string, string>, key: string): Option<string>
  {
    if key in storage then Some(storage[key]) else None
  }

  /** The localStorage key of the session token, which the login page writes. */
  const TokenKey: string := "token"

  /** The `!token` test on `localStorage.getItem('token')` that sends the user back to the
      login page: the key is missing (`null`) or holds the empty string. */
  predicate TokenMissing(storage: map<string, string>)
  {
    GetItem(storage, TokenKey).None? || GetItem(storage, TokenKey) == Some([])
  }

  /** How `model.predict(canvas)` ends: with the predictions, or by throwing. */
  datatype PredictOutcome = Predicted(predictions: seq<Prediction>) | PredictThrew(message: string)

  /** How the POST to the upload endpoint ends: `response.ok`, a response that is not ok
      (the error then carries the response text), or a thrown error. */
  datatype UploadOutcome = Ok | NotOk(body: string) | NetworkError(message: string)

  /** What the prediction area shows (its markup is not modelled). */
  datatype Notice = Blank | Verifying | NotATree | Failed(message: string)

  /** `error.message || 'Upload failed'` */
  function FailureText(message: string): (r: string)
    ensures r != []
    ensures message != [] ==> r == message
    ensures message == [] ==> r == "Upload failed"
  {
    if message == [] then "Upload failed" else message
  }

  /** The photo passes the check in `captureAndUpload`. */
  predicate PhotoAccepted(prediction: PredictOutcome)
  {
    prediction.Predicted? && IsTree(prediction.predictions)
  }

  class DashboardPage {
    /** localStorage (only the `lastUploadTime` key is written here). */
    var storage: map<string, string>
    var lastUploadTime: int
    var modelLoaded: bool
    var uploadBtnDisabled: bool
    /** `cooldownInfo` carries the `d-none` class. */
    var cooldownInfoHidden: bool
    /** The page has a `cooldownTimer` element. */
    const hasTimerElement: bool
    var timerText: string
    /** The `ms` the live `update` closure counts down. */
    var countdownMs: int
    /** `cooldownInterval` is set and not cleared. */
    var intervalActive: bool
    var cameraSectionShown: bool
    var currentStream: Option<Stream>
    /** `getUserMedia` requests that `startCamera` is still awaiting. */
    var pendingCamera: nat
    /** The tracks that have not been stopped. */
    var liveTracks: set<TrackId>
    var notice: Notice
    /** The success dialog leads to `window.location.reload()`. */
    var reloadRequested: bool

    /** Every live track belongs to the current stream: at most one stream is live. */
    ghost predicate Valid()
      reads this
    {
      liveTracks <= TrackSet(currentStream)
    }

    /** The ticks the interval still fires before it clears itself. */
    ghost function TicksLeft(): nat
      reads this
    {
      if !intervalActive then 0
      else if RoundSeconds(countdownMs) <= 0 then 1
      else RoundSeconds(countdownMs) + 1
    }

    /** The page script runs: `lastUploadTime` is read from storage (line 7); the button and
        the indicator are as the markup has them. */
    constructor (stored: map<string, string>, buttonDisabled: bool, infoHidden: bool, timerElement: bool)
      ensures Valid()
      ensures storage == stored
      ensures lastUploadTime == InitialLastUploadTime(GetItem(stored, LastUploadKey))
      ensures uploadBtnDisabled == buttonDisabled && cooldownInfoHidden == infoHidden
      ensures hasTimerElement == timerElement && !intervalActive && !modelLoaded
      ensures currentStream == None && liveTracks == {} && pendingCamera == 0 && !cameraSectionShown
      ensures notice == Blank && !reloadRequested
    {
      var initial := InitialLastUploadTime(GetItem(stored, LastUploadKey));
      storage := stored;
      lastUploadTime := initial;
      uploadBtnDisabled, cooldownInfoHidden := buttonDisabled, infoHidden;
      hasTimerElement := timerElement;
      timerText, countdownMs, intervalActive := "", 0, false;
      modelLoaded, cameraSectionShown := false, false;
      currentStream, liveTracks, pendingCamera := None, {}, 0;
      notice, reloadRequested := Blank, false;
    }

    /** DOMContentLoaded, as written: when the model loads, the cooldown is checked and then
        the upload button is enabled unconditionally, so it ends up enabled even while the
        cooldown is running. When the model fails to load only an error dialog appears. The
        profile and history requests cannot make this fail (both fall back on errors). */
    method OnDomReady(now: nat, modelLoads: bool)
      modifies this`modelLoaded, this`uploadBtnDisabled, this`cooldownInfoHidden,
        this`timerText, this`countdownMs, this`intervalActive
      ensures !modelLoads ==> unchanged(this)
      ensures modelLoads ==> modelLoaded && !uploadBtnDisabled
      ensures modelLoads && Blocked(lastUploadTime, now) ==>
        intervalActive == hasTimerElement &&
        cooldownInfoHidden == (hasTimerElement && RoundSeconds(Remaining(lastUploadTime, now)) <= 0)
      ensures (modelLoads && Blocked(lastUploadTime, now) && hasTimerElement
               && RoundSeconds(Remaining(lastUploadTime, now)) > 0) ==>
        timerText == ClockText(RoundSeconds(Remaining(lastUploadTime, now)))
        && countdownMs == Remaining(lastUploadTime, now) - 1000
      ensures modelLoads && Blocked(lastUploadTime, now) && !hasTimerElement ==>
        timerText == old(timerText) && countdownMs == old(countdownMs)
      ensures (modelLoads && Blocked(lastUploadTime, now) && hasTimerElement
               && RoundSeconds(Remaining(lastUploadTime, now)) <= 0) ==>
        timerText == old(timerText) && countdownMs == Remaining(lastUploadTime, now)
      ensures modelLoads && !Blocked(lastUploadTime, now) ==>
        && intervalActive == old(intervalActive) && cooldownInfoHidden == old(cooldownInfoHidden)
        && timerText == old(timerText) && countdownMs == old(countdownMs)
    {
      if modelLoads {
        modelLoaded := true;
        CheckCooldown(now);
        uploadBtnDisabled := false;
      }
    }

    /** DOMContentLoaded with the upload button enabled before the cooldown is checked, so
        that the check has the last word. */
    method OnDomReadyCorrected(now: nat, modelLoads: bool)
      modifies this`modelLoaded, this`uploadBtnDisabled, this`cooldownInfoHidden,
        this`timerText, this`countdownMs, this`intervalActive
      ensures !modelLoads ==> unchanged(this)
      ensures modelLoads ==> modelLoaded
      ensures modelLoads ==>
        (uploadBtnDisabled <==>
           (Blocked(lastUploadTime, now)
            && !(hasTimerElement && RoundSeconds(Remaining(lastUploadTime, now)) <= 0)))
      ensures modelLoads && Blocked(lastUploadTime, now) ==>
        intervalActive == hasTimerElement && cooldownInfoHidden == !uploadBtnDisabled
      ensures (modelLoads && Blocked(lastUploadTime, now) && hasTimerElement
               && RoundSeconds(Remaining(lastUploadTime, now)) > 0) ==>
        timerText == ClockText(RoundSeconds(Remaining(lastUploadTime, now)))
        && countdownMs == Remaining(lastUploadTime, now) - 1000
      ensures modelLoads && Blocked(lastUploadTime, now) && !hasTimerElement ==>
        timerText == old(timerText) && countdownMs == old(countdownMs)
      ensures (modelLoads && Blocked(lastUploadTime, now) && hasTimerElement
               && RoundSeconds(Remaining(lastUploadTime, now)) <= 0) ==>
        timerText == old(timerText) && countdownMs == Remaining(lastUploadTime, now)
      ensures modelLoads && !Blocked(lastUploadTime, now) ==>
        && intervalActive == old(intervalActive) && cooldownInfoHidden == old(cooldownInfoHidden)
        && timerText == old(timerText) && countdownMs == old(countdownMs)
    {
      if modelLoads {
        modelLoaded := true;
        uploadBtnDisabled := false;
        CheckCooldown(now);
      }
    }

    /** `checkCooldown`: while the window is open the button is disabled, the indicator shown
        and the timer started with the remaining milliseconds; otherwise nothing changes (in
        particular the button is never enabled here). */
    method CheckCooldown(now: nat)
      modifies this`uploadBtnDisabled, this`cooldownInfoHidden, this`timerText,
        this`countdownMs, this`intervalActive
      ensures !Blocked(lastUploadTime, now) ==> unchanged(this)
      ensures Blocked(lastUploadTime, now) ==>
        var r := Remaining(lastUploadTime, now);
        var finishedAtOnce := hasTimerElement && RoundSeconds(r) <= 0;
        && intervalActive == hasTimerElement
        && uploadBtnDisabled == !finishedAtOnce
        && cooldownInfoHidden == finishedAtOnce
        && (hasTimerElement && RoundSeconds(r) > 0 ==>
              timerText == ClockText(RoundSeconds(r)) && countdownMs == r - 1000)
        && (finishedAtOnce ==> timerText == old(timerText) && countdownMs == r)
        && (!hasTimerElement ==> timerText == old(timerText) && countdownMs == old(countdownMs))
    {
      var remaining := Remaining(lastUploadTime, now);
      if remaining > 0 {
        uploadBtnDisabled := true;
        cooldownInfoHidden := false;
        StartCooldownTimer(remaining);
      }
    }

    /** `startCooldownTimer(ms)`: the previous interval is cleared; without a timer element
        nothing else happens; otherwise `update` runs once and then a new interval is set,
        even when that first run already found the countdown over. */
    method StartCooldownTimer(ms: int)
      modifies this`uploadBtnDisabled, this`cooldownInfoHidden, this`timerText,
        this`countdownMs, this`intervalActive
      ensures intervalActive == hasTimerElement
      ensures !hasTimerElement ==>
        && uploadBtnDisabled == old(uploadBtnDisabled) && cooldownInfoHidden == old(cooldownInfoHidden)
        && timerText == old(timerText) && countdownMs == old(countdownMs)
      ensures hasTimerElement && RoundSeconds(ms) <= 0 ==>
        !uploadBtnDisabled && cooldownInfoHidden && timerText == old(timerText) && countdownMs == ms
      ensures hasTimerElement && RoundSeconds(ms) > 0 ==>
        && uploadBtnDisabled == old(uploadBtnDisabled) && cooldownInfoHidden == old(cooldownInfoHidden)
        && timerText == ClockText(RoundSeconds(ms)) && countdownMs == ms - 1000
    {
      intervalActive := false;
      if !hasTimerElement {
        return;
      }
      countdownMs := ms;
      UpdateTimer();
      intervalActive := true;
    }

    /** The `update` closure: once the rounded seconds reach 0 it clears the interval,
        enables the button and hides the indicator; before that it shows `m:ss` and takes
        1000 from the counter. */
    method UpdateTimer()
      modifies this`uploadBtnDisabled, this`cooldownInfoHidden, this`timerText,
        this`countdownMs, this`intervalActive
      ensures RoundSeconds(old(countdownMs)) <= 0 ==>
        && !intervalActive && !uploadBtnDisabled && cooldownInfoHidden
        && timerText == old(timerText) && countdownMs == old(countdownMs)
      ensures RoundSeconds(old(countdownMs)) > 0 ==>
        && intervalActive == old(intervalActive)
        && uploadBtnDisabled == old(uploadBtnDisabled) && cooldownInfoHidden == old(cooldownInfoHidden)
        && timerText == ClockText(RoundSeconds(old(countdownMs)))
        && countdownMs == old(countdownMs) - 1000
    {
      var seconds := RoundSeconds(countdownMs);
      if seconds <= 0 {
        intervalActive := false;
        uploadBtnDisabled := false;
        cooldownInfoHidden := true;
        return;
      }
      timerText := ClockText(seconds);
      countdownMs := countdownMs - 1000;
    }

    /** One firing of `setInterval(update, 1000)`. Each firing brings the interval strictly
        closer to clearing itself, and while it runs it shows the next second of the
        countdown. */
    method Tick()
      requires intervalActive
      modifies this`uploadBtnDisabled, this`cooldownInfoHidden, this`timerText,
        this`countdownMs, this`intervalActive
      ensures TicksLeft() < old(TicksLeft())
      ensures old(Countdown(countdownMs)) == [] ==>
        && !intervalActive && !uploadBtnDisabled && cooldownInfoHidden
        && timerText == old(timerText) && countdownMs == old(countdownMs)
      ensures old(Countdown(countdownMs)) != [] ==>
        && intervalActive
        && uploadBtnDisabled == old(uploadBtnDisabled) && cooldownInfoHidden == old(cooldownInfoHidden)
        && timerText == ClockText(old(Countdown(countdownMs))[0])
        && countdownMs == old(countdownMs) - 1000
        && Countdown(countdownMs) == old(Countdown(countdownMs))[1..]
    {
      UpdateTimer();
      RoundSecondsStep(old(countdownMs));
    }

    /** The browser firing the interval once a second until it is cleared. It stops after
        finitely many firings, having shown every second of the countdown in turn as its
        `m:ss` text, and leaves the button enabled and the indicator hidden. `shown` holds
        the seconds and `texts` what the timer element displayed, one per firing. */
    method RunIntervalUntilCleared() returns (shown: seq<int>, texts: seq<string>)
      modifies this`uploadBtnDisabled, this`cooldownInfoHidden, this`timerText,
        this`countdownMs, this`intervalActive
      ensures !intervalActive
      ensures old(intervalActive) ==> shown == Countdown(old(countdownMs))
      ensures |texts| == |shown|
      ensures forall i :: 0 <= i < |shown| ==> shown[i] > 0 && texts[i] == ClockText(shown[i])
      ensures old(intervalActive) ==> !uploadBtnDisabled && cooldownInfoHidden
      ensures !old(intervalActive) ==> shown == [] && texts == [] && unchanged(this)
    {
      shown, texts := [], [];
      if !intervalActive {
        return;
      }
      ghost var all := Countdown(countdownMs);
      while intervalActive
        invariant all == shown + (if intervalActive then Countdown(countdownMs) else [])
        invariant Displayed(shown, texts)
        invariant !intervalActive ==> !uploadBtnDisabled && cooldownInfoHidden
        decreases TicksLeft()
      {
        ghost var before := Countdown(countdownMs);
        var seconds := RoundSeconds(countdownMs);
        Tick();
        if intervalActive {
          assert before == [seconds] + before[1..];
          ShownStep(all, shown, before, seconds, Countdown(countdownMs));
          DisplayedStep(shown, texts, seconds, timerText);
          shown := shown + [seconds];
          texts := texts + [timerText];
        }
      }
    }

    /** `currentStream.getTracks().forEach(track => track.stop())` */
    method StopTracks(tracks: seq<TrackId>)
      modifies this`liveTracks
      ensures liveTracks == old(liveTracks) - (set t | t in tracks)
    {
      var i := 0;
      while i < |tracks|
        invariant 0 <= i <= |tracks|
        invariant liveTracks == old(liveTracks) - (set t | t in tracks[..i])
      {
        assert tracks[..i + 1] == tracks[..i] + [tracks[i]];
        liveTracks := liveTracks - {tracks[i]};
        i := i + 1;
      }
      assert tracks[..i] == tracks;
    }

    /** `startCamera` up to its `await`: every track of the current stream is stopped and a
        new stream is requested. `currentStream` itself is left as it is until the request
        resolves. */
    method BeginStartCamera()
      modifies this`liveTracks, this`pendingCamera
      ensures liveTracks == old(liveTracks) - TrackSet(currentStream)
      ensures pendingCamera == old(pendingCamera) + 1
      ensures old(Valid()) ==> liveTracks == {}
    {
      if currentStream.Some? {
        StopTracks(currentStream.value.tracks);
      }
      pendingCamera := pendingCamera + 1;
    }

    /** `startCamera` after its `await`, as written: the stream `getUserMedia` yields becomes
        `currentStream` (None: it threw, and `currentStream` stays as it was). Nothing stops
        a stream that became current while this request was pending, so afterwards at most
        one stream is live exactly when nothing but the new stream's tracks was live. */
    method CameraResolved(acquired: Option<Stream>)
      requires pendingCamera > 0
      modifies this`liveTracks, this`currentStream, this`pendingCamera
      ensures pendingCamera == old(pendingCamera) - 1
      ensures currentStream == if acquired.Some? then acquired else old(currentStream)
      ensures liveTracks == old(liveTracks) + TrackSet(acquired)
      ensures acquired.Some? ==> (Valid() <==> old(liveTracks) <= TrackSet(acquired))
      ensures acquired.None? ==> (Valid() <==> old(Valid()))
    {
      pendingCamera := pendingCamera - 1;
      if acquired.Some? {
        currentStream := acquired;
        liveTracks := liveTracks + TrackSet(acquired);
      }
    }

    /** `startCamera` after its `await`, with the current stream stopped once more before
        the new one replaces it: at most one stream stays live however the requests
        interleave. */
    method CameraResolvedCorrected(acquired: Option<Stream>)
      requires pendingCamera > 0
      modifies this`liveTracks, this`currentStream, this`pendingCamera
      ensures pendingCamera == old(pendingCamera) - 1
      ensures currentStream == if acquired.Some? then acquired else old(currentStream)
      ensures liveTracks ==
        if acquired.Some? then old(liveTracks) - TrackSet(old(currentStream)) + TrackSet(acquired)
        else old(liveTracks)
      ensures old(Valid()) ==> Valid()
      ensures old(Valid()) && acquired.Some? ==> liveTracks == TrackSet(acquired)
    {
      pendingCamera := pendingCamera - 1;
      if acquired.Some? {
        if currentStream.Some? {
          StopTracks(currentStream.value.tracks);
        }
        currentStream := acquired;
        liveTracks := liveTracks + TrackSet(acquired);
      }
    }

    /** A click on the upload button: the listener exists once the model has loaded, and the
        browser delivers clicks only to an enabled button, which the click does not disable.
        It shows the camera section and starts the camera, whose request stays pending. */
    method OnUploadClick()
      requires modelLoaded && !uploadBtnDisabled
      modifies this`liveTracks, this`pendingCamera, this`cameraSectionShown
      ensures cameraSectionShown
      ensures liveTracks == old(liveTracks) - TrackSet(currentStream)
      ensures pendingCamera == old(pendingCamera) + 1
      ensures old(Valid()) ==> liveTracks == {}
    {
      cameraSectionShown := true;
      BeginStartCamera();
    }

    /** `captureAndUpload` after the frame is drawn: the classifier's answer decides whether
        `uploadImage` runs; a rejected photo returns before any upload; a failure of the
        classifier or of the upload is shown. The capture button is not tied to the
        cooldown. */
    method CaptureAndUpload(prediction: PredictOutcome, upload: UploadOutcome, now: nat)
      requires modelLoaded
      modifies this`notice, this`lastUploadTime, this`storage, this`reloadRequested
      ensures var armed := PhotoAccepted(prediction) && upload.Ok?;
        && lastUploadTime == (if armed then now else old(lastUploadTime))
        && storage == (if armed then old(storage)[LastUploadKey := NatToString(now)] else old(storage))
        && reloadRequested == (old(reloadRequested) || armed)
      ensures notice == match prediction
        case PredictThrew(m) => Failed(FailureText(m))
        case Predicted(ps) =>
          if !IsTree(ps) then NotATree
          else match upload
            case Ok => Verifying
            case NotOk(body) => Failed(FailureText(body))
            case NetworkError(m) => Failed(FailureText(m))
    {
      notice := Verifying;
      match prediction {
        case PredictThrew(m) =>
          notice := Failed(FailureText(m));
        case Predicted(ps) =>
          if !IsTree(ps) {
            notice := NotATree;
            return;
          }
          var thrown := UploadImage(upload, now);
          if thrown.Some? {
            notice := Failed(FailureText(thrown.value));
          }
      }
    }

    /** `uploadImage`: only an ok response moves `lastUploadTime` and its stored copy to
        `now`; a response that is not ok, or a thrown error, is passed on unchanged state. */
    method UploadImage(upload: UploadOutcome, now: nat) returns (thrown: Option<string>)
      modifies this`lastUploadTime, this`storage, this`reloadRequested
      ensures thrown.None? <==> upload.Ok?
      ensures upload.NotOk? ==> thrown == Some(upload.body)
      ensures upload.NetworkError? ==> thrown == Some(upload.message)
      ensures lastUploadTime == if upload.Ok? then now else old(lastUploadTime)
      ensures storage == if upload.Ok? then old(storage)[LastUploadKey := NatToString(now)] else old(storage)
      ensures reloadRequested == (old(reloadRequested) || upload.Ok?)
    {
      match upload {
        case Ok =>
          lastUploadTime := now;
          storage := storage[LastUploadKey := NatToString(now)];
          reloadRequested := true;
          thrown := None;
        case NotOk(body) =>
          thrown := Some(body);
        case NetworkError(m) =>
          thrown := Some(m);
      }
    }
  }

  /** An accepted upload at `t`, then the reload the success dialog triggers, on the page as
      written: during the cooldown the reloaded page counts down and yet its upload button
      is enabled. */
  method ReloadAfterUpload(stored: map<string, string>, t: nat, now: nat)
    returns (blocked: bool, uploadEnabled: bool)
    requires t <= now < t + CooldownMs
    ensures blocked && uploadEnabled
  {
    var page := new DashboardPage(stored, true, true, true);
    page.OnDomReady(t, true);
    ClassifierScenarios();
    page.CaptureAndUpload(Predicted([Prediction("tree", 0.92), Prediction("dog", 0.3)]), Ok, t);
    var reloaded := new DashboardPage(page.storage, true, true, true);
    StoredUploadTimeRoundTrip(t);
    reloaded.OnDomReady(now, true);
    blocked := Blocked(reloaded.lastUploadTime, now);
    uploadEnabled := !reloaded.uploadBtnDisabled;
  }

  /** The same sequence with the corrected DOMContentLoaded handler: the reloaded page keeps
      the button disabled until the countdown's last half second. */
  method ReloadAfterUploadCorrected(stored: map<string, string>, t: nat, now: nat)
    returns (blocked: bool, uploadEnabled: bool)
    requires t <= now && now + 500 <= t + CooldownMs
    ensures blocked && !uploadEnabled
  {
    var page := new DashboardPage(stored, true, true, true);
    page.OnDomReadyCorrected(t, true);
    ClassifierScenarios();
    page.CaptureAndUpload(Predicted([Prediction("tree", 0.92), Prediction("dog", 0.3)]), Ok, t);
    var reloaded := new DashboardPage(page.storage, true, true, true);
    StoredUploadTimeRoundTrip(t);
    reloaded.OnDomReadyCorrected(now, true);
    blocked := Blocked(reloaded.lastUploadTime, now);
    uploadEnabled := !reloaded.uploadBtnDisabled;
  }

  /** Each shown second is positive and the text displayed for it is its `m:ss` form. */
  predicate Displayed(shown: seq<int>, texts: seq<string>)
  {
    |texts| == |shown| && forall i :: 0 <= i < |shown| ==> shown[i] > 0 && texts[i] == ClockText(shown[i])
  }

  /** One firing moves the head of the remaining countdown to the seconds shown so far. */
  lemma {:induction false} ShownStep(all: seq<int>, shown: seq<int>, before: seq<int>, seconds: int,
                                     after: seq<int>)
    requires all == shown + before && before == [seconds] + after
    ensures all == (shown + [seconds]) + after
  {
  }

  /** Showing one more positive second with its `m:ss` text keeps `Displayed`. */
  lemma {:induction false} DisplayedStep(shown: seq<int>, texts: seq<string>, seconds: int, text: string)
    requires Displayed(shown, texts) && seconds > 0 && text == ClockText(seconds)
    ensures Displayed(shown + [seconds], texts + [text])
  {
  }

  /** The loaded page of a first visit (nothing stored), past the first five minutes of the
      epoch, so the upload button is enabled by either DOMContentLoaded handler. */
  method LoadedPage(corrected: bool) returns (page: DashboardPage)
    ensures fresh(page)
    ensures page.modelLoaded && !page.uploadBtnDisabled && page.Valid()
    ensures page.currentStream == None && page.liveTracks == {} && page.pendingCamera == 0
  {
    page := new DashboardPage(map[], true, true, true);
    MissingOrGarbageStartsAtZero(None, CooldownMs);
    if corrected {
      page.OnDomReadyCorrected(CooldownMs, true);
    } else {
      page.OnDomReady(CooldownMs, true);
    }
  }

  /** One click, its stream, then another click and its stream, on the page as written:
      the second click stops the first stream, so no track of it stays live. */
  method SequentialCameraRequests(first: Stream, second: Stream) returns (leaked: set<TrackId>)
    ensures leaked == {}
  {
    var page := LoadedPage(false);
    page.OnUploadClick();
    page.CameraResolved(Some(first));
    page.OnUploadClick();
    page.CameraResolved(Some(second));
    leaked := page.liveTracks - TrackSet(page.currentStream);
  }

  /** Two clicks before the first camera request resolves, on the page as written: both
      clicks stop the same (empty) current stream, the first stream to arrive is then
      replaced without being stopped, and every one of its tracks stays live. */
  method OverlappingCameraRequests(first: Stream, second: Stream) returns (leaked: set<TrackId>)
    requires TrackSet(Some(first)) !! TrackSet(Some(second))
    ensures leaked == TrackSet(Some(first))
  {
    var page := LoadedPage(false);
    page.OnUploadClick();
    page.OnUploadClick();
    page.CameraResolved(Some(first));
    page.CameraResolved(Some(second));
    leaked := page.liveTracks - TrackSet(page.currentStream);
  }

  /** The same two overlapping clicks with the corrected resolution: only the stream that
      arrived last is live. */
  method OverlappingCameraRequestsCorrected(first: Stream, second: Stream)
    returns (leaked: set<TrackId>, live: set<TrackId>)
    ensures leaked == {} && live == TrackSet(Some(second))
  {
    var page := LoadedPage(true);
    page.OnUploadClick();
    page.OnUploadClick();
    page.CameraResolvedCorrected(Some(first));
    page.CameraResolvedCorrected(Some(second));
    leaked := page.liveTracks - TrackSet(page.currentStream);
    live := page.liveTracks;
  }
}
