/** The upload cooldown of the dashboard: the five-minute window after the last accepted
    upload, the value read back from storage at page load, and the `m:ss` countdown that
    the cooldown timer shows once per tick. All times are integer milliseconds. */
module Cooldown {
  import opened Wrappers
  import opened JsText

  /** Five minutes. */
  const CooldownMs: int := 5 * 60 * 1000

  /** The localStorage key under which the last upload time is kept (one key for every user). */
  const LastUploadKey: string := "lastUploadTime"

  /** `lastUploadTime + cooldownMs - now`: positive exactly while the window is still open. */
  function Remaining(lastUploadTime: int, now: int): (r: int)
    ensures r > 0 <==> now < lastUploadTime + CooldownMs
    ensures r <= CooldownMs <==> now >= lastUploadTime
  {
    lastUploadTime + CooldownMs - now
  }

  /** The test `checkCooldown` makes before it disables the upload button. */
  predicate Blocked(lastUploadTime: int, now: int)
  {
    Remaining(lastUploadTime, now) > 0
  }

  /** Blocked for the whole window, and free from the instant it ends. */
  lemma {:induction false} BlockedExactlyInWindow(lastUploadTime: int, now: int)
    ensures Blocked(lastUploadTime, now) <==> now < lastUploadTime + 300000
    ensures !Blocked(lastUploadTime, lastUploadTime + 300000)
    ensures Blocked(lastUploadTime, lastUploadTime + 299999)
  {
  }

  /** `parseInt(localStorage.getItem('lastUploadTime')) || 0`: a missing key is `null`,
      which parseInt reads as the text "null"; NaN and 0 both become 0. */
  function InitialLastUploadTime(stored: Option<string>): (t: int)
  {
    match ParseInt(if stored.None? then "null" else stored.value)
    case None => 0
    case Some(v) => v
  }

  /** A missing or non-numeric stored value starts the page with `lastUploadTime = 0`, so
      nothing is blocked at any time from 300000 on. */
  lemma {:induction false} MissingOrGarbageStartsAtZero(stored: Option<string>, now: int)
    requires stored.None? || ParseInt(stored.value).None?
    requires now >= 300000
    ensures InitialLastUploadTime(stored) == 0
    ensures !Blocked(InitialLastUploadTime(stored), now)
  {
    if stored.None? {
      ParseIntNoDigits("null");
    }
  }

  /** What a successful upload stores (`lastUploadTime.toString()`) is what the next page
      load reads back. */
  lemma {:induction false} StoredUploadTimeRoundTrip(t: nat)
    ensures InitialLastUploadTime(Some(NatToString(t))) == t
  {
    ParseIntOfNatToString(t);
  }

  /** `Math.round(ms / 1000)`: the nearest whole second, halves rounded up. */
  function RoundSeconds(ms: int): (s: int)
    ensures 1000 * s - 500 <= ms < 1000 * s + 500
  {
    (ms + 500) / 1000
  }

  /** One tick removes exactly one displayed second. */
  lemma {:induction false} RoundSecondsStep(ms: int)
    ensures RoundSeconds(ms - 1000) == RoundSeconds(ms) - 1
  {
    var s, t := RoundSeconds(ms), RoundSeconds(ms - 1000);
    assert 1000 * t - 500 <= ms - 1000 < 1000 * t + 500;
    assert 1000 * s - 500 <= ms < 1000 * s + 500;
  }

  /** `secs.toString().padStart(2, '0')` */
  function SecondsField(secs: nat): (field: string)
  {
    PadStart(NatToString(secs), 2, '0')
  }

  /** For a seconds value in 0..59 the field is exactly two digits that denote it. */
  lemma {:induction false} SecondsFieldDigits(secs: nat)
    requires secs < 60
    ensures var r := SecondsField(secs);
      |r| == 2 && AllDigitsIn(r, 10) && DigitsValue(r, 10) == secs
  {
    var d := NatToString(secs);
    DigitsValueOfNatToString(secs);
    NatToStringIsDecimal(secs);
    var r := PadStart(d, 2, '0');
    if secs < 10 {
      assert d == [DecimalDigit(secs)];
      assert r == ['0'] + d;
      assert r[..1] == ['0'] && r[..1][..0] == [];
      assert r[1..] == d;
    } else {
      assert d == NatToString(secs / 10) + [DecimalDigit(secs % 10)];
      assert |NatToString(secs / 10)| == 1;
      assert r == d;
    }
  }

  /** The timer text for a positive number of seconds:
      `${mins}:${secs.toString().padStart(2, '0')}` with `mins = Math.floor(seconds / 60)`
      and `secs = seconds % 60`. */
  function ClockText(seconds: int): (text: string)
    requires seconds > 0
  {
    NatToString(seconds / 60) + ":" + SecondsField(seconds % 60)
  }

  /** An independent reader of the `m:ss` format: minutes, a colon, exactly two digits
      that make less than 60 seconds. */
  function ReadClock(text: string): (seconds: Option<int>)
  {
    if |text| >= 4 && text[|text| - 3] == ':'
       && AllDigitsIn(text[..|text| - 3], 10) && AllDigitsIn(text[|text| - 2..], 10)
       && DigitsValue(text[|text| - 2..], 10) < 60
    then Some(DigitsValue(text[..|text| - 3], 10) * 60 + DigitsValue(text[|text| - 2..], 10))
    else None
  }

  /** The seconds field of the timer text is two digits in 0..59, and minutes and seconds
      together give back exactly the rounded number of seconds. */
  lemma {:induction false} ClockTextReadsBack(seconds: int)
    requires seconds > 0
    ensures ReadClock(ClockText(seconds)) == Some(seconds)
  {
    var m, ss := NatToString(seconds / 60), SecondsField(seconds % 60);
    NatToStringIsDecimal(seconds / 60);
    DigitsValueOfNatToString(seconds / 60);
    SecondsFieldDigits(seconds % 60);
    var r := ClockText(seconds);
    assert r == m + ":" + ss;
    assert r[..|r| - 3] == m && r[|r| - 2..] == ss && r[|r| - 3] == ':';
  }

  /** The rounded seconds the timer shows, one per tick (each as `ClockText`), from a
      counter of `ms` until the rounded seconds reach 0. */
  function Countdown(ms: int): (shown: seq<int>)
    decreases if ms < 0 then 0 else ms
  {
    if RoundSeconds(ms) <= 0 then [] else [RoundSeconds(ms)] + Countdown(ms - 1000)
  }

  /** The timer shows as many texts as the counter has rounded seconds. */
  lemma {:induction false} CountdownLength(ms: int)
    ensures |Countdown(ms)| == if RoundSeconds(ms) <= 0 then 0 else RoundSeconds(ms)
    decreases if ms < 0 then 0 else ms
  {
    if RoundSeconds(ms) > 0 {
      RoundSecondsStep(ms);
      CountdownLength(ms - 1000);
    }
  }

  /** The i-th second shown is the rounded start minus i: every whole second from the
      start down to 1 is shown once, in descending order. */
  lemma {:induction false} CountdownAt(ms: int, i: nat)
    requires i < |Countdown(ms)|
    ensures Countdown(ms)[i] == RoundSeconds(ms) - i > 0
    decreases i
  {
    CountdownLength(ms);
    if i > 0 {
      RoundSecondsStep(ms);
      CountdownAt(ms - 1000, i - 1);
    }
  }
}
