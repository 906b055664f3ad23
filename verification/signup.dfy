/** The sign-up page's form logic: the password check, the switch to the OTP
    step, and the OTP resend rate limiter with its countdown. Times are
    milliseconds (`Date.now()`), passed in; the existence probe and the OTP
    request are remote outcomes passed in. The auth store's sign-up and OTP
    verification resolve whatever happens (src/store/authStore.ts catches
    every failure), and the page ignores what they resolve with, so they
    carry no outcome here. */
module Signup {
  import opened Wrappers
  import opened Text

  // ----- the resend schedule -----

  /** `RATE_LIMITS`: 30 seconds, 5 minutes, 12 hours. */
  const RateLimits: seq<nat> := [30 * 1000, 5 * 60 * 1000, 12 * 60 * 60 * 1000]

  /** The cooldown after the `n`-th successful resend:
      `RATE_LIMITS[Math.min(n - 1, RATE_LIMITS.length - 1)]`. */
  function Cooldown(n: nat): (ms: nat)
    requires n >= 1
    ensures n == 1 ==> ms == 30000
    ensures n == 2 ==> ms == 300000
    ensures n >= 3 ==> ms == 43200000
  {
    var i := if n - 1 < |RateLimits| - 1 then n - 1 else |RateLimits| - 1;
    RateLimits[i]
  }

  /** Later resends never wait less. */
  lemma CooldownMonotone(n1: nat, n2: nat)
    requires 1 <= n1 <= n2
    ensures Cooldown(n1) <= Cooldown(n2)
  {
  }

  // ----- page state -----

  datatype SignupState = SignupState(
    showOtpInput: bool,
    loading: bool,
    error: string,
    resendAttempts: nat,
    canResend: bool,
    cooldownEndTime: int,
    timeRemaining: string)

  const InitialState := SignupState(false, false, "", 0, true, 0, "")

  // ----- remaining-time text -----

  /** `Math.ceil(ms / 1000)` for an integer number of milliseconds. */
  function CeilSeconds(ms: int): (secs: int)
    ensures 1000 * secs - 1000 < ms <= 1000 * secs
  {
    -((-ms) / 1000)
  }

  /** How a positive number of seconds is broken down for display. */
  datatype Duration =
    | HoursMinutes(hours: nat, minutes: nat)
    | MinutesSeconds(minutes: nat, seconds: nat)
    | Seconds(seconds: nat)

  /** The three-way split both the countdown and the wait message use: hours
      and minutes when there are more than 60 whole minutes, minutes and
      seconds when there are between 1 and 60, seconds otherwise. */
  function Breakdown(secs: nat): (d: Duration)
    ensures d.HoursMinutes? <==> secs >= 61 * 60
    ensures d.HoursMinutes? ==>
      && d.hours >= 1 && d.minutes < 60
      && 3600 * d.hours + 60 * d.minutes <= secs < 3600 * d.hours + 60 * d.minutes + 60
    ensures d.MinutesSeconds? ==> 1 <= d.minutes <= 60 && d.seconds < 60 && 60 * d.minutes + d.seconds == secs
    ensures d.Seconds? ==> d.seconds == secs < 60
  {
    var minutes := secs / 60;
    var seconds := secs % 60;
    if minutes > 60 then HoursMinutes(minutes / 60, minutes % 60)
    else if minutes > 0 then MinutesSeconds(minutes, seconds)
    else Seconds(seconds)
  }

  /** `${hours}h ${remainingMinutes}m`, `${minutes}m ${seconds}s` or `${seconds}s`. */
  function Render(d: Duration): string {
    match d
    case HoursMinutes(h, m) => NatToString(h) + "h " + NatToString(m) + "m"
    case MinutesSeconds(m, s) => NatToString(m) + "m " + NatToString(s) + "s"
    case Seconds(s) => NatToString(s) + "s"
  }

  /** The rejection message of an early resend. */
  function WaitMessage(secs: nat): string {
    "Please wait " + Render(Breakdown(secs)) + " before requesting another OTP"
  }

  // ----- the countdown timer -----

  /** The countdown's seconds left: `Math.max(0, Math.ceil((end - now) / 1000))`. */
  function RemainingSeconds(cooldownEndTime: int, now: int): (secs: nat)
    ensures secs == 0 <==> now >= cooldownEndTime
    ensures secs > 0 ==> 1000 * secs - 1000 < cooldownEndTime - now <= 1000 * secs
  {
    var c := CeilSeconds(cooldownEndTime - now);
    if c > 0 then c else 0
  }

  /** One tick of the countdown interval, which runs while resending is
      blocked and a cooldown is set: at zero it re-enables resending and
      clears the text, otherwise it shows the time left. */
  function Tick(s: SignupState, now: int): (r: SignupState)
    ensures s.canResend || s.cooldownEndTime <= 0 ==> r == s
    ensures !s.canResend && s.cooldownEndTime > 0 ==>
      (r.canResend <==> now >= s.cooldownEndTime)
    // at the end of the cooldown the text is cleared, before it the time left is shown
    ensures !s.canResend && 0 < s.cooldownEndTime <= now ==> r.timeRemaining == ""
    ensures !s.canResend && 0 < s.cooldownEndTime && now < s.cooldownEndTime ==>
      r.timeRemaining == Render(Breakdown(CeilSeconds(s.cooldownEndTime - now)))
    ensures r.(canResend := s.canResend, timeRemaining := s.timeRemaining) == s
  {
    if s.canResend || s.cooldownEndTime <= 0 then s
    else
      var remaining := RemainingSeconds(s.cooldownEndTime, now);
      if remaining == 0 then s.(canResend := true, timeRemaining := "")
      else s.(timeRemaining := Render(Breakdown(remaining)))
  }

  /** Ticks at the given instants, in order. */
  function Ticks(s: SignupState, times: seq<int>): SignupState
    decreases |times|
  {
    if |times| == 0 then s else Ticks(Tick(s, times[0]), times[1..])
  }

  /** Ticks before the cooldown's end keep resending blocked and touch
      neither the attempts nor the cooldown. */
  lemma {:induction false} TicksBeforeEnd(s: SignupState, times: seq<int>)
    requires !s.canResend && s.cooldownEndTime > 0
    requires forall i :: 0 <= i < |times| ==> times[i] < s.cooldownEndTime
    ensures var r := Ticks(s, times);
      !r.canResend && r.resendAttempts == s.resendAttempts && r.cooldownEndTime == s.cooldownEndTime
    decreases |times|
  {
    if |times| > 0 {
      TicksBeforeEnd(Tick(s, times[0]), times[1..]);
    }
  }

  // ----- handleResendOTP -----

  /** How the OTP request ended: sent, or thrown with its `message`, which may
      be missing. */
  datatype Call = Ok | Threw(message: Option<string>)

  /** A resend is refused while blocked and before the cooldown's end. */
  predicate InCooldown(s: SignupState, now: int) {
    !s.canResend && now < s.cooldownEndTime
  }

  const ResentNotice := "OTP has been resent to your email"

  function HandleResendOtp(s: SignupState, now: int, request: Call): (r: SignupState)
    // refused: the error becomes the wait message; the `finally` still clears
    // the loading flag
    ensures InCooldown(s, now) ==>
      r == s.(error := WaitMessage(CeilSeconds(s.cooldownEndTime - now)), loading := false)
    // sent: one more attempt, blocked until now plus the next cooldown
    ensures !InCooldown(s, now) && request.Ok? ==>
      && r.resendAttempts == s.resendAttempts + 1
      && r.cooldownEndTime == now + Cooldown(s.resendAttempts + 1)
      && !r.canResend
      && r.error == ResentNotice
    // failed: the limiter is untouched
    ensures !InCooldown(s, now) && request.Threw? ==>
      && r.resendAttempts == s.resendAttempts
      && r.cooldownEndTime == s.cooldownEndTime
      && r.canResend == s.canResend
      && r.error == request.message.GetOr("")
    ensures !r.loading
    ensures r.showOtpInput == s.showOtpInput && r.timeRemaining == s.timeRemaining
  {
    if InCooldown(s, now) then
      s.(error := WaitMessage(CeilSeconds(s.cooldownEndTime - now)), loading := false)
    else
      var s1 := s.(loading := true, error := "");
      match request
      case Ok =>
        var n := s.resendAttempts + 1;
        s1.(resendAttempts := n, cooldownEndTime := now + Cooldown(n), canResend := false,
            error := ResentNotice, loading := false)
      case Threw(m) => s1.(error := m.GetOr(""), loading := false)
  }

  /** The wait message and the countdown show the same text at the same
      instant. */
  lemma WaitMatchesCountdown(s: SignupState, now: int)
    requires InCooldown(s, now) && s.cooldownEndTime > 0
    ensures HandleResendOtp(s, now, Ok).error
      == "Please wait " + Tick(s, now).timeRemaining + " before requesting another OTP"
  {
  }

  lemma RefusedMessage(s: SignupState, now: int)
    requires InCooldown(s, now)
    ensures HandleResendOtp(s, now, Ok).error == WaitMessage(CeilSeconds(s.cooldownEndTime - now))
  {
  }

  /** After a successful resend, every resend before the cooldown's end is
      refused, however many countdown ticks happen in between. */
  lemma ResendBlocksUntilEnd(s: SignupState, now: int, times: seq<int>, later: int)
    requires !InCooldown(s, now) && now >= 0
    requires var r := HandleResendOtp(s, now, Ok);
      forall i :: 0 <= i < |times| ==> times[i] < r.cooldownEndTime
    requires later < now + Cooldown(s.resendAttempts + 1)
    ensures var t := Ticks(HandleResendOtp(s, now, Ok), times);
      InCooldown(t, later) && t.resendAttempts == s.resendAttempts + 1
  {
    var r := HandleResendOtp(s, now, Ok);
    TicksBeforeEnd(r, times);
  }

  // ----- handleSubmit -----

  /** What `checkUserExists` concludes from the error message of the probe
      sign-in (absent when the probe succeeded or threw). */
  datatype Existence = Existence(exists_: bool, needsVerification: bool)

  function CheckUserExists(probeError: Option<string>): (e: Existence)
    ensures e.needsVerification ==> e.exists_
    ensures probeError.None? ==> !e.exists_
    ensures e.needsVerification <==> probeError.Some? && Contains(probeError.value, "Email not confirmed")
    ensures e.exists_ <==>
      && probeError.Some?
      && (Contains(probeError.value, "Email not confirmed") || Contains(probeError.value, "User already registered"))
  {
    if probeError.Some? && Contains(probeError.value, "Email not confirmed") then Existence(true, true)
    else if probeError.Some? && Contains(probeError.value, "User already registered") then Existence(true, false)
    else Existence(false, false)
  }

  /** The state after `handleSubmit`, whether it navigated to the login page,
      and which remote steps it reached. */
  datatype SubmitResult = SubmitResult(state: SignupState, navigated: bool, probed: bool, signedUp: bool)

  /** The OTP step as `handleSubmit` enters it: the limiter starts afresh. */
  function EnterOtpStep(s: SignupState): (r: SignupState)
    ensures r.showOtpInput && r.error == ""
    ensures r.resendAttempts == 0 && r.canResend && r.cooldownEndTime == 0 && r.timeRemaining == ""
    ensures r.loading == s.loading
  {
    s.(showOtpInput := true, error := "", resendAttempts := 0, canResend := true,
       cooldownEndTime := 0, timeRemaining := "")
  }

  const MismatchError := "Passwords do not match."

  /** The message for an address that is already registered. */
  function ExistsError(e: Existence): string {
    if e.needsVerification
    then "This email is already registered but not verified. Please check your email for the verification link or try signing in."
    else "This email is already registered. Please sign in instead."
  }

  /** The first step of the form once the passwords match: the existence
      probe, then the sign-up. The auth store's `signUp` catches every failure
      and resolves with it as `{ error }`, which the page does not look at, so
      the OTP step opens whenever the probe finds no user. */
  function RegisterStep(s1: SignupState, probeError: Option<string>): (r: SubmitResult)
    requires !s1.showOtpInput
    ensures r.probed && !r.navigated
    ensures r.state.showOtpInput <==> !CheckUserExists(probeError).exists_
    ensures r.signedUp <==> !CheckUserExists(probeError).exists_
    ensures r.state.showOtpInput ==> r.state == EnterOtpStep(s1)
    ensures !r.state.showOtpInput ==> r.state.error == ExistsError(CheckUserExists(probeError))
  {
    var e := CheckUserExists(probeError);
    if e.exists_ then
      SubmitResult(s1.(error := ExistsError(e)), false, true, false)
    else
      SubmitResult(EnterOtpStep(s1), false, true, true)
  }

  /** `handleSubmit`. In the OTP step the auth store's `verifyOTP` likewise
      never rejects, so the page goes to the login page after every
      submission, a wrong code included. */
  function HandleSubmit(s: SignupState, password: string, confirmPassword: string,
                        probeError: Option<string>): (r: SubmitResult)
    ensures !r.state.loading
    // the password check comes first
    ensures !s.showOtpInput && password != confirmPassword ==>
      !r.probed && !r.signedUp && !r.navigated && r.state.error == MismatchError
      && r.state.showOtpInput == s.showOtpInput
    // entering the OTP step resets the limiter
    ensures r.state.showOtpInput && !s.showOtpInput ==>
      && r.signedUp && r.state.error == ""
      && r.state.resendAttempts == 0 && r.state.canResend
      && r.state.cooldownEndTime == 0 && r.state.timeRemaining == ""
    ensures r.state.showOtpInput && !s.showOtpInput <==>
      !s.showOtpInput && password == confirmPassword && !CheckUserExists(probeError).exists_
    ensures r.navigated <==> s.showOtpInput
    ensures s.showOtpInput ==> r.state.error == "" && r.state.showOtpInput && !r.probed
  {
    var s1 := s.(loading := true, error := "");
    if !s.showOtpInput then
      if password != confirmPassword then
        SubmitResult(s1.(error := MismatchError, loading := false), false, false, false)
      else
        var r := RegisterStep(s1, probeError);
        r.(state := r.state.(loading := false))
    else
      SubmitResult(s1.(loading := false), true, false, false)
  }

  /** The first resend after entering the OTP step is never refused and waits
      30 seconds. */
  lemma FirstResendAfterSignUp(s: SignupState, password: string, probeError: Option<string>, now: int)
    requires !s.showOtpInput && !CheckUserExists(probeError).exists_
    ensures var t := HandleSubmit(s, password, password, probeError).state;
      var r := HandleResendOtp(t, now, Ok);
      r.resendAttempts == 1 && r.cooldownEndTime == now + 30000
  {
  }
}
