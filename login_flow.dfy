/** The login page of the front end (Login.jsx): signing in against the
    user list, and the administrator's forgotten-password flow, a machine
    of three steps (login, otp, reset) with a three-minute countdown, six
    one-digit code slots and a client-side password check.

    The page's React state is the field set of a `LoginScreen`; each
    handler is a method that changes it as the handler's `set...` calls do
    once its request has returned. The server's answer is a parameter:
    `None` when the request fails (the handler's `catch`), otherwise the
    status and message the back end sends. */
module LoginFlow {
  import opened Text
  import Listing
  import UserAccounts

  /** The address the OTP is mailed to, "spangleswebx@gmail.com", shown
      masked on the page. */
  const AdminEmail: string := AdminLocal + "@" + AdminDomain
  const AdminLocal: string := "spangleswebx"
  const AdminDomain: string := "gmail.com"
  /** Number of code slots. */
  const OtpLength: nat := 6
  /** Seconds the countdown starts from. */
  const OtpTime: nat := 180

  datatype Step = Login | Otp | Reset

  // ---------------------------------------------------------------------
  // Masked e-mail address

  /** The part before the first '@' (`email.split("@")[0]`). */
  function LocalPart(email: string): string {
    Split(email, '@')[0]
  }

  /** The part between the first and the second '@'; a missing domain is
      printed by the template literal as "undefined". */
  function Domain(email: string): string {
    var pieces := Split(email, '@');
    if |pieces| >= 2 then pieces[1] else "undefined"
  }

  /** `maskEmail`: the first and the last character of the local part, a
      star for every character between them, then '@' and the domain.
      `"*".repeat(n.length - 2)` throws for a local part shorter than two. */
  function MaskEmail(email: string): (r: string)
    requires |LocalPart(email)| >= 2
    ensures var n := LocalPart(email);
            && |r| == |n| + 1 + |Domain(email)|
            && r[0] == n[0] && r[|n| - 1] == n[|n| - 1]
            && (forall i | 1 <= i < |n| - 1 :: r[i] == '*')
            && r[|n|] == '@' && r[|n| + 1..] == Domain(email)
  {
    var n := LocalPart(email);
    [n[0]] + Repeat('*', |n| - 2) + [n[|n| - 1]] + "@" + Domain(email)
  }

  /** For an address with exactly one '@' the mask has the address's
      length and differs from it only strictly inside the local part. */
  lemma MaskEmailKeepsShape(n: string, d: string)
    requires '@' !in n && '@' !in d && |n| >= 2
    ensures LocalPart(n + "@" + d) == n && Domain(n + "@" + d) == d
    ensures |MaskEmail(n + "@" + d)| == |n + "@" + d|
    ensures forall i | 0 <= i < |n + "@" + d| && !(1 <= i < |n| - 1) ::
              MaskEmail(n + "@" + d)[i] == (n + "@" + d)[i]
  {
    SplitAfterPiece(n, '@', d);
    SplitNoSeparator(d, '@');
    assert n + "@" + d == n + ['@'] + d;
    assert Split(n + "@" + d, '@') == [n, d];
  }

  /** The administrator's mask is "s", ten stars, "x@gmail.com": as long
      as the address, with its first and last local characters kept. */
  lemma AdminEmailParts()
    ensures LocalPart(AdminEmail) == AdminLocal && Domain(AdminEmail) == AdminDomain
    ensures |MaskEmail(AdminEmail)| == |AdminEmail|
    ensures MaskEmail(AdminEmail)[0] == 's' && MaskEmail(AdminEmail)[11] == 'x'
    ensures forall i | 1 <= i < 11 :: MaskEmail(AdminEmail)[i] == '*'
    ensures MaskEmail(AdminEmail)[12..] == "@" + AdminDomain
  {
    MaskEmailKeepsShape(AdminLocal, AdminDomain);
    var r := MaskEmail(AdminEmail);
    assert r[12..] == [r[12]] + r[13..];
  }

  // ---------------------------------------------------------------------
  // Countdown

  /** `${m}:${s}` for a two-character s, read back by position. */
  function ColonJoin(m: string, s: string): (r: string)
    requires AllDigits(m) && AllDigits(s) && |s| == 2
    ensures |r| == |m| + 3 && r[|r| - 3] == ':'
    ensures r[..|r| - 3] == m && r[|r| - 2..] == s
  {
    var r := m + ":" + s;
    assert r[..|m|] == m;
    assert r[|m| + 1..] == s;
    r
  }

  /** `formatTime`: minutes and seconds, each padded to two digits, "mm:ss". */
  function FormatTime(sec: nat): (r: string)
    ensures |r| >= 5 && r[|r| - 3] == ':'
    ensures sec < 6000 ==> |r| == 5
  {
    assert sec < 6000 ==> sec / 60 < 100;
    ColonJoin(Pad2(sec / 60), Pad2(sec % 60))
  }

  /** Reading "mm:ss" back: the digits before the colon are minutes, the
      two after it seconds below 60. */
  function ParseTime(r: string): (t: Option<nat>)
  {
    if |r| >= 3 && r[|r| - 3] == ':' && AllDigits(r[..|r| - 3]) && AllDigits(r[|r| - 2..])
       && Value(r[|r| - 2..]) < 60
    then Some(Value(r[..|r| - 3]) * 60 + Value(r[|r| - 2..]))
    else None
  }

  lemma ParseColonJoin(m: string, s: string, a: nat, b: nat)
    requires AllDigits(m) && AllDigits(s) && |s| == 2
    requires Value(m) == a && Value(s) == b && b < 60
    ensures ParseTime(ColonJoin(m, s)) == Some(a * 60 + b)
  {
  }

  lemma ParsePadded(a: nat, b: nat)
    requires b < 60
    ensures ParseTime(ColonJoin(Pad2(a), Pad2(b))) == Some(a * 60 + b)
  {
    ParseColonJoin(Pad2(a), Pad2(b), a, b);
  }

  /** The countdown text reads back as the seconds it shows. */
  lemma FormatTimeRoundTrip(sec: nat)
    ensures ParseTime(FormatTime(sec)) == Some(sec)
  {
    ParsePadded(sec / 60, sec % 60);
  }

  /** The countdown shown when the otp step opens. */
  lemma FormatOtpTime(t: nat)
    requires t == OtpTime
    ensures FormatTime(t) == "03:00"
  {
    assert t / 60 == 3 && t % 60 == 0;
    Pad2OneDigit(3);
    Pad2OneDigit(0);
  }

  /** One tick of the interval: down by one second, never below zero. */
  function TickOnce(t: nat): (r: nat)
    ensures t > 0 ==> r == t - 1
    ensures t == 0 ==> r == 0
  {
    if t > 0 then t - 1 else 0
  }

  /** The countdown after k ticks. */
  function CountDown(t: nat, k: nat): (r: nat)
    ensures r == if k <= t then t - k else 0
    decreases k
  {
    if k == 0 then t else CountDown(TickOnce(t), k - 1)
  }

  /** The page shows "Resend OTP" instead of the remaining time exactly
      when the countdown is at zero. */
  predicate ResendOffered(t: nat) {
    !(t > 0)
  }

  /** Resending is offered from the 180th tick on, never before. */
  lemma ResendAfterCountdown(k: nat)
    ensures ResendOffered(CountDown(OtpTime, k)) <==> k >= OtpTime
    ensures !ResendOffered(CountDown(OtpTime, k)) ==> FormatTime(CountDown(OtpTime, k)) != []
  {
  }

  /** The countdown after a successful send, as written: the timer effect
      depends on `step` only, so it restarts at 180 when the page enters
      the otp step and does not run again when a resend sets the step it
      already has. */
  function CountdownAfterSend(before: Step, t: nat): (r: nat)
    ensures before != Otp ==> r == OtpTime
    ensures before == Otp ==> r == t
  {
    if before == Otp then t else OtpTime
  }

  /** Resend is only offered at zero, and a resend leaves the countdown at
      zero: the page keeps offering "Resend OTP" instead of showing the
      fresh code's remaining time. */
  lemma ResendKeepsCountdownAtZero(t: nat)
    requires ResendOffered(t)
    ensures CountdownAfterSend(Otp, t) == 0
    ensures ResendOffered(CountdownAfterSend(Otp, t))
  {
  }

  /** With the countdown restarted on every successful send, a resend
      shows the full three minutes again. */
  lemma RestartedCountdownShowsTime()
    ensures !ResendOffered(OtpTime)
    ensures FormatTime(OtpTime) == "03:00"
    ensures forall k: nat | k < OtpTime :: !ResendOffered(CountDown(OtpTime, k))
  {
    FormatOtpTime(OtpTime);
  }

  // ---------------------------------------------------------------------
  // Code slots

  /** `/^\d?$/`: the empty string or one digit. */
  predicate SlotValue(v: string) {
    v == [] || (|v| == 1 && IsDigit(v[0]))
  }

  /** Every slot holds a slot value. */
  predicate WellFormedSlots(otp: seq<string>) {
    forall k | 0 <= k < |otp| :: SlotValue(otp[k])
  }

  /** `handleOtpChange`: a slot value replaces slot i; anything else is
      ignored. */
  function OtpAfterChange(otp: seq<string>, val: string, i: nat): (r: seq<string>)
    requires i < |otp|
    ensures |r| == |otp|
    ensures SlotValue(val) ==> r[i] == val
    ensures !SlotValue(val) ==> r == otp
    ensures forall k | 0 <= k < |otp| && k != i :: r[k] == otp[k]
  {
    if SlotValue(val) then otp[i := val] else otp
  }

  /** Editing a slot keeps every slot a slot value. */
  lemma OtpChangeKeepsSlots(otp: seq<string>, val: string, i: nat)
    requires i < |otp| && WellFormedSlots(otp)
    ensures WellFormedSlots(OtpAfterChange(otp, val, i))
  {
  }

  /** `otp.join("")`. */
  function EnteredCode(otp: seq<string>): string {
    Listing.Concat(otp)
  }

  /** Well-formed slots with none empty spell a code of one digit per slot. */
  lemma {:induction false} CompleteCodeIsDigits(otp: seq<string>)
    requires WellFormedSlots(otp) && [] !in otp
    ensures |EnteredCode(otp)| == |otp| && AllDigits(EnteredCode(otp))
    ensures forall k | 0 <= k < |otp| :: EnteredCode(otp)[k] == otp[k][0]
    decreases |otp|
  {
    if otp != [] {
      assert otp[0] in otp;
      assert forall k | 0 <= k < |otp[1..]| :: otp[1..][k] == otp[k + 1];
      assert forall v | v in otp[1..] :: v in otp;
      CompleteCodeIsDigits(otp[1..]);
    }
  }

  // ---------------------------------------------------------------------
  // Password check on the reset step

  /** No line terminator in s[from..to]. */
  predicate Clear(s: string, from: nat, to: nat)
    requires from <= to <= |s|
  {
    forall j | from <= j < to :: !IsLineTerminator(s[j])
  }

  /** `/(?=.*[A-Z])(?=.*\d)/.test(s)`: from some position an upper-case
      letter and a digit both lie ahead without a line terminator before
      them (`.` does not match one). */
  predicate UpperAndDigitAhead(s: string) {
    exists p, u, d | 0 <= p <= u < |s| && p <= d < |s| ::
      IsUpper(s[u]) && IsDigit(s[d]) && Clear(s, p, u) && Clear(s, p, d)
  }

  /** On a single line the look-ahead test is "has an upper-case letter
      and a digit". */
  lemma UpperAndDigitOnOneLine(s: string)
    requires Clear(s, 0, |s|)
    ensures UpperAndDigitAhead(s) <==> HasUpper(s) && HasDigit(s)
  {
    if HasUpper(s) && HasDigit(s) {
      var u :| 0 <= u < |s| && IsUpper(s[u]);
      var d :| 0 <= d < |s| && IsDigit(s[d]);
      assert Clear(s, 0, u) && Clear(s, 0, d);
    }
  }

  /** `resetPassword`'s checks, in order; None when the request is sent. */
  function ResetError(newPass: string, confirmPass: string): (r: Option<string>)
    ensures r.None? <==> |newPass| >= 6 && UpperAndDigitAhead(newPass) && confirmPass == newPass
  {
    if newPass == [] then Some("New password is required.")
    else if |newPass| < 6 then Some("Password must be at least 6 characters long.")
    else if !UpperAndDigitAhead(newPass) then Some("Password must include at least Upper-case & One number.")
    else if confirmPass == [] then Some("Confirm password is required.")
    else if newPass != confirmPass then Some("Confirm password must match the new password.")
    else None
  }

  /** The confirmation is only looked at once the new password passes its
      own checks, and each check names its own failure. */
  lemma ResetErrorOrder(newPass: string, confirmPass: string)
    ensures newPass == [] ==> ResetError(newPass, confirmPass) == Some("New password is required.")
    ensures 0 < |newPass| < 6 ==>
              ResetError(newPass, confirmPass) == Some("Password must be at least 6 characters long.")
    ensures |newPass| >= 6 && !UpperAndDigitAhead(newPass) ==>
              ResetError(newPass, confirmPass) == Some("Password must include at least Upper-case & One number.")
    ensures |newPass| >= 6 && UpperAndDigitAhead(newPass) && confirmPass != newPass ==>
              ResetError(newPass, confirmPass) ==
                (if confirmPass == [] then Some("Confirm password is required.")
                 else Some("Confirm password must match the new password."))
  {
  }

  /** Every password the server accepts as strong passes the page's check. */
  lemma ServerStrongPassesClient(p: string)
    requires UserAccounts.StrongPassword(p)
    ensures ResetError(p, p) == None
  {
    UpperAndDigitOnOneLine(p);
  }

  /** The converse fails: the page does not ask for a lower-case letter, so
      it sends a password the server refuses as weak. */
  lemma ClientLooserThanServer(p: string)
    requires p == "ABCDE1"
    ensures ResetError(p, p) == None
    ensures !UserAccounts.StrongPassword(p)
  {
    assert IsUpper(p[0]) && IsDigit(p[5]);
    assert Clear(p, 0, 0) && Clear(p, 0, 5);
  }

  // ---------------------------------------------------------------------
  // Signing in

  /** `users.find(u => u.username === form.username && u.password === form.password)`. */
  function MatchUser(users: seq<UserAccounts.User>, username: string, password: string): (r: Option<nat>)
    ensures r.Some? ==> r.value < |users| && users[r.value].username == username
                        && users[r.value].password == password
    ensures r.Some? ==> forall j | 0 <= j < r.value ::
                          !(users[j].username == username && users[j].password == password)
    ensures r.None? ==> forall j | 0 <= j < |users| ::
                          !(users[j].username == username && users[j].password == password)
    decreases |users|
  {
    if users == [] then None
    else if users[0].username == username && users[0].password == password then Some(0)
    else
      var rest := MatchUser(users[1..], username, password);
      assert forall j | 1 <= j < |users| :: users[j] == users[1..][j - 1];
      if rest.Some? then Some(rest.value + 1) else None
  }

  /** The "Forgot password?" link is shown only for the administrator's
      username, the record the server's reset handlers look up. */
  predicate ForgotPasswordOffered(username: string) {
    username == UserAccounts.AdminUsername
  }

  /** `res.ok`. */
  predicate Ok(res: UserAccounts.Response) {
    200 <= res.status <= 299
  }

  /** `data.message || fallback`. */
  function MessageOr(res: UserAccounts.Response, fallback: string): (m: string)
    ensures m != []  || fallback == []
    ensures res.message != [] ==> m == res.message
  {
    if res.message != [] then res.message else fallback
  }


  // ---------------------------------------------------------------------
  // The page's state and its handlers

  /** The page's state: the sign-in form, the step, the code slots, the
      countdown, the two reset inputs and their error, the toast, and the
      user kept in local storage after signing in. */
  datatype Page = Page(
    username: string,
    password: string,
    step: Step,
    otp: seq<string>,
    otpTime: nat,
    newPass: string,
    confirmPass: string,
    passwordError: string,
    toast: Option<string>,
    session: Option<UserAccounts.User>)

  /** `Array(OTP_LENGTH).fill("")`. */
  function EmptySlots(): (r: seq<string>)
    ensures |r| == OtpLength && WellFormedSlots(r) && [] in r
  {
    var r := seq(OtpLength, _ => []);
    assert r[0] == [];
    r
  }

  /** Six slots, each empty or one digit. */
  predicate WellFormed(p: Page) {
    |p.otp| == OtpLength && WellFormedSlots(p.otp)
  }

  /** The state the page opens in. */
  function Opened(): Page {
    Page([], [], Login, EmptySlots(), OtpTime, [], [], [], None, None)
  }

  /** The administrator's local part is long enough to mask. */
  lemma AdminEmailMaskable()
    ensures |LocalPart(AdminEmail)| >= 2
  {
    MaskEmailKeepsShape(AdminLocal, AdminDomain);
  }

  /** `OTP sent to ${maskEmail(email)}`. */
  function NoticeFor(email: string): string
    requires |LocalPart(email)| >= 2
  {
    "OTP sent to " + MaskEmail(email)
  }

  /** `handleLogin`, after the user list has been fetched (None when the
      request fails). */
  function AfterLogin(p: Page, fetched: Option<seq<UserAccounts.User>>): Page {
    if p.username == [] || p.password == [] then p.(toast := Some("Enter username and password"))
    else if fetched.None? then p.(toast := Some("Login failed"))
    else
      var m := MatchUser(fetched.value, p.username, p.password);
      if m.None? then p.(toast := Some("Invalid username or password"))
      else p.(username := [], password := [], otp := EmptySlots(), newPass := [], confirmPass := [],
              passwordError := [], session := Some(fetched.value[m.value]),
              toast := Some("Login successful"))
  }

  /** Signing in succeeds exactly when both fields are filled and some
      fetched user has that username and that password; the user kept is
      the first such. A refused sign-in only shows a toast; an accepted one
      clears the form, the slots and the reset inputs. The step and the
      countdown never change. */
  lemma LoginRule(p: Page, fetched: Option<seq<UserAccounts.User>>)
    requires WellFormed(p)
    ensures var q := AfterLogin(p, fetched);
            && WellFormed(q) && q.step == p.step && q.otpTime == p.otpTime
            && (q.toast == Some("Login successful") <==>
                  p.username != [] && p.password != [] && fetched.Some?
                  && exists j | 0 <= j < |fetched.value| ::
                       fetched.value[j].username == p.username && fetched.value[j].password == p.password)
            && (q.toast == Some("Login successful") ==>
                  && q.session.Some? && q.session.value in fetched.value
                  && q.session.value.username == p.username && q.session.value.password == p.password
                  && q.username == [] && q.password == [] && q.otp == EmptySlots()
                  && q.newPass == [] && q.confirmPass == [] && q.passwordError == [])
            && (q.toast != Some("Login successful") ==> q == p.(toast := q.toast))
  {
  }

  /** `sendOtp` as written, with the server's answer: on success the slots
      are emptied and the step becomes otp, and the countdown restarts
      only when the step was not otp already. */
  function AfterSendAsWritten(p: Page, response: Option<UserAccounts.Response>): Page {
    if response.None? then p.(toast := Some("Failed to send OTP"))
    else if !Ok(response.value) then p.(toast := Some(MessageOr(response.value, "Failed to send OTP")))
    else
      AdminEmailMaskable();
      p.(toast := Some(NoticeFor(AdminEmail)), otp := EmptySlots(), step := Otp,
         otpTime := CountdownAfterSend(p.step, p.otpTime))
  }

  /** `sendOtp` with the countdown restarted on every successful send. */
  function AfterSend(p: Page, response: Option<UserAccounts.Response>): Page {
    if response.None? then p.(toast := Some("Failed to send OTP"))
    else if !Ok(response.value) then p.(toast := Some(MessageOr(response.value, "Failed to send OTP")))
    else
      AdminEmailMaskable();
      p.(toast := Some(NoticeFor(AdminEmail)), otp := EmptySlots(), step := Otp, otpTime := OtpTime)
  }

  /** As written, a resend from the otp step (offered only once the
      countdown is at zero) leaves the countdown at zero, so the page goes
      on offering "Resend OTP" for the code just sent. */
  lemma ResendAsWrittenKeepsZero(p: Page, response: Option<UserAccounts.Response>)
    requires p.step == Otp && ResendOffered(p.otpTime)
    requires response.Some? && Ok(response.value)
    ensures AfterSendAsWritten(p, response).step == Otp
    ensures AfterSendAsWritten(p, response).otpTime == 0
    ensures ResendOffered(AfterSendAsWritten(p, response).otpTime)
  {
  }

  /** A successful send, first or repeated, opens the otp step with empty
      slots and the full countdown; a failed one only shows a toast. */
  lemma SendRule(p: Page, response: Option<UserAccounts.Response>)
    requires WellFormed(p)
    ensures var q := AfterSend(p, response);
            && WellFormed(q)
            && (response.Some? && Ok(response.value) ==>
                  && q.step == Otp && q.otp == EmptySlots() && q.otpTime == OtpTime
                  && !ResendOffered(q.otpTime) && FormatTime(q.otpTime) == "03:00"
                  && q.toast.Some? && q.toast.value[..12] == "OTP sent to "
                  && q.toast.value[12..] == MaskEmail(AdminEmail)
                  && q == p.(step := q.step, otp := q.otp, otpTime := q.otpTime, toast := q.toast))
            && (response.None? || !Ok(response.value) ==> q == p.(toast := q.toast))
  {
    FormatOtpTime(OtpTime);
  }

  /** One second of the interval, which runs only on the otp step. */
  function AfterTick(p: Page): Page {
    if p.step == Otp then p.(otpTime := TickOnce(p.otpTime)) else p
  }

  /** Ticks only count the otp step's countdown down, and k ticks from the
      start leave max(180 - k, 0) seconds. */
  lemma TickRule(p: Page, k: nat)
    ensures AfterTick(p).otpTime <= p.otpTime
    ensures p.step == Otp && p.otpTime > 0 ==> AfterTick(p).otpTime == p.otpTime - 1
    ensures AfterTick(p) == p.(otpTime := AfterTick(p).otpTime)
    ensures p.step != Otp ==> AfterTick(p) == p
    ensures CountDown(OtpTime, k) == if k <= OtpTime then OtpTime - k else 0
  {
  }

  /** The code `verifyOtp` posts: none while a slot is empty. */
  function VerifySent(p: Page): Option<string> {
    if [] in p.otp then None else Some(EnteredCode(p.otp))
  }

  /** `verifyOtp`, with the server's answer to the posted code. */
  function AfterVerify(p: Page, response: Option<UserAccounts.Response>): Page {
    if [] in p.otp then p.(toast := Some("Enter complete OTP"))
    else if response.None? then p.(toast := Some("OTP verification failed"))
    else if !Ok(response.value) then p.(toast := Some(MessageOr(response.value, "Invalid OTP")))
    else p.(toast := Some("OTP verified"), step := Reset)
  }

  /** Nothing is posted while a slot is empty; a complete entry posts its
      six digits in slot order, and only an accepted code moves on to the
      reset step. Nothing but the toast and the step changes. */
  lemma VerifyRule(p: Page, response: Option<UserAccounts.Response>)
    requires WellFormed(p)
    ensures var q := AfterVerify(p, response);
            && WellFormed(q) && q == p.(toast := q.toast, step := q.step)
            && ([] in p.otp ==> VerifySent(p).None? && q == p.(toast := Some("Enter complete OTP")))
            && ([] !in p.otp ==>
                  && VerifySent(p).Some? && |VerifySent(p).value| == OtpLength
                  && AllDigits(VerifySent(p).value)
                  && (forall k | 0 <= k < OtpLength :: VerifySent(p).value[k] == p.otp[k][0]))
            && q.step == (if [] !in p.otp && response.Some? && Ok(response.value) then Reset else p.step)
  {
    if [] !in p.otp {
      CompleteCodeIsDigits(p.otp);
    }
  }

  /** The password `resetPassword` posts: none when the page's checks fail. */
  function ResetSent(p: Page): Option<string> {
    if ResetError(p.newPass, p.confirmPass).Some? then None else Some(p.newPass)
  }

  /** `resetPassword`, with the server's answer to the posted password. */
  function AfterReset(p: Page, response: Option<UserAccounts.Response>): Page {
    var err := ResetError(p.newPass, p.confirmPass);
    if err.Some? then p.(passwordError := err.value)
    else if response.None? then p.(passwordError := "Password reset failed")
    else if !Ok(response.value) then p.(passwordError := MessageOr(response.value, "Reset failed"))
    else p.(passwordError := [], toast := Some("Password updated successfully"), step := Login,
            username := [], password := [], newPass := [], confirmPass := [])
  }

  /** A refused check or a refused request only sets the error line under
      the inputs; an accepted reset returns to the login step with the form
      and both inputs cleared. */
  lemma ResetRule(p: Page, response: Option<UserAccounts.Response>)
    requires WellFormed(p)
    ensures var q := AfterReset(p, response);
            && WellFormed(q) && q.otp == p.otp && q.otpTime == p.otpTime && q.session == p.session
            && (ResetSent(p).None? ==>
                  q == p.(passwordError := ResetError(p.newPass, p.confirmPass).value))
            && (ResetSent(p).Some? ==>
                  && ResetSent(p).value == p.newPass == p.confirmPass
                  && |p.newPass| >= 6 && UpperAndDigitAhead(p.newPass))
            && (ResetSent(p).Some? && response.Some? && Ok(response.value) ==>
                  q.step == Login && q.username == [] && q.password == []
                  && q.newPass == [] && q.confirmPass == [] && q.passwordError == []
                  && q.toast == Some("Password updated successfully"))
            && (ResetSent(p).Some? && (response.None? || !Ok(response.value)) ==>
                  q == p.(passwordError := q.passwordError) && q.passwordError != [])
  {
    if ResetError(p.newPass, p.confirmPass).None? && response.Some? && !Ok(response.value) {
      assert MessageOr(response.value, "Reset failed") != [];
    }
  }

  /** The step machine: login → otp on an accepted send, otp → reset on an
      accepted code, reset → login on an accepted password; signing in,
      ticks and slot edits never move the step. */
  lemma StepTransitions(p: Page, response: Option<UserAccounts.Response>,
                        fetched: Option<seq<UserAccounts.User>>, val: string, i: nat)
    requires WellFormed(p) && i < OtpLength
    ensures var accepted := response.Some? && Ok(response.value);
            && AfterSend(p, response).step == (if accepted then Otp else p.step)
            && AfterVerify(p, response).step == (if accepted && [] !in p.otp then Reset else p.step)
            && AfterReset(p, response).step ==
                 (if accepted && ResetSent(p).Some? then Login else p.step)
            && AfterLogin(p, fetched).step == p.step
            && AfterTick(p).step == p.step
  {
    SendRule(p, response);
    VerifyRule(p, response);
    ResetRule(p, response);
    LoginRule(p, fetched);
    TickRule(p, 0);
  }

  // ---------------------------------------------------------------------
  // The page as mutable state

  class LoginScreen {
    var username: string
    var password: string
    var step: Step
    var otp: seq<string>
    var otpTime: nat
    var newPass: string
    var confirmPass: string
    var passwordError: string
    var toast: Option<string>
    var session: Option<UserAccounts.User>

    function State(): Page
      reads this
    {
      Page(username, password, step, otp, otpTime, newPass, confirmPass, passwordError, toast, session)
    }

    predicate Valid()
      reads this
    {
      WellFormed(State())
    }

    constructor ()
      ensures Valid() && State() == Opened()
    {
      username, password := [], [];
      step := Login;
      otp := EmptySlots();
      otpTime := OtpTime;
      newPass, confirmPass, passwordError := [], [], [];
      toast, session := None, None;
    }

    /** Typing into the username and password inputs. */
    method EnterCredentials(u: string, p: string)
      requires Valid()
      modifies this
      ensures Valid() && State() == old(State()).(username := u, password := p)
    {
      username, password := u, p;
    }

    /** Typing into the new-password and confirmation inputs. */
    method EnterNewPassword(p: string, c: string)
      requires Valid()
      modifies this
      ensures Valid() && State() == old(State()).(newPass := p, confirmPass := c)
    {
      newPass, confirmPass := p, c;
    }

    /** `handleLogin`. */
    method HandleLogin(fetched: Option<seq<UserAccounts.User>>)
      requires Valid()
      modifies this
      ensures Valid() && State() == AfterLogin(old(State()), fetched)
    {
      if username == [] || password == [] {
        toast := Some("Enter username and password");
        return;
      }
      if fetched.None? {
        toast := Some("Login failed");
        return;
      }
      var m := MatchUser(fetched.value, username, password);
      if m.None? {
        toast := Some("Invalid username or password");
        return;
      }
      username, password := [], [];
      otp := EmptySlots();
      newPass, confirmPass, passwordError := [], [], [];
      session := Some(fetched.value[m.value]);
      toast := Some("Login successful");
    }

    /** `sendOtp` as written, followed by the timer effect. */
    method SendOtpAsWritten(response: Option<UserAccounts.Response>)
      requires Valid()
      modifies this
      ensures Valid() && State() == AfterSendAsWritten(old(State()), response)
    {
      if response.None? {
        toast := Some("Failed to send OTP");
        return;
      }
      if !Ok(response.value) {
        toast := Some(MessageOr(response.value, "Failed to send OTP"));
        return;
      }
      AdminEmailMaskable();
      toast := Some(NoticeFor(AdminEmail));
      otp := EmptySlots();
      if step != Otp {
        otpTime := OtpTime;
      }
      step := Otp;
    }

    /** `sendOtp` with the countdown restarted on every successful send. */
    method SendOtp(response: Option<UserAccounts.Response>)
      requires Valid()
      modifies this
      ensures Valid() && State() == AfterSend(old(State()), response)
    {
      if response.None? {
        toast := Some("Failed to send OTP");
        return;
      }
      if !Ok(response.value) {
        toast := Some(MessageOr(response.value, "Failed to send OTP"));
        return;
      }
      AdminEmailMaskable();
      toast := Some(NoticeFor(AdminEmail));
      otp := EmptySlots();
      otpTime := OtpTime;
      step := Otp;
    }

    /** One second of the countdown interval. */
    method Tick()
      requires Valid()
      modifies this
      ensures Valid() && State() == AfterTick(old(State()))
    {
      if step == Otp {
        otpTime := if otpTime > 0 then otpTime - 1 else 0;
      }
    }

    /** `handleOtpChange(val, i)` for one of the six inputs. */
    method HandleOtpChange(val: string, i: nat)
      requires Valid() && i < OtpLength
      modifies this
      ensures Valid() && State() == old(State()).(otp := OtpAfterChange(old(otp), val, i))
    {
      OtpChangeKeepsSlots(otp, val, i);
      if SlotValue(val) {
        otp := otp[i := val];
      }
    }

    /** `verifyOtp`; `sent` is the code posted, if any. */
    method VerifyOtp(response: Option<UserAccounts.Response>) returns (sent: Option<string>)
      requires Valid()
      modifies this
      ensures Valid() && State() == AfterVerify(old(State()), response)
      ensures sent == VerifySent(old(State()))
    {
      if [] in otp {
        toast := Some("Enter complete OTP");
        return None;
      }
      sent := Some(EnteredCode(otp));
      if response.None? {
        toast := Some("OTP verification failed");
      } else if !Ok(response.value) {
        toast := Some(MessageOr(response.value, "Invalid OTP"));
      } else {
        toast := Some("OTP verified");
        step := Reset;
      }
    }

    /** `resetPassword`; `sent` is the password posted, if any. */
    method ResetPassword(response: Option<UserAccounts.Response>) returns (sent: Option<string>)
      requires Valid()
      modifies this
      ensures Valid() && State() == AfterReset(old(State()), response)
      ensures sent == ResetSent(old(State()))
    {
      passwordError := [];
      var err := ResetError(newPass, confirmPass);
      if err.Some? {
        passwordError := err.value;
        return None;
      }
      sent := Some(newPass);
      if response.None? {
        passwordError := "Password reset failed";
      } else if !Ok(response.value) {
        passwordError := MessageOr(response.value, "Reset failed");
      } else {
        toast := Some("Password updated successfully");
        step := Login;
        username, password := [], [];
        newPass, confirmPass := [], [];
      }
    }
  }
}
