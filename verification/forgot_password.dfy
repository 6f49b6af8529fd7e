/** The password-recovery screen: four steps (find the account, confirm the email, enter the
    code, choose a new password), each button guarded by a local check and then a request whose
    answer is an input. A press and the arrival of its answer are separate events, so the
    screen's `loading` flag is observable between them. */
module ForgotPassword {
  import opened Options
  import opened Js

  /** The screen's state. `error` is shown when truthy; `timer` counts down the seconds before
      the code may be sent again. */
  datatype Recovery = Recovery(step: int, identifier: string, maskedEmail: Value, email: string,
                               otp: string, newPassword: string, confirmPassword: string,
                               loading: bool, error: Value, timer: int)

  /** The screen as it opens: step 1, every field empty, no timer. */
  const Start: Recovery := Recovery(1, "", Str(""), "", "", "", "", false, Str(""), 0)

  /** The seconds to wait before the code may be sent again. */
  const ResendDelay: nat := 60

  /** A state the screen can be in: one of the four steps, the timer within its range. */
  predicate ValidRecovery(s: Recovery) {
    1 <= s.step <= 4 && 0 <= s.timer <= ResendDelay
  }

  /** The buttons: the main button of each step, and the resend link of step 3. */
  datatype Button = IdentifyButton | SendCodeButton | VerifyButton | ResendButton | ResetButton

  /** The button is on screen. */
  predicate Shown(s: Recovery, b: Button) {
    match b
    case IdentifyButton => s.step == 1
    case SendCodeButton => s.step == 2
    case VerifyButton => s.step == 3
    case ResendButton => s.step == 3
    case ResetButton => s.step == 4
  }

  /** The button can be pressed: every button is disabled while a request is out, and the
      resend link also while the timer runs. */
  predicate Enabled(s: Recovery, b: Button) {
    !s.loading && (b == ResendButton ==> s.timer == 0)
  }

  /** The requests, with the fields each sends. */
  datatype Request =
    | Identify(identifier: string)
    | SendCode(identifier: string, email: string)
    | Verify(identifier: string, otp: string)
    | Reset(identifier: string, otp: string, newPassword: string)

  /** What a press leads to: the state, and the request it sends if the local check passed. */
  datatype Pressed = Pressed(state: Recovery, sent: Option<Request>)

  const MinPasswordLength: nat := 6

  /** The local check of a button: the message it shows, or None when the request may go. The
      reset button checks that the passwords match before it checks their length. */
  function GuardMessage(s: Recovery, b: Button): (m: Option<string>)
    ensures m.Some? ==> m.value != ""
    ensures b == IdentifyButton ==> (m.None? <==> s.identifier != "")
    ensures (b == SendCodeButton || b == ResendButton) ==> (m.None? <==> s.email != "")
    ensures b == VerifyButton ==> (m.None? <==> s.otp != "")
    ensures b == ResetButton ==>
      (m.None? <==> s.newPassword == s.confirmPassword && Utf16Length(s.newPassword) >= MinPasswordLength)
  {
    match b
    case IdentifyButton => if s.identifier == "" then Some("Please enter your phone or username") else None
    case SendCodeButton => if s.email == "" then Some("Please enter your email") else None
    case ResendButton => if s.email == "" then Some("Please enter your email") else None
    case VerifyButton => if s.otp == "" then Some("Please enter the verification code") else None
    case ResetButton =>
      if s.newPassword != s.confirmPassword then Some("Passwords do not match")
      else if Utf16Length(s.newPassword) < MinPasswordLength then Some("Password must be at least 6 characters")
      else None
  }

  /** The length rule counts UTF-16 code units: three emoji above U+FFFF pass it. */
  lemma AstralPasswordLongEnough(s: Recovery)
    requires s.newPassword == s.confirmPassword == "\U{1F600}\U{1F600}\U{1F600}"
    ensures |s.newPassword| == 3
    ensures GuardMessage(s, ResetButton) == None
  {
    var e := '\U{1F600}';
    assert s.newPassword == [e, e, e];
    assert Utf16Length([e]) == 2 by {
      assert [e][1..] == [];
    }
    assert Utf16Length([e, e]) == 4 by {
      assert [e, e][1..] == [e];
    }
    assert Utf16Length([e, e, e]) == 6 by {
      assert [e, e, e][1..] == [e, e];
    }
  }

  /** The request a button sends. */
  function RequestOf(s: Recovery, b: Button): Request {
    match b
    case IdentifyButton => Identify(s.identifier)
    case SendCodeButton => SendCode(s.identifier, s.email)
    case ResendButton => SendCode(s.identifier, s.email)
    case VerifyButton => Verify(s.identifier, s.otp)
    case ResetButton => Reset(s.identifier, s.otp, s.newPassword)
  }

  /** Pressing a button: a failed check shows its message and sends nothing; otherwise the
      error is cleared, loading starts and the request goes out. The step never changes here. */
  function Press(s: Recovery, b: Button): (p: Pressed)
    requires Shown(s, b) && Enabled(s, b)
    ensures p.sent.None? <==> GuardMessage(s, b).Some?
    ensures p.sent.None? ==> p.state == s.(error := Str(GuardMessage(s, b).value))
    ensures p.sent.Some? ==> p.state == s.(loading := true, error := Str("")) && p.sent.value == RequestOf(s, b)
  {
    match GuardMessage(s, b)
    case Some(m) => Pressed(s.(error := Str(m)), None)
    case None => Pressed(s.(loading := true, error := Str("")), Some(RequestOf(s, b)))
  }

  /** The server's answer: the response, or the error the request rejects with. */
  datatype Reply = Answered(response: Value) | Rejected(err: Value)

  /** What an answer leads to: the state, and whether the screen leaves for the login. */
  datatype Settled = Settled(state: Recovery, toLogin: bool)

  /** The error text of a rejected request: the server's message, else the request's own
      fallback. */
  function FailureText(err: Value, r: Request): (t: Value)
    ensures Truthy(t)
  {
    Or(Get(Get(Get(err, "response"), "data"), "message"),
       Str(match r
           case Identify(_) => "User not found"
           case SendCode(_, _) => "Verification failed"
           case Verify(_, _) => "Invalid or expired code"
           case Reset(_, _, _) => "Reset failed"))
  }

  /** The step a successful request leads to, if it changes the step. */
  function NextStep(r: Request): Option<int> {
    match r
    case Identify(_) => Some(2)
    case SendCode(_, _) => Some(3)
    case Verify(_, _) => Some(4)
    case Reset(_, _, _) => None
  }

  /** The answer arrives: loading ends in every case. A failure shows its error and keeps the
      step. A success moves on: identify stores the masked email, sending the code starts the
      timer, and the reset leaves for the login. */
  function Settle(s: Recovery, r: Request, reply: Reply): (o: Settled)
    ensures !o.state.loading
    ensures reply.Rejected? ==> o == Settled(s.(loading := false, error := FailureText(reply.err, r)), false)
    ensures reply.Answered? ==> o.state.error == s.error
    ensures o.toLogin <==> reply.Answered? && r.Reset?
    ensures o.state.step != s.step ==> reply.Answered? && NextStep(r) == Some(o.state.step)
    ensures reply.Answered? && NextStep(r).Some? ==> o.state.step == NextStep(r).value
    ensures reply.Answered? && r.Identify? ==>
      o.state.maskedEmail == Get(Get(reply.response, "data"), "maskedEmail")
    ensures o.state.timer != s.timer ==> reply.Answered? && r.SendCode? && o.state.timer == ResendDelay
    ensures reply.Answered? && r.SendCode? ==> o.state.timer == ResendDelay
  {
    var t := s.(loading := false);
    match reply
    case Rejected(err) => Settled(t.(error := FailureText(err, r)), false)
    case Answered(response) =>
      match r
      case Identify(_) => Settled(t.(maskedEmail := Get(Get(response, "data"), "maskedEmail"), step := 2), false)
      case SendCode(_, _) => Settled(t.(step := 3, timer := ResendDelay), false)
      case Verify(_, _) => Settled(t.(step := 4), false)
      case Reset(_, _, _) => Settled(t, true)
  }

  /** One second of the countdown: the timer drops by one while it is positive. */
  function Tick(s: Recovery): (t: Recovery)
    ensures t.timer == if s.timer > 0 then s.timer - 1 else s.timer
    ensures t.(timer := s.timer) == s
  {
    if s.timer > 0 then s.(timer := s.timer - 1) else s
  }

  /** `n` seconds of the countdown. */
  function Ticks(s: Recovery, n: nat): Recovery
    decreases n
  {
    if n == 0 then s else Ticks(Tick(s), n - 1)
  }

  /** After `n` seconds the timer has dropped by `n`, and stops at zero. Nothing else changes. */
  lemma {:induction false} TicksCountDown(s: Recovery, n: nat)
    requires s.timer >= 0
    ensures Ticks(s, n).timer == if s.timer >= n then s.timer - n else 0
    ensures Ticks(s, n).(timer := s.timer) == s
    decreases n
  {
    if n > 0 {
      TicksCountDown(Tick(s), n - 1);
    }
  }

  /** After the code is sent, the resend link stays disabled for 59 seconds and is enabled at
      the 60th, unless a request is out. */
  lemma ResendWaitsForTimer(s: Recovery, reply: Reply, n: nat)
    requires reply.Answered? && s.loading
    ensures var t := Settle(s, SendCode(s.identifier, s.email), reply).state;
      (n < ResendDelay ==> !Enabled(Ticks(t, n), ResendButton))
      && (n >= ResendDelay ==> Enabled(Ticks(t, n), ResendButton))
      && Shown(Ticks(t, n), ResendButton)
  {
    var t := Settle(s, SendCode(s.identifier, s.email), reply).state;
    TicksCountDown(t, n);
  }

  /** The back link of step 2 returns to step 1. */
  function BackToIdentify(s: Recovery): (t: Recovery)
    requires s.step == 2
    ensures t.step == 1 && Shown(t, IdentifyButton)
    ensures t.(step := 2) == s
  {
    s.(step := 1)
  }

  /** The recovery stays on one of the four steps, with the timer in range, whatever happens. */
  lemma StaysValid(s: Recovery, b: Button, r: Request, reply: Reply)
    requires ValidRecovery(s)
    ensures Shown(s, b) && Enabled(s, b) ==> ValidRecovery(Press(s, b).state)
    ensures ValidRecovery(Settle(s, r, reply).state)
    ensures ValidRecovery(Tick(s))
    ensures s.step == 2 ==> ValidRecovery(BackToIdentify(s))
  {
  }

  /** The step moves forward by one at most, and only on a successful answer: pressing never
      moves it. */
  lemma StepMovesByOne(s: Recovery, b: Button, reply: Reply)
    requires ValidRecovery(s) && Shown(s, b) && Enabled(s, b)
    requires Press(s, b).sent.Some?
    ensures var p := Press(s, b);
      p.state.step == s.step
      && Settle(p.state, p.sent.value, reply).state.step in {s.step, s.step + 1}
      && (Settle(p.state, p.sent.value, reply).state.step == s.step + 1 <==> reply.Answered? && b != ResendButton && b != ResetButton)
  {
  }

  /** The password is reset only when both entries match and are at least six UTF-16 code units
      long;
      a mismatch is reported first, even for a short password. */
  lemma ResetChecks(s: Recovery)
    requires Shown(s, ResetButton) && Enabled(s, ResetButton)
    ensures Press(s, ResetButton).sent.Some? ==>
      s.newPassword == s.confirmPassword && Utf16Length(s.newPassword) >= MinPasswordLength
    ensures s.newPassword != s.confirmPassword ==>
      Press(s, ResetButton).state.error == Str("Passwords do not match")
  {
  }

  /** The four progress bars: bar `i` (counting from 1) is lit when `i <= step`. */
  function Bars(step: int): (bars: seq<bool>)
    ensures |bars| == 4
  {
    seq(4, i requires 0 <= i < 4 => i + 1 <= step)
  }

  /** The number of lit bars. */
  function CountLit(bars: seq<bool>): (n: nat)
    ensures n <= |bars|
  {
    if bars == [] then 0 else (if bars[0] then 1 else 0) + CountLit(bars[1..])
  }

  /** On step `k` exactly the first `k` bars are lit. */
  lemma BarsShowStep(step: int)
    requires 1 <= step <= 4
    ensures CountLit(Bars(step)) == step
    ensures forall i :: 0 <= i < 4 ==> (Bars(step)[i] <==> i < step)
  {
    var b := Bars(step);
    assert CountLit(b[1..][1..][1..]) == (if b[3] then 1 else 0) by {
      assert b[1..][1..][1..][1..] == [];
    }
    assert CountLit(b[1..][1..]) == (if b[2] then 1 else 0) + (if b[3] then 1 else 0);
    assert CountLit(b[1..]) == (if b[1] then 1 else 0) + (if b[2] then 1 else 0) + (if b[3] then 1 else 0);
  }
}
