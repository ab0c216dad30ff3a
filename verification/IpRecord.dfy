/** The record kept for an IP address. */
module IpRecord {
  import opened Clock
  import opened Customs
  import opened UserLog
  import EventLog
  import LoginScore

  /** The errno of a login that was refused because of throttling. */
  const ERRNO_THROTTLED := 114

  /** `statuses` is the log of account status checks. */
  datatype State = State(
    bk: Stamp, su: Stamp, di: Stamp, rl: Stamp,
    lf: seq<Entry>, vc: seq<Entry>, statuses: seq<Entry>,
    sms: seq<int>, aa: seq<int>)

  const FRESH := State(Unset, Unset, Unset, Unset, [], [], [], [], [])

  predicate IsBlocked(l: Limits, s: State, now: int) {
    Active(s.bk, l.blockIntervalMs, now)
  }

  predicate IsSuspected(l: Limits, s: State, now: int) {
    Active(s.su, l.suspectIntervalMs, now)
  }

  predicate IsDisabled(l: Limits, s: State, now: int) {
    Active(s.di, l.disableIntervalMs, now)
  }

  predicate IsRateLimited(l: Limits, s: State, now: int) {
    Active(s.rl, l.ipRateLimitBanDurationMs, now)
  }

  function RetryAfter(l: Limits, s: State, now: int): nat {
    Max(RetrySeconds(MsLeft(s.rl, l.ipRateLimitBanDurationMs, now)), RetrySeconds(MsLeft(s.bk, l.blockIntervalMs, now)))
  }

  function Trimmed(l: Limits, log: seq<Entry>, max: nat, now: int): seq<Entry> {
    Keep(log, now - l.ipRateLimitIntervalMs, max)
  }

  /** A ban forgets status checks, texts and accesses, but not logins or codes. */
  function Banned(s: State, now: int): State {
    s.(rl := At(now), statuses := [], sms := [], aa := [])
  }

  function BannedIf(over: bool, s: State, now: int): State {
    if over then Banned(s, now) else s
  }

  function Counted(l: Limits, log: seq<Entry>, max: nat, email: string, now: int): seq<Entry> {
    Trimmed(l, Trimmed(l, log, max, now) + [Entry(now, email, 0)], max, now)
  }

  function StatusStage(l: Limits, s: State, action: Action, email: string, now: int): State {
    if !IsAccountStatus(action) then s
    else
      var log := Counted(l, s.statuses, l.maxAccountStatusCheck, email, now);
      BannedIf(|Users(log, 0)| > l.maxAccountStatusCheck, s.(statuses := log), now)
  }

  function CodeStage(l: Limits, s: State, action: Action, email: string, now: int): State {
    if !IsCodeVerifying(action) then s
    else
      var log := Counted(l, s.vc, l.maxVerifyCodes, email, now);
      BannedIf(|Users(log, 0)| > l.maxVerifyCodes, s.(vc := log), now)
  }

  predicate TooHeavy(l: Limits, lf: seq<Entry>) {
    LoginScore.Score(l.badLoginErrnoWeights, lf) > l.maxBadLoginsPerIp as real
  }

  function WithBadLogin(l: Limits, s: State, email: string, errno: int, now: int): State {
    s.(lf := Trimmed(l, s.lf, l.maxBadLoginsPerIp, now) + [Entry(now, email, if errno == 0 then 999 else errno)])
  }

  /** A reported failure is recorded; asking whether the address is over its limit trims the log again. */
  function WithReport(l: Limits, s: State, email: string, errno: int, now: int): State {
    var s' := WithBadLogin(l, s, email, errno, now);
    s'.(lf := Trimmed(l, s'.lf, l.maxBadLoginsPerIp, now))
  }

  /** A password check is refused already, so it counts as one more failed login. */
  predicate Throttles(l: Limits, s: State, action: Action, now: int) {
    IsPasswordChecking(action) && (IsRateLimited(l, s, now) || TooHeavy(l, Trimmed(l, s.lf, l.maxBadLoginsPerIp, now)))
  }

  function LoginStage(l: Limits, s: State, action: Action, email: string, now: int): State {
    if !IsPasswordChecking(action) then s
    else
      var s1 := if Throttles(l, s, action, now) then WithBadLogin(l, s, email, ERRNO_THROTTLED, now) else s;
      var s2 := s1.(lf := Trimmed(l, s1.lf, l.maxBadLoginsPerIp, now));
      BannedIf(TooHeavy(l, s2.lf), s2, now)
  }

  function SmsStage(l: Limits, s: State, action: Action, now: int): State {
    if !IsSmsSending(action) then s
    else
      var log := EventLog.Keep(s.sms + [now], now - l.ipRateLimitIntervalMs, l.maxSms + 1);
      BannedIf(|log| > l.maxSms, s.(sms := log), now)
  }

  function AccessStage(l: Limits, s: State, action: Action, now: int): State {
    if !IsAccountAccess(action) then s
    else BannedIf(|s.aa| + 1 > l.maxAccountAccess, s.(aa := s.aa + [now]), now)
  }

  /** An access that is not over its own limit passes whatever the ban stamp says. */
  function Updated(l: Limits, s: State, action: Action, email: string, now: int): (State, nat) {
    if IsBlocked(l, s, now) then (s, RetryAfter(l, s, now))
    else
      var s1 := StatusStage(l, s, action, email, now);
      var s2 := CodeStage(l, s1, action, email, now);
      var s3 := LoginStage(l, s2, action, email, now);
      var s4 := SmsStage(l, s3, action, now);
      var s5 := AccessStage(l, s4, action, now);
      if IsAccountAccess(action) && |s4.aa| + 1 <= l.maxAccountAccess then (s5, 0) else (s5, RetryAfter(l, s5, now))
  }

  class IpRecord {
    var bk: Stamp
    var su: Stamp
    var di: Stamp
    var rl: Stamp
    var lf: seq<Entry>
    var vc: seq<Entry>
    var statuses: seq<Entry>
    var sms: seq<int>
    var aa: seq<int>
    const limits: Limits

    function View(): State
      reads this
    {
      State(bk, su, di, rl, lf, vc, statuses, sms, aa)
    }

    constructor (limits: Limits)
      ensures View() == FRESH && this.limits == limits
    {
      this.limits := limits;
      bk, su, di, rl := Unset, Unset, Unset, Unset;
      lf, vc, statuses, sms, aa := [], [], [], [], [];
    }

    function Delay(now: int): nat
      reads this
    {
      Clock.Max(RetrySeconds(MsLeft(rl, limits.ipRateLimitBanDurationMs, now)),
                RetrySeconds(MsLeft(bk, limits.blockIntervalMs, now)))
    }

    method RateLimit(now: int)
      modifies this
      ensures View() == Banned(old(View()), now)
    {
      rl := At(now);
      statuses, sms, aa := [], [], [];
    }

    method TrimLog(log: seq<Entry>, max: nat, now: int) returns (kept: seq<Entry>)
      ensures kept == Trimmed(limits, log, max, now)
    {
      hide Keep;
      kept := Trim(log, now - limits.ipRateLimitIntervalMs, max);
    }

    method AddBadLogin(email: string, errno: int, now: int)
      modifies this
      ensures View() == WithBadLogin(limits, old(View()), email, errno, now)
    {
      hide Keep;
      lf := TrimLog(lf, limits.maxBadLoginsPerIp, now);
      lf := lf + [Entry(now, email, if errno == 0 then 999 else errno)];
    }

    method IsOverBadLogins(now: int) returns (over: bool)
      modifies this`lf
      ensures lf == Trimmed(limits, old(lf), limits.maxBadLoginsPerIp, now)
      ensures over <==> TooHeavy(limits, lf)
    {
      hide Keep, LoginScore.Score;
      lf := TrimLog(lf, limits.maxBadLoginsPerIp, now);
      var total := LoginScore.ComputeScore(limits.badLoginErrnoWeights, lf);
      over := total > limits.maxBadLoginsPerIp as real;
    }

    method CountStatus(action: Action, email: string, now: int)
      modifies this
      ensures View() == StatusStage(limits, old(View()), action, email, now)
    {
      hide Keep;
      if IsAccountStatus(action) {
        statuses := TrimLog(statuses, limits.maxAccountStatusCheck, now);
        statuses := TrimLog(statuses + [Entry(now, email, 0)], limits.maxAccountStatusCheck, now);
        var count := CountUsers(statuses);
        if count > limits.maxAccountStatusCheck {
          RateLimit(now);
        }
      }
    }

    method CountCode(action: Action, email: string, now: int)
      modifies this
      ensures View() == CodeStage(limits, old(View()), action, email, now)
    {
      hide Keep;
      if IsCodeVerifying(action) {
        vc := TrimLog(vc, limits.maxVerifyCodes, now);
        vc := TrimLog(vc + [Entry(now, email, 0)], limits.maxVerifyCodes, now);
        var count := CountUsers(vc);
        if count > limits.maxVerifyCodes {
          RateLimit(now);
        }
      }
    }

    method CheckLogins(action: Action, email: string, now: int)
      modifies this
      ensures View() == LoginStage(limits, old(View()), action, email, now)
    {
      hide Keep, TooHeavy, Active;
      if IsPasswordChecking(action) {
        KeepTwice(lf, now - limits.ipRateLimitIntervalMs, limits.maxBadLoginsPerIp);
        var refused := Active(rl, limits.ipRateLimitBanDurationMs, now);
        if !refused {
          refused := IsOverBadLogins(now);
        }
        if refused {
          AddBadLogin(email, ERRNO_THROTTLED, now);
        }
        var over := IsOverBadLogins(now);
        if over {
          RateLimit(now);
        }
      }
    }

    method CountText(action: Action, now: int)
      modifies this
      ensures View() == SmsStage(limits, old(View()), action, now)
    {
      hide EventLog.Keep;
      if IsSmsSending(action) {
        sms := EventLog.Trim(sms + [now], now - limits.ipRateLimitIntervalMs, limits.maxSms + 1);
        if |sms| > limits.maxSms {
          RateLimit(now);
        }
      }
    }

    method Update(action: Action, email: string, now: int) returns (retryAfter: nat)
      modifies this
      ensures (View(), retryAfter) == Updated(limits, old(View()), action, email, now)
    {
      hide StatusStage, CodeStage, LoginStage, SmsStage, Active, RetrySeconds;
      if Active(bk, limits.blockIntervalMs, now) {
        return Delay(now);
      }
      CountStatus(action, email, now);
      CountCode(action, email, now);
      CheckLogins(action, email, now);
      CountText(action, now);
      if IsAccountAccess(action) {
        aa := aa + [now];
        if |aa| > limits.maxAccountAccess {
          RateLimit(now);
        } else {
          return 0;
        }
      }
      return Delay(now);
    }
  }

  /** The counting loop with its table of emails seen. */
  method CountUsers(log: seq<Entry>) returns (count: nat)
    ensures count == |Users(log, 0)|
  {
    count := 0;
    var seen: set<string> := {};
    for i := 0 to |log|
      invariant count == |seen|
      invariant Users(log, 0) == seen + Users(log, i)
    {
      if log[i].u !in seen {
        count := count + 1;
        seen := seen + {log[i].u};
      }
    }
  }
}
