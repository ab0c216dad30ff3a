/** The record kept for an email address. */
module EmailRecord {
  import opened Clock
  import opened Customs
  import opened EventLog
  import opened Throttle

  datatype State = State(
    bk: Stamp, su: Stamp, di: Stamp, rl: Stamp, pr: Stamp,
    vc: seq<int>, xs: seq<int>, sms: seq<int>, lf: seq<int>, ub: seq<int>)

  const FRESH := State(Unset, Unset, Unset, Unset, Unset, [], [], [], [], [])

  /** The three kinds of request that `update` counts on a log of their own. */
  datatype Kind = Codes | Emails | Texts {

    predicate Counts(action: Action) {
      match this
      case Codes => IsCodeVerifying(action)
      case Emails => IsEmailSending(action)
      case Texts => IsSmsSending(action)
    }

    function Max(l: Limits): nat {
      match this
      case Codes => l.maxVerifyCodes
      case Emails => l.maxEmails
      case Texts => l.maxSms
    }

    function Log(s: State): seq<int> {
      match this
      case Codes => s.vc
      case Emails => s.xs
      case Texts => s.sms
    }

    function Write(s: State, log: seq<int>): State {
      match this
      case Codes => s.(vc := log)
      case Emails => s.(xs := log)
      case Texts => s.(sms := log)
    }
  }

  predicate IsRateLimited(l: Limits, s: State, now: int) {
    Active(s.rl, l.rateLimitIntervalMs, now)
  }

  predicate IsBlocked(l: Limits, s: State, now: int) {
    Active(s.bk, l.blockIntervalMs, now)
  }

  predicate IsSuspected(l: Limits, s: State, now: int) {
    Active(s.su, l.suspectIntervalMs, now)
  }

  predicate IsDisabled(l: Limits, s: State, now: int) {
    Active(s.di, l.disableIntervalMs, now)
  }

  predicate ShouldBlock(l: Limits, s: State, now: int) {
    IsRateLimited(l, s, now) || IsBlocked(l, s, now) || IsDisabled(l, s, now)
  }

  /** Reads `rl` and `bk` only; a disabled address gets no delay from here. */
  function RetryAfter(l: Limits, s: State, now: int): nat {
    Max(RetrySeconds(MsLeft(s.rl, l.rateLimitIntervalMs, now)), RetrySeconds(MsLeft(s.bk, l.blockIntervalMs, now)))
  }

  function Trimmed(l: Limits, log: seq<int>, max: nat, now: int): seq<int> {
    Keep(log, now - l.rateLimitIntervalMs, max + 1)
  }

  /** A ban forgets the emails and texts sent, but not codes, logins or unblocks. */
  function Banned(s: State, now: int): State {
    s.(rl := At(now), xs := [], sms := [])
  }

  /** The outcome of one stage of `update`. */
  datatype Stage = Pass(s: State) | Stop(s: State, retryAfter: nat)

  function StopWith(l: Limits, s: State, now: int): Stage {
    Stop(s, RetryAfter(l, s, now))
  }

  function CountStage(l: Limits, s: State, kind: Kind, action: Action, now: int): Stage {
    if !kind.Counts(action) then Pass(s)
    else if ShouldBlock(l, s, now) then StopWith(l, s, now)
    else
      var log := Trimmed(l, kind.Log(s) + [now], kind.Max(l), now);
      var s' := kind.Write(s, log);
      if |log| > kind.Max(l) then StopWith(l, Banned(s', now), now) else Pass(s')
  }

  function LoginStage(l: Limits, s: State, now: int): Stage {
    var s' := s.(lf := Trimmed(l, s.lf, l.maxBadLoginsPerEmail, now));
    if |s'.lf| > l.maxBadLoginsPerEmail then StopWith(l, Banned(s', now), now) else Pass(s')
  }

  /** A stage runs only if the one before it passed. */
  function ThenCount(l: Limits, stage: Stage, kind: Kind, action: Action, now: int): Stage {
    match stage
    case Stop(_, _) => stage
    case Pass(s) => CountStage(l, s, kind, action, now)
  }

  function ThenLogin(l: Limits, stage: Stage, now: int): Stage {
    match stage
    case Stop(_, _) => stage
    case Pass(s) => LoginStage(l, s, now)
  }

  function Counting(l: Limits, s: State, action: Action, now: int): Stage {
    ThenCount(l, ThenCount(l, CountStage(l, s, Codes, action, now), Emails, action, now), Texts, action, now)
  }

  function WithUnblock(s: State, unblock: bool, now: int): State {
    if unblock then s.(ub := s.ub + [now]) else s
  }

  function Updated(l: Limits, s: State, action: Action, unblock: bool, now: int): (State, nat) {
    if IsBlocked(l, s, now) then (s, RetryAfter(l, s, now))
    else
      var logins := ThenLogin(l, Counting(l, WithUnblock(s, unblock, now), action, now), now);
      (logins.s, if logins.Stop? then logins.retryAfter else 0)
  }

  function WithBadLogin(l: Limits, s: State, now: int): State {
    s.(lf := Trimmed(l, s.lf, l.maxBadLoginsPerEmail, now) + [now])
  }

  function WithUnblocksTrimmed(l: Limits, s: State, now: int): State {
    s.(ub := Trimmed(l, s.ub, l.maxUnblockAttempts, now))
  }

  class EmailRecord {
    var bk: Stamp
    var su: Stamp
    var di: Stamp
    var rl: Stamp
    var pr: Stamp
    var vc: seq<int>
    var xs: seq<int>
    var sms: seq<int>
    var lf: seq<int>
    var ub: seq<int>
    const limits: Limits

    function View(): State
      reads this
    {
      State(bk, su, di, rl, pr, vc, xs, sms, lf, ub)
    }

    constructor (limits: Limits)
      ensures View() == FRESH && this.limits == limits
    {
      this.limits := limits;
      bk, su, di, rl, pr := Unset, Unset, Unset, Unset, Unset;
      vc, xs, sms, lf, ub := [], [], [], [], [];
    }

    function Blocking(now: int): bool
      reads this
    {
      || Active(rl, limits.rateLimitIntervalMs, now)
      || Active(bk, limits.blockIntervalMs, now)
      || Active(di, limits.disableIntervalMs, now)
    }

    function Delay(now: int): nat
      reads this
    {
      Clock.Max(RetrySeconds(MsLeft(rl, limits.rateLimitIntervalMs, now)),
                RetrySeconds(MsLeft(bk, limits.blockIntervalMs, now)))
    }

    method RateLimit(now: int)
      modifies this
      ensures View() == Banned(old(View()), now)
    {
      rl := At(now);
      xs, sms := [], [];
    }

    method AddBadLogin(now: int)
      modifies this
      ensures View() == WithBadLogin(limits, old(View()), now)
    {
      hide Keep;
      lf := Trim(lf, now - limits.rateLimitIntervalMs, limits.maxBadLoginsPerEmail + 1);
      lf := lf + [now];
    }

    method CanUnblock(now: int) returns (can: bool)
      modifies this
      ensures View() == WithUnblocksTrimmed(limits, old(View()), now)
      ensures can <==> |ub| <= limits.maxUnblockAttempts
    {
      hide Keep;
      ub := Trim(ub, now - limits.rateLimitIntervalMs, limits.maxUnblockAttempts + 1);
      can := |ub| <= limits.maxUnblockAttempts;
    }

    /** Counts a code check; `stop` tells the caller to retry. */
    method CountCode(action: Action, now: int) returns (stop: bool)
      modifies this
      ensures CountStage(limits, old(View()), Codes, action, now) ==
                if stop then Stop(View(), Delay(now)) else Pass(View())
    {
      hide Keep;
      if !IsCodeVerifying(action) {
        return false;
      }
      if Blocking(now) {
        return true;
      }
      vc := Trim(vc + [now], now - limits.rateLimitIntervalMs, limits.maxVerifyCodes + 1);
      if |vc| > limits.maxVerifyCodes {
        RateLimit(now);
        return true;
      }
      return false;
    }

    /** Counts an email to be sent. */
    method CountEmail(action: Action, now: int) returns (stop: bool)
      modifies this
      ensures CountStage(limits, old(View()), Emails, action, now) ==
                if stop then Stop(View(), Delay(now)) else Pass(View())
    {
      hide Keep;
      if !IsEmailSending(action) {
        return false;
      }
      if Blocking(now) {
        return true;
      }
      xs := Trim(xs + [now], now - limits.rateLimitIntervalMs, limits.maxEmails + 1);
      if |xs| > limits.maxEmails {
        RateLimit(now);
        return true;
      }
      return false;
    }

    /** Counts an sms to be sent. */
    method CountText(action: Action, now: int) returns (stop: bool)
      modifies this
      ensures CountStage(limits, old(View()), Texts, action, now) ==
                if stop then Stop(View(), Delay(now)) else Pass(View())
    {
      hide Keep;
      if !IsSmsSending(action) {
        return false;
      }
      if Blocking(now) {
        return true;
      }
      sms := Trim(sms + [now], now - limits.rateLimitIntervalMs, limits.maxSms + 1);
      if |sms| > limits.maxSms {
        RateLimit(now);
        return true;
      }
      return false;
    }

    method CheckLogins(now: int) returns (stop: bool)
      modifies this
      ensures LoginStage(limits, old(View()), now) == if stop then Stop(View(), Delay(now)) else Pass(View())
    {
      hide Keep;
      lf := Trim(lf, now - limits.rateLimitIntervalMs, limits.maxBadLoginsPerEmail + 1);
      if |lf| > limits.maxBadLoginsPerEmail {
        RateLimit(now);
        return true;
      }
      return false;
    }

    /** The three counting stages, of which at most one acts. */
    method CountRequest(action: Action, now: int) returns (stop: bool)
      modifies this
      ensures Counting(limits, old(View()), action, now) == if stop then Stop(View(), Delay(now)) else Pass(View())
    {
      hide Keep, CountStage, RetrySeconds, MsLeft, Active;
      stop := CountCode(action, now);
      if !stop {
        stop := CountEmail(action, now);
      }
      if !stop {
        stop := CountText(action, now);
      }
    }

    method Update(action: Action, unblock: bool, now: int) returns (retryAfter: nat)
      modifies this
      ensures (View(), retryAfter) == Updated(limits, old(View()), action, unblock, now)
    {
      hide Keep, Counting, LoginStage, RetrySeconds, MsLeft, Active;
      if Active(bk, limits.blockIntervalMs, now) {
        return Delay(now);
      }
      if unblock {
        ub := ub + [now];
      }
      var stop := CountRequest(action, now);
      if stop {
        return Delay(now);
      }
      stop := CheckLogins(now);
      if stop {
        return Delay(now);
      }
      return 0;
    }
  }

  // ---- The retry delay ----

  /** The delay is exact: it is the number of whole seconds, from now on, at whose start
      the address is still rate-limited or blocked. */
  lemma RetryAfterIsExact(l: Limits, s: State, now: int, n: nat)
    requires Epoch(l, now)
    ensures n < RetryAfter(l, s, now) <==> IsRateLimited(l, s, now + 1000 * n) || IsBlocked(l, s, now + 1000 * n)
  {
    RetrySecondsTight(MsLeft(s.rl, l.rateLimitIntervalMs, now));
    RetrySecondsTight(MsLeft(s.bk, l.blockIntervalMs, now));
  }

  // ---- Whole runs ----

  /** What happens to the record: `/check`, `/failedLoginAttempt`, `/passwordReset`, a manual
      block, and the flags set by the fraud detection pipeline. */
  datatype Step =
    | Check(t: int, action: Action, unblock: bool)
    | BadLogin(t: int)
    | Reset(t: int)
    | Block(t: int)
    | Suspect(t: int)
    | Disable(t: int)

  function Applied(l: Limits, s: State, step: Step): (State, nat) {
    match step
    case Check(t, action, unblock) =>
      var (s', retryAfter) := Updated(l, s, action, unblock, t);
      (WithUnblocksTrimmed(l, s', t), retryAfter)
    case BadLogin(t) => (WithBadLogin(l, s, t), 0)
    case Reset(t) => (s.(pr := At(t)), 0)
    case Block(t) => (s.(bk := At(t)), 0)
    case Suspect(t) => (s.(su := At(t)), 0)
    case Disable(t) => (s.(di := At(t)), 0)
  }

  predicate Clocked(l: Limits, steps: seq<Step>) {
    && (forall i :: 0 <= i < |steps| ==> Epoch(l, steps[i].t))
    && (forall i, j :: 0 <= i < j < |steps| ==> steps[i].t <= steps[j].t)
  }

  function After(l: Limits, steps: seq<Step>): State {
    if steps == [] then FRESH
    else Applied(l, After(l, steps[..|steps| - 1]), steps[|steps| - 1]).0
  }

  /** The step is a counted request of this kind that was let through. */
  predicate LetThrough(l: Limits, s: State, kind: Kind, step: Step) {
    step.Check? && kind.Counts(step.action) && Applied(l, s, step).1 == 0
  }

  /** Times of the requests of one kind that were let through. */
  function Sent(l: Limits, kind: Kind, steps: seq<Step>): seq<int> {
    if steps == [] then []
    else
      var init, last := steps[..|steps| - 1], steps[|steps| - 1];
      Sent(l, kind, init) + if LetThrough(l, After(l, init), kind, last) then [last.t] else []
  }

  /** The window from `lo` saw at most the configured number of requests let through. */
  predicate Throttled(l: Limits, kind: Kind, steps: seq<Step>, lo: int) {
    CountIn(Sent(l, kind, steps), lo, lo + l.rateLimitIntervalMs) <= kind.Max(l)
  }

  /** No request is checked while the address is disabled. */
  predicate NeverDisabled(l: Limits, steps: seq<Step>) {
    forall i, j :: 0 <= i < j < |steps| && steps[i].Disable? && steps[j].Check? ==>
      steps[j].t - steps[i].t >= l.disableIntervalMs
  }

  lemma {:induction false} DisabledByStep(l: Limits, steps: seq<Step>)
    ensures After(l, steps).di.Unset? || exists i :: 0 <= i < |steps| && steps[i] == Disable(After(l, steps).di.ms)
  {
    hide Keep, CountStage;
    if steps != [] {
      var init := steps[..|steps| - 1];
      DisabledByStep(l, init);
      FlagsUntouched(l, After(l, init), steps[|steps| - 1]);
      if After(l, steps).di == After(l, init).di && After(l, init).di.At? {
        var i :| 0 <= i < |init| && init[i] == Disable(After(l, init).di.ms);
        assert steps[i] == init[i];
      } else if After(l, steps).di.At? {
        assert steps[|steps| - 1] == Disable(After(l, steps).di.ms);
      }
    }
  }

  lemma FlagsUntouched(l: Limits, s: State, step: Step)
    ensures Applied(l, s, step).0.su == if step.Suspect? then At(step.t) else s.su
    ensures Applied(l, s, step).0.di == if step.Disable? then At(step.t) else s.di
    ensures Applied(l, s, step).0.pr == if step.Reset? then At(step.t) else s.pr
  {
    hide Keep, Updated, RetryAfter, Active;
    if step.Check? {
      if IsBlocked(l, s, step.t) {
        BlockedIsFinal(l, s, step.action, step.unblock, step.t);
      } else {
        OneStage(l, s, step.action, step.unblock, step.t);
      }
    }
  }

  /** The kind that counts the action; an action of no kind passes the last stage. */
  function KindOf(action: Action): Kind {
    if IsCodeVerifying(action) then Codes else if IsEmailSending(action) then Emails else Texts
  }

  /** No action is of two kinds, so only one counting stage acts. */
  lemma OneStage(l: Limits, s: State, action: Action, unblock: bool, now: int)
    requires !IsBlocked(l, s, now)
    ensures var stage := ThenLogin(l, CountStage(l, WithUnblock(s, unblock, now), KindOf(action), action, now), now);
            Updated(l, s, action, unblock, now) == (stage.s, if stage.Stop? then stage.retryAfter else 0)
    ensures forall kind: Kind :: kind.Counts(action) ==> kind == KindOf(action)
  {
    hide Keep, LoginStage, ShouldBlock, RetryAfter, Banned;
  }

  /** What a check may do to one kind's log and to the ban stamp: nothing, and then a
      request of that kind is refused unless the address is disabled; or the request is
      accepted and logged; or a ban starts. */
  ghost predicate Effect(l: Limits, s: State, kind: Kind, asks: bool, now: int, s': State, retry: nat) {
    var log, log' := kind.Log(s), kind.Log(s');
    var counted := Trimmed(l, log + [now], kind.Max(l), now);
    || (s'.rl == s.rl && log' == log && (asks ==> retry > 0 || IsDisabled(l, s, now)))
    || (s'.rl == s.rl && log' == counted && retry == 0 && asks && !IsRateLimited(l, s, now) && |counted| <= kind.Max(l))
    || (s'.rl == At(now) && retry > 0 && (log' == [] || log' == log || log' == counted))
  }

  lemma CheckEffect(l: Limits, s: State, kind: Kind, action: Action, unblock: bool, now: int)
    requires l.rateLimitIntervalMs > 0
    ensures var (s', retry) := Updated(l, s, action, unblock, now);
            Effect(l, s, kind, kind.Counts(action), now, s', retry)
  {
    hide Keep, Updated, CountStage, ThenLogin;
    if IsBlocked(l, s, now) {
      BlockedIsFinal(l, s, action, unblock, now);
      RetrySecondsTight(MsLeft(s.bk, l.blockIntervalMs, now));
    } else {
      OneStage(l, s, action, unblock, now);
      var s0 := WithUnblock(s, unblock, now);
      if kind.Counts(action) {
        CountedEffect(l, s0, kind, action, now);
      } else {
        OtherEffect(l, s0, kind, action, now);
      }
    }
  }

  lemma CountedEffect(l: Limits, s: State, kind: Kind, action: Action, now: int)
    requires l.rateLimitIntervalMs > 0 && kind.Counts(action)
    ensures var stage := ThenLogin(l, CountStage(l, s, kind, action, now), now);
            Effect(l, s, kind, true, now, stage.s, if stage.Stop? then stage.retryAfter else 0)
  {
    hide Keep;
    RetrySecondsTight(MsLeft(s.rl, l.rateLimitIntervalMs, now));
    RetrySecondsTight(MsLeft(s.bk, l.blockIntervalMs, now));
    RetrySecondsTight(MsLeft(At(now), l.rateLimitIntervalMs, now));
  }

  lemma OtherEffect(l: Limits, s: State, kind: Kind, action: Action, now: int)
    requires l.rateLimitIntervalMs > 0 && !kind.Counts(action)
    ensures var stage := ThenLogin(l, CountStage(l, s, KindOf(action), action, now), now);
            Effect(l, s, kind, false, now, stage.s, if stage.Stop? then stage.retryAfter else 0)
  {
    hide Keep;
    RetrySecondsTight(MsLeft(At(now), l.rateLimitIntervalMs, now));
  }

  lemma BlockedIsFinal(l: Limits, s: State, action: Action, unblock: bool, now: int)
    requires IsBlocked(l, s, now)
    ensures Updated(l, s, action, unblock, now) == (s, RetryAfter(l, s, now))
  {
    hide Keep;
  }

  /** What becomes of a request of a counted kind, case by case: refused while blocked or
      rate-limited, let through uncounted while disabled, banned when it is one too many or the
      bad logins are, and otherwise counted and let through. */
  lemma RequestFate(l: Limits, s: State, kind: Kind, action: Action, unblock: bool, now: int)
    requires l.rateLimitIntervalMs > 0 && Epoch(l, now) && kind.Counts(action)
    ensures var (s', retry) := Updated(l, s, action, unblock, now);
            var counted := Trimmed(l, kind.Log(s) + [now], kind.Max(l), now);
            if IsBlocked(l, s, now) || IsRateLimited(l, s, now) then
              retry > 0 && kind.Log(s') == kind.Log(s) && s'.rl == s.rl
            else if IsDisabled(l, s, now) then
              retry == 0 && kind.Log(s') == kind.Log(s) && s'.rl == s.rl
            else if |counted| > kind.Max(l)
                    || |Trimmed(l, s.lf, l.maxBadLoginsPerEmail, now)| > l.maxBadLoginsPerEmail then
              retry > 0 && s'.rl == At(now)
            else
              retry == 0 && kind.Log(s') == counted && s'.rl == s.rl
  {
    hide Keep, Updated;
    RetrySecondsTight(MsLeft(s.rl, l.rateLimitIntervalMs, now));
    RetrySecondsTight(MsLeft(s.bk, l.blockIntervalMs, now));
    RetrySecondsTight(MsLeft(At(now), l.rateLimitIntervalMs, now));
    if IsBlocked(l, s, now) {
      BlockedIsFinal(l, s, action, unblock, now);
    } else {
      OneStage(l, s, action, unblock, now);
    }
  }

  /** Counting always shows in the log. */
  lemma CountingShows(log: seq<int>, now: int, period: nat, cap: nat)
    requires period > 0 && |Keep(log + [now], now - period, cap)| < cap
    ensures Keep(log + [now], now - period, cap) != log
  {
    var start := Start(log + [now], now - period, cap, |log| + 1);
  }

  /** A counted request is let through uncounted exactly when the address is disabled and neither
      rate-limited nor blocked. */
  lemma UncountedExactlyWhen(l: Limits, s: State, kind: Kind, action: Action, unblock: bool, now: int)
    requires l.rateLimitIntervalMs > 0 && Epoch(l, now) && kind.Counts(action)
    ensures var (s', retry) := Updated(l, s, action, unblock, now);
            retry == 0 && kind.Log(s') == kind.Log(s)
            <==> IsDisabled(l, s, now) && !IsRateLimited(l, s, now) && !IsBlocked(l, s, now)
  {
    hide Keep, Updated;
    RequestFate(l, s, kind, action, unblock, now);
    if |Trimmed(l, kind.Log(s) + [now], kind.Max(l), now)| <= kind.Max(l) {
      CountingShows(kind.Log(s), now, l.rateLimitIntervalMs, kind.Max(l) + 1);
    }
  }

  lemma StepExplained(l: Limits, kind: Kind, g: Ledger, s: State, step: Step) returns (g': Ledger)
    requires l.rateLimitIntervalMs > 0 && step.t > 0 && !(step.Check? && IsDisabled(l, s, step.t))
    requires g.Explains(kind.Log(s), s.rl, l.rateLimitIntervalMs, kind.Max(l) + 1, step.t) && !g.pending
    requires Spaced(g.accepted, l.rateLimitIntervalMs, kind.Max(l))
    ensures var s' := Applied(l, s, step).0;
            && g'.accepted == g.accepted + (if LetThrough(l, s, kind, step) then [step.t] else [])
            && !g'.pending
            && g'.Explains(kind.Log(s'), s'.rl, l.rateLimitIntervalMs, kind.Max(l) + 1, step.t)
            && Spaced(g'.accepted, l.rateLimitIntervalMs, kind.Max(l))
  {
    hide Keep, Updated;
    g' := g;
    if step.Check? {
      CheckEffect(l, s, kind, step.action, step.unblock, step.t);
      var (s', retry) := Updated(l, s, step.action, step.unblock, step.t);
      g' := CheckExplained(l, kind, g, s, step.t, kind.Log(s'), s'.rl, LetThrough(l, s, kind, step));
    }
  }

  lemma CheckExplained(l: Limits, kind: Kind, g: Ledger, s: State, now: int, log': seq<int>, rl': Stamp, accepted: bool)
      returns (g': Ledger)
    requires now > 0 && g.Explains(kind.Log(s), s.rl, l.rateLimitIntervalMs, kind.Max(l) + 1, now) && !g.pending
    requires Spaced(g.accepted, l.rateLimitIntervalMs, kind.Max(l))
    requires var counted := Trimmed(l, kind.Log(s) + [now], kind.Max(l), now);
             || (!accepted && rl' == s.rl && log' == kind.Log(s))
             || (accepted && rl' == s.rl && log' == counted && !IsRateLimited(l, s, now) && |counted| <= kind.Max(l))
             || (!accepted && rl' == At(now) && (log' == [] || log' == kind.Log(s) || log' == counted))
    ensures g'.accepted == g.accepted + (if accepted then [now] else []) && !g'.pending
    ensures g'.Explains(log', rl', l.rateLimitIntervalMs, kind.Max(l) + 1, now)
    ensures Spaced(g'.accepted, l.rateLimitIntervalMs, kind.Max(l))
  {
    hide Keep;
    var log, rl, period, cap := kind.Log(s), s.rl, l.rateLimitIntervalMs, kind.Max(l) + 1;
    g' := g;
    if accepted {
      g' := Ledger(g.accepted + [now], g.banned, g.pushed + [now], false);
      ExplainsAcceptPushed(g, log, rl, period, cap, now);
      if cap <= |g'.accepted| {
        OldestIsOld(g', log + [now], rl, period, period, cap, now);
      }
      SpacedAppend(g.accepted, period, cap - 1, now);
      ExplainsTrim(g', log + [now], rl, period, cap, now);
    } else if rl' == At(now) {
      if log' == [] {
        g' := Ledger(g.accepted, |g.accepted|, [], false);
        ExplainsForget(g, log, rl, period, cap, now);
      } else if log' == log {
        ExplainsBan(g, log, rl, period, cap, now);
      } else {
        g' := Ledger(g.accepted, g.banned, g.pushed + [now], false);
        ExplainsPush(g, log, rl, period, cap, now);
        ExplainsTrim(g', log + [now], rl, period, cap, now);
        ExplainsBan(g', log', rl, period, cap, now);
      }
    }
  }

  lemma {:induction false} RunExplained(l: Limits, kind: Kind, steps: seq<Step>, now: int) returns (g: Ledger)
    requires Clocked(l, steps) && NeverDisabled(l, steps) && l.rateLimitIntervalMs > 0
    requires forall i :: 0 <= i < |steps| ==> steps[i].t <= now
    ensures var s := After(l, steps);
            && g.accepted == Sent(l, kind, steps) && !g.pending
            && g.Explains(kind.Log(s), s.rl, l.rateLimitIntervalMs, kind.Max(l) + 1, now)
            && Spaced(g.accepted, l.rateLimitIntervalMs, kind.Max(l))
  {
    hide Keep, Applied, LetThrough;
    g := EMPTY;
    if steps != [] {
      var init, last := steps[..|steps| - 1], steps[|steps| - 1];
      g := RunExplained(l, kind, init, last.t);
      DisabledByStep(l, init);
      g := StepExplained(l, kind, g, After(l, init), last);
      var s := After(l, steps);
      ExplainsLater(g, kind.Log(s), s.rl, l.rateLimitIntervalMs, kind.Max(l) + 1, last.t, now);
    }
  }

  /** Whatever else happens to the address, every window of one interval sees at most
      the configured number of code checks, emails and texts let through, as long as no
      check falls into the time in which the address is disabled. */
  lemma RequestThroughput(l: Limits, kind: Kind, steps: seq<Step>, lo: int)
    requires Clocked(l, steps) && NeverDisabled(l, steps)
    ensures Throttled(l, kind, steps, lo)
  {
    hide Keep, After, Sent;
    if l.rateLimitIntervalMs == 0 {
      EmptyWindow(Sent(l, kind, steps), lo);
    } else {
      var _ := RunExplained(l, kind, steps, if steps == [] then 0 else steps[|steps| - 1].t);
      SpacedBoundsWindows(Sent(l, kind, steps), l.rateLimitIntervalMs, kind.Max(l), lo);
    }
  }

  /** A disabled address is told to go ahead and its requests are not counted. */
  lemma {:induction false} DisabledLeaks(l: Limits, kind: Kind, action: Action, t: int, n: nat)
    returns (steps: seq<Step>)
    requires kind.Counts(action) && Epoch(l, t) && l.disableIntervalMs > 0
    ensures Clocked(l, steps) && forall i :: 0 <= i < |steps| ==> steps[i].t == t
    ensures After(l, steps) == FRESH.(di := At(t))
    ensures |Sent(l, kind, steps)| == n && forall i :: 0 <= i < n ==> Sent(l, kind, steps)[i] == t
  {
    hide Keep, Updated;
    if n == 0 {
      steps := [Disable(t)];
      assert steps[..0] == [];
    } else {
      var init := DisabledLeaks(l, kind, action, t, n - 1);
      steps := init + [Check(t, action, false)];
      assert steps[..|steps| - 1] == init;
      DisabledPasses(l, kind, action, t, t);
    }
  }

  lemma DisabledPasses(l: Limits, kind: Kind, action: Action, since: int, t: int)
    requires kind.Counts(action) && Epoch(l, t) && 0 < since <= t < since + l.disableIntervalMs
    ensures Applied(l, FRESH.(di := At(since)), Check(t, action, false)) == (FRESH.(di := At(since)), 0)
  {
    hide Updated;
    OneStage(l, FRESH.(di := At(since)), action, false, t);
  }

  /** Exactly when a configuration bounds the requests let through on every run: when
      addresses cannot be disabled, because the delay of a disabled address is 0. */
  lemma ThroughputExactlyWhen(l: Limits, kind: Kind)
    ensures (forall steps, lo :: Clocked(l, steps) ==> Throttled(l, kind, steps, lo))
            <==> l.disableIntervalMs == 0 || l.rateLimitIntervalMs == 0
  {
    hide Keep, After, Sent;
    if l.disableIntervalMs == 0 || l.rateLimitIntervalMs == 0 {
      forall steps, lo | Clocked(l, steps) ensures Throttled(l, kind, steps, lo) {
        if l.rateLimitIntervalMs == 0 {
          EmptyWindow(Sent(l, kind, steps), lo);
        } else {
          RequestThroughput(l, kind, steps, lo);
        }
      }
    } else {
      var action := match kind case Codes => VerifyTotpCode case Emails => CreateEmail case Texts => ConnectDeviceSms;
      var t := Late(l);
      var steps := DisabledLeaks(l, kind, action, t, kind.Max(l) + 1);
      CountAll(Sent(l, kind, steps), t, l.rateLimitIntervalMs);
      assert !Throttled(l, kind, steps, t);
    }
  }

  // ---- Bans never shorten ----

  lemma RlStaysOrMoves(l: Limits, s: State, step: Step)
    ensures Applied(l, s, step).0.rl == s.rl || Applied(l, s, step).0.rl == At(step.t)
  {
    hide Keep, RetryAfter;
  }

  /** Along every run the ban stamp, and with it the end of the ban, only moves forward. */
  lemma {:induction false} BansNeverShorten(l: Limits, steps: seq<Step>, k: nat)
    requires Clocked(l, steps) && k <= |steps|
    ensures NotEarlier(After(l, steps[..k]).rl, After(l, steps).rl)
    ensures steps != [] ==> NotEarlier(After(l, steps).rl, At(steps[|steps| - 1].t))
  {
    hide Applied;
    if k == |steps| {
      assert steps[..k] == steps;
    }
    if steps != [] {
      var init := steps[..|steps| - 1];
      BansNeverShorten(l, init, if k < |steps| then k else 0);
      assert k < |steps| ==> init[..k] == steps[..k];
      RlStaysOrMoves(l, After(l, init), steps[|steps| - 1]);
    }
  }

  // ---- What the record can forget ----

  /** Everything about the record that can still matter at `now`. */
  function Faded(l: Limits, s: State, now: int): State {
    State(
      Fade(s.bk, l.blockIntervalMs, now), Fade(s.su, l.suspectIntervalMs, now), Fade(s.di, l.disableIntervalMs, now),
      Fade(s.rl, l.rateLimitIntervalMs, now), Fade(s.pr, l.rateLimitIntervalMs, now),
      Trimmed(l, s.vc, l.maxVerifyCodes, now), Trimmed(l, s.xs, l.maxEmails, now), Trimmed(l, s.sms, l.maxSms, now),
      Trimmed(l, s.lf, l.maxBadLoginsPerEmail, now), Trimmed(l, s.ub, l.maxUnblockAttempts, now))
  }

  lemma FadedLater(l: Limits, a: State, b: State, now: int, later: int)
    requires Faded(l, a, now) == Faded(l, b, now) && now <= later
    ensures Faded(l, a, later) == Faded(l, b, later)
  {
    hide Keep;
    TrimmedLater(l, a.vc, b.vc, l.maxVerifyCodes, now, later);
    TrimmedLater(l, a.xs, b.xs, l.maxEmails, now, later);
    TrimmedLater(l, a.sms, b.sms, l.maxSms, now, later);
    TrimmedLater(l, a.lf, b.lf, l.maxBadLoginsPerEmail, now, later);
    TrimmedLater(l, a.ub, b.ub, l.maxUnblockAttempts, now, later);
  }

  lemma TrimmedLater(l: Limits, a: seq<int>, b: seq<int>, max: nat, now: int, later: int)
    requires Trimmed(l, a, max, now) == Trimmed(l, b, max, now) && now <= later
    ensures Trimmed(l, a, max, later) == Trimmed(l, b, max, later)
  {
    hide Keep;
    KeepLater(a, b, now - l.rateLimitIntervalMs, max + 1, later - l.rateLimitIntervalMs);
  }

  lemma TrimmedExtends(l: Limits, a: seq<int>, b: seq<int>, max: nat, now: int)
    requires Trimmed(l, a, max, now) == Trimmed(l, b, max, now)
    ensures Trimmed(l, a + [now], max, now) == Trimmed(l, b + [now], max, now)
    ensures Trimmed(l, Trimmed(l, a, max, now), max, now) == Trimmed(l, a, max, now)
    ensures Trimmed(l, Trimmed(l, a, max, now) + [now], max, now) == Trimmed(l, a + [now], max, now)
  {
    hide Keep;
    var cutoff := now - l.rateLimitIntervalMs;
    KeepExtends(a, b, cutoff, max + 1, [now], cutoff);
    KeepTwice(a, cutoff, max + 1);
    KeepAbsorbs(a, cutoff, max + 1, [now], cutoff);
  }

  lemma FadedVerdicts(l: Limits, a: State, b: State, now: int)
    requires Faded(l, a, now) == Faded(l, b, now) && Epoch(l, now)
    ensures IsRateLimited(l, a, now) == IsRateLimited(l, b, now)
    ensures IsBlocked(l, a, now) == IsBlocked(l, b, now)
    ensures IsDisabled(l, a, now) == IsDisabled(l, b, now)
    ensures IsSuspected(l, a, now) == IsSuspected(l, b, now)
    ensures RetryAfter(l, a, now) == RetryAfter(l, b, now)
  {
    hide Keep;
    FadeDecides(a.rl, b.rl, l.rateLimitIntervalMs, now);
    FadeDecides(a.bk, b.bk, l.blockIntervalMs, now);
  }

  lemma FadedCount(l: Limits, a: State, b: State, kind: Kind, action: Action, now: int)
    requires Faded(l, a, now) == Faded(l, b, now) && Epoch(l, now)
    ensures var (x, y) := (CountStage(l, a, kind, action, now), CountStage(l, b, kind, action, now));
            x.Stop? == y.Stop? && Faded(l, x.s, now) == Faded(l, y.s, now) && (x.Stop? ==> x.retryAfter == y.retryAfter)
  {
    hide Keep, RetryAfter, Active;
    FadedVerdicts(l, a, b, now);
    TrimmedExtends(l, kind.Log(a), kind.Log(b), kind.Max(l), now);
    TrimmedExtends(l, kind.Log(a) + [now], kind.Log(b) + [now], kind.Max(l), now);
    var log := Trimmed(l, kind.Log(a) + [now], kind.Max(l), now);
    if kind.Counts(action) && !ShouldBlock(l, a, now) && |log| > kind.Max(l) {
      FadedVerdicts(l, Banned(kind.Write(a, log), now), Banned(kind.Write(b, log), now), now);
    }
  }

  lemma FadedLogin(l: Limits, a: State, b: State, now: int)
    requires Faded(l, a, now) == Faded(l, b, now) && Epoch(l, now)
    ensures var (x, y) := (LoginStage(l, a, now), LoginStage(l, b, now));
            x.Stop? == y.Stop? && Faded(l, x.s, now) == Faded(l, y.s, now) && (x.Stop? ==> x.retryAfter == y.retryAfter)
  {
    hide Keep, RetryAfter, Active;
    var lf := Trimmed(l, a.lf, l.maxBadLoginsPerEmail, now);
    if |lf| > l.maxBadLoginsPerEmail {
      FadedVerdicts(l, Banned(a.(lf := lf), now), Banned(b.(lf := lf), now), now);
    }
  }

  lemma FadedUpdate(l: Limits, a: State, b: State, action: Action, unblock: bool, now: int)
    requires Faded(l, a, now) == Faded(l, b, now) && Epoch(l, now)
    ensures var (x, y) := (Updated(l, a, action, unblock, now), Updated(l, b, action, unblock, now));
            x.1 == y.1 && Faded(l, x.0, now) == Faded(l, y.0, now)
  {
    hide Keep, RetryAfter, CountStage, LoginStage, Updated, IsBlocked, Active;
    FadedVerdicts(l, a, b, now);
    if IsBlocked(l, a, now) {
      BlockedIsFinal(l, a, action, unblock, now);
      BlockedIsFinal(l, b, action, unblock, now);
    } else {
      OneStage(l, a, action, unblock, now);
      OneStage(l, b, action, unblock, now);
      TrimmedExtends(l, a.ub, b.ub, l.maxUnblockAttempts, now);
      var (a0, b0) := (WithUnblock(a, unblock, now), WithUnblock(b, unblock, now));
      FadedCount(l, a0, b0, KindOf(action), action, now);
      var (x, y) := (CountStage(l, a0, KindOf(action), action, now), CountStage(l, b0, KindOf(action), action, now));
      FadedLogin(l, x.s, y.s, now);
    }
  }

  /** Records that fade to the same value stay indistinguishable: same verdicts, same
      unblock answer, and again the same faded value. */
  lemma FadedDecides(l: Limits, a: State, b: State, step: Step)
    requires Faded(l, a, step.t) == Faded(l, b, step.t) && Epoch(l, step.t)
    ensures Applied(l, a, step).1 == Applied(l, b, step).1
    ensures Faded(l, Applied(l, a, step).0, step.t) == Faded(l, Applied(l, b, step).0, step.t)
    ensures step.Check? ==> Applied(l, a, step).0.ub == Applied(l, b, step).0.ub
  {
    hide Keep, Updated, Active;
    var now := step.t;
    if step.Check? {
      FadedUpdate(l, a, b, step.action, step.unblock, now);
      var (x, y) := (Updated(l, a, step.action, step.unblock, now).0, Updated(l, b, step.action, step.unblock, now).0);
      TrimmedExtends(l, x.ub, y.ub, l.maxUnblockAttempts, now);
    } else if step.BadLogin? {
      var max := l.maxBadLoginsPerEmail;
      TrimmedExtends(l, a.lf, b.lf, max, now);
      TrimmedExtends(l, b.lf, a.lf, max, now);
    }
  }

  /** No time in the record is later than `bound`. */
  predicate Old(s: State, bound: int) {
    && Past(s.bk, bound) && Past(s.su, bound) && Past(s.di, bound) && Past(s.rl, bound) && Past(s.pr, bound)
    && Below(s.vc, bound) && Below(s.xs, bound) && Below(s.sms, bound) && Below(s.lf, bound) && Below(s.ub, bound)
  }

  lemma TrimmedBelow(l: Limits, log: seq<int>, max: nat, now: int)
    requires Below(log, now)
    ensures Below(Trimmed(l, log, max, now), now)
  {
    hide Keep;
    KeepBelow(log, now - l.rateLimitIntervalMs, max + 1, now);
  }

  lemma CountStaysOld(l: Limits, s: State, kind: Kind, action: Action, now: int)
    requires Old(s, now)
    ensures Old(CountStage(l, s, kind, action, now).s, now)
  {
    hide Trimmed, RetryAfter;
    TrimmedBelow(l, kind.Log(s) + [now], kind.Max(l), now);
  }

  lemma LoginStaysOld(l: Limits, s: State, now: int)
    requires Old(s, now)
    ensures Old(LoginStage(l, s, now).s, now)
  {
    hide Trimmed, RetryAfter;
    TrimmedBelow(l, s.lf, l.maxBadLoginsPerEmail, now);
  }

  lemma UpdateStaysOld(l: Limits, s: State, action: Action, unblock: bool, now: int)
    requires Old(s, now)
    ensures Old(Updated(l, s, action, unblock, now).0, now)
  {
    hide Updated, CountStage, LoginStage, RetryAfter, IsBlocked;
    if IsBlocked(l, s, now) {
      BlockedIsFinal(l, s, action, unblock, now);
    } else {
      OneStage(l, s, action, unblock, now);
      var s0 := WithUnblock(s, unblock, now);
      CountStaysOld(l, s0, KindOf(action), action, now);
      LoginStaysOld(l, CountStage(l, s0, KindOf(action), action, now).s, now);
    }
  }

  lemma StaysOld(l: Limits, s: State, step: Step, bound: int)
    requires Old(s, bound) && bound <= step.t
    ensures Old(Applied(l, s, step).0, step.t)
  {
    hide Updated, Trimmed;
    match step {
      case Check(t, action, unblock) =>
        UpdateStaysOld(l, s, action, unblock, t);
        TrimmedBelow(l, Updated(l, s, action, unblock, t).0.ub, l.maxUnblockAttempts, t);
      case BadLogin(t) =>
        TrimmedBelow(l, s.lf, l.maxBadLoginsPerEmail, t);
      case _ =>
    }
  }

  /** What is left of a record once everything with a window has lapsed: a flag still active. */
  function Remainder(l: Limits, s: State, now: int): State {
    FRESH.(su := Fade(s.su, l.suspectIntervalMs, now), di := Fade(s.di, l.disableIntervalMs, now))
  }

  /** A record left alone for its intervals cannot be told from its remainder. */
  lemma FadesAway(l: Limits, s: State, bound: int, now: int)
    requires Old(s, bound) && now >= bound + l.rateLimitIntervalMs && now >= bound + l.blockIntervalMs
    ensures Faded(l, s, now) == Faded(l, Remainder(l, s, now), now)
  {
    hide Keep;
    var cutoff := now - l.rateLimitIntervalMs;
    KeepNothing(s.vc, cutoff, l.maxVerifyCodes + 1);
    KeepNothing(s.xs, cutoff, l.maxEmails + 1);
    KeepNothing(s.sms, cutoff, l.maxSms + 1);
    KeepNothing(s.lf, cutoff, l.maxBadLoginsPerEmail + 1);
    KeepNothing(s.ub, cutoff, l.maxUnblockAttempts + 1);
  }
}
