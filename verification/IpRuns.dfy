/** What holds of an IP record over whole runs. */
module IpRuns {
  import opened Clock
  import opened Customs
  import opened UserLog
  import opened IpRecord
  import EventLog
  import LoginScore

  /** What happens to the record: `/check` and `/checkIpOnly`, `/failedLoginAttempt`, a manual
      block, and the flags set by the fraud detection pipeline. */
  datatype Step =
    | Check(t: int, action: Action, email: string)
    | BadLogin(t: int, email: string, errno: int)
    | Block(t: int)
    | Suspect(t: int)
    | Disable(t: int)

  function Applied(l: Limits, s: State, step: Step): (State, nat) {
    match step
    case Check(t, action, email) => Updated(l, s, action, email, t)
    case BadLogin(t, email, errno) => (WithReport(l, s, email, errno, t), 0)
    case Block(t) => (s.(bk := At(t)), 0)
    case Suspect(t) => (s.(su := At(t)), 0)
    case Disable(t) => (s.(di := At(t)), 0)
  }

  predicate Clocked(l: Limits, steps: seq<Step>, now: int) {
    && (forall i :: 0 <= i < |steps| ==> Epoch(l, steps[i].t) && steps[i].t <= now)
    && (forall i, j :: 0 <= i < j < |steps| ==> steps[i].t <= steps[j].t)
  }

  function After(l: Limits, steps: seq<Step>): State {
    if steps == [] then FRESH
    else Applied(l, After(l, steps[..|steps| - 1]), steps[|steps| - 1]).0
  }

  // ---- The retry delay ----

  /** The delay is exact: it is the number of whole seconds, from now on, at whose start
      the address is still rate-limited or blocked. */
  lemma RetryAfterIsExact(l: Limits, s: State, now: int, n: nat)
    requires Epoch(l, now)
    ensures n < RetryAfter(l, s, now) <==> IsRateLimited(l, s, now + 1000 * n) || IsBlocked(l, s, now + 1000 * n)
  {
    RetrySecondsTight(MsLeft(s.rl, l.ipRateLimitBanDurationMs, now));
    RetrySecondsTight(MsLeft(s.bk, l.blockIntervalMs, now));
  }

  lemma RlStaysOrMoves(l: Limits, s: State, step: Step)
    ensures Applied(l, s, step).0.rl == s.rl || Applied(l, s, step).0.rl == At(step.t)
  {
    hide Keep, EventLog.Keep, RetryAfter, TooHeavy, Throttles;
  }

  /** Along every run the ban stamp, and with it the end of the ban, only moves forward. */
  lemma {:induction false} BansNeverShorten(l: Limits, steps: seq<Step>, k: nat, now: int)
    requires Clocked(l, steps, now) && k <= |steps|
    ensures NotEarlier(After(l, steps[..k]).rl, After(l, steps).rl) && NotEarlier(After(l, steps).rl, At(now))
  {
    hide Applied;
    if k == |steps| {
      assert steps[..k] == steps;
    }
    if steps != [] {
      var init, last := steps[..|steps| - 1], steps[|steps| - 1];
      BansNeverShorten(l, init, if k < |steps| then k else 0, last.t);
      assert k < |steps| ==> init[..k] == steps[..k];
      RlStaysOrMoves(l, After(l, init), last);
    }
  }

  // ---- The login score decides like the full history ----

  /** The failed login a step records, if any: a reported one, or a refused password check. */
  function Recorded(l: Limits, s: State, step: Step): seq<Entry> {
    match step
    case BadLogin(t, email, errno) => [Entry(t, email, if errno == 0 then 999 else errno)]
    case Check(t, action, email) =>
      var s2 := CodeStage(l, StatusStage(l, s, action, email, t), action, email, t);
      if !IsBlocked(l, s, t) && Throttles(l, s2, action, t) then [Entry(t, email, ERRNO_THROTTLED)] else []
    case _ => []
  }

  /** Every failed login ever recorded; nothing is trimmed and no ban clears it. */
  function History(l: Limits, steps: seq<Step>): seq<Entry> {
    if steps == [] then []
    else
      var init := steps[..|steps| - 1];
      History(l, init) + Recorded(l, After(l, init), steps[|steps| - 1])
  }

  /** A step adds what it records to the failed logins, up to trimming. */
  lemma StepRecords(l: Limits, s: State, step: Step)
    ensures var max := l.maxBadLoginsPerIp;
            Trimmed(l, Applied(l, s, step).0.lf, max, step.t) == Trimmed(l, s.lf + Recorded(l, s, step), max, step.t)
  {
    hide Keep, EventLog.Keep, RetryAfter, TooHeavy, Active;
    var now, cutoff, max := step.t, step.t - l.ipRateLimitIntervalMs, l.maxBadLoginsPerIp;
    assert s.lf + [] == s.lf;
    KeepTwice(s.lf, cutoff, max);
    if step.Check? || step.BadLogin? {
      var e := if step.Check? then ERRNO_THROTTLED else if step.errno == 0 then 999 else step.errno;
      KeepAbsorbs(s.lf, cutoff, max, [Entry(now, step.email, e)], cutoff);
      KeepTwice(Trimmed(l, s.lf, max, now) + [Entry(now, step.email, e)], cutoff, max);
    }
  }

  lemma RecordedAt(l: Limits, s: State, step: Step)
    ensures |Recorded(l, s, step)| <= 1 && forall i :: 0 <= i < |Recorded(l, s, step)| ==>
              Recorded(l, s, step)[i].t == step.t
  {
    hide Throttles, IsBlocked, StatusStage, CodeStage;
  }

  lemma {:induction false} LogLooksLikeHistory(l: Limits, steps: seq<Step>, now: int)
    requires Clocked(l, steps, now)
    ensures Trimmed(l, After(l, steps).lf, l.maxBadLoginsPerIp, now) ==
              Trimmed(l, History(l, steps), l.maxBadLoginsPerIp, now)
    ensures Sorted(History(l, steps)) && Below(History(l, steps), now)
  {
    hide Keep, Applied, Recorded;
    if steps != [] {
      var init, last := steps[..|steps| - 1], steps[|steps| - 1];
      LogLooksLikeHistory(l, init, last.t);
      var s, max, period := After(l, init), l.maxBadLoginsPerIp, l.ipRateLimitIntervalMs;
      var event := Recorded(l, s, last);
      RecordedAt(l, s, last);
      StepRecords(l, s, last);
      KeepExtends(s.lf, History(l, init), last.t - period, max, event, last.t - period);
      KeepLater(Applied(l, s, last).0.lf, History(l, init) + event, last.t - period, max, now - period);
    }
  }

  /** The failed-login verdict on the stored log is the verdict on all failed logins recorded in
      the window, whatever was trimmed and banned before. */
  ghost predicate ExactVerdict(l: Limits, steps: seq<Step>, now: int) {
    var w, max, cutoff := l.badLoginErrnoWeights, l.maxBadLoginsPerIp, now - l.ipRateLimitIntervalMs;
    TooHeavy(l, Trimmed(l, After(l, steps).lf, max, now))
    <==> LoginScore.Score(w, Recent(History(l, steps), cutoff, 0)) > max as real
  }

  /** Every error that can be logged is heavy; error 0 never is, since 999 stands for it. */
  ghost predicate HeavyErrors(l: Limits) {
    forall e :: e != 0 ==> LoginScore.IsHeavy(l.badLoginErrnoWeights, e, l.maxBadLoginsPerIp)
  }

  lemma {:induction false} HistoryIsHeavy(l: Limits, steps: seq<Step>)
    requires HeavyErrors(l)
    ensures LoginScore.Heavy(l.badLoginErrnoWeights, History(l, steps), l.maxBadLoginsPerIp)
  {
    hide LoginScore.IsHeavy, Throttles, IsBlocked, StatusStage, CodeStage, After;
    if steps != [] {
      HistoryIsHeavy(l, steps[..|steps| - 1]);
    }
  }

  /** With heavy errors the verdict is exact at every time of every run. */
  lemma LoginVerdictIsExact(l: Limits, steps: seq<Step>, now: int)
    requires Clocked(l, steps, now) && HeavyErrors(l)
    ensures ExactVerdict(l, steps, now)
  {
    hide Keep, History, After, LoginScore.Score, LoginScore.Heavy;
    LogLooksLikeHistory(l, steps, now);
    HistoryIsHeavy(l, steps);
    LoginScore.TrimmedScoreDecides(l.badLoginErrnoWeights, History(l, steps), now - l.ipRateLimitIntervalMs,
        l.maxBadLoginsPerIp);
  }

  lemma EmptyWindowIsExact(l: Limits, steps: seq<Step>, now: int)
    requires Clocked(l, steps, now) && l.ipRateLimitIntervalMs == 0
    ensures ExactVerdict(l, steps, now)
  {
    hide Keep, History, After, LoginScore.Score, Recent;
    LogLooksLikeHistory(l, steps, now);
    KeepNothing(History(l, steps), now, l.maxBadLoginsPerIp);
    NothingRecent(History(l, steps), now, 0);
  }

  /** Reports of failed logins. */
  function Reports(log: seq<Entry>): seq<Step> {
    seq(|log|, i requires 0 <= i < |log| => BadLogin(log[i].t, log[i].u, log[i].e))
  }

  lemma {:induction false} ReportsRecorded(l: Limits, log: seq<Entry>)
    requires forall i :: 0 <= i < |log| ==> log[i].e != 0
    ensures History(l, Reports(log)) == log
  {
    hide After, Throttles, IsBlocked, StatusStage, CodeStage;
    if log != [] {
      ReportsRecorded(l, log[..|log| - 1]);
      assert Reports(log)[..|log| - 1] == Reports(log[..|log| - 1]);
    }
  }

  /** An error that is not heavy makes the record forget: once as many emails fail with it as the log
      keeps, failures that put the address over the limit are gone. */
  lemma LightErrorForgives(l: Limits, e: int) returns (steps: seq<Step>, now: int)
    requires l.ipRateLimitIntervalMs > 0 && e != 0
    requires !LoginScore.IsHeavy(l.badLoginErrnoWeights, e, l.maxBadLoginsPerIp)
    ensures Clocked(l, steps, now) && !ExactVerdict(l, steps, now)
  {
    hide Keep, History, After, LoginScore.Score, Recent, LoginScore.Batch, LoginScore.IsHeavy, Epoch, Late;
    var w, max := l.badLoginErrnoWeights, l.maxBadLoginsPerIp;
    now := Late(l);
    var plain := LoginScore.Unlisted(w.Keys + {0});
    var log := LoginScore.Batch(max + 1, plain, now) + LoginScore.Batch(max + 1, e, now);
    steps := Reports(log);
    ReportsRecorded(l, log);
    LoginScore.LightErrorHides(w, max, e, plain, l.ipRateLimitIntervalMs, now);
    LogLooksLikeHistory(l, steps, now);
  }

  /** Exactly when trimming by unique email never changes the failed-login verdict on any run of the
      record: when every error that can be logged is heavy (or nothing is ever in the window). */
  lemma LoginVerdictExactlyWhen(l: Limits)
    ensures (forall steps, now :: Clocked(l, steps, now) ==> ExactVerdict(l, steps, now))
            <==> l.ipRateLimitIntervalMs == 0 || HeavyErrors(l)
  {
    hide ExactVerdict, Clocked, LoginScore.IsHeavy;
    if l.ipRateLimitIntervalMs == 0 || HeavyErrors(l) {
      forall steps, now | Clocked(l, steps, now) ensures ExactVerdict(l, steps, now) {
        if l.ipRateLimitIntervalMs == 0 {
          EmptyWindowIsExact(l, steps, now);
        } else {
          LoginVerdictIsExact(l, steps, now);
        }
      }
    } else {
      var e :| e != 0 && !LoginScore.IsHeavy(l.badLoginErrnoWeights, e, l.maxBadLoginsPerIp);
      var steps, now := LightErrorForgives(l, e);
    }
  }

  // ---- Distinct emails per window ----

  /** The step is an account status request that was let through. */
  predicate LetThrough(l: Limits, s: State, step: Step) {
    step.Check? && IsAccountStatus(step.action) && Applied(l, s, step).1 == 0
  }

  /** The account status requests that were let through. */
  function Answered(l: Limits, steps: seq<Step>): seq<Entry> {
    if steps == [] then []
    else
      var init, last := steps[..|steps| - 1], steps[|steps| - 1];
      Answered(l, init) + if LetThrough(l, After(l, init), last) then [Entry(last.t, last.email, 0)] else []
  }

  /** The emails of the entries in the half-open interval from `lo` to `hi`. */
  function EmailsIn(log: seq<Entry>, lo: int, hi: int): set<string> {
    set i | 0 <= i < |log| && lo <= log[i].t < hi :: log[i].u
  }

  function Window(l: Limits): nat {
    Min(l.ipRateLimitIntervalMs, l.ipRateLimitBanDurationMs)
  }

  /** What the record does not keep about the requests it answered: the first `banned` of
      them lie behind the ban stamp, the others are among the checks `pushed` since. */
  datatype Ledger = Ledger(answered: seq<Entry>, banned: nat, pushed: seq<Entry>) {

    ghost predicate Explains(l: Limits, log: seq<Entry>, rl: Stamp, now: int) {
      && banned <= |answered|
      && Sorted(answered) && Below(answered, now)
      && Sorted(pushed) && Below(pushed, now)
      && (banned > 0 ==> rl.At? && rl.ms != 0 && answered[banned - 1].t <= rl.ms)
      && (forall i :: banned <= i < |answered| ==> answered[i] in pushed)
      && Trimmed(l, pushed, l.maxAccountStatusCheck, now) == Trimmed(l, log, l.maxAccountStatusCheck, now)
    }
  }

  /** Each answered request saw few emails in the window that ends with it. */
  predicate Few(answered: seq<Entry>, window: nat, max: nat) {
    answered != [] ==>
      var init, last := answered[..|answered| - 1], answered[|answered| - 1];
      Few(init, window, max) && |EmailsIn(answered, last.t - window + 1, last.t + 1)| <= max
  }

  lemma ExplainsLater(l: Limits, g: Ledger, log: seq<Entry>, rl: Stamp, now: int, later: int)
    requires g.Explains(l, log, rl, now) && now <= later
    ensures g.Explains(l, log, rl, later)
  {
    hide Keep;
    KeepLater(g.pushed, log, now - l.ipRateLimitIntervalMs, l.maxAccountStatusCheck, later - l.ipRateLimitIntervalMs);
  }

  lemma ExplainsBan(l: Limits, g: Ledger, log: seq<Entry>, rl: Stamp, now: int)
    requires g.Explains(l, log, rl, now) && now != 0
    ensures Ledger(g.answered, |g.answered|, []).Explains(l, [], At(now), now)
  {
  }

  /** A status check was counted, and answered if `answer`. */
  lemma ExplainsCount(l: Limits, g: Ledger, log: seq<Entry>, rl: Stamp, email: string, now: int, answer: bool)
    returns (g': Ledger)
    requires g.Explains(l, log, rl, now)
    ensures var e := Entry(now, email, 0);
            && g' == Ledger(g.answered + (if answer then [e] else []), g.banned, g.pushed + [e])
            && g'.Explains(l, Counted(l, log, l.maxAccountStatusCheck, email, now), rl, now)
            && Trimmed(l, g'.pushed, l.maxAccountStatusCheck, now) ==
                 Counted(l, log, l.maxAccountStatusCheck, email, now)
  {
    hide Keep;
    var e, cutoff, max := Entry(now, email, 0), now - l.ipRateLimitIntervalMs, l.maxAccountStatusCheck;
    g' := Ledger(g.answered + (if answer then [e] else []), g.banned, g.pushed + [e]);
    KeepAbsorbs(log, cutoff, max, [e], cutoff);
    KeepExtends(g.pushed, log, cutoff, max, [e], cutoff);
    KeepTwice(log + [e], cutoff, max);
  }

  /** Without an active ban and with few emails in the log, the emails answered in the window
      that ends now are all in the log. */
  lemma FewAnswered(l: Limits, g: Ledger, log: seq<Entry>, rl: Stamp, now: int)
    requires g.Explains(l, log, rl, now) && !Active(rl, l.ipRateLimitBanDurationMs, now)
    requires |Users(Trimmed(l, g.pushed, l.maxAccountStatusCheck, now), 0)| <= l.maxAccountStatusCheck
    ensures |EmailsIn(g.answered, now - Window(l) + 1, now + 1)| <= l.maxAccountStatusCheck
  {
    hide Keep, Users, Recent;
    var cutoff, max := now - l.ipRateLimitIntervalMs, l.maxAccountStatusCheck;
    KeptAllOrMany(g.pushed, cutoff, max);
    var kept := Trimmed(l, g.pushed, max, now);
    var k := RecentIsSuffix(g.pushed, cutoff, 0);
    forall i | 0 <= i < |g.answered| && now - Window(l) + 1 <= g.answered[i].t
             ensures g.answered[i].u in Users(kept, 0) {
      assert i >= g.banned;
      var j :| 0 <= j < |g.pushed| && g.pushed[j] == g.answered[i];
      assert kept[j - k] == g.pushed[j];
      UsersAre(kept, 0, g.answered[i].u);
    }
    var emails := EmailsIn(g.answered, now - Window(l) + 1, now + 1);
    assert emails <= Users(kept, 0);
    SubsetSize(emails, Users(kept, 0));
  }

  /** What a check does to the status log and the ban stamp: nothing, and then a status
      request is refused; or it is counted, and let through only without an active ban;
      or a ban starts. */
  lemma StatusEffect(l: Limits, s: State, action: Action, email: string, now: int)
    requires l.ipRateLimitBanDurationMs > 0
    ensures var (s', retry) := Updated(l, s, action, email, now);
            var log, asks := Counted(l, s.statuses, l.maxAccountStatusCheck, email, now), IsAccountStatus(action);
            || (s'.rl == s.rl && s'.statuses == s.statuses && (asks ==> retry > 0))
            || (s'.rl == s.rl && s'.statuses == log && asks && |Users(log, 0)| <= l.maxAccountStatusCheck
                && (retry == 0 ==> !IsRateLimited(l, s, now)))
            || (s'.rl == At(now) && s'.statuses == [] && (asks ==> retry > 0))
  {
    hide Counted, Keep, CodeStage, LoginStage, SmsStage, AccessStage;
    RetrySecondsTight(MsLeft(s.rl, l.ipRateLimitBanDurationMs, now));
    RetrySecondsTight(MsLeft(s.bk, l.blockIntervalMs, now));
    RetrySecondsTight(MsLeft(At(now), l.ipRateLimitBanDurationMs, now));
    LaterStages(l, StatusStage(l, s, action, email, now), action, email, now);
  }

  /** After the status stage the status log only changes when a ban empties it. */
  lemma LaterStages(l: Limits, s: State, action: Action, email: string, now: int)
    ensures var login := LoginStage(l, CodeStage(l, s, action, email, now), action, email, now);
            var s' := AccessStage(l, SmsStage(l, login, action, now), action, now);
            s'.bk == s.bk && ((s'.rl == s.rl && s'.statuses == s.statuses) || (s'.rl == At(now) && s'.statuses == []))
  {
    hide Counted, EventLog.Keep, Keep, TooHeavy, Throttles;
  }

  lemma FewAppend(answered: seq<Entry>, e: Entry, window: nat, max: nat)
    requires Few(answered, window, max) && |EmailsIn(answered + [e], e.t - window + 1, e.t + 1)| <= max
    ensures Few(answered + [e], window, max)
  {
    hide EmailsIn;
    assert (answered + [e])[..|answered|] == answered;
  }

  lemma StepExplained(l: Limits, g: Ledger, s: State, step: Step) returns (g': Ledger)
    requires l.ipRateLimitBanDurationMs > 0 && step.t > 0
    requires g.Explains(l, s.statuses, s.rl, step.t) && Few(g.answered, Window(l), l.maxAccountStatusCheck)
    ensures var s' := Applied(l, s, step).0;
            && g'.answered == g.answered + (if LetThrough(l, s, step) then [Entry(step.t, step.email, 0)] else [])
            && g'.Explains(l, s'.statuses, s'.rl, step.t) && Few(g'.answered, Window(l), l.maxAccountStatusCheck)
  {
    hide Keep, Counted, Updated, EmailsIn, Users, Window, Trimmed;
    g' := g;
    assert g.answered + [] == g.answered;
    if step.Check? {
      StatusEffect(l, s, step.action, step.email, step.t);
      var (s', retry) := Updated(l, s, step.action, step.email, step.t);
      if s'.rl == s.rl && s'.statuses == s.statuses && !LetThrough(l, s, step) {
      } else if s'.rl == At(step.t) && s'.statuses == [] && !LetThrough(l, s, step) {
        ExplainsBan(l, g, s.statuses, s.rl, step.t);
        g' := Ledger(g.answered, |g.answered|, []);
      } else {
        g' := ExplainsCount(l, g, s.statuses, s.rl, step.email, step.t, retry == 0);
        if retry == 0 {
          FewAnswered(l, g', s'.statuses, s.rl, step.t);
          FewAppend(g.answered, Entry(step.t, step.email, 0), Window(l), l.maxAccountStatusCheck);
        }
      }
    }
  }

  lemma {:induction false} RunExplained(l: Limits, steps: seq<Step>, now: int) returns (g: Ledger)
    requires Clocked(l, steps, now) && l.ipRateLimitBanDurationMs > 0
    ensures var s := After(l, steps);
            && g.answered == Answered(l, steps)
            && g.Explains(l, s.statuses, s.rl, now) && Few(g.answered, Window(l), l.maxAccountStatusCheck)
  {
    hide Keep, Applied, LetThrough, EmailsIn;
    g := Ledger([], 0, []);
    if steps != [] {
      var init, last := steps[..|steps| - 1], steps[|steps| - 1];
      g := RunExplained(l, init, last.t);
      g := StepExplained(l, g, After(l, init), last);
      var s := After(l, steps);
      ExplainsLater(l, g, s.statuses, s.rl, last.t, now);
    }
  }

  lemma {:induction false} FewInEveryWindow(answered: seq<Entry>, window: nat, max: nat, lo: int)
    requires Sorted(answered) && Few(answered, window, max)
    ensures |EmailsIn(answered, lo, lo + window)| <= max
  {
    hide EmailsIn;
    EmailsSplit(answered, lo, window);
    if answered != [] {
      var init, last := answered[..|answered| - 1], answered[|answered| - 1];
      if last.t >= lo + window {
        FewInEveryWindow(init, window, max, lo);
      } else {
        SubsetSize(EmailsIn(answered, lo, lo + window), EmailsIn(answered, last.t - window + 1, last.t + 1));
      }
    }
  }

  lemma EmailsSplit(log: seq<Entry>, lo: int, window: nat)
    requires Sorted(log)
    ensures log == [] || window == 0 ==> EmailsIn(log, lo, lo + window) == {}
    ensures log != [] ==>
              var init, last := log[..|log| - 1], log[|log| - 1];
              if last.t >= lo + window then EmailsIn(log, lo, lo + window) == EmailsIn(init, lo, lo + window)
              else EmailsIn(log, lo, lo + window) <= EmailsIn(log, last.t - window + 1, last.t + 1)
  {
    if log != [] && log[|log| - 1].t >= lo + window {
      var init := log[..|log| - 1];
      assert forall i :: 0 <= i < |init| ==> init[i] == log[i];
    }
  }

  /** Whatever else the address does and however often it gets banned, in every window of
      the shorter of counting interval and ban duration the status requests let through
      touch at most `maxAccountStatusCheck` distinct emails. */
  lemma DistinctEmailBound(l: Limits, steps: seq<Step>, now: int, lo: int)
    requires Clocked(l, steps, now)
    ensures |EmailsIn(Answered(l, steps), lo, lo + Window(l))| <= l.maxAccountStatusCheck
  {
    hide Answered, After, EmailsIn, Few;
    if Window(l) > 0 {
      var g := RunExplained(l, steps, now);
      FewInEveryWindow(g.answered, Window(l), l.maxAccountStatusCheck, lo);
    } else {
      NoEmails(Answered(l, steps), lo);
    }
  }

  lemma NoEmails(log: seq<Entry>, lo: int)
    ensures EmailsIn(log, lo, lo) == {}
  {
  }

  // ---- What the record can forget ----

  /** Everything about the record that can still matter at `now`. */
  function Faded(l: Limits, s: State, now: int): State {
    State(
      Fade(s.bk, l.blockIntervalMs, now), Fade(s.su, l.suspectIntervalMs, now), Fade(s.di, l.disableIntervalMs, now),
      Fade(s.rl, l.ipRateLimitBanDurationMs, now),
      Trimmed(l, s.lf, l.maxBadLoginsPerIp, now), Trimmed(l, s.vc, l.maxVerifyCodes, now),
      Trimmed(l, s.statuses, l.maxAccountStatusCheck, now),
      EventLog.Keep(s.sms, now - l.ipRateLimitIntervalMs, l.maxSms + 1), s.aa)
  }

  lemma FadedLater(l: Limits, a: State, b: State, now: int, later: int)
    requires Faded(l, a, now) == Faded(l, b, now) && now <= later
    ensures Faded(l, a, later) == Faded(l, b, later)
  {
    hide Keep, EventLog.Keep;
    var cutoff, cutoff' := now - l.ipRateLimitIntervalMs, later - l.ipRateLimitIntervalMs;
    KeepLater(a.lf, b.lf, cutoff, l.maxBadLoginsPerIp, cutoff');
    KeepLater(a.vc, b.vc, cutoff, l.maxVerifyCodes, cutoff');
    KeepLater(a.statuses, b.statuses, cutoff, l.maxAccountStatusCheck, cutoff');
    EventLog.KeepLater(a.sms, b.sms, cutoff, l.maxSms + 1, cutoff');
  }

  lemma FadedVerdicts(l: Limits, a: State, b: State, now: int)
    requires Faded(l, a, now) == Faded(l, b, now) && Epoch(l, now)
    ensures IsRateLimited(l, a, now) == IsRateLimited(l, b, now)
    ensures IsBlocked(l, a, now) == IsBlocked(l, b, now)
    ensures IsDisabled(l, a, now) == IsDisabled(l, b, now)
    ensures IsSuspected(l, a, now) == IsSuspected(l, b, now)
    ensures RetryAfter(l, a, now) == RetryAfter(l, b, now)
  {
    hide Keep, EventLog.Keep;
    FadeDecides(a.rl, b.rl, l.ipRateLimitBanDurationMs, now);
    FadeDecides(a.bk, b.bk, l.blockIntervalMs, now);
  }

  lemma CountedAlike(l: Limits, a: seq<Entry>, b: seq<Entry>, max: nat, email: string, now: int)
    requires Trimmed(l, a, max, now) == Trimmed(l, b, max, now)
    ensures Counted(l, a, max, email, now) == Counted(l, b, max, email, now)
    ensures Trimmed(l, Counted(l, a, max, email, now), max, now) == Counted(l, a, max, email, now)
  {
    hide Keep;
    KeepTwice(Trimmed(l, a, max, now) + [Entry(now, email, 0)], now - l.ipRateLimitIntervalMs, max);
  }

  lemma FadedStatus(l: Limits, a: State, b: State, action: Action, email: string, now: int)
    requires Faded(l, a, now) == Faded(l, b, now)
    ensures Faded(l, StatusStage(l, a, action, email, now), now) == Faded(l, StatusStage(l, b, action, email, now), now)
  {
    hide Keep, EventLog.Keep, Counted, Users;
    CountedAlike(l, a.statuses, b.statuses, l.maxAccountStatusCheck, email, now);
  }

  lemma FadedCode(l: Limits, a: State, b: State, action: Action, email: string, now: int)
    requires Faded(l, a, now) == Faded(l, b, now)
    ensures Faded(l, CodeStage(l, a, action, email, now), now) == Faded(l, CodeStage(l, b, action, email, now), now)
  {
    hide Keep, EventLog.Keep, Counted, Users;
    CountedAlike(l, a.vc, b.vc, l.maxVerifyCodes, email, now);
  }

  lemma FadedLogins(l: Limits, a: State, b: State, action: Action, email: string, now: int)
    requires Faded(l, a, now) == Faded(l, b, now) && Epoch(l, now)
    ensures Faded(l, LoginStage(l, a, action, email, now), now) == Faded(l, LoginStage(l, b, action, email, now), now)
  {
    hide Keep, EventLog.Keep, TooHeavy, RetryAfter, Active;
    FadedVerdicts(l, a, b, now);
    KeepTwice(a.lf, now - l.ipRateLimitIntervalMs, l.maxBadLoginsPerIp);
  }

  lemma FadedSms(l: Limits, a: State, b: State, action: Action, now: int)
    requires Faded(l, a, now) == Faded(l, b, now)
    ensures Faded(l, SmsStage(l, a, action, now), now) == Faded(l, SmsStage(l, b, action, now), now)
  {
    hide Keep, EventLog.Keep;
    var cutoff, cap := now - l.ipRateLimitIntervalMs, l.maxSms + 1;
    EventLog.KeepExtends(a.sms, b.sms, cutoff, cap, [now], cutoff);
    EventLog.KeepTwice(a.sms + [now], cutoff, cap);
  }

  /** Records that fade to the same value stay indistinguishable: same verdicts, and again
      the same faded value. */
  lemma FadedDecides(l: Limits, a: State, b: State, step: Step)
    requires Faded(l, a, step.t) == Faded(l, b, step.t) && Epoch(l, step.t)
    ensures Applied(l, a, step).1 == Applied(l, b, step).1
    ensures Faded(l, Applied(l, a, step).0, step.t) == Faded(l, Applied(l, b, step).0, step.t)
  {
    hide Keep, EventLog.Keep, StatusStage, CodeStage, LoginStage, SmsStage, RetryAfter, Active;
    var now := step.t;
    match step {
      case Check(_, action, email) =>
        FadedVerdicts(l, a, b, now);
        FadedStatus(l, a, b, action, email, now);
        var (a1, b1) := (StatusStage(l, a, action, email, now), StatusStage(l, b, action, email, now));
        FadedCode(l, a1, b1, action, email, now);
        var (a2, b2) := (CodeStage(l, a1, action, email, now), CodeStage(l, b1, action, email, now));
        FadedLogins(l, a2, b2, action, email, now);
        var (a3, b3) := (LoginStage(l, a2, action, email, now), LoginStage(l, b2, action, email, now));
        FadedSms(l, a3, b3, action, now);
        var (a4, b4) := (SmsStage(l, a3, action, now), SmsStage(l, b3, action, now));
        FadedVerdicts(l, AccessStage(l, a4, action, now), AccessStage(l, b4, action, now), now);
      case BadLogin(_, email, errno) =>
      case Block(_) =>
      case Suspect(_) =>
      case Disable(_) =>
    }
  }

  /** No stamp and no logged event is later than `bound`; accesses are counted, not timed. */
  predicate Old(s: State, bound: int) {
    && Past(s.bk, bound) && Past(s.su, bound) && Past(s.di, bound) && Past(s.rl, bound)
    && Below(s.lf, bound) && Below(s.vc, bound) && Below(s.statuses, bound)
    && EventLog.Below(s.sms, bound)
  }

  lemma TrimmedBelow(l: Limits, log: seq<Entry>, max: nat, now: int)
    requires Below(log, now)
    ensures Below(Trimmed(l, log, max, now), now)
  {
    hide Keep;
    KeepBelow(log, now - l.ipRateLimitIntervalMs, max, now);
  }

  lemma CountedBelow(l: Limits, log: seq<Entry>, max: nat, email: string, now: int)
    requires Below(log, now)
    ensures Below(Counted(l, log, max, email, now), now)
  {
    hide Trimmed;
    TrimmedBelow(l, log, max, now);
    TrimmedBelow(l, Trimmed(l, log, max, now) + [Entry(now, email, 0)], max, now);
  }

  lemma CountsStayOld(l: Limits, s: State, action: Action, email: string, now: int)
    requires Old(s, now)
    ensures Old(StatusStage(l, s, action, email, now), now) && Old(CodeStage(l, s, action, email, now), now)
    ensures Old(SmsStage(l, s, action, now), now)
  {
    hide Counted, EventLog.Keep, Users;
    CountedBelow(l, s.statuses, l.maxAccountStatusCheck, email, now);
    CountedBelow(l, s.vc, l.maxVerifyCodes, email, now);
    EventLog.KeepBelow(s.sms + [now], now - l.ipRateLimitIntervalMs, l.maxSms + 1, now);
  }

  lemma LoginsStayOld(l: Limits, s: State, action: Action, email: string, now: int)
    requires Old(s, now)
    ensures Old(LoginStage(l, s, action, email, now), now)
  {
    hide Trimmed, TooHeavy, Throttles;
    TrimmedBelow(l, s.lf, l.maxBadLoginsPerIp, now);
    var s1 := if Throttles(l, s, action, now) then WithBadLogin(l, s, email, ERRNO_THROTTLED, now) else s;
    TrimmedBelow(l, s1.lf, l.maxBadLoginsPerIp, now);
  }

  lemma StaysOld(l: Limits, s: State, step: Step, bound: int)
    requires Old(s, bound) && bound <= step.t
    ensures Old(Applied(l, s, step).0, step.t)
  {
    hide Trimmed, StatusStage, CodeStage, LoginStage, SmsStage, RetryAfter;
    match step {
      case Check(t, action, email) =>
        CountsStayOld(l, s, action, email, t);
        var s1 := StatusStage(l, s, action, email, t);
        CountsStayOld(l, s1, action, email, t);
        var s2 := CodeStage(l, s1, action, email, t);
        LoginsStayOld(l, s2, action, email, t);
        CountsStayOld(l, LoginStage(l, s2, action, email, t), action, email, t);
      case BadLogin(t, email, errno) =>
        TrimmedBelow(l, s.lf, l.maxBadLoginsPerIp, t);
        TrimmedBelow(l, WithBadLogin(l, s, email, errno, t).lf, l.maxBadLoginsPerIp, t);
      case _ =>
    }
  }

  /** The accesses on record never exceed their limit: the one that would is answered by a ban. */
  lemma AccessesBounded(l: Limits, s: State, step: Step)
    requires |s.aa| <= l.maxAccountAccess
    ensures |Applied(l, s, step).0.aa| <= l.maxAccountAccess
  {
    hide Keep, EventLog.Keep, RetryAfter, TooHeavy, Throttles, Counted;
  }

  /** What is left of a record once everything with a window has lapsed: a flag that is still
      active, and the accesses, which are never trimmed. */
  function Remainder(l: Limits, s: State, now: int): State {
    FRESH.(su := Fade(s.su, l.suspectIntervalMs, now), di := Fade(s.di, l.disableIntervalMs, now), aa := s.aa)
  }

  /** A record left alone for its intervals cannot be told from its remainder. */
  lemma FadesAway(l: Limits, s: State, bound: int, now: int)
    requires Old(s, bound) && now >= bound + l.blockIntervalMs
    requires now >= bound + l.ipRateLimitIntervalMs && now >= bound + l.ipRateLimitBanDurationMs
    ensures Faded(l, s, now) == Faded(l, Remainder(l, s, now), now)
  {
    hide Keep, EventLog.Keep;
    var cutoff := now - l.ipRateLimitIntervalMs;
    KeepNothing(s.lf, cutoff, l.maxBadLoginsPerIp);
    KeepNothing(s.vc, cutoff, l.maxVerifyCodes);
    KeepNothing(s.statuses, cutoff, l.maxAccountStatusCheck);
    EventLog.KeepNothing(s.sms, cutoff, l.maxSms + 1);
  }
}
