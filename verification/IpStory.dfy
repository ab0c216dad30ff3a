/** What the record of an IP address answers on every run, told from the full logs of its requests. */
module IpStory {
  import opened Clock
  import opened Customs
  import opened UserLog
  import opened IpRecord
  import opened IpRuns
  import EventLog
  import LoginScore
  import Throttle
  import Runs = IpRuns

  type Step = Runs.Step

  /** More than `max` distinct emails are named within the interval. */
  predicate ManyEmails(l: Limits, log: seq<Entry>, max: nat, now: int) {
    |Users(Recent(log, now - l.ipRateLimitIntervalMs, 0), 0)| > max
  }

  /** The failed logins within the interval score above the limit. */
  predicate HeavyLogins(l: Limits, log: seq<Entry>, now: int) {
    var recent := Recent(log, now - l.ipRateLimitIntervalMs, 0);
    LoginScore.Score(l.badLoginErrnoWeights, recent) > l.maxBadLoginsPerIp as real
  }

  /** More than `maxSms` of the times are within the interval. */
  predicate ManyTexts(l: Limits, times: seq<int>, now: int) {
    EventLog.CountAfter(times, now - l.ipRateLimitIntervalMs) > l.maxSms
  }

  /** A manual block of less than the block interval ago. */
  predicate BlockedAt(l: Limits, steps: seq<Step>, now: int) {
    exists i :: 0 <= i < |steps| && steps[i].Block? && now - steps[i].t < l.blockIntervalMs
  }

  /** The code checks made while the address was not blocked, refused ones included. */
  function CodeChecks(l: Limits, steps: seq<Step>): seq<Entry> {
    if steps == [] then []
    else
      var init, last := steps[..|steps| - 1], steps[|steps| - 1];
      CodeChecks(l, init)
      + if last.Check? && IsCodeVerifying(last.action) && !BlockedAt(l, init, last.t)
        then [Entry(last.t, last.email, 0)] else []
  }

  // ---- A record that never trims ----

  function StatusNoted(l: Limits, w: State, action: Action, email: string, now: int): State {
    if !IsAccountStatus(action) then w
    else
      var log := w.statuses + [Entry(now, email, 0)];
      BannedIf(ManyEmails(l, log, l.maxAccountStatusCheck, now), w.(statuses := log), now)
  }

  function CodeNoted(l: Limits, w: State, action: Action, email: string, now: int): State {
    if !IsCodeVerifying(action) then w
    else
      var log := w.vc + [Entry(now, email, 0)];
      BannedIf(ManyEmails(l, log, l.maxVerifyCodes, now), w.(vc := log), now)
  }

  predicate OverLogins(l: Limits, log: seq<Entry>, now: int) {
    TooHeavy(l, Trimmed(l, log, l.maxBadLoginsPerIp, now))
  }

  /** A password check that is refused already counts as one more failed login. */
  function LoginNoted(l: Limits, w: State, action: Action, email: string, now: int): State {
    if !IsPasswordChecking(action) then w
    else
      var refused := IsRateLimited(l, w, now) || OverLogins(l, w.lf, now);
      var log := w.lf + if refused then [Entry(now, email, ERRNO_THROTTLED)] else [];
      BannedIf(OverLogins(l, log, now), w.(lf := log), now)
  }

  function TextNoted(l: Limits, w: State, action: Action, now: int): State {
    if !IsSmsSending(action) then w
    else BannedIf(ManyTexts(l, w.sms + [now], now), w.(sms := w.sms + [now]), now)
  }

  function CheckNoted(l: Limits, w: State, action: Action, email: string, now: int): State {
    var w1 := StatusNoted(l, w, action, email, now);
    var w2 := CodeNoted(l, w1, action, email, now);
    var w3 := LoginNoted(l, w2, action, email, now);
    AccessStage(l, TextNoted(l, w3, action, now), action, now)
  }

  function Remembered(l: Limits, w: State, step: Step): State {
    match step
    case Check(t, action, email) => if IsBlocked(l, w, t) then w else CheckNoted(l, w, action, email, t)
    case BadLogin(t, email, errno) => w.(lf := w.lf + [Entry(t, email, if errno == 0 then 999 else errno)])
    case _ => Applied(l, w, step).0
  }

  function Told(l: Limits, steps: seq<Step>): State {
    if steps == [] then FRESH else Remembered(l, Told(l, steps[..|steps| - 1]), steps[|steps| - 1])
  }

  predicate InOrder(log: seq<Entry>, now: int) {
    Sorted(log) && Below(log, now)
  }

  predicate TextsInOrder(log: seq<int>, now: int) {
    EventLog.Sorted(log) && EventLog.Below(log, now)
  }

  predicate Ordered(w: State, now: int) {
    InOrder(w.lf, now) && InOrder(w.vc, now) && InOrder(w.statuses, now) && TextsInOrder(w.sms, now)
  }

  lemma InOrderAppend(log: seq<Entry>, e: Entry, bound: int)
    requires InOrder(log, bound) && bound <= e.t
    ensures InOrder(log, e.t) && InOrder(log + [e], e.t) && InOrder([], e.t) && log + [] == log
  {
  }

  lemma TextsAppend(log: seq<int>, bound: int, now: int)
    requires TextsInOrder(log, bound) && bound <= now
    ensures TextsInOrder(log, now) && TextsInOrder(log + [now], now) && TextsInOrder([], now)
  {
  }

  lemma StagesOrdered(l: Limits, w: State, action: Action, email: string, now: int)
    requires Ordered(w, now)
    ensures Ordered(StatusNoted(l, w, action, email, now), now) && Ordered(CodeNoted(l, w, action, email, now), now)
    ensures Ordered(LoginNoted(l, w, action, email, now), now) && Ordered(TextNoted(l, w, action, now), now)
    ensures Ordered(AccessStage(l, w, action, now), now)
  {
    hide InOrder, TextsInOrder, ManyEmails, ManyTexts, OverLogins, IsRateLimited;
    InOrderAppend(w.statuses, Entry(now, email, 0), now);
    InOrderAppend(w.vc, Entry(now, email, 0), now);
    InOrderAppend(w.lf, Entry(now, email, ERRNO_THROTTLED), now);
    TextsAppend(w.sms, now, now);
  }

  lemma RememberedStaysOrdered(l: Limits, w: State, step: Step, bound: int)
    requires Ordered(w, bound) && bound <= step.t
    ensures Ordered(Remembered(l, w, step), step.t)
  {
    hide InOrder, TextsInOrder, StatusNoted, CodeNoted, LoginNoted, TextNoted, AccessStage, IsBlocked, Updated;
    var now := step.t;
    InOrderAppend(w.statuses, Entry(now, "", 0), bound);
    InOrderAppend(w.vc, Entry(now, "", 0), bound);
    InOrderAppend(w.lf, Entry(now, "", 0), bound);
    TextsAppend(w.sms, bound, now);
    if step.Check? {
      var action, email := step.action, step.email;
      StagesOrdered(l, w, action, email, now);
      var w1 := StatusNoted(l, w, action, email, now);
      StagesOrdered(l, w1, action, email, now);
      var w2 := CodeNoted(l, w1, action, email, now);
      StagesOrdered(l, w2, action, email, now);
      var w3 := LoginNoted(l, w2, action, email, now);
      StagesOrdered(l, w3, action, email, now);
      StagesOrdered(l, TextNoted(l, w3, action, now), action, email, now);
    } else if step.BadLogin? {
      InOrderAppend(w.lf, Entry(now, step.email, if step.errno == 0 then 999 else step.errno), bound);
    }
  }

  // ---- Each stage decides as the full logs say ----

  lemma CountedDecides(l: Limits, log: seq<Entry>, max: nat, email: string, now: int)
    requires InOrder(log, now)
    ensures var all := log + [Entry(now, email, 0)];
            && Counted(l, log, max, email, now) == Trimmed(l, all, max, now)
            && (|Users(Trimmed(l, all, max, now), 0)| > max <==> ManyEmails(l, all, max, now))
            && Trimmed(l, Trimmed(l, all, max, now), max, now) == Trimmed(l, all, max, now)
  {
    hide Keep, Users, Recent;
    var e, cutoff := Entry(now, email, 0), now - l.ipRateLimitIntervalMs;
    KeepAbsorbs(log, cutoff, max, [e], cutoff);
    KeepTwice(log + [e], cutoff, max);
    KeptAllOrMany(log + [e], cutoff, max);
  }

  lemma StatusFades(l: Limits, w: State, action: Action, email: string, now: int)
    requires Ordered(w, now)
    ensures Faded(l, StatusStage(l, w, action, email, now), now) == Faded(l, StatusNoted(l, w, action, email, now), now)
  {
    hide Keep, Users, Fade, EventLog.Keep, ManyEmails, Counted, Trimmed;
    CountedDecides(l, w.statuses, l.maxAccountStatusCheck, email, now);
  }

  lemma CodeFades(l: Limits, w: State, action: Action, email: string, now: int)
    requires Ordered(w, now)
    ensures Faded(l, CodeStage(l, w, action, email, now), now) == Faded(l, CodeNoted(l, w, action, email, now), now)
  {
    hide Keep, Users, Fade, EventLog.Keep, ManyEmails, Counted, Trimmed;
    CountedDecides(l, w.vc, l.maxVerifyCodes, email, now);
  }

  lemma LoginFades(l: Limits, w: State, action: Action, email: string, now: int)
    ensures Faded(l, LoginStage(l, w, action, email, now), now) == Faded(l, LoginNoted(l, w, action, email, now), now)
  {
    hide Keep, Fade, EventLog.Keep, TooHeavy, Active;
    var cutoff, max, e := now - l.ipRateLimitIntervalMs, l.maxBadLoginsPerIp, Entry(now, email, ERRNO_THROTTLED);
    KeepAbsorbs(w.lf, cutoff, max, [e], cutoff);
    KeepTwice(w.lf, cutoff, max);
    KeepTwice(w.lf + [e], cutoff, max);
    assert w.lf + [] == w.lf;
  }

  lemma TextFades(l: Limits, w: State, action: Action, now: int)
    requires Ordered(w, now)
    ensures Faded(l, SmsStage(l, w, action, now), now) == Faded(l, TextNoted(l, w, action, now), now)
  {
    hide Keep, Fade, EventLog.Keep, EventLog.CountAfter;
    var cutoff := now - l.ipRateLimitIntervalMs;
    EventLog.KeepTwice(w.sms + [now], cutoff, l.maxSms + 1);
    EventLog.KeepDecides(w.sms + [now], cutoff, l.maxSms);
  }

  lemma AccessFades(l: Limits, a: State, b: State, action: Action, now: int)
    requires Faded(l, a, now) == Faded(l, b, now)
    ensures Faded(l, AccessStage(l, a, action, now), now) == Faded(l, AccessStage(l, b, action, now), now)
  {
    hide Keep, EventLog.Keep, Trimmed;
  }

  /** All the stages of a check, trimmed or not, leave the same behind. */
  lemma StagesFade(l: Limits, w: State, action: Action, email: string, now: int)
    requires Ordered(w, now) && Epoch(l, now)
    ensures var s2 := CodeStage(l, StatusStage(l, w, action, email, now), action, email, now);
            var s4 := SmsStage(l, LoginStage(l, s2, action, email, now), action, now);
            Faded(l, AccessStage(l, s4, action, now), now) == Faded(l, CheckNoted(l, w, action, email, now), now)
  {
    hide Faded, StatusStage, CodeStage, LoginStage, SmsStage, AccessStage, Ordered;
    hide StatusNoted, CodeNoted, LoginNoted, TextNoted;
    var s1, w1 := StatusStage(l, w, action, email, now), StatusNoted(l, w, action, email, now);
    var s2, w2 := CodeStage(l, s1, action, email, now), CodeNoted(l, w1, action, email, now);
    var s3, w3 := LoginStage(l, s2, action, email, now), LoginNoted(l, w2, action, email, now);
    var s4, w4 := SmsStage(l, s3, action, now), TextNoted(l, w3, action, now);
    StatusFades(l, w, action, email, now);
    StagesOrdered(l, w, action, email, now);
    FadedCode(l, s1, w1, action, email, now);
    CodeFades(l, w1, action, email, now);
    StagesOrdered(l, w1, action, email, now);
    FadedLogins(l, s2, w2, action, email, now);
    LoginFades(l, w2, action, email, now);
    StagesOrdered(l, w2, action, email, now);
    FadedSms(l, s3, w3, action, now);
    TextFades(l, w3, action, now);
    AccessFades(l, s4, w4, action, now);
  }

  lemma RememberedIsApplied(l: Limits, w: State, step: Step)
    requires Ordered(w, step.t) && Epoch(l, step.t)
    ensures Faded(l, Applied(l, w, step).0, step.t) == Faded(l, Remembered(l, w, step), step.t)
  {
    hide Faded, StatusStage, CodeStage, LoginStage, SmsStage, AccessStage, Ordered, CheckNoted, IsBlocked, Keep;
    match step {
      case Check(t, action, email) =>
        StagesFade(l, w, action, email, t);
      case BadLogin(t, email, errno) =>
        ReportFades(l, w, Entry(t, email, if errno == 0 then 999 else errno));
      case _ =>
    }
  }

  lemma ReportFades(l: Limits, w: State, e: Entry)
    ensures var log := Trimmed(l, Trimmed(l, w.lf, l.maxBadLoginsPerIp, e.t) + [e], l.maxBadLoginsPerIp, e.t);
            Faded(l, w.(lf := log), e.t) == Faded(l, w.(lf := w.lf + [e]), e.t)
  {
    hide Keep, Fade, EventLog.Keep;
    var cutoff, max := e.t - l.ipRateLimitIntervalMs, l.maxBadLoginsPerIp;
    KeepAbsorbs(w.lf, cutoff, max, [e], cutoff);
    KeepTwice(w.lf + [e], cutoff, max);
  }

  /** Trimming is never noticed: at every time after every run the record still holds all that can
      matter of the record that never trims. */
  lemma {:induction false} RecordTellsStory(l: Limits, steps: seq<Step>, now: int)
    requires Clocked(l, steps, now) && Epoch(l, now)
    ensures Faded(l, After(l, steps), now) == Faded(l, Told(l, steps), now) && Ordered(Told(l, steps), now)
  {
    hide Faded, Applied, Remembered;
    if steps != [] {
      var init, last := steps[..|steps| - 1], steps[|steps| - 1];
      var s, w := After(l, init), Told(l, init);
      RecordTellsStory(l, init, last.t);
      FadedDecides(l, s, w, last);
      RememberedIsApplied(l, w, last);
      RememberedStaysOrdered(l, w, last, last.t);
      FadedLater(l, Applied(l, s, last).0, Remembered(l, w, last), last.t, now);
    }
  }

  // ---- The story in terms of the events ----

  lemma NotedFields(l: Limits, w: State, action: Action, email: string, now: int)
    ensures var w' := CheckNoted(l, w, action, email, now);
            && w'.bk == w.bk
            && w'.vc == w.vc + (if IsCodeVerifying(action) then [Entry(now, email, 0)] else [])
            && (w'.rl == w.rl || w'.rl == At(now))
  {
    hide ManyEmails, ManyTexts, OverLogins, IsRateLimited;
  }

  lemma {:induction false} BlockToldExactly(l: Limits, steps: seq<Step>, now: int)
    requires Clocked(l, steps, now)
    ensures IsBlocked(l, Told(l, steps), now) <==> BlockedAt(l, steps, now)
  {
    hide CheckNoted, Updated, Keep;
    if steps != [] {
      var init, last := steps[..|steps| - 1], steps[|steps| - 1];
      BlockToldExactly(l, init, now);
      if last.Block? {
        LastBlock(l, steps, now);
      } else {
        if last.Check? {
          NotedFields(l, Told(l, init), last.action, last.email, last.t);
        }
        assert forall i :: 0 <= i < |init| ==> init[i] == steps[i];
      }
    }
  }

  lemma LastBlock(l: Limits, steps: seq<Step>, now: int)
    requires Clocked(l, steps, now) && steps != [] && steps[|steps| - 1].Block?
    ensures BlockedAt(l, steps, now) <==> now - steps[|steps| - 1].t < l.blockIntervalMs
  {
  }

  lemma {:induction false} CodesToldExactly(l: Limits, steps: seq<Step>, now: int)
    requires Clocked(l, steps, now)
    ensures Told(l, steps).vc == CodeChecks(l, steps)
  {
    hide CheckNoted, Updated, Keep, BlockedAt, IsBlocked;
    if steps != [] {
      var init, last := steps[..|steps| - 1], steps[|steps| - 1];
      CodesToldExactly(l, init, last.t);
      BlockToldExactly(l, init, last.t);
      if last.Check? {
        NotedFields(l, Told(l, init), last.action, last.email, last.t);
      }
    }
  }

  /** The failed logins of the story are those the record was seen to record. */
  lemma {:induction false} LoginsToldExactly(l: Limits, steps: seq<Step>, now: int)
    requires Clocked(l, steps, now)
    ensures Told(l, steps).lf == History(l, steps)
  {
    hide Recorded, Remembered, Faded, Ordered;
    if steps != [] {
      var init, last := steps[..|steps| - 1], steps[|steps| - 1];
      LoginsToldExactly(l, init, last.t);
      RecordTellsStory(l, init, last.t);
      StepRecordsAlike(l, After(l, init), Told(l, init), last);
    }
  }

  lemma StepRecordsAlike(l: Limits, s: State, w: State, step: Step)
    requires Faded(l, s, step.t) == Faded(l, w, step.t) && Ordered(w, step.t) && Epoch(l, step.t)
    ensures Remembered(l, w, step).lf == w.lf + Recorded(l, s, step)
  {
    hide Faded, StatusStage, CodeStage, CheckNoted, Ordered, IsBlocked, Throttles, Updated, Trimmed;
    if step.Check? {
      var action, email, now := step.action, step.email, step.t;
      var s1, w1 := StatusStage(l, s, action, email, now), StatusNoted(l, w, action, email, now);
      FadedVerdicts(l, s, w, now);
      FadedStatus(l, s, w, action, email, now);
      StatusFades(l, w, action, email, now);
      StagesOrdered(l, w, action, email, now);
      FadedCode(l, s1, w1, action, email, now);
      CodeFades(l, w1, action, email, now);
      RefusedAlike(l, CodeStage(l, s1, action, email, now), CodeNoted(l, w1, action, email, now), action, now);
      LoginsNoted(l, w, action, email, now);
    }
  }

  lemma RefusedAlike(l: Limits, s: State, w: State, action: Action, now: int)
    requires Faded(l, s, now) == Faded(l, w, now) && Epoch(l, now)
    ensures Throttles(l, s, action, now) <==>
              IsPasswordChecking(action) && (IsRateLimited(l, w, now) || OverLogins(l, w.lf, now))
  {
    hide Keep, EventLog.Keep, TooHeavy, Active;
    FadedVerdicts(l, s, w, now);
  }

  lemma LoginsNoted(l: Limits, w: State, action: Action, email: string, now: int)
    ensures var w2 := CodeNoted(l, StatusNoted(l, w, action, email, now), action, email, now);
            var refused := IsPasswordChecking(action) && (IsRateLimited(l, w2, now) || OverLogins(l, w2.lf, now));
            CheckNoted(l, w, action, email, now).lf ==
              w.lf + if refused then [Entry(now, email, ERRNO_THROTTLED)] else []
  {
    hide ManyEmails, ManyTexts, OverLogins, IsRateLimited;
  }

  // ---- Exact answers ----

  /** Which bans a check that is not about passwords can start. */
  predicate TooMany(l: Limits, w: State, action: Action, email: string, now: int) {
    var e := Entry(now, email, 0);
    || (IsAccountStatus(action) && ManyEmails(l, w.statuses + [e], l.maxAccountStatusCheck, now))
    || (IsCodeVerifying(action) && ManyEmails(l, w.vc + [e], l.maxVerifyCodes, now))
    || (IsSmsSending(action) && ManyTexts(l, w.sms + [now], now))
    || (IsAccountAccess(action) && |w.aa| + 1 > l.maxAccountAccess)
  }

  lemma NotedBan(l: Limits, w: State, action: Action, email: string, now: int)
    requires !IsPasswordChecking(action)
    ensures CheckNoted(l, w, action, email, now).rl == if TooMany(l, w, action, email, now) then At(now) else w.rl
  {
    hide ManyEmails, ManyTexts, OverLogins, IsRateLimited;
  }

  /** With heavy errors, a password check is stopped by the bans that stop every status request and
      by the failed logins on record; its own entry as a refused login cannot free it. */
  lemma NotedPasswordBan(l: Limits, w: State, action: Action, email: string, now: int)
    requires IsPasswordChecking(action) && l.ipRateLimitBanDurationMs > 0 && now > 0
    requires HeavyErrors(l) && Ordered(w, now) && LoginScore.Heavy(l.badLoginErrnoWeights, w.lf, l.maxBadLoginsPerIp)
    ensures IsRateLimited(l, CheckNoted(l, w, action, email, now), now) <==>
              IsRateLimited(l, w, now) || TooMany(l, w, action, email, now) || HeavyLogins(l, w.lf, now)
  {
    hide ManyEmails, ManyTexts, OverLogins, HeavyLogins, InOrder, TextsInOrder, LoginScore.IsHeavy;
    var e := Entry(now, email, ERRNO_THROTTLED);
    OverLoginsExactly(l, w.lf, now);
    InOrderAppend(w.lf, e, now);
    OverLoginsExactly(l, w.lf + [e], now);
    HeavierLogins(l, w.lf, e);
    assert w.lf + [] == w.lf;
  }

  lemma OverLoginsExactly(l: Limits, log: seq<Entry>, now: int)
    requires InOrder(log, now) && LoginScore.Heavy(l.badLoginErrnoWeights, log, l.maxBadLoginsPerIp)
    ensures OverLogins(l, log, now) <==> HeavyLogins(l, log, now)
  {
    hide Keep, Recent, LoginScore.Score, LoginScore.Heavy;
    LoginScore.TrimmedScoreDecides(l.badLoginErrnoWeights, log, now - l.ipRateLimitIntervalMs, l.maxBadLoginsPerIp);
  }

  lemma HeavierLogins(l: Limits, log: seq<Entry>, e: Entry)
    ensures HeavyLogins(l, log, e.t) ==> HeavyLogins(l, log + [e], e.t)
  {
    hide Recent, LoginScore.Score;
    var cutoff := e.t - l.ipRateLimitIntervalMs;
    RecentAppend(log, e, cutoff, 0);
    LoginScore.ScoreGrows(l.badLoginErrnoWeights, Recent(log, cutoff, 0), e);
    assert Recent(log, cutoff, 0) + [] == Recent(log, cutoff, 0);
  }

  /** The answer is decided by the stamps the story leaves. */
  lemma AnswerTold(l: Limits, steps: seq<Step>, action: Action, email: string, now: int)
    requires Clocked(l, steps, now) && Epoch(l, now) && l.ipRateLimitBanDurationMs > 0
    ensures var w, retry := Told(l, steps), Updated(l, After(l, steps), action, email, now).1;
            retry > 0 <==>
              || BlockedAt(l, steps, now)
              || (if IsAccountAccess(action) then |w.aa| + 1 > l.maxAccountAccess
                  else IsRateLimited(l, CheckNoted(l, w, action, email, now), now))
    ensures Ordered(Told(l, steps), now)
  {
    hide After, Told, Faded, BlockedAt, Ordered, Updated, CheckNoted;
    RecordTellsStory(l, steps, now);
    BlockToldExactly(l, steps, now);
    FadedDecides(l, After(l, steps), Told(l, steps), Check(now, action, email));
    CheckAnswer(l, Told(l, steps), action, email, now);
  }

  lemma CheckAnswer(l: Limits, w: State, action: Action, email: string, now: int)
    requires Ordered(w, now) && Epoch(l, now) && l.ipRateLimitBanDurationMs > 0
    ensures Updated(l, w, action, email, now).1 > 0 <==>
              || IsBlocked(l, w, now)
              || (if IsAccountAccess(action) then |w.aa| + 1 > l.maxAccountAccess
                  else IsRateLimited(l, CheckNoted(l, w, action, email, now), now))
  {
    hide Faded, StatusStage, CodeStage, LoginStage, SmsStage, Ordered, CheckNoted;
    RetrySecondsTight(MsLeft(w.rl, l.ipRateLimitBanDurationMs, now));
    RetrySecondsTight(MsLeft(w.bk, l.blockIntervalMs, now));
    StagesFade(l, w, action, email, now);
    NotedFields(l, w, action, email, now);
    StagesKeepAccesses(l, w, action, email, now);
    var w' := CheckNoted(l, w, action, email, now);
    var s2 := CodeStage(l, StatusStage(l, w, action, email, now), action, email, now);
    var s4 := SmsStage(l, LoginStage(l, s2, action, email, now), action, now);
    FadedVerdicts(l, AccessStage(l, s4, action, now), w', now);
    RetrySecondsTight(MsLeft(w'.rl, l.ipRateLimitBanDurationMs, now));
  }

  lemma StagesKeepAccesses(l: Limits, w: State, action: Action, email: string, now: int)
    ensures var s2 := CodeStage(l, StatusStage(l, w, action, email, now), action, email, now);
            IsAccountAccess(action) ==> SmsStage(l, LoginStage(l, s2, action, email, now), action, now) == w
  {
  }

  /** On every run a request that is not about passwords is told to wait exactly when a manual block
      stands, or its own kind is over its limit by the full logs, or, unless it is an account access,
      the latest ban still stands. Codes count from the start, the rest from the latest ban. */
  lemma VerdictIsExact(l: Limits, steps: seq<Step>, action: Action, email: string, now: int)
    requires Clocked(l, steps, now) && Epoch(l, now) && l.ipRateLimitBanDurationMs > 0 && !IsPasswordChecking(action)
    ensures var w, e := Told(l, steps), Entry(now, email, 0);
            Updated(l, After(l, steps), action, email, now).1 > 0 <==>
              || BlockedAt(l, steps, now)
              || (!IsAccountAccess(action) && IsRateLimited(l, w, now))
              || (IsAccountStatus(action) && ManyEmails(l, w.statuses + [e], l.maxAccountStatusCheck, now))
              || (IsCodeVerifying(action) && ManyEmails(l, CodeChecks(l, steps) + [e], l.maxVerifyCodes, now))
              || (IsSmsSending(action) && ManyTexts(l, w.sms + [now], now))
              || (IsAccountAccess(action) && |w.aa| + 1 > l.maxAccountAccess)
  {
    hide After, Told, BlockedAt, Updated, CheckNoted, ManyEmails, ManyTexts, Ordered, CodeChecks;
    AnswerTold(l, steps, action, email, now);
    NotedBan(l, Told(l, steps), action, email, now);
    CodesToldExactly(l, steps, now);
  }

  /** On every run, with heavy errors, a password check is told to wait exactly when a manual block
      or the latest ban stands, too many emails were asked about, or all failed logins ever recorded
      score above the limit within the interval. */
  lemma PasswordVerdictIsExact(l: Limits, steps: seq<Step>, action: Action, email: string, now: int)
    requires Clocked(l, steps, now) && Epoch(l, now) && l.ipRateLimitBanDurationMs > 0
    requires HeavyErrors(l) && IsPasswordChecking(action)
    ensures var w, e := Told(l, steps), Entry(now, email, 0);
            Updated(l, After(l, steps), action, email, now).1 > 0 <==>
              || BlockedAt(l, steps, now)
              || IsRateLimited(l, w, now)
              || ManyEmails(l, w.statuses + [e], l.maxAccountStatusCheck, now)
              || HeavyLogins(l, History(l, steps), now)
  {
    hide After, Told, BlockedAt, Updated, CheckNoted, ManyEmails, ManyTexts, Ordered, HeavyLogins, History;
    hide HeavyErrors, LoginScore.Heavy;
    AnswerTold(l, steps, action, email, now);
    LoginsToldExactly(l, steps, now);
    HistoryIsHeavy(l, steps);
    NotedPasswordBan(l, Told(l, steps), action, email, now);
  }

  // ---- Emails per window of code checks ----

  /** The code checks that were let through. */
  function CodesPassed(l: Limits, steps: seq<Step>): seq<Entry> {
    if steps == [] then []
    else
      var init, last := steps[..|steps| - 1], steps[|steps| - 1];
      var passed := last.Check? && IsCodeVerifying(last.action) && Applied(l, After(l, init), last).1 == 0;
      CodesPassed(l, init) + if passed then [Entry(last.t, last.email, 0)] else []
  }

  /** `log` lists some of what `all` lists, with few emails around its last entry. */
  lemma FewOfMany(l: Limits, log: seq<Entry>, all: seq<Entry>, max: nat, now: int)
    requires Sorted(all) && Below(log, now) && (forall e <- log :: e in all) && !ManyEmails(l, all, max, now)
    ensures |EmailsIn(log, now - l.ipRateLimitIntervalMs + 1, now + 1)| <= max
  {
    hide Users, Recent;
    var cutoff := now - l.ipRateLimitIntervalMs;
    var k := RecentIsSuffix(all, cutoff, 0);
    var recent := Recent(all, cutoff, 0);
    forall i | 0 <= i < |log| && cutoff + 1 <= log[i].t ensures log[i].u in Users(recent, 0) {
      assert log[i] in all;
      var j :| 0 <= j < |all| && all[j] == log[i];
      assert recent[j - k] == all[j];
      UsersAre(recent, 0, log[i].u);
    }
    var emails := EmailsIn(log, cutoff + 1, now + 1);
    assert emails <= Users(recent, 0);
    SubsetSize(emails, Users(recent, 0));
  }

  lemma {:induction false} CodesPassedFew(l: Limits, steps: seq<Step>, now: int)
    requires Clocked(l, steps, now) && l.ipRateLimitBanDurationMs > 0
    ensures var passed, all := CodesPassed(l, steps), CodeChecks(l, steps);
            && InOrder(passed, now) && InOrder(all, now) && (forall e <- passed :: e in all)
            && Few(passed, l.ipRateLimitIntervalMs, l.maxVerifyCodes)
  {
    hide BlockedAt, ManyEmails, After, Updated, EmailsIn, Few, Told;
    if steps == [] {
      NoneAreFew(l.ipRateLimitIntervalMs, l.maxVerifyCodes);
    } else {
      var init, last := steps[..|steps| - 1], steps[|steps| - 1];
      CodesPassedFew(l, init, last.t);
      if last.Check? && IsCodeVerifying(last.action) {
        var e, passed, all := Entry(last.t, last.email, 0), CodesPassed(l, init), CodeChecks(l, init);
        InOrderAppend(passed, e, last.t);
        InOrderAppend(all, e, last.t);
        VerdictIsExact(l, init, last.action, last.email, last.t);
        if Applied(l, After(l, init), last).1 == 0 {
          FewOfMany(l, passed + [e], all + [e], l.maxVerifyCodes, last.t);
          FewAppend(passed, e, l.ipRateLimitIntervalMs, l.maxVerifyCodes);
        } else {
          assert CodesPassed(l, steps) == passed;
        }
      } else {
        assert CodesPassed(l, steps) == CodesPassed(l, init);
      }
    }
  }

  lemma NoneAreFew(window: nat, max: nat)
    ensures Few([], window, max)
  {
  }

  /** Codes survive bans, so wherever bans last at all the code checks let through in every counting
      interval are for at most `maxVerifyCodes` emails. */
  lemma CodeEmailBound(l: Limits, steps: seq<Step>, now: int, lo: int)
    requires Clocked(l, steps, now) && l.ipRateLimitBanDurationMs > 0
    ensures |EmailsIn(CodesPassed(l, steps), lo, lo + l.ipRateLimitIntervalMs)| <= l.maxVerifyCodes
  {
    hide CodesPassed, EmailsIn, Few, CodeChecks;
    CodesPassedFew(l, steps, now);
    FewInEveryWindow(CodesPassed(l, steps), l.ipRateLimitIntervalMs, l.maxVerifyCodes, lo);
  }

  // ---- Texts per window ----

  /** Times of the texts that were let through. */
  function TextsPassed(l: Limits, steps: seq<Step>): seq<int> {
    if steps == [] then []
    else
      var init, last := steps[..|steps| - 1], steps[|steps| - 1];
      var passed := last.Check? && IsSmsSending(last.action) && Applied(l, After(l, init), last).1 == 0;
      TextsPassed(l, init) + if passed then [last.t] else []
  }

  /** Since the latest ban the story holds every text that was let through. */
  ghost predicate Covers(w: State, passed: seq<int>) {
    forall cutoff :: Past(w.rl, cutoff) ==> EventLog.CountAfter(passed, cutoff) <= EventLog.CountAfter(w.sms, cutoff)
  }

  lemma CoversText(w: State, passed: seq<int>, now: int)
    requires Covers(w, passed)
    ensures Covers(w.(sms := w.sms + [now]), passed) && Covers(w.(sms := w.sms + [now]), passed + [now])
  {
    hide EventLog.CountAfter;
    var w' := w.(sms := w.sms + [now]);
    forall cutoff | Past(w'.rl, cutoff)
      ensures EventLog.CountAfter(passed, cutoff) <= EventLog.CountAfter(w'.sms, cutoff)
      ensures EventLog.CountAfter(passed + [now], cutoff) <= EventLog.CountAfter(w'.sms, cutoff)
    {
      EventLog.CountAppend(w.sms, now, cutoff);
      EventLog.CountAppend(passed, now, cutoff);
    }
  }

  lemma CoversBan(w: State, passed: seq<int>, now: int)
    requires EventLog.Below(passed, now)
    ensures Covers(w.(rl := At(now), sms := []), passed)
  {
    forall cutoff | cutoff >= now ensures EventLog.CountAfter(passed, cutoff) == 0 {
      EventLog.CountNothing(passed, cutoff);
    }
  }

  lemma TextsNoted(l: Limits, w: State, action: Action, email: string, now: int)
    ensures var w' := CheckNoted(l, w, action, email, now);
            || (w'.rl == At(now) && w'.sms == [])
            || (w'.rl == w.rl && w'.sms == w.sms + (if IsSmsSending(action) then [now] else []))
  {
    hide ManyEmails, ManyTexts, OverLogins, IsRateLimited;
    assert w.sms + [] == w.sms;
  }

  lemma CheckCovers(l: Limits, w: State, passed: seq<int>, action: Action, email: string, now: int)
    requires Covers(w, passed) && TextsInOrder(passed, now)
    ensures Covers(CheckNoted(l, w, action, email, now), passed)
    ensures IsSmsSending(action) && CheckNoted(l, w, action, email, now).rl != At(now) ==>
              Covers(CheckNoted(l, w, action, email, now), passed + [now])
  {
    hide EventLog.CountAfter, CheckNoted;
    TextsNoted(l, w, action, email, now);
    CoversText(w, passed, now);
    CoversBan(w, passed, now);
    assert w.sms + [] == w.sms;
  }

  /** What the story and the texts let through have in common at `now`. */
  ghost predicate Tallied(l: Limits, w: State, passed: seq<int>, now: int) {
    && Covers(w, passed) && TextsInOrder(passed, now) && Past(w.rl, now) && (w.rl.At? ==> w.rl.ms > 0)
    && Throttle.Spaced(passed, Window(l), l.maxSms)
  }

  /** A text let through finds few texts let through in the window that ends with it. */
  lemma TextPasses(l: Limits, w: State, passed: seq<int>, now: int)
    requires Tallied(l, w, passed, now) && Window(l) > 0
    requires !IsRateLimited(l, w, now) && !ManyTexts(l, w.sms + [now], now)
    ensures Throttle.Spaced(passed + [now], Window(l), l.maxSms)
  {
    hide EventLog.CountAfter;
    var cutoff := now - Window(l);
    EventLog.CountAppend(passed, now, cutoff);
    EventLog.CountAppend(w.sms, now, cutoff);
    EventLog.CountAfterLater(w.sms + [now], now - l.ipRateLimitIntervalMs, cutoff);
    EventLog.CountAfterSorted(passed + [now], cutoff);
    Throttle.SpacedAppend(passed, Window(l), l.maxSms, now);
  }

  lemma TextStep(l: Limits, init: seq<Step>, last: Step)
    requires Clocked(l, init, last.t) && Epoch(l, last.t) && Window(l) > 0
    requires Tallied(l, Told(l, init), TextsPassed(l, init), last.t)
    ensures var passed := last.Check? && IsSmsSending(last.action) && Applied(l, After(l, init), last).1 == 0;
            var texts := TextsPassed(l, init) + if passed then [last.t] else [];
            Tallied(l, Remembered(l, Told(l, init), last), texts, last.t)
  {
    hide Covers, After, Updated, CheckNoted, Throttle.Spaced, Told, TextsPassed, BlockedAt, ManyTexts, ManyEmails;
    var w, passed := Told(l, init), TextsPassed(l, init);
    assert passed + [] == passed;
    match last {
      case Check(t, action, email) =>
        TextsAppend(passed, t, t);
        BlockToldExactly(l, init, t);
        NotedFields(l, w, action, email, t);
        CheckCovers(l, w, passed, action, email, t);
        if IsSmsSending(action) {
          VerdictIsExact(l, init, action, email, t);
          NotedBan(l, w, action, email, t);
          if Applied(l, After(l, init), last).1 == 0 {
            TextPasses(l, w, passed, t);
          }
        }
      case _ =>
        SameTexts(l, w, passed, last);
    }
  }

  lemma SameTexts(l: Limits, w: State, passed: seq<int>, step: Step)
    requires Covers(w, passed) && !step.Check?
    ensures Covers(Remembered(l, w, step), passed) && Remembered(l, w, step).rl == w.rl
  {
    hide EventLog.CountAfter;
  }

  lemma {:induction false} TextsPassedSpaced(l: Limits, steps: seq<Step>, now: int)
    requires Clocked(l, steps, now) && Window(l) > 0
    ensures Tallied(l, Told(l, steps), TextsPassed(l, steps), now)
  {
    hide Covers, After, Applied, Remembered, Throttle.Spaced, Window;
    if steps == [] {
      NoTexts(l);
    } else {
      var init, last := steps[..|steps| - 1], steps[|steps| - 1];
      TextsPassedSpaced(l, init, last.t);
      TextStep(l, init, last);
    }
  }

  lemma NoTexts(l: Limits)
    ensures Covers(FRESH, []) && Throttle.Spaced([], Window(l), l.maxSms)
  {
  }

  /** Whatever else the address does, in every window of the shorter of counting interval and ban
      duration at most `maxSms` texts are let through. */
  lemma TextBound(l: Limits, steps: seq<Step>, now: int, lo: int)
    requires Clocked(l, steps, now)
    ensures EventLog.CountIn(TextsPassed(l, steps), lo, lo + Window(l)) <= l.maxSms
  {
    hide TextsPassed, Told, Covers, Throttle.Spaced, EventLog.CountIn;
    if Window(l) > 0 {
      TextsPassedSpaced(l, steps, now);
      Throttle.SpacedBoundsWindows(TextsPassed(l, steps), Window(l), l.maxSms, lo);
    } else {
      EventLog.EmptyWindow(TextsPassed(l, steps), lo);
    }
  }
}
