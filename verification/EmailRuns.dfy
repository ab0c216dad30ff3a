/** What the record of an email address answers on every run, told from the requests alone. */
module EmailRuns {
  import opened Clock
  import opened Customs
  import opened EventLog
  import opened EmailRecord
  import E = EmailRecord

  type Step = E.Step

  // ---- The events of a run ----

  /** Times of the failed logins. */
  function BadLogins(steps: seq<Step>): seq<int> {
    if steps == [] then []
    else
      var last := steps[|steps| - 1];
      BadLogins(steps[..|steps| - 1]) + if last.BadLogin? then [last.t] else []
  }

  /** A manual block of less than the block interval ago. */
  predicate BlockedAt(l: Limits, steps: seq<Step>, now: int) {
    exists i :: 0 <= i < |steps| && steps[i].Block? && now - steps[i].t < l.blockIntervalMs
  }

  /** Times of the checks that offered an unblock code while the address was not blocked. */
  function Unblocks(l: Limits, steps: seq<Step>): seq<int> {
    if steps == [] then []
    else
      var init, last := steps[..|steps| - 1], steps[|steps| - 1];
      Unblocks(l, init) + if last.Check? && last.unblock && !BlockedAt(l, init, last.t) then [last.t] else []
  }

  /** More than `max` of the times are within the rate limit interval. */
  predicate Over(l: Limits, times: seq<int>, max: nat, now: int) {
    CountAfter(times, now - l.rateLimitIntervalMs) > max
  }

  // ---- A record that never trims ----

  predicate Counted(action: Action) {
    KindOf(action).Counts(action)
  }

  /** The times of this action's kind since the last ban that forgot them, with `now` added. */
  function Asked(w: State, action: Action, now: int): seq<int> {
    if Counted(action) then KindOf(action).Log(w) + [now] else []
  }

  function Noted(w: State, action: Action, now: int): State {
    if Counted(action) then KindOf(action).Write(w, Asked(w, action, now)) else w
  }

  /** A counted request finds the address rate-limited or disabled. */
  predicate Uncounted(l: Limits, w: State, action: Action, now: int) {
    Counted(action) && (IsRateLimited(l, w, now) || IsDisabled(l, w, now))
  }

  /** The request, or the bad logins, are too many. */
  predicate TooMany(l: Limits, w: State, action: Action, now: int) {
    || (Counted(action) && Over(l, Asked(w, action, now), KindOf(action).Max(l), now))
    || Over(l, w.lf, l.maxBadLoginsPerEmail, now)
  }

  function Remembered(l: Limits, w: State, step: Step): State {
    match step
    case Check(t, action, unblock) =>
      var w' := WithUnblock(w, unblock, t);
      if IsBlocked(l, w, t) then w
      else if Uncounted(l, w, action, t) then w'
      else if TooMany(l, w, action, t) then Banned(Noted(w', action, t), t)
      else Noted(w', action, t)
    case BadLogin(t) => w.(lf := w.lf + [t])
    case _ => Applied(l, w, step).0
  }

  function Told(l: Limits, steps: seq<Step>): State {
    if steps == [] then FRESH else Remembered(l, Told(l, steps[..|steps| - 1]), steps[|steps| - 1])
  }

  predicate InOrder(log: seq<int>, now: int) {
    Sorted(log) && Below(log, now)
  }

  predicate Ordered(w: State, now: int) {
    InOrder(w.vc, now) && InOrder(w.xs, now) && InOrder(w.sms, now) && InOrder(w.lf, now) && InOrder(w.ub, now)
  }

  lemma OverDecides(l: Limits, log: seq<int>, max: nat, now: int)
    requires Sorted(log)
    ensures |Trimmed(l, log, max, now)| > max <==> Over(l, log, max, now)
  {
    hide Keep, CountAfter;
    KeepDecides(log, now - l.rateLimitIntervalMs, max);
  }

  lemma InOrderAppend(log: seq<int>, bound: int, now: int)
    requires InOrder(log, bound) && bound <= now
    ensures InOrder(log, now) && InOrder(log + [now], now) && InOrder([], now)
  {
  }

  lemma RememberedStaysOrdered(l: Limits, w: State, step: Step, bound: int)
    requires Ordered(w, bound) && bound <= step.t
    ensures Ordered(Remembered(l, w, step), step.t)
  {
    hide InOrder, TooMany, Uncounted, Updated, IsBlocked;
    InOrderAppend(w.vc, bound, step.t);
    InOrderAppend(w.xs, bound, step.t);
    InOrderAppend(w.sms, bound, step.t);
    InOrderAppend(w.lf, bound, step.t);
    InOrderAppend(w.ub, bound, step.t);
  }

  lemma CountDecides(l: Limits, w: State, action: Action, now: int)
    requires Ordered(w, now) && !IsBlocked(l, w, now)
    ensures var kind := KindOf(action);
            var counted := kind.Write(w, Trimmed(l, Asked(w, action, now), kind.Max(l), now));
            CountStage(l, w, kind, action, now) ==
              if !Counted(action) then Pass(w)
              else if Uncounted(l, w, action, now) then StopWith(l, w, now)
              else if Over(l, Asked(w, action, now), kind.Max(l), now) then StopWith(l, Banned(counted, now), now)
              else Pass(counted)
  {
    hide Keep, CountAfter, Active, RetryAfter, Over;
    if Counted(action) {
      OverDecides(l, Asked(w, action, now), KindOf(action).Max(l), now);
    }
  }

  lemma LoginDecides(l: Limits, w: State, now: int)
    requires InOrder(w.lf, now)
    ensures var trimmed := w.(lf := Trimmed(l, w.lf, l.maxBadLoginsPerEmail, now));
            LoginStage(l, w, now) ==
              if Over(l, w.lf, l.maxBadLoginsPerEmail, now) then StopWith(l, Banned(trimmed, now), now)
              else Pass(trimmed)
  {
    hide Keep, CountAfter, RetryAfter, Over;
    OverDecides(l, w.lf, l.maxBadLoginsPerEmail, now);
  }

  /** Trimming a log changes nothing that can still matter. */
  lemma TrimmingFades(l: Limits, w: State, kind: Kind, log: seq<int>, now: int)
    ensures var trimmed := kind.Write(w, Trimmed(l, log, kind.Max(l), now));
            && Faded(l, trimmed, now) == Faded(l, kind.Write(w, log), now)
            && Faded(l, Banned(trimmed, now), now) == Faded(l, Banned(kind.Write(w, log), now), now)
  {
    hide Keep, Fade;
    TrimmedExtends(l, log, log, kind.Max(l), now);
  }

  lemma LoginTrimmingFades(l: Limits, a: State, b: State, now: int)
    requires Faded(l, a, now) == Faded(l, b, now)
    ensures var trimmed := a.(lf := Trimmed(l, a.lf, l.maxBadLoginsPerEmail, now));
            && Faded(l, trimmed, now) == Faded(l, b, now)
            && Faded(l, Banned(trimmed, now), now) == Faded(l, Banned(b, now), now)
  {
    hide Keep, Fade;
    TrimmedExtends(l, a.lf, a.lf, l.maxBadLoginsPerEmail, now);
  }

  /** A check decides as the full logs say. */
  lemma CheckDecides(l: Limits, w: State, action: Action, unblock: bool, now: int)
    requires Ordered(w, now) && !IsBlocked(l, w, now)
    ensures var stage := ThenLogin(l, CountStage(l, WithUnblock(w, unblock, now), KindOf(action), action, now), now);
            && (stage.Stop? <==> Uncounted(l, w, action, now) || TooMany(l, w, action, now))
            && Faded(l, stage.s, now) == Faded(l, Remembered(l, w, Check(now, action, unblock)), now)
            && (stage.Stop? ==> stage.retryAfter == RetryAfter(l, stage.s, now))
            && stage.s.rl == Remembered(l, w, Check(now, action, unblock)).rl
            && stage.s.bk == w.bk
  {
    hide Keep, CountAfter, Active, RetryAfter, Over, CountStage, LoginStage, Trimmed, InOrder, Faded;
    var kind := KindOf(action);
    var w' := WithUnblock(w, unblock, now);
    InOrderAppend(w.ub, now, now);
    CountDecides(l, w', action, now);
    TrimmingFades(l, w', kind, Asked(w', action, now), now);
    var stage := CountStage(l, w', kind, action, now);
    if stage.Pass? {
      assert stage.s.lf == w.lf;
      LoginDecides(l, stage.s, now);
      LoginTrimmingFades(l, stage.s, Noted(w', action, now), now);
    }
  }

  lemma RememberedIsApplied(l: Limits, w: State, step: Step)
    requires Ordered(w, step.t) && Epoch(l, step.t)
    ensures Faded(l, Applied(l, w, step).0, step.t) == Faded(l, Remembered(l, w, step), step.t)
  {
    hide Keep, Updated, Active, CountStage, ThenLogin, TooMany, Uncounted;
    match step {
      case Check(t, action, unblock) =>
        if IsBlocked(l, w, t) {
          BlockedIsFinal(l, w, action, unblock, t);
        } else {
          OneStage(l, w, action, unblock, t);
          CheckDecides(l, w, action, unblock, t);
        }
        var s := Updated(l, w, action, unblock, t).0;
        TrimmedExtends(l, s.ub, s.ub, l.maxUnblockAttempts, t);
      case BadLogin(t) =>
        TrimmedExtends(l, w.lf, w.lf, l.maxBadLoginsPerEmail, t);
      case _ =>
    }
  }

  /** Trimming is never noticed: at every time after every run the record still holds all that can
      matter of the record that never trims. */
  lemma {:induction false} RecordTellsStory(l: Limits, steps: seq<Step>, now: int)
    requires Clocked(l, steps) && Epoch(l, now) && forall i :: 0 <= i < |steps| ==> steps[i].t <= now
    ensures Faded(l, After(l, steps), now) == Faded(l, Told(l, steps), now) && Ordered(Told(l, steps), now)
  {
    hide Faded, Applied, Remembered;
    if steps != [] {
      var init, last := steps[..|steps| - 1], steps[|steps| - 1];
      var s, w := After(l, init), Told(l, init);
      RecordTellsStory(l, init, last.t);
      FadedDecides(l, s, w, last);
      RememberedIsApplied(l, w, last);
      RememberedStaysOrdered(l, w, last, last.t);
      FadedLater(l, Applied(l, s, last).0, Remembered(l, w, last), last.t, now);
    }
  }

  // ---- The story in terms of the events ----

  lemma {:induction false} LoginsToldExactly(l: Limits, steps: seq<Step>)
    ensures Told(l, steps).lf == BadLogins(steps)
  {
    hide CountAfter, TooMany, Uncounted, IsBlocked, Updated, Keep;
    if steps != [] {
      LoginsToldExactly(l, steps[..|steps| - 1]);
    }
  }

  /** The latest manual block, which is all the record keeps of them. */
  lemma {:induction false} BlockToldExactly(l: Limits, steps: seq<Step>, now: int)
    requires Clocked(l, steps) && forall i :: 0 <= i < |steps| ==> steps[i].t <= now
    ensures IsBlocked(l, Told(l, steps), now) <==> BlockedAt(l, steps, now)
    ensures Told(l, steps).bk.At? ==> Past(Told(l, steps).bk, now)
  {
    hide CountAfter, TooMany, Uncounted, Updated, Keep;
    if steps != [] {
      var init, last := steps[..|steps| - 1], steps[|steps| - 1];
      BlockToldExactly(l, init, now);
      if last.Block? {
        assert IsBlocked(l, Told(l, steps), now) <==> now - last.t < l.blockIntervalMs;
        assert steps[|steps| - 1].Block?;
      } else {
        assert Told(l, steps).bk == Told(l, init).bk;
        assert forall i :: 0 <= i < |init| ==> init[i] == steps[i];
      }
    }
  }

  lemma {:induction false} UnblocksToldExactly(l: Limits, steps: seq<Step>)
    requires Clocked(l, steps)
    ensures Told(l, steps).ub == Unblocks(l, steps)
  {
    hide CountAfter, TooMany, Uncounted, IsBlocked, BlockedAt, Updated, Keep;
    if steps != [] {
      var init, last := steps[..|steps| - 1], steps[|steps| - 1];
      UnblocksToldExactly(l, init);
      BlockToldExactly(l, init, last.t);
    }
  }

  // ---- Exact answers ----

  /** On every run a request is told to wait exactly when a manual block stands; or, for a counted
      request, when the latest ban stands; or when the address is not disabled for a counted request
      and the request is one too many of its kind or the bad logins in the interval are too many. */
  lemma VerdictIsExact(l: Limits, steps: seq<Step>, action: Action, unblock: bool, now: int)
    requires l.rateLimitIntervalMs > 0 && Clocked(l, steps) && Epoch(l, now)
    requires forall i :: 0 <= i < |steps| ==> steps[i].t <= now
    ensures var w, retry := Told(l, steps), Updated(l, After(l, steps), action, unblock, now).1;
            retry > 0 <==>
              || BlockedAt(l, steps, now)
              || (Counted(action) && IsRateLimited(l, w, now))
              || (!(Counted(action) && IsDisabled(l, w, now))
                  && (|| (Counted(action) && Over(l, Asked(w, action, now), KindOf(action).Max(l), now))
                      || Over(l, BadLogins(steps), l.maxBadLoginsPerEmail, now)))
  {
    hide Keep, Updated, After, Told, BlockedAt, Over, Faded, BadLogins, Ordered;
    var w := Told(l, steps);
    RecordTellsStory(l, steps, now);
    FadedUpdate(l, After(l, steps), w, action, unblock, now);
    BlockToldExactly(l, steps, now);
    LoginsToldExactly(l, steps);
    CheckAnswer(l, w, action, unblock, now);
  }

  lemma CheckAnswer(l: Limits, w: State, action: Action, unblock: bool, now: int)
    requires Ordered(w, now) && Epoch(l, now) && l.rateLimitIntervalMs > 0
    ensures Updated(l, w, action, unblock, now).1 > 0 <==>
              || IsBlocked(l, w, now)
              || (Counted(action) && IsRateLimited(l, w, now))
              || (!Uncounted(l, w, action, now) && TooMany(l, w, action, now))
  {
    hide Keep, Updated, CountStage, ThenLogin, Over, Faded, Ordered;
    RetrySecondsTight(MsLeft(w.rl, l.rateLimitIntervalMs, now));
    RetrySecondsTight(MsLeft(w.bk, l.blockIntervalMs, now));
    RetrySecondsTight(MsLeft(At(now), l.rateLimitIntervalMs, now));
    if IsBlocked(l, w, now) {
      BlockedIsFinal(l, w, action, unblock, now);
    } else {
      OneStage(l, w, action, unblock, now);
      CheckDecides(l, w, action, unblock, now);
    }
  }

  /** For a request of no counted kind only manual blocks and failed logins count, and a standing
      ban does not. */
  lemma BadLoginVerdict(l: Limits, steps: seq<Step>, action: Action, unblock: bool, now: int)
    requires l.rateLimitIntervalMs > 0 && Clocked(l, steps) && Epoch(l, now) && !Counted(action)
    requires forall i :: 0 <= i < |steps| ==> steps[i].t <= now
    ensures Updated(l, After(l, steps), action, unblock, now).1 > 0 <==>
              BlockedAt(l, steps, now) || Over(l, BadLogins(steps), l.maxBadLoginsPerEmail, now)
  {
    hide Keep, Updated, After, Told, BlockedAt, Over;
    VerdictIsExact(l, steps, action, unblock, now);
  }

  /** An unblock code is turned down exactly when the checks that offered one in the interval, this
      one included, are too many. */
  lemma UnblockVerdict(l: Limits, steps: seq<Step>, action: Action, unblock: bool, now: int)
    requires Clocked(l, steps) && Epoch(l, now) && forall i :: 0 <= i < |steps| ==> steps[i].t <= now
    ensures var check := Check(now, action, unblock);
            |Applied(l, After(l, steps), check).0.ub| > l.maxUnblockAttempts
            <==> Over(l, Unblocks(l, steps + [check]), l.maxUnblockAttempts, now)
  {
    hide Keep, Updated, Told, Over, Applied, Unblocks, Remembered, Faded, CountAfter;
    var check := Check(now, action, unblock);
    var steps' := steps + [check];
    assert steps'[..|steps|] == steps;
    RecordTellsStory(l, steps', now);
    UnblocksToldExactly(l, steps');
    UnblocksTrimmed(l, After(l, steps'), Told(l, steps'), After(l, steps), check);
    OverDecides(l, Told(l, steps').ub, l.maxUnblockAttempts, now);
  }

  lemma UnblocksTrimmed(l: Limits, s: State, w: State, before: State, check: Step)
    requires check.Check? && s == Applied(l, before, check).0 && Faded(l, s, check.t) == Faded(l, w, check.t)
    ensures s.ub == Trimmed(l, w.ub, l.maxUnblockAttempts, check.t)
  {
    hide Keep, Updated;
    var ub := Updated(l, before, check.action, check.unblock, check.t).0.ub;
    TrimmedExtends(l, ub, ub, l.maxUnblockAttempts, check.t);
  }
}
