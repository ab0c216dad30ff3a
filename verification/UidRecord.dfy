/** The record kept for a uid: authenticated checks, counted per action, with one ban
    stamp shared by all actions. */
module UidRecord {
  import opened Clock
  import opened Customs
  import opened EventLog

  datatype State = State(timestampsByAction: map<string, seq<int>>, rateLimitedTimestamp: Stamp) {
    function Log(action: string): seq<int> {
      if action in timestampsByAction then timestampsByAction[action] else []
    }
  }

  const FRESH := State(map[], Unset)

  /** The trim loop of this record keeps one entry less than the others do. */
  function Trimmed(l: Limits, log: seq<int>, now: int): seq<int> {
    Keep(log, now - l.uidRateLimitIntervalMs, l.maxChecksPerUid)
  }

  predicate IsRateLimited(l: Limits, s: State, now: int) {
    Active(s.rateLimitedTimestamp, l.uidRateLimitBanDurationMs, now)
  }

  /** The log of `action` after a check: trimmed, and extended unless the uid is banned. */
  function NextLog(l: Limits, s: State, action: string, now: int): seq<int> {
    Trimmed(l, s.Log(action), now) + if IsRateLimited(l, s, now) then [] else [now]
  }

  function Stamped(l: Limits, s: State, action: string, now: int): Stamp {
    if |NextLog(l, s, action, now)| < l.maxChecksPerUid then Unset
    else if IsRateLimited(l, s, now) then s.rateLimitedTimestamp
    else At(now)
  }

  /** The next state and the milliseconds to wait. */
  function Updated(l: Limits, s: State, action: string, now: int): (State, int) {
    var stamp := Stamped(l, s, action, now);
    (State(s.timestampsByAction[action := NextLog(l, s, action, now)], stamp),
     if stamp.Unset? then 0 else MsLeft(stamp, l.uidRateLimitBanDurationMs, now))
  }

  class UidRecord {
    var timestampsByAction: map<string, seq<int>>
    var rateLimitedTimestamp: Stamp
    const limits: Limits

    function View(): State
      reads this
    {
      State(timestampsByAction, rateLimitedTimestamp)
    }

    constructor (limits: Limits)
      ensures View() == FRESH && this.limits == limits
    {
      this.limits := limits;
      timestampsByAction, rateLimitedTimestamp := map[], Unset;
    }

    method AddCount(action: string, now: int) returns (retryAfter: int)
      modifies this
      ensures (View(), retryAfter) == Updated(limits, old(View()), action, now)
    {
      hide Keep;
      var log := if action in timestampsByAction then timestampsByAction[action] else [];
      log := Trim(log, now - limits.uidRateLimitIntervalMs, limits.maxChecksPerUid);
      if !Active(rateLimitedTimestamp, limits.uidRateLimitBanDurationMs, now) {
        log := log + [now];
      }
      assert log == NextLog(limits, old(View()), action, now);
      timestampsByAction := timestampsByAction[action := log];
      retryAfter := GetPossibleRetryDelay(action, now);
    }

    method GetPossibleRetryDelay(action: string, now: int) returns (retryAfter: int)
      requires action in timestampsByAction
      modifies this`rateLimitedTimestamp
      ensures var log, was := timestampsByAction[action], old(rateLimitedTimestamp);
              rateLimitedTimestamp ==
                (if |log| < limits.maxChecksPerUid then Unset
                 else if Active(was, limits.uidRateLimitBanDurationMs, now) then was else At(now))
      ensures retryAfter == if rateLimitedTimestamp.Unset? then 0
                            else MsLeft(rateLimitedTimestamp, limits.uidRateLimitBanDurationMs, now)
    {
      if |timestampsByAction[action]| < limits.maxChecksPerUid {
        rateLimitedTimestamp := Unset;
        return 0;
      }
      if !Active(rateLimitedTimestamp, limits.uidRateLimitBanDurationMs, now) {
        rateLimitedTimestamp := At(now);
      }
      return MsLeft(rateLimitedTimestamp, limits.uidRateLimitBanDurationMs, now);
    }
  }

  // ---- Whole runs ----

  datatype Check = Check(t: int, action: string)

  predicate Clocked(checks: seq<Check>, now: int) {
    && (forall i :: 0 <= i < |checks| ==> 0 < checks[i].t <= now)
    && (forall i, j :: 0 <= i < j < |checks| ==> checks[i].t <= checks[j].t)
  }

  function After(l: Limits, checks: seq<Check>): State {
    if checks == [] then FRESH
    else
      var last := checks[|checks| - 1];
      Updated(l, After(l, checks[..|checks| - 1]), last.action, last.t).0
  }

  /** Every check of `action` that was recorded, never trimmed. */
  function Recorded(l: Limits, checks: seq<Check>, action: string): seq<int> {
    if checks == [] then []
    else
      var init, last := checks[..|checks| - 1], checks[|checks| - 1];
      Recorded(l, init, action) +
      if last.action == action && !IsRateLimited(l, After(l, init), last.t) then [last.t] else []
  }

  lemma CheckRecords(l: Limits, s: State, check: Check, action: string, full: seq<int>, now: int)
    requires Trimmed(l, s.Log(action), check.t) == Trimmed(l, full, check.t) && check.t <= now
    ensures var event := if check.action == action && !IsRateLimited(l, s, check.t) then [check.t] else [];
            Trimmed(l, Updated(l, s, check.action, check.t).0.Log(action), now) == Trimmed(l, full + event, now)
  {
    hide Keep, Active;
    var cutoff, later, cap := check.t - l.uidRateLimitIntervalMs, now - l.uidRateLimitIntervalMs, l.maxChecksPerUid;
    var event := if check.action == action && !IsRateLimited(l, s, check.t) then [check.t] else [];
    assert full + [] == full && Trimmed(l, s.Log(action), check.t) + [] == Trimmed(l, s.Log(action), check.t);
    KeepLater(s.Log(action), full, cutoff, cap, later);
    KeepAbsorbs(s.Log(action), cutoff, cap, event, later);
    KeepAbsorbs(full, cutoff, cap, event, later);
  }

  lemma {:induction false} LogLooksRecorded(l: Limits, checks: seq<Check>, action: string, now: int)
    requires Clocked(checks, now)
    ensures Trimmed(l, After(l, checks).Log(action), now) == Trimmed(l, Recorded(l, checks, action), now)
    ensures Sorted(Recorded(l, checks, action)) && Below(Recorded(l, checks, action), now)
    ensures var stamp := After(l, checks).rateLimitedTimestamp; stamp.At? ==> 0 < stamp.ms <= now
  {
    hide Keep;
    if checks != [] {
      var init, last := checks[..|checks| - 1], checks[|checks| - 1];
      LogLooksRecorded(l, init, action, last.t);
      CheckRecords(l, After(l, init), last, action, Recorded(l, init, action), now);
    }
  }

  /** On every run, a check is let through exactly when fewer than `maxChecksPerUid` recorded
      checks of its action, itself included if it is recorded, are in the window of the
      log nobody trimmed (or bans are empty). Otherwise the delay is positive and at most
      one ban. The stored log stays within `maxChecksPerUid + 1` entries. */
  lemma VerdictCountsRecorded(l: Limits, checks: seq<Check>, action: string, now: int)
    requires Clocked(checks, now) && now > 0
    ensures var s := After(l, checks);
            var (s', delay) := Updated(l, s, action, now);
            var inWindow := CountAfter(Recorded(l, checks, action), now - l.uidRateLimitIntervalMs);
            && (delay == 0 <==> inWindow + (if IsRateLimited(l, s, now) then 0 else 1) < l.maxChecksPerUid
                                || l.uidRateLimitBanDurationMs == 0)
            && 0 <= delay <= l.uidRateLimitBanDurationMs
            && |s'.Log(action)| <= l.maxChecksPerUid + 1
  {
    hide Keep, After, Recorded, CountAfter;
    LogLooksRecorded(l, checks, action, now);
    var full, cutoff := Recorded(l, checks, action), now - l.uidRateLimitIntervalMs;
    KeepIsNewest(full, cutoff, l.maxChecksPerUid);
  }

  // ---- What the record can forget ----

  /** Nothing that can still matter at `now` distinguishes the two records. */
  ghost predicate Alike(l: Limits, a: State, b: State, now: int) {
    && Fade(a.rateLimitedTimestamp, l.uidRateLimitBanDurationMs, now)
       == Fade(b.rateLimitedTimestamp, l.uidRateLimitBanDurationMs, now)
    && forall action :: Trimmed(l, a.Log(action), now) == Trimmed(l, b.Log(action), now)
  }

  lemma AlikeChain(l: Limits, a: State, b: State, c: State, now: int)
    requires Alike(l, a, b, now) && Alike(l, a, c, now)
    ensures Alike(l, b, c, now)
  {
    hide Trimmed;
    forall action ensures Trimmed(l, b.Log(action), now) == Trimmed(l, c.Log(action), now) {
      assert Trimmed(l, a.Log(action), now) == Trimmed(l, b.Log(action), now);
    }
  }

  lemma AlikeLater(l: Limits, a: State, b: State, now: int, later: int)
    requires Alike(l, a, b, now) && now <= later
    ensures Alike(l, a, b, later)
  {
    hide Keep;
    forall action ensures Trimmed(l, a.Log(action), later) == Trimmed(l, b.Log(action), later) {
      var period := l.uidRateLimitIntervalMs;
      assert Trimmed(l, a.Log(action), now) == Trimmed(l, b.Log(action), now);
      KeepLater(a.Log(action), b.Log(action), now - period, l.maxChecksPerUid, later - period);
    }
  }

  lemma AlikeDecides(l: Limits, a: State, b: State, action: string, now: int)
    requires Alike(l, a, b, now) && now > 0
    ensures Updated(l, a, action, now).1 == Updated(l, b, action, now).1
    ensures Alike(l, Updated(l, a, action, now).0, Updated(l, b, action, now).0, now)
  {
    hide Keep;
    assert Trimmed(l, a.Log(action), now) == Trimmed(l, b.Log(action), now);
    assert IsRateLimited(l, a, now) == IsRateLimited(l, b, now);
    assert NextLog(l, a, action, now) == NextLog(l, b, action, now);
    var (a', b') := (Updated(l, a, action, now).0, Updated(l, b, action, now).0);
    forall other ensures Trimmed(l, a'.Log(other), now) == Trimmed(l, b'.Log(other), now) {
      if other != action {
        assert a'.Log(other) == a.Log(other) && b'.Log(other) == b.Log(other);
        assert Trimmed(l, a.Log(other), now) == Trimmed(l, b.Log(other), now);
      }
    }
  }

  /** No time in the record is later than `bound`. */
  ghost predicate Old(s: State, bound: int) {
    Past(s.rateLimitedTimestamp, bound) && forall action :: Below(s.Log(action), bound)
  }

  lemma StaysOld(l: Limits, s: State, action: string, now: int, bound: int)
    requires Old(s, bound) && bound <= now
    ensures Old(Updated(l, s, action, now).0, now)
  {
    hide Keep;
    var s' := Updated(l, s, action, now).0;
    forall other ensures Below(s'.Log(other), now) {
      assert Below(s.Log(other), bound);
      KeepBelow(s.Log(other), now - l.uidRateLimitIntervalMs, l.maxChecksPerUid, now);
    }
  }

  /** A record left alone for both its times is as good as new. */
  lemma FadesAway(l: Limits, s: State, bound: int, now: int)
    requires Old(s, bound) && now >= bound + l.uidRateLimitIntervalMs && now >= bound + l.uidRateLimitBanDurationMs
    ensures Alike(l, s, FRESH, now)
  {
    hide Keep;
    forall action ensures Trimmed(l, s.Log(action), now) == Trimmed(l, FRESH.Log(action), now) {
      assert Below(s.Log(action), bound);
      KeepNothing(s.Log(action), now - l.uidRateLimitIntervalMs, l.maxChecksPerUid);
    }
  }
}
