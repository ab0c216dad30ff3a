/** How many checks of a uid are let through over whole runs. */
module UidRuns {
  import opened Clock
  import opened Customs
  import opened EventLog
  import opened UidRecord

  // ---- Throughput ----

  /** The check is let through. */
  predicate Passes(l: Limits, s: State, check: Check) {
    Updated(l, s, check.action, check.t).1 == 0
  }

  /** Times of the checks of `action` that were let through. */
  function Passed(l: Limits, checks: seq<Check>, action: string): seq<int> {
    if checks == [] then []
    else
      var init, last := checks[..|checks| - 1], checks[|checks| - 1];
      Passed(l, init, action) + if last.action == action && Passes(l, After(l, init), last) then [last.t] else []
  }

  /** The action whose check started the latest ban. */
  function Owner(l: Limits, checks: seq<Check>): string {
    if checks == [] then ""
    else
      var init, last := checks[..|checks| - 1], checks[|checks| - 1];
      var s := After(l, init);
      if !IsRateLimited(l, s, last.t) && Stamped(l, s, last.action, last.t).At? then last.action else Owner(l, init)
  }

  /** The check finds the uid banned because of another action, and is let through unrecorded. */
  predicate LiftsForeignBan(l: Limits, init: seq<Check>, last: Check) {
    IsRateLimited(l, After(l, init), last.t) && Passes(l, After(l, init), last) && Owner(l, init) != last.action
  }

  /** Times at which a check of `action` lifted the ban of another one. */
  function Lifted(l: Limits, checks: seq<Check>, action: string): seq<int> {
    if checks == [] then []
    else
      var init, last := checks[..|checks| - 1], checks[|checks| - 1];
      Lifted(l, init, action) + if last.action == action && LiftsForeignBan(l, init, last) then [last.t] else []
  }

  /** What one check does: the delay is 0 exactly when the log stays short, and then the ban ends. */
  lemma CheckEffect(l: Limits, s: State, check: Check)
    requires l.uidRateLimitBanDurationMs > 0 && check.t > 0
    ensures var s' := Updated(l, s, check.action, check.t).0;
            && (Passes(l, s, check) <==> |NextLog(l, s, check.action, check.t)| < l.maxChecksPerUid)
            && (Passes(l, s, check) <==> s'.rateLimitedTimestamp.Unset?)
            && (!Passes(l, s, check) && IsRateLimited(l, s, check.t) ==>
                 s'.rateLimitedTimestamp == s.rateLimitedTimestamp)
  {
    hide Keep;
  }

  lemma {:induction false} PassedBelow(l: Limits, checks: seq<Check>, action: string, now: int)
    requires Clocked(checks, now)
    ensures Below(Passed(l, checks, action), now) && Below(Lifted(l, checks, action), now)
  {
    hide Passes, LiftsForeignBan;
    if checks != [] {
      PassedBelow(l, checks[..|checks| - 1], action, checks[|checks| - 1].t);
    }
  }

  /** At every cutoff, the checks let through are covered by the recorded ones, up to one and up to
      the foreign bans lifted; while a ban of the action's own stands, not even by one. */
  ghost predicate Covered(l: Limits, checks: seq<Check>, action: string, cutoff: int) {
    var own := After(l, checks).rateLimitedTimestamp.At? && Owner(l, checks) == action;
    CountAfter(Passed(l, checks, action), cutoff)
    <= CountAfter(Recorded(l, checks, action), cutoff) + CountAfter(Lifted(l, checks, action), cutoff)
       + if own then 0 else 1
  }

  /** One more check: what it adds to the three logs, and who owns the ban then. */
  lemma RunExtends(l: Limits, checks: seq<Check>, action: string)
    requires checks != [] && checks[|checks| - 1].t > 0 && l.uidRateLimitBanDurationMs > 0
    ensures var init, last := checks[..|checks| - 1], checks[|checks| - 1];
            var s, s' := After(l, init), After(l, checks);
            var banned, passes, asks := IsRateLimited(l, s, last.t), Passes(l, s, last), last.action == action;
            && Passed(l, checks, action) == Passed(l, init, action) + (if asks && passes then [last.t] else [])
            && Recorded(l, checks, action) == Recorded(l, init, action) + (if asks && !banned then [last.t] else [])
            && Lifted(l, checks, action) ==
                 Lifted(l, init, action)
                 + (if asks && passes && banned && Owner(l, init) != action then [last.t] else [])
            && (passes <==> s'.rateLimitedTimestamp.Unset?)
            && Owner(l, checks) == (if !banned && !passes then last.action else Owner(l, init))
            && (banned ==> s.rateLimitedTimestamp.At?)
  {
    hide Keep, NextLog, Passes;
    CheckEffect(l, After(l, checks[..|checks| - 1]), checks[|checks| - 1]);
  }

  lemma {:induction false} PassesCovered(l: Limits, checks: seq<Check>, action: string, now: int, cutoff: int)
    requires Clocked(checks, now) && l.uidRateLimitBanDurationMs > 0
    ensures Covered(l, checks, action, cutoff)
  {
    hide After, Passed, Recorded, Lifted, Owner, Passes, IsRateLimited, CountAfter;
    if checks == [] {
      NothingPassed(l, action, cutoff);
    } else {
      var init, last := checks[..|checks| - 1], checks[|checks| - 1];
      PassesCovered(l, init, action, last.t, cutoff);
      RunExtends(l, checks, action);
      CountAppend(Passed(l, init, action), last.t, cutoff);
      CountAppend(Recorded(l, init, action), last.t, cutoff);
      CountAppend(Lifted(l, init, action), last.t, cutoff);
      PassedBelow(l, init, action, last.t);
      if cutoff >= last.t {
        CountNothing(Passed(l, init, action), cutoff);
      }
    }
  }

  lemma NothingPassed(l: Limits, action: string, cutoff: int)
    ensures Covered(l, [], action, cutoff)
  {
  }

  /** In every window of the counting interval at most `maxChecksPerUid` checks of an action are let
      through, and one more for each time that such a check lifted the ban of another action. */
  lemma {:induction false} UidThroughput(l: Limits, checks: seq<Check>, action: string, now: int, lo: int)
    requires Clocked(checks, now) && l.uidRateLimitBanDurationMs > 0
    ensures var hi := lo + l.uidRateLimitIntervalMs;
            CountIn(Passed(l, checks, action), lo, hi) <= l.maxChecksPerUid + CountIn(Lifted(l, checks, action), lo, hi)
  {
    hide Keep, After, Passes, LiftsForeignBan, Recorded, CountAfter, CountIn;
    var hi := lo + l.uidRateLimitIntervalMs;
    if checks == [] {
      CountInNothing(lo, hi);
    } else {
      var init, last := checks[..|checks| - 1], checks[|checks| - 1];
      UidThroughput(l, init, action, last.t, lo);
      CountInAppend(Passed(l, init, action), last.t, lo, hi);
      CountInAppend(Lifted(l, init, action), last.t, lo, hi);
      if last.action == action && Passes(l, After(l, init), last) && lo <= last.t < hi {
        PassFits(l, init, last, lo);
      }
    }
  }

  /** A check that is let through still fits into every window that holds it. */
  lemma PassFits(l: Limits, init: seq<Check>, last: Check, lo: int)
    requires Clocked(init, last.t) && last.t > 0 && l.uidRateLimitBanDurationMs > 0
    requires Passes(l, After(l, init), last) && lo <= last.t < lo + l.uidRateLimitIntervalMs
    ensures var hi := lo + l.uidRateLimitIntervalMs;
            CountIn(Passed(l, init, last.action), lo, hi) + 1
            <= l.maxChecksPerUid + CountIn(Lifted(l, init, last.action), lo, hi)
               + if LiftsForeignBan(l, init, last) then 1 else 0
  {
    hide Keep, After, Passed, Lifted, Recorded, CountAfter, CountIn, Owner;
    var action, s, cutoff := last.action, After(l, init), last.t - l.uidRateLimitIntervalMs;
    VerdictCountsRecorded(l, init, action, last.t);
    PassesCovered(l, init, action, last.t, lo - 1);
    PassedBelow(l, init, action, last.t);
    CountInIsAfter(Passed(l, init, action), lo, lo + l.uidRateLimitIntervalMs);
    CountInIsAfter(Lifted(l, init, action), lo, lo + l.uidRateLimitIntervalMs);
    CountAfterLater(Recorded(l, init, action), cutoff, lo - 1);
  }

  /** All checks are of one action. */
  predicate OnlyAction(checks: seq<Check>, action: string) {
    forall i :: 0 <= i < |checks| ==> checks[i].action == action
  }

  lemma {:induction false} OnlyOwnBans(l: Limits, checks: seq<Check>, action: string)
    requires OnlyAction(checks, action)
    ensures Lifted(l, checks, action) == []
              && (After(l, checks).rateLimitedTimestamp.At? ==> Owner(l, checks) == action)
  {
    hide Keep, NextLog, Passes;
    if checks != [] {
      OnlyOwnBans(l, checks[..|checks| - 1], action);
    }
  }

  /** While a uid is checked for one action only, the limit is what it says. */
  lemma SingleActionThroughput(l: Limits, checks: seq<Check>, action: string, now: int, lo: int)
    requires Clocked(checks, now) && l.uidRateLimitBanDurationMs > 0 && OnlyAction(checks, action)
    ensures CountIn(Passed(l, checks, action), lo, lo + l.uidRateLimitIntervalMs) <= l.maxChecksPerUid
  {
    hide Passed, Lifted, CountIn;
    UidThroughput(l, checks, action, now, lo);
    OnlyOwnBans(l, checks, action);
    CountInNothing(lo, lo + l.uidRateLimitIntervalMs);
  }

  // ---- Two actions undo the limit ----

  const BUSY := "a"
  const OTHER := "b"

  function Repeated(action: string, t: int, n: nat): seq<Check> {
    if n == 0 then [] else Repeated(action, t, n - 1) + [Check(t, action)]
  }

  lemma AllKept(log: seq<int>, t: int, period: nat, cap: nat)
    requires AllAt(log, t) && period > 0
    ensures |Keep(log, t - period, cap)| == if |log| < cap then |log| else cap
    ensures AllAt(Keep(log, t - period, cap), t)
  {
    hide Keep;
    KeepIs(log, t - period, cap, if |log| < cap then 0 else |log| - cap);
  }

  /** Before it is full, the log of an action takes every check in. */
  lemma {:induction false} Filling(l: Limits, t: int, n: nat)
    requires t > 0 && l.uidRateLimitIntervalMs > 0 && l.uidRateLimitBanDurationMs > 0 && n <= l.maxChecksPerUid
    ensures var s := After(l, Repeated(BUSY, t, n));
            && |s.Log(BUSY)| == n && AllAt(s.Log(BUSY), t) && s.Log(OTHER) == []
            && s.rateLimitedTimestamp == if 0 < n == l.maxChecksPerUid then At(t) else Unset
    ensures Passed(l, Repeated(BUSY, t, n), OTHER) == []
    ensures Clocked(Repeated(BUSY, t, n), t)
  {
    hide After, Passed, Updated, Passes;
    RepeatedLength(BUSY, t, n);
    if n == 0 {
      PassedNothing(l, OTHER);
    } else {
      Filling(l, t, n - 1);
      var init := Repeated(BUSY, t, n - 1);
      FillStep(l, After(l, init), t);
      PassedExtends(l, init, Check(t, BUSY), OTHER);
    }
  }

  lemma FillStep(l: Limits, s: State, t: int)
    requires t > 0 && l.uidRateLimitIntervalMs > 0
    requires s.rateLimitedTimestamp == Unset && AllAt(s.Log(BUSY), t) && |s.Log(BUSY)| < l.maxChecksPerUid
    ensures var s' := Updated(l, s, BUSY, t).0;
            && |s'.Log(BUSY)| == |s.Log(BUSY)| + 1 && AllAt(s'.Log(BUSY), t) && s'.Log(OTHER) == s.Log(OTHER)
            && s'.rateLimitedTimestamp == if |s'.Log(BUSY)| == l.maxChecksPerUid then At(t) else Unset
  {
    hide Keep;
    AllKept(s.Log(BUSY), t, l.uidRateLimitIntervalMs, l.maxChecksPerUid);
  }

  lemma {:induction false} RepeatedLength(action: string, t: int, n: nat)
    ensures |Repeated(action, t, n)| == n && forall i :: 0 <= i < n ==> Repeated(action, t, n)[i] == Check(t, action)
  {
    if n > 0 {
      RepeatedLength(action, t, n - 1);
    }
  }

  /** A full log of one action and nothing of the other. */
  predicate Full(l: Limits, s: State, t: int) {
    |s.Log(BUSY)| >= l.maxChecksPerUid && AllAt(s.Log(BUSY), t) && s.Log(OTHER) == []
    && s.rateLimitedTimestamp == At(t)
  }

  /** From there, a check of the other action passes unrecorded and lifts the ban; one more check of
      the first restores it. */
  lemma SeeSaw(l: Limits, s: State, t: int)
    requires t > 0 && l.uidRateLimitIntervalMs > 0 && l.uidRateLimitBanDurationMs > 0 && l.maxChecksPerUid > 0
    requires Full(l, s, t)
    ensures var s' := Updated(l, s, OTHER, t).0;
            Passes(l, s, Check(t, OTHER)) && Full(l, Updated(l, s', BUSY, t).0, t)
  {
    hide Keep;
    AllKept([], t, l.uidRateLimitIntervalMs, l.maxChecksPerUid);
    AllKept(s.Log(BUSY), t, l.uidRateLimitIntervalMs, l.maxChecksPerUid);
  }

  lemma PassedExtends(l: Limits, checks: seq<Check>, check: Check, action: string)
    ensures After(l, checks + [check]) == Updated(l, After(l, checks), check.action, check.t).0
    ensures Passed(l, checks + [check], action) ==
              Passed(l, checks, action)
              + if check.action == action && Passes(l, After(l, checks), check) then [check.t] else []
  {
    hide Updated, Passes;
    assert (checks + [check])[..|checks|] == checks;
  }

  /** Alternating two actions at one instant lets any number of checks of one of them through. */
  lemma {:induction false} TwoActionsLeak(l: Limits, t: int, n: nat) returns (checks: seq<Check>)
    requires t > 0 && l.uidRateLimitIntervalMs > 0 && l.uidRateLimitBanDurationMs > 0 && l.maxChecksPerUid > 0
    ensures Clocked(checks, t) && (forall i :: 0 <= i < |checks| ==> checks[i].t == t)
    ensures Full(l, After(l, checks), t)
    ensures |Passed(l, checks, OTHER)| == n && AllAt(Passed(l, checks, OTHER), t)
  {
    hide Updated, After, Passed, Full, Passes;
    if n == 0 {
      checks := Repeated(BUSY, t, l.maxChecksPerUid);
      Filling(l, t, l.maxChecksPerUid);
      RepeatedLength(BUSY, t, l.maxChecksPerUid);
      FullWhenFilled(l, After(l, checks), t);
    } else {
      var init := TwoActionsLeak(l, t, n - 1);
      SeeSaw(l, After(l, init), t);
      PassedExtends(l, init, Check(t, OTHER), OTHER);
      PassedExtends(l, init + [Check(t, OTHER)], Check(t, BUSY), OTHER);
      checks := init + [Check(t, OTHER)] + [Check(t, BUSY)];
      assert Passed(l, checks, OTHER) == Passed(l, init, OTHER) + [t];
    }
  }

  lemma FullWhenFilled(l: Limits, s: State, t: int)
    requires |s.Log(BUSY)| == l.maxChecksPerUid && AllAt(s.Log(BUSY), t) && s.Log(OTHER) == []
    requires s.rateLimitedTimestamp == At(t)
    ensures Full(l, s, t)
  {
  }

  /** At most `maxChecksPerUid` checks of an action are let through in the window from `lo`. */
  ghost predicate Throttled(l: Limits, checks: seq<Check>, action: string, lo: int) {
    CountIn(Passed(l, checks, action), lo, lo + l.uidRateLimitIntervalMs) <= l.maxChecksPerUid
  }

  /** Without a ban duration every check is let through. */
  lemma {:induction false} NoBanPassesAll(l: Limits, t: int, n: nat)
    requires t > 0 && l.uidRateLimitBanDurationMs == 0
    ensures Clocked(Repeated(BUSY, t, n), t)
    ensures |Passed(l, Repeated(BUSY, t, n), BUSY)| == n && AllAt(Passed(l, Repeated(BUSY, t, n), BUSY), t)
  {
    hide After, Passed, Updated, Recorded, CountAfter;
    RepeatedLength(BUSY, t, n);
    if n == 0 {
      PassedNothing(l, BUSY);
    } else {
      NoBanPassesAll(l, t, n - 1);
      VerdictCountsRecorded(l, Repeated(BUSY, t, n - 1), BUSY, t);
      PassedExtends(l, Repeated(BUSY, t, n - 1), Check(t, BUSY), BUSY);
    }
  }

  lemma PassedNothing(l: Limits, action: string)
    ensures Passed(l, [], action) == [] && After(l, []) == FRESH
  {
  }

  /** With a limit of 0 nothing is ever let through. */
  lemma {:induction false} ZeroPassesNothing(l: Limits, checks: seq<Check>, action: string, now: int)
    requires Clocked(checks, now) && l.maxChecksPerUid == 0 && l.uidRateLimitBanDurationMs > 0
    ensures Passed(l, checks, action) == []
  {
    hide Keep, NextLog, Passes, After;
    if checks != [] {
      var init, last := checks[..|checks| - 1], checks[|checks| - 1];
      ZeroPassesNothing(l, init, action, last.t);
      CheckEffect(l, After(l, init), last);
    }
  }

  /** Exactly when a configuration limits every action of every run: never, for positive limits,
      because a check of one action lifts the ban of another. */
  lemma ThroughputExactlyWhen(l: Limits)
    ensures (forall checks, now, action, lo :: Clocked(checks, now) ==> Throttled(l, checks, action, lo))
            <==> l.uidRateLimitIntervalMs == 0 || (l.maxChecksPerUid == 0 && l.uidRateLimitBanDurationMs > 0)
  {
    hide Passed, CountIn, Clocked, After, Full, Throttled;
    var n, t := l.maxChecksPerUid + 1, 1 + l.uidRateLimitIntervalMs + l.uidRateLimitBanDurationMs;
    if l.uidRateLimitIntervalMs == 0 || (l.maxChecksPerUid == 0 && l.uidRateLimitBanDurationMs > 0) {
      forall checks, now, action, lo | Clocked(checks, now) ensures Throttled(l, checks, action, lo) {
        AlwaysThrottled(l, checks, now, action, lo);
      }
    } else if l.uidRateLimitBanDurationMs == 0 {
      NoBanPassesAll(l, t, n);
      TooManyPass(l, Repeated(BUSY, t, n), BUSY, t);
    } else {
      var checks := TwoActionsLeak(l, t, n);
      TooManyPass(l, checks, OTHER, t);
    }
  }

  lemma AlwaysThrottled(l: Limits, checks: seq<Check>, now: int, action: string, lo: int)
    requires Clocked(checks, now)
    requires l.uidRateLimitIntervalMs == 0 || (l.maxChecksPerUid == 0 && l.uidRateLimitBanDurationMs > 0)
    ensures Throttled(l, checks, action, lo)
  {
    hide Passed, CountIn;
    if l.uidRateLimitIntervalMs == 0 {
      EmptyWindow(Passed(l, checks, action), lo);
    } else {
      ZeroPassesNothing(l, checks, action, now);
      CountInNothing(lo, lo + l.uidRateLimitIntervalMs);
    }
  }

  lemma TooManyPass(l: Limits, checks: seq<Check>, action: string, t: int)
    requires l.uidRateLimitIntervalMs > 0 && AllAt(Passed(l, checks, action), t)
    requires |Passed(l, checks, action)| > l.maxChecksPerUid
    ensures !Throttled(l, checks, action, t)
  {
    hide Passed, CountIn;
    CountAll(Passed(l, checks, action), t, l.uidRateLimitIntervalMs);
  }

  // ---- The delay ----

  /** The check at position `i` started a ban that every check since has met. */
  ghost predicate StartsBan(l: Limits, checks: seq<Check>, i: nat)
    requires i < |checks|
  {
    && !IsRateLimited(l, After(l, checks[..i]), checks[i].t)
    && forall j :: i <= j < |checks| ==> !Passes(l, After(l, checks[..j]), checks[j])
  }

  /** A stamp on record is the time of the check that started the ban. */
  lemma {:induction false} StampIsStart(l: Limits, checks: seq<Check>, now: int) returns (i: nat)
    requires Clocked(checks, now) && l.uidRateLimitBanDurationMs > 0 && After(l, checks).rateLimitedTimestamp.At?
    ensures i < |checks| && StartsBan(l, checks, i) && After(l, checks).rateLimitedTimestamp == At(checks[i].t)
  {
    hide Updated, Passes, IsRateLimited, StartsBan;
    var init, last := checks[..|checks| - 1], checks[|checks| - 1];
    var s := After(l, init);
    StampKept(l, s, last);
    if IsRateLimited(l, s, last.t) {
      i := StampIsStart(l, init, last.t);
      StartExtends(l, checks, i);
    } else {
      i := |checks| - 1;
      StartHere(l, checks);
    }
  }

  lemma StartHere(l: Limits, checks: seq<Check>)
    requires checks != []
    requires var init, last := checks[..|checks| - 1], checks[|checks| - 1];
             !IsRateLimited(l, After(l, init), last.t) && !Passes(l, After(l, init), last)
    ensures StartsBan(l, checks, |checks| - 1)
  {
    hide IsRateLimited, Passes, After;
  }

  lemma StartExtends(l: Limits, checks: seq<Check>, i: nat)
    requires i < |checks| - 1 && StartsBan(l, checks[..|checks| - 1], i)
    requires !Passes(l, After(l, checks[..|checks| - 1]), checks[|checks| - 1])
    ensures StartsBan(l, checks, i)
  {
    hide IsRateLimited, Passes, After;
    var init := checks[..|checks| - 1];
    assert forall j :: 0 <= j < |init| ==> init[..j] == checks[..j];
    forall j | i <= j < |checks| ensures !Passes(l, After(l, checks[..j]), checks[j]) {
      assert j < |init| ==> !Passes(l, After(l, init[..j]), init[j]);
    }
  }

  lemma StampKept(l: Limits, s: State, check: Check)
    requires l.uidRateLimitBanDurationMs > 0 && check.t > 0
    ensures var stamp := Updated(l, s, check.action, check.t).0.rateLimitedTimestamp;
            && (Passes(l, s, check) <==> stamp.Unset?)
            && (!Passes(l, s, check) ==>
                  stamp == if IsRateLimited(l, s, check.t) then s.rateLimitedTimestamp else At(check.t))
            && (IsRateLimited(l, s, check.t) ==> s.rateLimitedTimestamp.At?)
  {
    hide Keep, NextLog;
  }

  /** On every run a check that must wait is told what is left of the ban: the ban began with a check
      that was refused while none stood, every check since has been refused, and the delay is the
      time until one ban duration after that start. */
  lemma DelayIsTimeLeft(l: Limits, checks: seq<Check>, action: string, now: int) returns (i: nat)
    requires Clocked(checks, now) && now > 0 && l.uidRateLimitBanDurationMs > 0
    requires !Passes(l, After(l, checks), Check(now, action))
    ensures var all := checks + [Check(now, action)];
            && i < |all| && StartsBan(l, all, i)
            && Updated(l, After(l, checks), action, now).1 == all[i].t + l.uidRateLimitBanDurationMs - now
  {
    hide Keep, NextLog, StartsBan;
    var all := checks + [Check(now, action)];
    assert all[..|checks|] == checks;
    CheckEffect(l, After(l, checks), Check(now, action));
    i := StampIsStart(l, all, now);
  }
}
