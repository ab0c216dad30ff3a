/** The record kept for a pair of IP address and email: it limits how many passwords
    one address may try on one account. */
module IpEmailRecord {
  import opened Clock
  import opened Customs
  import opened EventLog
  import opened Throttle

  datatype State = State(rl: Stamp, lf: seq<int>)

  const FRESH := State(Unset, [])

  function Trimmed(l: Limits, lf: seq<int>, now: int): seq<int> {
    Keep(lf, now - l.rateLimitIntervalMs, l.maxBadLogins + 1)
  }

  function WithBadLogin(l: Limits, s: State, now: int): State {
    s.(lf := Trimmed(l, s.lf, now) + [now])
  }

  predicate IsRateLimited(l: Limits, s: State, now: int) {
    Active(s.rl, l.rateLimitIntervalMs, now)
  }

  function RetryAfter(l: Limits, s: State, now: int): nat {
    RetrySeconds(MsLeft(s.rl, l.rateLimitIntervalMs, now))
  }

  /** The login limit was exceeded by a password check made while not banned. */
  predicate Bans(l: Limits, s: State, action: Action, now: int) {
    IsPasswordChecking(action) && !IsRateLimited(l, s, now) && |Trimmed(l, s.lf, now)| > l.maxBadLogins
  }

  function Updated(l: Limits, s: State, action: Action, now: int): (State, nat) {
    if !IsPasswordChecking(action) then (s, 0)
    else if IsRateLimited(l, s, now) then (s, RetryAfter(l, s, now))
    else if Bans(l, s, action, now) then
      var banned := State(At(now), []);
      (banned, RetryAfter(l, banned, now))
    else (s.(lf := Trimmed(l, s.lf, now)), 0)
  }

  /** A missing stamp compares false with everything. */
  predicate ResetSince(resetAt: Stamp, rl: Stamp) {
    resetAt.At? && rl.At? && resetAt.ms > rl.ms
  }

  class IpEmailRecord {
    var rl: Stamp
    var lf: seq<int>
    const limits: Limits

    function View(): State
      reads this
    {
      State(rl, lf)
    }

    constructor (limits: Limits)
      ensures View() == FRESH && this.limits == limits
    {
      this.limits := limits;
      rl, lf := Unset, [];
    }

    method TrimBadLogins(now: int)
      modifies this`lf
      ensures lf == Trimmed(limits, old(lf), now)
    {
      hide Keep;
      lf := Trim(lf, now - limits.rateLimitIntervalMs, limits.maxBadLogins + 1);
    }

    method AddBadLogin(now: int)
      modifies this`lf
      ensures View() == WithBadLogin(limits, old(View()), now)
    {
      TrimBadLogins(now);
      lf := lf + [now];
    }

    method UnblockIfReset(resetAt: Stamp) returns (unblocked: bool)
      modifies this
      ensures unblocked <==> ResetSince(resetAt, old(rl))
      ensures View() == if unblocked then FRESH else old(View())
    {
      if resetAt.At? && rl.At? && resetAt.ms > rl.ms {
        lf, rl := [], Unset;
        return true;
      }
      return false;
    }

    method Update(action: Action, now: int) returns (retryAfter: nat)
      modifies this
      ensures (View(), retryAfter) == Updated(limits, old(View()), action, now)
    {
      if !IsPasswordChecking(action) {
        return 0;
      }
      if Active(rl, limits.rateLimitIntervalMs, now) {
        return RetrySeconds(MsLeft(rl, limits.rateLimitIntervalMs, now));
      }
      TrimBadLogins(now);
      if |lf| > limits.maxBadLogins {
        rl, lf := At(now), [];
        return RetrySeconds(MsLeft(rl, limits.rateLimitIntervalMs, now));
      }
      return 0;
    }
  }

  // ---- Protocol steps on one pair ----

  /** `/check` with the time of the account's last password reset, and
      `/failedLoginAttempt`. A check is `passed` if no other record blocks it. */
  datatype Step = Check(t: int, action: Action, resetAt: Stamp, passed: bool) | BadLogin(t: int)

  /** The check found the pair blocked and the reset lifted the block. */
  predicate Amnesty(l: Limits, s: State, step: Step) {
    && step.Check?
    && var (s', retry) := Updated(l, s, step.action, step.t);
       retry > 0 && ResetSince(step.resetAt, s'.rl)
  }

  /** One step: the next state, and the delay a check contributes to the verdict. */
  function Applied(l: Limits, s: State, step: Step): (State, nat) {
    match step
    case BadLogin(t) => (WithBadLogin(l, s, t), 0)
    case Check(t, action, _, _) => if Amnesty(l, s, step) then (FRESH, 0) else Updated(l, s, action, t)
  }

  predicate Clocked(steps: seq<Step>) {
    && (forall i :: 0 <= i < |steps| ==> steps[i].t > 0)
    && (forall i, j :: 0 <= i < j < |steps| ==> steps[i].t <= steps[j].t)
  }

  function After(l: Limits, steps: seq<Step>): State {
    if steps == [] then FRESH
    else Applied(l, After(l, steps[..|steps| - 1]), steps[|steps| - 1]).0
  }

  /** A password check that is let through: a guess. */
  predicate IsGuess(l: Limits, s: State, step: Step) {
    step.Check? && step.passed && IsPasswordChecking(step.action) && Applied(l, s, step).1 == 0
  }

  /** Times of the guesses in a run. */
  function Guesses(l: Limits, steps: seq<Step>): seq<int> {
    if steps == [] then []
    else
      var init, last := steps[..|steps| - 1], steps[|steps| - 1];
      Guesses(l, init) + if IsGuess(l, After(l, init), last) then [last.t] else []
  }

  /** The latest guess has not been reported as a failed login yet. */
  predicate Pending(l: Limits, steps: seq<Step>) {
    steps != [] &&
    var init, last := steps[..|steps| - 1], steps[|steps| - 1];
    !last.BadLogin? && (IsGuess(l, After(l, init), last) || Pending(l, init))
  }

  /** Every guess fails and is reported before the next one is made. */
  predicate GuessesReported(l: Limits, steps: seq<Step>) {
    steps != [] ==>
      var init, last := steps[..|steps| - 1], steps[|steps| - 1];
      GuessesReported(l, init) && (IsGuess(l, After(l, init), last) ==> !Pending(l, init))
  }

  predicate NoAmnesty(l: Limits, steps: seq<Step>) {
    steps != [] ==>
      var init, last := steps[..|steps| - 1], steps[|steps| - 1];
      NoAmnesty(l, init) && !Amnesty(l, After(l, init), last)
  }

  lemma StepExplained(l: Limits, g: Ledger, s: State, step: Step) returns (g': Ledger)
    requires l.rateLimitIntervalMs > 0 && step.t > 0 && !Amnesty(l, s, step)
    requires g.Explains(s.lf, s.rl, l.rateLimitIntervalMs, l.maxBadLogins + 1, step.t)
    requires Spaced(g.accepted, l.rateLimitIntervalMs, l.maxBadLogins + 1)
    requires IsGuess(l, s, step) ==> !g.pending
    ensures var s' := Applied(l, s, step).0;
            && g'.accepted == g.accepted + (if IsGuess(l, s, step) then [step.t] else [])
            && (g'.pending ==> !step.BadLogin? && (IsGuess(l, s, step) || g.pending))
            && g'.Explains(s'.lf, s'.rl, l.rateLimitIntervalMs, l.maxBadLogins + 1, step.t)
            && Spaced(g'.accepted, l.rateLimitIntervalMs, l.maxBadLogins + 1)
  {
    hide Keep;
    var now, period, cap := step.t, l.rateLimitIntervalMs, l.maxBadLogins + 1;
    g' := g;
    RetrySecondsTight(MsLeft(s.rl, period, now));
    RetrySecondsTight(MsLeft(At(now), period, now));
    if step.BadLogin? {
      ExplainsTrim(g, s.lf, s.rl, period, cap, now);
      ExplainsPush(g, Trimmed(l, s.lf, now), s.rl, period, cap, now);
      g' := Ledger(g.accepted, g.banned, g.pushed + [now], false);
    } else if Bans(l, s, step.action, now) {
      ExplainsForget(g, s.lf, s.rl, period, cap, now);
      g' := Ledger(g.accepted, |g.accepted|, [], false);
    } else if IsGuess(l, s, step) {
      if cap <= |g.accepted| {
        OldestIsOld(g, s.lf, s.rl, period, period, cap, now);
      }
      SpacedAppend(g.accepted, period, cap, now);
      g' := Ledger(g.accepted + [now], g.banned, g.pushed, true);
      ExplainsAcceptPending(g, s.lf, s.rl, period, cap, now);
      ExplainsTrim(g', s.lf, s.rl, period, cap, now);
    } else {
      ExplainsTrim(g, s.lf, s.rl, period, cap, now);
    }
  }

  lemma {:induction false} RunExplained(l: Limits, steps: seq<Step>, now: int) returns (g: Ledger)
    requires Clocked(steps) && l.rateLimitIntervalMs > 0 && forall i :: 0 <= i < |steps| ==> steps[i].t <= now
    requires NoAmnesty(l, steps) && GuessesReported(l, steps)
    ensures var s := After(l, steps);
            && g.accepted == Guesses(l, steps) && (g.pending ==> Pending(l, steps))
            && g.Explains(s.lf, s.rl, l.rateLimitIntervalMs, l.maxBadLogins + 1, now)
            && Spaced(g.accepted, l.rateLimitIntervalMs, l.maxBadLogins + 1)
  {
    hide Keep, Amnesty, IsGuess, Applied;
    g := EMPTY;
    if steps != [] {
      var init, last := steps[..|steps| - 1], steps[|steps| - 1];
      g := RunExplained(l, init, last.t);
      g := StepExplained(l, g, After(l, init), last);
      var s := After(l, steps);
      ExplainsLater(g, s.lf, s.rl, l.rateLimitIntervalMs, l.maxBadLogins + 1, last.t, now);
    }
  }

  /** The guess bound: when every guess is reported before the next, no window of one
      interval sees more than `maxBadLogins + 1` guesses, however often the pair gets
      banned and its log forgotten, as long as no password reset lifts a ban. */
  lemma GuessBound(l: Limits, steps: seq<Step>, lo: int)
    requires Clocked(steps) && NoAmnesty(l, steps) && GuessesReported(l, steps)
    ensures CountIn(Guesses(l, steps), lo, lo + l.rateLimitIntervalMs) <= l.maxBadLogins + 1
  {
    hide Keep, After, Guesses, GuessesReported, NoAmnesty;
    if l.rateLimitIntervalMs == 0 {
      EmptyWindow(Guesses(l, steps), lo);
    } else {
      var _ := RunExplained(l, steps, if steps == [] then 0 else steps[|steps| - 1].t);
      SpacedBoundsWindows(Guesses(l, steps), l.rateLimitIntervalMs, l.maxBadLogins + 1, lo);
    }
  }

  // ---- What amnesties buy ----

  /** Times at which a reset lifted a ban. */
  function Amnesties(l: Limits, steps: seq<Step>): seq<int> {
    if steps == [] then []
    else
      var init, last := steps[..|steps| - 1], steps[|steps| - 1];
      Amnesties(l, init) + if Amnesty(l, After(l, init), last) then [last.t] else []
  }

  /** One more step of a run. */
  lemma RunExtends(l: Limits, steps: seq<Step>, step: Step)
    ensures var s := After(l, steps);
            && After(l, steps + [step]) == Applied(l, s, step).0
            && Guesses(l, steps + [step]) == Guesses(l, steps) + (if IsGuess(l, s, step) then [step.t] else [])
            && Amnesties(l, steps + [step]) == Amnesties(l, steps) + (if Amnesty(l, s, step) then [step.t] else [])
            && (Pending(l, steps + [step]) <==> !step.BadLogin? && (IsGuess(l, s, step) || Pending(l, steps)))
            && (GuessesReported(l, steps + [step]) <==>
                  GuessesReported(l, steps) && (IsGuess(l, s, step) ==> !Pending(l, steps)))
            && (NoAmnesty(l, steps + [step]) <==> NoAmnesty(l, steps) && !Amnesty(l, s, step))
  {
    hide Applied, IsGuess, Amnesty;
    assert (steps + [step])[..|steps|] == steps;
  }

  lemma EmptyRun(l: Limits)
    ensures After(l, []) == FRESH && Guesses(l, []) == [] && Amnesties(l, []) == []
    ensures !Pending(l, []) && GuessesReported(l, []) && NoAmnesty(l, [])
  {
  }

  /** What an amnesty does, a check of a fresh record does as well. */
  lemma AmnestyStartsAfresh(l: Limits, s: State, step: Step)
    requires Amnesty(l, s, step)
    ensures Applied(l, s, step) == (FRESH, 0) == Applied(l, FRESH, step)
    ensures IsGuess(l, s, step) == IsGuess(l, FRESH, step) && !Amnesty(l, FRESH, step)
  {
    KeepNothing([], step.t - l.rateLimitIntervalMs, l.maxBadLogins + 1);
  }

  /** A run whose last amnesty is at `step`, and the part of it from `step` on as a run of its own. */
  lemma {:induction false} RunRestarts(l: Limits, before: seq<Step>, step: Step, rest: seq<Step>)
    requires Amnesty(l, After(l, before), step)
    requires forall j :: 0 <= j < |rest| ==> !Amnesty(l, After(l, before + [step] + rest[..j]), rest[j])
    ensures var whole, own := before + [step] + rest, [step] + rest;
            && After(l, whole) == After(l, own)
            && Guesses(l, whole) == Guesses(l, before) + Guesses(l, own)
            && Amnesties(l, whole) == Amnesties(l, before) + [step.t]
            && NoAmnesty(l, own) && (Pending(l, own) ==> Pending(l, whole))
            && (GuessesReported(l, whole) ==> GuessesReported(l, before) && GuessesReported(l, own))
  {
    hide Applied, IsGuess, Amnesty, After, Guesses, Amnesties, Pending, GuessesReported, NoAmnesty;
    if rest == [] {
      EmptyRun(l);
      AmnestyStartsAfresh(l, After(l, before), step);
      RunExtends(l, before, step);
      RunExtends(l, [], step);
      assert before + [step] + rest == before + [step] && [step] + rest == [step] == [] + [step];
      assert Guesses(l, before) + [] == Guesses(l, before);
    } else {
      var init, last := rest[..|rest| - 1], rest[|rest| - 1];
      forall j | 0 <= j < |init| ensures !Amnesty(l, After(l, before + [step] + init[..j]), init[j]) {
        assert init[..j] == rest[..j];
      }
      RunRestarts(l, before, step, init);
      assert !Amnesty(l, After(l, before + [step] + rest[..|rest| - 1]), last);
      RunExtends(l, before + [step] + init, last);
      RunExtends(l, [step] + init, last);
      assert before + [step] + init + [last] == before + [step] + rest && [step] + init + [last] == [step] + rest;
      Regroup(Guesses(l, before), Guesses(l, [step] + init), last.t);
      Regroup(Amnesties(l, before), [step.t], last.t);
    }
  }

  lemma Regroup(a: seq<int>, b: seq<int>, t: int)
    ensures a + b + [t] == a + (b + [t]) && a + b + [] == a + b == a + (b + [])
  {
  }

  /** A run split at its last amnesty. */
  lemma {:induction false} LastAmnesty(l: Limits, steps: seq<Step>)
    returns (before: seq<Step>, step: Step, rest: seq<Step>)
    requires !NoAmnesty(l, steps)
    ensures steps == before + [step] + rest && Amnesty(l, After(l, before), step)
    ensures forall j :: 0 <= j < |rest| ==> !Amnesty(l, After(l, before + [step] + rest[..j]), rest[j])
  {
    hide Amnesty, After;
    var init, last := steps[..|steps| - 1], steps[|steps| - 1];
    if Amnesty(l, After(l, init), last) {
      before, step, rest := init, last, [];
    } else {
      var rest';
      before, step, rest' := LastAmnesty(l, init);
      rest := rest' + [last];
      forall j | 0 <= j < |rest| ensures !Amnesty(l, After(l, before + [step] + rest[..j]), rest[j]) {
        if j < |rest'| {
          assert rest[..j] == rest'[..j];
        } else {
          assert rest[..j] == rest';
        }
      }
    }
  }

  lemma {:induction false} GuessTimes(l: Limits, steps: seq<Step>, lo: int, hi: int)
    requires forall i :: 0 <= i < |steps| ==> lo <= steps[i].t <= hi
    ensures forall i :: 0 <= i < |Guesses(l, steps)| ==> lo <= Guesses(l, steps)[i] <= hi
  {
    hide IsGuess, After;
    if steps != [] {
      GuessTimes(l, steps[..|steps| - 1], lo, hi);
    }
  }

  lemma SplitAtLastAmnesty(l: Limits, steps: seq<Step>) returns (before: seq<Step>, own: seq<Step>)
    requires !NoAmnesty(l, steps)
    ensures before + own == steps && own != []
    ensures Guesses(l, steps) == Guesses(l, before) + Guesses(l, own)
    ensures Amnesties(l, steps) == Amnesties(l, before) + [own[0].t] && NoAmnesty(l, own)
    ensures GuessesReported(l, steps) ==> GuessesReported(l, before) && GuessesReported(l, own)
  {
    hide Amnesty, After, Guesses, Amnesties, Pending, GuessesReported, NoAmnesty;
    var step, rest;
    before, step, rest := LastAmnesty(l, steps);
    own := [step] + rest;
    RunRestarts(l, before, step, rest);
    assert before + own == before + [step] + rest;
  }

  lemma ClockedParts(before: seq<Step>, own: seq<Step>)
    requires Clocked(before + own) && own != []
    ensures Clocked(before) && Clocked(own)
    ensures forall i :: 0 <= i < |before| ==> 0 <= before[i].t <= own[0].t
    ensures forall i :: 0 <= i < |own| ==> own[0].t <= own[i].t <= own[|own| - 1].t
  {
    var steps := before + own;
    assert forall i :: 0 <= i < |before| ==> before[i] == steps[i];
    assert forall i :: 0 <= i < |own| ==> own[i] == steps[|before| + i];
  }

  /** However passwords are reset: when every guess is reported before the next, a window of one
      interval sees at most `maxBadLogins + 1` guesses, and as many again for each ban that a reset
      lifts within it. */
  lemma {:induction false} GuessBoundWithResets(l: Limits, steps: seq<Step>, lo: int)
    requires Clocked(steps) && GuessesReported(l, steps)
    ensures var hi := lo + l.rateLimitIntervalMs;
            CountIn(Guesses(l, steps), lo, hi) <= (CountIn(Amnesties(l, steps), lo, hi) + 1) * (l.maxBadLogins + 1)
    decreases |steps|
  {
    hide After, Guesses, Amnesties, GuessesReported, NoAmnesty, CountIn, Clocked;
    var hi, m := lo + l.rateLimitIntervalMs, l.maxBadLogins + 1;
    if NoAmnesty(l, steps) {
      GuessBound(l, steps, lo);
      AtLeastOne(CountIn(Amnesties(l, steps), lo, hi), m);
    } else {
      var before, own := SplitAtLastAmnesty(l, steps);
      var t := own[0].t;
      ClockedParts(before, own);
      GuessBoundWithResets(l, before, lo);
      GuessBound(l, own, lo);
      GuessTimes(l, before, 0, t);
      GuessTimes(l, own, t, own[|own| - 1].t);
      JoinedBound(Guesses(l, before), Guesses(l, own), Amnesties(l, before), t, lo, hi, m);
    }
  }

  lemma JoinedBound(before: seq<int>, own: seq<int>, amnesties: seq<int>, t: int, lo: int, hi: int, m: nat)
    requires forall i :: 0 <= i < |before| ==> before[i] <= t
    requires forall i :: 0 <= i < |own| ==> own[i] >= t
    requires CountIn(before, lo, hi) <= (CountIn(amnesties, lo, hi) + 1) * m && CountIn(own, lo, hi) <= m
    ensures CountIn(before + own, lo, hi) <= (CountIn(amnesties + [t], lo, hi) + 1) * m
  {
    hide CountIn;
    CountInConcat(before, own, lo, hi);
    CountInAppend(amnesties, t, lo, hi);
    var n := CountIn(amnesties, lo, hi);
    if t < lo {
      CountInNone(before, lo, hi);
      AtLeastOne(n, m);
    } else if t >= hi {
      CountInNone(own, lo, hi);
    } else {
      OneMore(n, m);
    }
  }

  lemma AtLeastOne(n: nat, m: nat)
    ensures m <= (n + 1) * m
  {
  }

  lemma OneMore(n: nat, m: nat)
    ensures (n + 1) * m + m == (n + 2) * m
  {
  }

  /** A reset later than the ban lifts it, whatever the record holds: the check is let
      through and the pair starts over. */
  lemma ResetLiftsBan(l: Limits, s: State, action: Action, resetAt: Stamp, passed: bool, now: int)
    requires IsPasswordChecking(action) && IsRateLimited(l, s, now)
    ensures ResetSince(resetAt, s.rl) <==> Applied(l, s, Check(now, action, resetAt, passed)) == (FRESH, 0)
  {
    RetrySecondsTight(MsLeft(s.rl, l.rateLimitIntervalMs, now));
  }

  // ---- The verdict, from the reports alone ----

  /** The delay is exact: it is the number of whole seconds, from now on, at whose start the pair is
      still rate-limited. */
  lemma RetryAfterIsExact(l: Limits, s: State, now: int, n: nat)
    requires Epoch(l, now)
    ensures n < RetryAfter(l, s, now) <==> IsRateLimited(l, s, now + 1000 * n)
  {
    RetrySecondsTight(MsLeft(s.rl, l.rateLimitIntervalMs, now));
  }

  /** The limit kept by hand: when the latest ban began, and every report since it or since the
      latest amnesty, none trimmed. */
  datatype Story = Story(ban: Stamp, reports: seq<int>)

  /** The ban that a password check finds or starts. */
  function BanAt(l: Limits, story: Story, now: int): Stamp {
    if Active(story.ban, l.rateLimitIntervalMs, now) then story.ban
    else if CountAfter(story.reports, now - l.rateLimitIntervalMs) > l.maxBadLogins then At(now)
    else Unset
  }

  function Told(l: Limits, steps: seq<Step>): Story {
    if steps == [] then Story(Unset, [])
    else
      var story := Told(l, steps[..|steps| - 1]);
      match steps[|steps| - 1]
      case BadLogin(t) => Story(story.ban, story.reports + [t])
      case Check(t, action, resetAt, _) =>
        var ban := BanAt(l, story, t);
        if !IsPasswordChecking(action) || ban.Unset? then story
        else if ResetSince(resetAt, ban) then Story(Unset, [])
        else if ban == story.ban then story
        else Story(ban, [])
  }

  lemma CheckTold(l: Limits, s: State, story: Story, now: int)
    requires Sorted(story.reports) && Trimmed(l, s.lf, now) == Trimmed(l, story.reports, now)
    ensures |Trimmed(l, s.lf, now)| > l.maxBadLogins
            <==> CountAfter(story.reports, now - l.rateLimitIntervalMs) > l.maxBadLogins
  {
    hide Keep, CountAfter;
    KeepDecides(story.reports, now - l.rateLimitIntervalMs, l.maxBadLogins);
  }

  lemma StepTold(l: Limits, steps: seq<Step>)
    requires steps != [] && Clocked(steps) && l.rateLimitIntervalMs > 0
    requires var init, t := steps[..|steps| - 1], steps[|steps| - 1].t;
             var s, story := After(l, init), Told(l, init);
             && s.rl == story.ban && Past(s.rl, t) && Sorted(story.reports) && Below(story.reports, t)
             && Trimmed(l, s.lf, t) == Trimmed(l, story.reports, t)
    ensures var t := steps[|steps| - 1].t;
            var s', story' := After(l, steps), Told(l, steps);
            && s'.rl == story'.ban && Past(s'.rl, t) && Sorted(story'.reports) && Below(story'.reports, t)
            && Trimmed(l, s'.lf, t) == Trimmed(l, story'.reports, t)
  {
    hide Keep, CountAfter;
    var init, last := steps[..|steps| - 1], steps[|steps| - 1];
    var s, story, t := After(l, init), Told(l, init), last.t;
    var cutoff, cap := last.t - l.rateLimitIntervalMs, l.maxBadLogins + 1;
    CheckTold(l, s, story, t);
    KeepTwice(s.lf, cutoff, cap);
    KeepAbsorbs(s.lf, cutoff, cap, [t], cutoff);
    KeepExtends(s.lf, story.reports, cutoff, cap, [t], cutoff);
    RetrySecondsTight(MsLeft(s.rl, l.rateLimitIntervalMs, t));
    RetrySecondsTight(MsLeft(At(t), l.rateLimitIntervalMs, t));
  }

  lemma {:induction false} RecordTellsStory(l: Limits, steps: seq<Step>, now: int)
    requires Clocked(steps) && l.rateLimitIntervalMs > 0 && forall i :: 0 <= i < |steps| ==> steps[i].t <= now
    ensures var s, story := After(l, steps), Told(l, steps);
            && s.rl == story.ban && Past(s.rl, now) && Sorted(story.reports) && Below(story.reports, now)
            && Trimmed(l, s.lf, now) == Trimmed(l, story.reports, now)
  {
    hide Keep, Applied, BanAt;
    if steps != [] {
      var last := steps[|steps| - 1];
      RecordTellsStory(l, steps[..|steps| - 1], last.t);
      StepTold(l, steps);
      KeepLater(After(l, steps).lf, Told(l, steps).reports, last.t - l.rateLimitIntervalMs, l.maxBadLogins + 1,
                now - l.rateLimitIntervalMs);
    }
  }

  /** On every run a password check of the pair is told to wait exactly when the latest ban still
      stands or more than `maxBadLogins` reports since the last clear are in the window, unless a
      reset is later than that ban. */
  lemma VerdictIsExact(l: Limits, steps: seq<Step>, action: Action, resetAt: Stamp, passed: bool, now: int)
    requires Clocked(steps) && Epoch(l, now) && l.rateLimitIntervalMs > 0
    requires IsPasswordChecking(action) && forall i :: 0 <= i < |steps| ==> steps[i].t <= now
    ensures var ban := BanAt(l, Told(l, steps), now);
            var retry := Applied(l, After(l, steps), Check(now, action, resetAt, passed)).1;
            && (retry > 0 <==> ban.At? && !ResetSince(resetAt, ban))
            && (retry > 0 ==> retry == RetrySeconds(MsLeft(ban, l.rateLimitIntervalMs, now)))
  {
    hide Keep, CountAfter, After, Told;
    var s := After(l, steps);
    RecordTellsStory(l, steps, now);
    CheckTold(l, s, Told(l, steps), now);
    RetrySecondsTight(MsLeft(s.rl, l.rateLimitIntervalMs, now));
    RetrySecondsTight(MsLeft(At(now), l.rateLimitIntervalMs, now));
  }

  // ---- What bans cost ----

  /** Bans so far, failed logins reported so far, and those reported since the log was
      last forgotten by a ban or an amnesty. */
  datatype Tally = Tally(bans: nat, reported: nat, sinceClear: nat)

  function Tallied(l: Limits, steps: seq<Step>): Tally {
    if steps == [] then Tally(0, 0, 0)
    else
      var init, last := steps[..|steps| - 1], steps[|steps| - 1];
      var was, s := Tallied(l, init), After(l, init);
      if last.BadLogin? then Tally(was.bans, was.reported + 1, was.sinceClear + 1)
      else
        var bans := was.bans + if Bans(l, s, last.action, last.t) then 1 else 0;
        Tally(bans, was.reported, if bans > was.bans || Amnesty(l, s, last) then 0 else was.sinceClear)
  }

  /** The log never holds more than was reported since it was forgotten, so a ban is
      paid for by `maxBadLogins + 1` reports that no earlier ban used. */
  lemma {:induction false} BansAreEarned(l: Limits, steps: seq<Step>)
    ensures var tally := Tallied(l, steps);
            && |After(l, steps).lf| <= tally.sinceClear
            && tally.bans * (l.maxBadLogins + 1) + tally.sinceClear <= tally.reported
  {
    if steps != [] {
      var init, last := steps[..|steps| - 1], steps[|steps| - 1];
      BansAreEarned(l, init);
      var was, s := Tallied(l, init), After(l, init);
      assert |Trimmed(l, s.lf, last.t)| <= |s.lf|;
      assert (was.bans + 1) * (l.maxBadLogins + 1) == was.bans * (l.maxBadLogins + 1) + l.maxBadLogins + 1;
    }
  }

  /** Whenever a check bans the pair, at least `maxBadLogins + 1` failed logins were
      reported since the last ban or amnesty. */
  lemma BanNeedsReports(l: Limits, steps: seq<Step>, action: Action, now: int)
    requires Bans(l, After(l, steps), action, now)
    ensures Tallied(l, steps).sinceClear >= l.maxBadLogins + 1
  {
    BansAreEarned(l, steps);
  }

  // ---- What the record can forget ----

  /** Everything about the record that can still matter at `now`. */
  function Faded(l: Limits, s: State, now: int): State {
    State(Fade(s.rl, l.rateLimitIntervalMs, now), Trimmed(l, s.lf, now))
  }

  lemma FadedLater(l: Limits, a: State, b: State, now: int, later: int)
    requires Faded(l, a, now) == Faded(l, b, now) && now <= later
    ensures Faded(l, a, later) == Faded(l, b, later)
  {
    hide Keep;
    KeepLater(a.lf, b.lf, now - l.rateLimitIntervalMs, l.maxBadLogins + 1, later - l.rateLimitIntervalMs);
  }

  /** Records that fade to the same value stay indistinguishable: same verdict, same
      amnesty, and again the same faded value, even if the account's reset stamps
      differ in what has faded. */
  lemma FadedDecides(l: Limits, a: State, b: State, step: Step, step': Step)
    requires Epoch(l, step.t) && Faded(l, a, step.t) == Faded(l, b, step.t)
    requires step.Check? ==> step'.Check? && step'.action == step.action
    requires step.Check? ==>
               Fade(step.resetAt, l.rateLimitIntervalMs, step.t) == Fade(step'.resetAt, l.rateLimitIntervalMs, step.t)
    requires step'.t == step.t && (step.BadLogin? ==> step'.BadLogin?)
    ensures Applied(l, a, step).1 == Applied(l, b, step').1
    ensures Faded(l, Applied(l, a, step).0, step.t) == Faded(l, Applied(l, b, step').0, step.t)
  {
    hide Keep;
    var now, period, cap := step.t, l.rateLimitIntervalMs, l.maxBadLogins + 1;
    FadeDecides(a.rl, b.rl, period, now);
    KeepTwice(a.lf, now - period, cap);
    KeepTwice(b.lf, now - period, cap);
    KeepExtends(Trimmed(l, a.lf, now), Trimmed(l, b.lf, now), now - period, cap, [now], now - period);
    RetrySecondsTight(MsLeft(a.rl, period, now));
    RetrySecondsTight(MsLeft(At(now), period, now));
  }

  /** Nor do they differ in who gets an amnesty. */
  lemma FadedAmnesty(l: Limits, a: State, b: State, step: Step)
    requires Epoch(l, step.t) && Faded(l, a, step.t) == Faded(l, b, step.t)
    ensures Amnesty(l, a, step) == Amnesty(l, b, step)
  {
    hide Keep;
    var now, period := step.t, l.rateLimitIntervalMs;
    FadeDecides(a.rl, b.rl, period, now);
    RetrySecondsTight(MsLeft(At(now), period, now));
  }

  /** No time in the record is later than `bound`. */
  predicate Old(s: State, bound: int) {
    Past(s.rl, bound) && Below(s.lf, bound)
  }

  lemma StaysOld(l: Limits, s: State, step: Step, bound: int)
    requires Old(s, bound) && bound <= step.t
    ensures Old(Applied(l, s, step).0, step.t)
  {
    hide Keep, Amnesty;
    KeepBelow(s.lf, step.t - l.rateLimitIntervalMs, l.maxBadLogins + 1, step.t);
  }

  /** A record left alone for one interval is as good as new. */
  lemma FadesAway(l: Limits, s: State, bound: int, now: int)
    requires Old(s, bound) && now >= bound + l.rateLimitIntervalMs
    ensures Faded(l, s, now) == Faded(l, FRESH, now)
  {
    hide Keep;
    KeepNothing(s.lf, now - l.rateLimitIntervalMs, l.maxBadLogins + 1);
  }
}
