/** A single counted rule with a counting period and a ban interval: the user
    defined `Record`, and `SMSRecord`, which is the rule whose two times coincide. */
module RateRecord {
  import opened Clock
  import opened EventLog
  import opened Throttle

  datatype Rule = Rule(max: nat, periodMs: nat, rateLimitIntervalMs: nat)

  datatype State = State(rl: Stamp, hits: seq<int>)

  const FRESH := State(Unset, [])

  function RetryAfter(rule: Rule, s: State, now: int): nat {
    RetrySeconds(MsLeft(s.rl, rule.rateLimitIntervalMs, now))
  }

  /** One call: the next state and the seconds to wait, 0 meaning "go ahead". */
  function Updated(rule: Rule, s: State, counted: bool, now: int): (State, nat) {
    if !counted then (s, 0)
    else if Active(s.rl, rule.rateLimitIntervalMs, now) then (s, RetryAfter(rule, s, now))
    else
      var hits := Keep(s.hits + [now], now - rule.periodMs, rule.max + 1);
      if |hits| > rule.max then
        var banned := State(At(now), []);
        (banned, RetryAfter(rule, banned, now))
      else (State(s.rl, hits), 0)
  }

  /** The record object. `actions` lists the actions the rule counts. */
  class Record {
    var rl: Stamp
    var hits: seq<int>
    const limits: Rule
    const actions: seq<string>

    function View(): State
      reads this
    {
      State(rl, hits)
    }

    constructor (limits: Rule, actions: seq<string>)
      ensures View() == FRESH && this.limits == limits && this.actions == actions
    {
      this.limits, this.actions := limits, actions;
      rl, hits := Unset, [];
    }

    method IsOverLimit(now: int) returns (over: bool)
      modifies this`hits
      ensures hits == Keep(old(hits), now - limits.periodMs, limits.max + 1)
      ensures over <==> |hits| > limits.max
    {
      hide Keep;
      hits := Trim(hits, now - limits.periodMs, limits.max + 1);
      over := |hits| > limits.max;
    }

    method Update(action: string, now: int) returns (retryAfter: nat)
      modifies this
      ensures (View(), retryAfter) == Updated(limits, old(View()), action in actions, now)
    {
      if action in actions {
        if Active(rl, limits.rateLimitIntervalMs, now) {
          return RetrySeconds(MsLeft(rl, limits.rateLimitIntervalMs, now));
        }
        hits := hits + [now];
        var over := IsOverLimit(now);
        if over {
          rl, hits := At(now), [];
          return RetrySeconds(MsLeft(rl, limits.rateLimitIntervalMs, now));
        }
      }
      return 0;
    }
  }

  // ---- Whole runs ----

  /** A call at time `t`; `counted` says whether the rule lists its action. */
  datatype Call = Call(t: int, counted: bool)

  /** The clock is positive and never runs backwards. */
  predicate Clocked(calls: seq<Call>) {
    && (forall i :: 0 <= i < |calls| ==> calls[i].t > 0)
    && (forall i, j :: 0 <= i < j < |calls| ==> calls[i].t <= calls[j].t)
  }

  function After(rule: Rule, calls: seq<Call>): State {
    if calls == [] then FRESH
    else
      var last := calls[|calls| - 1];
      Updated(rule, After(rule, calls[..|calls| - 1]), last.counted, last.t).0
  }

  /** Times of the counted calls that were told to go ahead. */
  function Allowed(rule: Rule, calls: seq<Call>): seq<int> {
    if calls == [] then []
    else
      var init, last := calls[..|calls| - 1], calls[|calls| - 1];
      Allowed(rule, init) +
      if last.counted && Updated(rule, After(rule, init), true, last.t).1 == 0 then [last.t] else []
  }

  lemma RunExtends(rule: Rule, calls: seq<Call>, call: Call)
    ensures var (s', retry) := Updated(rule, After(rule, calls), call.counted, call.t);
            After(rule, calls + [call]) == s' &&
            Allowed(rule, calls + [call]) == Allowed(rule, calls) + if call.counted && retry == 0 then [call.t] else []
  {
    hide Keep;
    hide Updated;
    assert (calls + [call])[..|calls|] == calls;
  }

  predicate Throttles(rule: Rule, calls: seq<Call>, lo: int) {
    CountIn(Allowed(rule, calls), lo, lo + rule.periodMs) <= rule.max
  }

  /** Every run has a ledger that explains the record and keeps requests spaced. */
  lemma {:induction false} RunExplained(rule: Rule, calls: seq<Call>, now: int) returns (g: Ledger)
    requires Clocked(calls) && 0 < rule.periodMs <= rule.rateLimitIntervalMs
    requires forall i :: 0 <= i < |calls| ==> calls[i].t <= now
    ensures var s := After(rule, calls);
            g.accepted == Allowed(rule, calls) && !g.pending
            && g.Explains(s.hits, s.rl, rule.periodMs, rule.max + 1, now)
            && Spaced(g.accepted, rule.periodMs, rule.max)
  {
    hide Keep;
    g := EMPTY;
    if calls != [] {
      var init, last := calls[..|calls| - 1], calls[|calls| - 1];
      g := RunExplained(rule, init, last.t);
      g := CallExplained(rule, g, After(rule, init), last);
      var s := After(rule, calls);
      ExplainsLater(g, s.hits, s.rl, rule.periodMs, rule.max + 1, last.t, now);
    }
  }

  lemma CallExplained(rule: Rule, g: Ledger, s: State, call: Call) returns (g': Ledger)
    requires 0 < rule.periodMs <= rule.rateLimitIntervalMs && call.t > 0
    requires g.Explains(s.hits, s.rl, rule.periodMs, rule.max + 1, call.t) && !g.pending
    requires Spaced(g.accepted, rule.periodMs, rule.max)
    ensures var (s', retry) := Updated(rule, s, call.counted, call.t);
            g'.accepted == g.accepted + (if call.counted && retry == 0 then [call.t] else [])
            && !g'.pending
            && g'.Explains(s'.hits, s'.rl, rule.periodMs, rule.max + 1, call.t)
            && Spaced(g'.accepted, rule.periodMs, rule.max)
  {
    hide Keep;
    g' := g;
    var now, period, cap := call.t, rule.periodMs, rule.max + 1;
    RetrySecondsTight(MsLeft(s.rl, rule.rateLimitIntervalMs, now));
    if call.counted && !Active(s.rl, rule.rateLimitIntervalMs, now) {
      if |Keep(s.hits + [now], now - period, cap)| > rule.max {
        RetrySecondsTight(MsLeft(At(now), rule.rateLimitIntervalMs, now));
        ExplainsForget(g, s.hits, s.rl, period, cap, now);
        g' := Ledger(g.accepted, |g.accepted|, [], false);
      } else {
        g' := Ledger(g.accepted + [now], g.banned, g.pushed + [now], false);
        ExplainsAcceptPushed(g, s.hits, s.rl, period, cap, now);
        if cap <= |g'.accepted| {
          OldestIsOld(g', s.hits + [now], s.rl, period, rule.rateLimitIntervalMs, cap, now);
        }
        SpacedAppend(g.accepted, period, rule.max, now);
        ExplainsTrim(g', s.hits + [now], s.rl, period, cap, now);
      }
    }
  }

  /** With a ban at least as long as the counting period, every window is bounded. */
  lemma LongBanThrottles(rule: Rule, calls: seq<Call>, lo: int)
    requires Clocked(calls) && rule.periodMs <= rule.rateLimitIntervalMs
    ensures Throttles(rule, calls, lo)
  {
    hide Keep, After, Allowed;
    if rule.periodMs == 0 {
      EmptyWindow(Allowed(rule, calls), lo);
    } else {
      var _ := RunExplained(rule, calls, if calls == [] then 0 else calls[|calls| - 1].t);
      SpacedBoundsWindows(Allowed(rule, calls), rule.periodMs, rule.max, lo);
    }
  }

  // ---- The verdict, from the calls alone ----

  /** The delay is exact: it is the number of whole seconds, from now on, at whose start the ban
      still stands. */
  lemma RetryAfterIsExact(rule: Rule, s: State, now: int, n: nat)
    requires now > 0 && now >= rule.rateLimitIntervalMs
    ensures n < RetryAfter(rule, s, now) <==> Active(s.rl, rule.rateLimitIntervalMs, now + 1000 * n)
  {
    RetrySecondsTight(MsLeft(s.rl, rule.rateLimitIntervalMs, now));
  }

  /** The rule kept by hand: when the latest ban began, and every counted call since, none trimmed. */
  datatype Story = Story(ban: Stamp, calls: seq<int>)

  function Told(rule: Rule, calls: seq<Call>): Story {
    if calls == [] then Story(Unset, [])
    else
      var story, last := Told(rule, calls[..|calls| - 1]), calls[|calls| - 1];
      if !last.counted || Active(story.ban, rule.rateLimitIntervalMs, last.t) then story
      else if CountAfter(story.calls + [last.t], last.t - rule.periodMs) > rule.max then Story(At(last.t), [])
      else Story(story.ban, story.calls + [last.t])
  }

  lemma CallTold(rule: Rule, s: State, story: Story, now: int)
    requires s.rl == story.ban && Sorted(story.calls) && Below(story.calls, now)
    requires Keep(s.hits, now - rule.periodMs, rule.max + 1) == Keep(story.calls, now - rule.periodMs, rule.max + 1)
    ensures Keep(s.hits + [now], now - rule.periodMs, rule.max + 1)
            == Keep(story.calls + [now], now - rule.periodMs, rule.max + 1)
    ensures |Keep(s.hits + [now], now - rule.periodMs, rule.max + 1)| > rule.max
            <==> CountAfter(story.calls + [now], now - rule.periodMs) > rule.max
    ensures Sorted(story.calls + [now]) && Below(story.calls + [now], now)
  {
    hide Keep, CountAfter;
    KeepExtends(s.hits, story.calls, now - rule.periodMs, rule.max + 1, [now], now - rule.periodMs);
    KeepDecides(story.calls + [now], now - rule.periodMs, rule.max);
  }

  lemma {:induction false} RecordTellsStory(rule: Rule, calls: seq<Call>, now: int)
    requires Clocked(calls) && forall i :: 0 <= i < |calls| ==> calls[i].t <= now
    ensures var s, story, cutoff := After(rule, calls), Told(rule, calls), now - rule.periodMs;
            && s.rl == story.ban && Sorted(story.calls) && Below(story.calls, now)
            && Keep(s.hits, cutoff, rule.max + 1) == Keep(story.calls, cutoff, rule.max + 1)
  {
    hide Keep, CountAfter;
    if calls != [] {
      var init, last := calls[..|calls| - 1], calls[|calls| - 1];
      RecordTellsStory(rule, init, last.t);
      var s, story, cutoff := After(rule, init), Told(rule, init), last.t - rule.periodMs;
      CallTold(rule, s, story, last.t);
      KeepLater(s.hits, story.calls, cutoff, rule.max + 1, now - rule.periodMs);
      KeepTwice(s.hits + [last.t], cutoff, rule.max + 1);
      KeepLater(Keep(s.hits + [last.t], cutoff, rule.max + 1), story.calls + [last.t], cutoff, rule.max + 1,
                now - rule.periodMs);
    }
  }

  /** On every run a counted call is told to wait exactly when the latest ban still stands, or when
      with it more than `max` calls since that ban are in the period; it then waits for the ban. */
  lemma VerdictIsExact(rule: Rule, calls: seq<Call>, now: int)
    requires Clocked(calls) && now > 0 && now >= rule.rateLimitIntervalMs && rule.rateLimitIntervalMs > 0
    requires forall i :: 0 <= i < |calls| ==> calls[i].t <= now
    ensures var story, retry := Told(rule, calls), Updated(rule, After(rule, calls), true, now).1;
            var standing := Active(story.ban, rule.rateLimitIntervalMs, now);
            var over := CountAfter(story.calls + [now], now - rule.periodMs) > rule.max;
            && (retry > 0 <==> standing || over)
            && (standing ==> retry == RetrySeconds(MsLeft(story.ban, rule.rateLimitIntervalMs, now)))
            && (!standing && over ==> retry == RetrySeconds(rule.rateLimitIntervalMs))
  {
    hide Keep, CountAfter, After, Told;
    RecordTellsStory(rule, calls, now);
    CallTold(rule, After(rule, calls), Told(rule, calls), now);
    RetrySecondsTight(MsLeft(After(rule, calls).rl, rule.rateLimitIntervalMs, now));
    RetrySecondsTight(rule.rateLimitIntervalMs);
  }

  /** A rule that tolerates nothing and really bans never lets a counted call through. */
  lemma {:induction false} ZeroRuleAllowsNothing(rule: Rule, calls: seq<Call>)
    requires rule.max == 0 && rule.rateLimitIntervalMs > 0 && rule.periodMs > 0
    ensures Allowed(rule, calls) == []
  {
    if calls != [] {
      var last := calls[|calls| - 1];
      ZeroRuleAllowsNothing(rule, calls[..|calls| - 1]);
      var (s', _) := Updated(rule, After(rule, calls[..|calls| - 1]), last.counted, last.t);
      RetrySecondsTight(MsLeft(s'.rl, rule.rateLimitIntervalMs, last.t));
    }
  }

  /** `n` counted calls at time `t`. */
  function Burst(n: nat, t: int): seq<Call> {
    if n == 0 then [] else Burst(n - 1, t) + [Call(t, true)]
  }

  function Instant(n: nat, t: int): seq<int> {
    if n == 0 then [] else Instant(n - 1, t) + [t]
  }

  lemma EmptyRun(rule: Rule)
    ensures After(rule, []) == FRESH && Allowed(rule, []) == []
  {
  }

  lemma UnderLimit(rule: Rule, s: State, now: int)
    requires !Active(s.rl, rule.rateLimitIntervalMs, now)
    requires |Keep(s.hits + [now], now - rule.periodMs, rule.max + 1)| <= rule.max
    ensures Updated(rule, s, true, now) == (State(s.rl, Keep(s.hits + [now], now - rule.periodMs, rule.max + 1)), 0)
  {
    hide Keep;
  }

  /** Up to `max` calls in one instant all pass. */
  lemma {:induction false} BurstPasses(rule: Rule, n: nat, t: int)
    requires n <= rule.max && rule.periodMs > 0 && t > 0
    ensures After(rule, Burst(n, t)) == State(Unset, Instant(n, t))
    ensures Allowed(rule, Burst(n, t)) == Instant(n, t)
  {
    hide Keep, After, Allowed, CountIn, Updated;
    if n == 0 {
      EmptyRun(rule);
    } else {
      BurstPasses(rule, n - 1, t);
      RunExtends(rule, Burst(n - 1, t), Call(t, true));
      InstantKept(n, rule.periodMs, rule.max + 1, t);
      UnderLimit(rule, State(Unset, Instant(n - 1, t)), t);
    }
  }

  lemma InstantKept(n: nat, period: nat, cap: nat, t: int)
    requires n <= cap && period > 0
    ensures |Instant(n, t)| == n && Keep(Instant(n, t), t - period, cap) == Instant(n, t)
    ensures CountIn(Instant(n, t), t, t + period) == n
  {
    InstantIs(n, t);
    CountAll(Instant(n, t), t, period);
    KeepIs(Instant(n, t), t - period, cap, 0);
  }

  lemma {:induction false} InstantIs(n: nat, t: int)
    ensures |Instant(n, t)| == n && AllAt(Instant(n, t), t)
  {
    if n > 0 {
      InstantIs(n - 1, t);
    }
  }

  lemma {:induction false} BurstClocked(n: nat, t: int)
    requires t > 0
    ensures Clocked(Burst(n, t)) && forall i :: 0 <= i < |Burst(n, t)| ==> Burst(n, t)[i].t == t
  {
    if n > 0 {
      BurstClocked(n - 1, t);
    }
  }

  /** The call after a full burst bans the caller; it passes only if bans are empty. */
  lemma BurstEndsInBan(rule: Rule, t: int)
    requires rule.periodMs > 0 && t > 0
    ensures After(rule, Burst(rule.max + 1, t)) == State(At(t), [])
    ensures Allowed(rule, Burst(rule.max + 1, t)) ==
              Instant(if rule.rateLimitIntervalMs == 0 then rule.max + 1 else rule.max, t)
  {
    hide Keep, After, Allowed, Updated, CountIn;
    var n := rule.max;
    BurstPasses(rule, n, t);
    InstantKept(n + 1, rule.periodMs, n + 1, t);
    RunExtends(rule, Burst(n, t), Call(t, true));
    OverLimit(rule, State(Unset, Instant(n, t)), t);
  }

  lemma OverLimit(rule: Rule, s: State, now: int)
    requires !Active(s.rl, rule.rateLimitIntervalMs, now)
    requires |Keep(s.hits + [now], now - rule.periodMs, rule.max + 1)| > rule.max
    ensures var (s', retry) := Updated(rule, s, true, now);
            s' == State(At(now), []) && (now != 0 ==> (retry == 0 <==> rule.rateLimitIntervalMs == 0))
  {
    hide Keep;
    RetrySecondsTight(MsLeft(At(now), rule.rateLimitIntervalMs, now));
  }

  /** With a ban shorter than the period, `max + 1` calls fit in one window: a full
      burst, the call that triggers the ban, and one more right after the ban. */
  lemma ShortBanLeaks(rule: Rule, t: int) returns (calls: seq<Call>)
    requires rule.rateLimitIntervalMs < rule.periodMs && t > 0
    requires rule.max > 0 || rule.rateLimitIntervalMs == 0
    ensures Clocked(calls) && (forall i :: 0 <= i < |calls| ==> calls[i].t >= t) && !Throttles(rule, calls, t)
  {
    hide Keep, After, Allowed, Updated, Burst, CountIn, Instant;
    var n, period := rule.max, rule.periodMs;
    calls := Burst(n + 1, t);
    BurstEndsInBan(rule, t);
    BurstClocked(n + 1, t);
    InstantKept(n + 1, period, n + 1, t);
    InstantKept(n, period, n, t);
    if rule.rateLimitIntervalMs > 0 {
      var later := t + rule.rateLimitIntervalMs;
      RunExtends(rule, calls, Call(later, true));
      calls := calls + [Call(later, true)];
      KeepIs([] + [later], later - period, n + 1, 0);
      UnderLimit(rule, State(At(t), []), later);
      assert Allowed(rule, calls) == Instant(n, t) + [later];
      CountInAppend(Instant(n, t), later, t, t + period);
    }
  }

  /** Exactly when a rule keeps its promise of at most `max` calls per period on
      every run: the ban lasts a whole period, or nothing is ever let through. */
  lemma ThrottlesExactlyWhen(rule: Rule)
    ensures (forall calls, lo :: Clocked(calls) ==> Throttles(rule, calls, lo))
            <==> rule.periodMs <= rule.rateLimitIntervalMs || (rule.max == 0 && rule.rateLimitIntervalMs > 0)
  {
    if rule.periodMs <= rule.rateLimitIntervalMs {
      forall calls, lo | Clocked(calls) ensures Throttles(rule, calls, lo) {
        LongBanThrottles(rule, calls, lo);
      }
    } else if rule.max == 0 && rule.rateLimitIntervalMs > 0 {
      forall calls, lo | Clocked(calls) ensures Throttles(rule, calls, lo) {
        ZeroRuleAllowsNothing(rule, calls);
      }
    } else {
      var calls := ShortBanLeaks(rule, 1 + rule.periodMs + rule.rateLimitIntervalMs);
    }
  }

  // ---- What the record can forget ----

  /** Everything about the record that can still matter at `now`. */
  function Faded(rule: Rule, s: State, now: int): State {
    State(Fade(s.rl, rule.rateLimitIntervalMs, now), Keep(s.hits, now - rule.periodMs, rule.max + 1))
  }

  lemma FadedLater(rule: Rule, a: State, b: State, now: int, later: int)
    requires Faded(rule, a, now) == Faded(rule, b, now) && now <= later
    ensures Faded(rule, a, later) == Faded(rule, b, later)
  {
    hide Keep;
    KeepLater(a.hits, b.hits, now - rule.periodMs, rule.max + 1, later - rule.periodMs);
  }

  /** Records that fade to the same value stay indistinguishable. */
  lemma FadedDecides(rule: Rule, a: State, b: State, counted: bool, now: int)
    requires Faded(rule, a, now) == Faded(rule, b, now) && now > 0 && now >= rule.rateLimitIntervalMs
    ensures Updated(rule, a, counted, now).1 == Updated(rule, b, counted, now).1
    ensures Faded(rule, Updated(rule, a, counted, now).0, now) == Faded(rule, Updated(rule, b, counted, now).0, now)
  {
    hide Keep;
    var cutoff, cap := now - rule.periodMs, rule.max + 1;
    FadeDecides(a.rl, b.rl, rule.rateLimitIntervalMs, now);
    KeepExtends(a.hits, b.hits, cutoff, cap, [now], cutoff);
    KeepTwice(a.hits + [now], cutoff, cap);
  }

  /** No time in the record is later than `bound`. */
  predicate Old(s: State, bound: int) {
    Past(s.rl, bound) && Below(s.hits, bound)
  }

  lemma StaysOld(rule: Rule, s: State, counted: bool, now: int, bound: int)
    requires Old(s, bound) && bound <= now
    ensures Old(Updated(rule, s, counted, now).0, now)
  {
    hide Keep;
    KeepBelow(s.hits + [now], now - rule.periodMs, rule.max + 1, now);
  }

  /** A record left alone for both its times is as good as new. */
  lemma FadesAway(rule: Rule, s: State, bound: int, now: int)
    requires Old(s, bound) && now >= bound + rule.rateLimitIntervalMs
    requires now >= bound + rule.periodMs || s.hits == []
    ensures Faded(rule, s, now) == Faded(rule, FRESH, now)
  {
    hide Keep;
    KeepNothing(s.hits, now - rule.periodMs, rule.max + 1);
  }

  // ---- Expiry ----

  /** The answers to a sequence of calls, from a given record on. */
  function Replies(rule: Rule, s: State, calls: seq<Call>): seq<nat> {
    if calls == [] then []
    else
      var init, last := calls[..|calls| - 1], calls[|calls| - 1];
      Replies(rule, s, init) + [Updated(rule, Reached(rule, s, init), last.counted, last.t).1]
  }

  function Reached(rule: Rule, s: State, calls: seq<Call>): State {
    if calls == [] then s
    else
      var init, last := calls[..|calls| - 1], calls[|calls| - 1];
      Updated(rule, Reached(rule, s, init), last.counted, last.t).0
  }

  /** Calls from `now` on, when the clock is past the ban interval. */
  predicate From(rule: Rule, calls: seq<Call>, now: int) {
    && now > 0 && now >= rule.rateLimitIntervalMs && Clocked(calls)
    && (forall i :: 0 <= i < |calls| ==> calls[i].t >= now)
  }

  /** A run whose last call is at least `lifetime` ago. */
  predicate Lapsed(calls: seq<Call>, lifetime: nat, now: int) {
    Clocked(calls) && forall i :: 0 <= i < |calls| ==> now >= calls[i].t + lifetime
  }

  /** Dropping the record `lifetime` after the last call goes unnoticed by every later call. */
  ghost predicate ExpiryUnnoticed(rule: Rule, lifetime: nat) {
    forall before, now, calls ::
      Lapsed(before, lifetime, now) && From(rule, calls, now) ==>
        Replies(rule, After(rule, before), calls) == Replies(rule, FRESH, calls)
  }

  lemma {:induction false} FadedReplies(rule: Rule, a: State, b: State, calls: seq<Call>, now: int)
    requires Faded(rule, a, now) == Faded(rule, b, now) && From(rule, calls, now)
    ensures Replies(rule, a, calls) == Replies(rule, b, calls)
    ensures var t := if calls == [] then now else calls[|calls| - 1].t;
            Faded(rule, Reached(rule, a, calls), t) == Faded(rule, Reached(rule, b, calls), t)
  {
    hide Faded, Updated;
    if calls != [] {
      var init, last := calls[..|calls| - 1], calls[|calls| - 1];
      FadedReplies(rule, a, b, init, now);
      var t := if init == [] then now else init[|init| - 1].t;
      FadedLater(rule, Reached(rule, a, init), Reached(rule, b, init), t, last.t);
      FadedDecides(rule, Reached(rule, a, init), Reached(rule, b, init), last.counted, last.t);
    }
  }

  lemma {:induction false} RunStaysOld(rule: Rule, calls: seq<Call>, bound: int)
    requires Clocked(calls) && forall i :: 0 <= i < |calls| ==> calls[i].t <= bound
    ensures Old(After(rule, calls), bound) && (rule.max == 0 && rule.periodMs > 0 ==> After(rule, calls).hits == [])
  {
    if calls != [] {
      var init, last := calls[..|calls| - 1], calls[|calls| - 1];
      RunStaysOld(rule, init, last.t);
      StaysOld(rule, After(rule, init), last.counted, last.t, last.t);
    }
  }

  /** A ban of no length is never felt. */
  lemma {:induction false} NoBanNoReply(rule: Rule, s: State, calls: seq<Call>, now: int)
    requires rule.rateLimitIntervalMs == 0 && Old(s, now) && From(rule, calls, now)
    ensures Replies(rule, s, calls) == seq(|calls|, _ => 0)
    ensures Old(Reached(rule, s, calls), if calls == [] then now else calls[|calls| - 1].t)
  {
    hide Keep, Old;
    if calls != [] {
      var init, last := calls[..|calls| - 1], calls[|calls| - 1];
      NoBanNoReply(rule, s, init, now);
      NoBanStep(rule, Reached(rule, s, init), last, if init == [] then now else init[|init| - 1].t);
    }
  }

  lemma NoBanStep(rule: Rule, s: State, call: Call, bound: int)
    requires rule.rateLimitIntervalMs == 0 && Old(s, bound) && bound <= call.t
    ensures Updated(rule, s, call.counted, call.t).1 == 0 && Old(Updated(rule, s, call.counted, call.t).0, call.t)
  {
    hide Keep;
    StaysOld(rule, s, call.counted, call.t, bound);
    RetrySecondsTight(0);
  }

  lemma OneReply(rule: Rule, s: State, call: Call)
    ensures Replies(rule, s, [call]) == [Updated(rule, s, call.counted, call.t).1]
  {
    hide Updated;
    assert [call][..0] == [];
  }

  /** With a longer period, a full burst, a pause of one lifetime and one more call tell: the full
      record bans the caller and a fresh one does not. */
  lemma LongPeriodNoticed(rule: Rule, lifetime: nat) returns (before: seq<Call>, now: int, calls: seq<Call>)
    requires rule.rateLimitIntervalMs <= lifetime < rule.periodMs && rule.max > 0 && rule.rateLimitIntervalMs > 0
    ensures Lapsed(before, lifetime, now) && From(rule, calls, now)
    ensures Replies(rule, After(rule, before), calls) != Replies(rule, FRESH, calls)
  {
    hide Keep, After, Updated, Burst, Instant, Replies;
    var n, t := rule.max, 1 + rule.periodMs + rule.rateLimitIntervalMs;
    before, now := Burst(n, t), t + lifetime;
    calls := [Call(now, true)];
    BurstClocked(n, t);
    BurstPasses(rule, n, t);
    InstantIs(n, t);
    KeepIs(Instant(n, t) + [now], now - rule.periodMs, n + 1, 0);
    OverLimit(rule, State(Unset, Instant(n, t)), now);
    KeepIs([] + [now], now - rule.periodMs, n + 1, 0);
    UnderLimit(rule, FRESH, now);
    OneReply(rule, State(Unset, Instant(n, t)), calls[0]);
    OneReply(rule, FRESH, calls[0]);
    assert Replies(rule, After(rule, before), calls)[0] != Replies(rule, FRESH, calls)[0];
  }

  /** Exactly when a record kept for a lifetime of at least the ban can be dropped unnoticed: when
      the counting period is over by then, or when its hits or its bans can never matter. */
  lemma ExpiryUnnoticedExactlyWhen(rule: Rule, lifetime: nat)
    requires lifetime >= rule.rateLimitIntervalMs
    ensures ExpiryUnnoticed(rule, lifetime)
            <==> rule.periodMs <= lifetime || rule.max == 0 || rule.rateLimitIntervalMs == 0
  {
    hide After, Replies, Old;
    if rule.periodMs <= lifetime || rule.max == 0 || rule.rateLimitIntervalMs == 0 {
      forall before, now, calls |
        Lapsed(before, lifetime, now) && From(rule, calls, now)
        ensures Replies(rule, After(rule, before), calls) == Replies(rule, FRESH, calls)
      {
        DroppedUnnoticed(rule, lifetime, before, now, calls);
      }
    } else {
      var before, now, calls := LongPeriodNoticed(rule, lifetime);
    }
  }

  lemma DroppedUnnoticed(rule: Rule, lifetime: nat, before: seq<Call>, now: int, calls: seq<Call>)
    requires lifetime >= rule.rateLimitIntervalMs
    requires rule.periodMs <= lifetime || rule.max == 0 || rule.rateLimitIntervalMs == 0
    requires Lapsed(before, lifetime, now) && From(rule, calls, now)
    ensures Replies(rule, After(rule, before), calls) == Replies(rule, FRESH, calls)
  {
    hide After, Replies, Faded;
    var s := After(rule, before);
    RunStaysOld(rule, before, now - lifetime);
    if rule.rateLimitIntervalMs == 0 {
      NoBanNoReply(rule, s, calls, now);
      NoBanNoReply(rule, FRESH, calls, now);
    } else {
      FadesAway(rule, s, now - lifetime, now);
      FadedReplies(rule, s, FRESH, calls, now);
    }
  }
}
