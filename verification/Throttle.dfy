/** Why "count the newest `max + 1` events, ban and forget when over" bounds the
    number of accepted requests in every window, whatever happened before. */
module Throttle {
  import opened Clock
  import opened EventLog

  /** Any `max + 1` consecutive events are spread over at least `period`. */
  predicate Spaced(accepted: seq<int>, period: int, max: nat) {
    forall j :: max <= j < |accepted| ==> accepted[j] - accepted[j - max] >= period
  }

  /** Spaced events are rare in every half-open window of one period. */
  lemma {:induction false} SpacedBoundsWindows(accepted: seq<int>, period: nat, max: nat, lo: int)
    requires Sorted(accepted) && Spaced(accepted, period, max)
    ensures CountIn(accepted, lo, lo + period) <= max
  {
    if accepted != [] {
      var n := |accepted|;
      if accepted[n - 1] >= lo + period {
        SpacedBoundsWindows(accepted[..n - 1], period, max, lo);
      } else {
        var early := if n <= max then 0 else n - max;
        assert early > 0 ==> accepted[n - 1] - accepted[early - 1] >= period;
        CountInTail(accepted, lo, lo + period, early);
      }
    }
  }

  /** Entries before `lo` are not counted. */
  lemma {:induction false} CountInTail(log: seq<int>, lo: int, hi: int, early: nat)
    requires early <= |log| && forall i :: 0 <= i < early ==> log[i] < lo
    ensures CountIn(log, lo, hi) <= |log| - early
  {
    if log != [] {
      CountInTail(log[..|log| - 1], lo, hi, if early == |log| then early - 1 else early);
    }
  }

  /** Bookkeeping about a throttled record that the record itself does not keep:
      the times of all `accepted` requests, how many of them lie behind the latest
      ban, every event `pushed` on the log since it was last cleared, and whether
      the latest accepted request is still waiting for its event. */
  datatype Ledger = Ledger(accepted: seq<int>, banned: nat, pushed: seq<int>, pending: bool) {

    /** Accepted requests since the ban that have their event. */
    function Settled(): int {
      |accepted| - banned - if pending then 1 else 0
    }

    /** The ledger explains the stored log and ban stamp: requests behind the ban are
        not newer than it; in the window ending at `now` the log looks like everything
        pushed; and the settled requests, newest first, are matched by pushed events
        that are at least as new. */
    ghost predicate Explains(log: seq<int>, rl: Stamp, period: nat, cap: nat, now: int) {
      && banned <= |accepted|
      && Sorted(accepted) && Below(accepted, now)
      && Sorted(pushed) && Below(pushed, now)
      && (banned > 0 ==> rl.At? && rl.ms != 0 && accepted[banned - 1] <= rl.ms)
      && Keep(pushed, now - period, cap) == Keep(log, now - period, cap)
      && Settled() <= |pushed|
      && forall i :: banned <= i < banned + Settled() ==>
           accepted[i] <= pushed[|pushed| - (banned + Settled() - i)]
    }
  }

  const EMPTY := Ledger([], 0, [], false)

  lemma ExplainsLater(g: Ledger, log: seq<int>, rl: Stamp, period: nat, cap: nat, now: int, later: int)
    requires g.Explains(log, rl, period, cap, now) && now <= later
    ensures g.Explains(log, rl, period, cap, later)
  {
    hide Keep;
    KeepLater(g.pushed, log, now - period, cap, later - period);
  }

  /** The trim loop ran. */
  lemma ExplainsTrim(g: Ledger, log: seq<int>, rl: Stamp, period: nat, cap: nat, now: int)
    requires g.Explains(log, rl, period, cap, now)
    ensures g.Explains(Keep(log, now - period, cap), rl, period, cap, now)
  {
    hide Keep;
    KeepTwice(log, now - period, cap);
  }

  /** An event was pushed; it settles a pending request. */
  lemma ExplainsPush(g: Ledger, log: seq<int>, rl: Stamp, period: nat, cap: nat, now: int)
    requires g.Explains(log, rl, period, cap, now)
    ensures Ledger(g.accepted, g.banned, g.pushed + [now], false).Explains(log + [now], rl, period, cap, now)
  {
    hide Keep;
    KeepExtends(g.pushed, log, now - period, cap, [now], now - period);
  }

  /** A request that pushed its own event at `now` was accepted. */
  lemma ExplainsAcceptPushed(g: Ledger, log: seq<int>, rl: Stamp, period: nat, cap: nat, now: int)
    requires g.Explains(log, rl, period, cap, now) && !g.pending
    ensures var g' := Ledger(g.accepted + [now], g.banned, g.pushed + [now], false);
            g'.Explains(log + [now], rl, period, cap, now)
  {
    hide Keep;
    KeepExtends(g.pushed, log, now - period, cap, [now], now - period);
  }

  /** A request was accepted whose event is still to come. */
  lemma ExplainsAcceptPending(g: Ledger, log: seq<int>, rl: Stamp, period: nat, cap: nat, now: int)
    requires g.Explains(log, rl, period, cap, now) && !g.pending
    ensures Ledger(g.accepted + [now], g.banned, g.pushed, true).Explains(log, rl, period, cap, now)
  {
    hide Keep;
  }

  /** A ban without forgetting the log. */
  lemma ExplainsBan(g: Ledger, log: seq<int>, rl: Stamp, period: nat, cap: nat, now: int)
    requires g.Explains(log, rl, period, cap, now) && now != 0
    ensures g.Explains(log, At(now), period, cap, now)
  {
    hide Keep;
  }

  /** A ban that forgets the log: every accepted request is now behind it. */
  lemma ExplainsForget(g: Ledger, log: seq<int>, rl: Stamp, period: nat, cap: nat, now: int)
    requires g.Explains(log, rl, period, cap, now) && now != 0
    ensures Ledger(g.accepted, |g.accepted|, [], false).Explains([], At(now), period, cap, now)
  {
  }

  /** A trimmed log below its cap has left the older entries outside the window. */
  lemma ShortKeep(log: seq<int>, cutoff: int, cap: nat)
    requires Sorted(log) && |Keep(log, cutoff, cap)| < cap <= |log|
    ensures log[|log| - cap] <= cutoff
  {
  }

  /** Without an active ban and with the log under the limit, the request `cap` places
      before the end of the settled ones is a whole period old. */
  lemma OldestIsOld(g: Ledger, log: seq<int>, rl: Stamp, period: nat, ban: nat, cap: nat, now: int)
    requires g.Explains(log, rl, period, cap, now) && !g.pending
    requires !Active(rl, ban, now) && period <= ban
    requires |Keep(log, now - period, cap)| < cap <= |g.accepted|
    ensures g.accepted[|g.accepted| - cap] <= now - period
  {
    var oldest := |g.accepted| - cap;
    if oldest >= g.banned {
      hide Keep;
      ShortKeep(g.pushed, now - period, cap);
    }
  }

  lemma SpacedAppend(accepted: seq<int>, period: nat, max: nat, now: int)
    requires Spaced(accepted, period, max)
    requires max <= |accepted| ==> (accepted + [now])[|accepted| - max] <= now - period
    ensures Spaced(accepted + [now], period, max)
  {
  }
}
