/** Logs of event timestamps, ordered from oldest to newest, and the backwards
    trim loop that every customs record runs on them. */
module EventLog {

  /** Where the backwards scan from position `i` stops: at an expired entry, at the
      front of the log, or after `cap` more entries. */
  function Start(log: seq<int>, cutoff: int, cap: nat, i: nat): (start: nat)
    requires i <= |log|
    ensures start <= i <= start + cap
    ensures forall j :: start <= j < i ==> log[j] > cutoff
    ensures start == 0 || i == start + cap || log[start - 1] <= cutoff
  {
    if i == 0 || cap == 0 || log[i - 1] <= cutoff then i else Start(log, cutoff, cap - 1, i - 1)
  }

  /** The longest suffix whose entries are all newer than `cutoff` and that has
      at most `cap` entries. */
  function Keep(log: seq<int>, cutoff: int, cap: nat): seq<int> {
    log[Start(log, cutoff, cap, |log|)..]
  }

  /** The stopping conditions determine the kept suffix. */
  lemma KeepIs(log: seq<int>, cutoff: int, cap: nat, start: nat)
    requires start <= |log| <= start + cap
    requires forall j :: start <= j < |log| ==> log[j] > cutoff
    requires start == 0 || |log| == start + cap || log[start - 1] <= cutoff
    ensures Keep(log, cutoff, cap) == log[start..]
  {
  }

  predicate Sorted(log: seq<int>) {
    forall i, j :: 0 <= i < j < |log| ==> log[i] <= log[j]
  }

  predicate Below(log: seq<int>, bound: int) {
    forall i :: 0 <= i < |log| ==> log[i] <= bound
  }

  /** Number of entries newer than `cutoff`. */
  function CountAfter(log: seq<int>, cutoff: int): nat {
    if log == [] then 0
    else CountAfter(log[..|log| - 1], cutoff) + if log[|log| - 1] > cutoff then 1 else 0
  }

  /** Number of entries in the half-open interval from `lo` to `hi`. */
  function CountIn(log: seq<int>, lo: int, hi: int): nat {
    if log == [] then 0
    else CountIn(log[..|log| - 1], lo, hi) + if lo <= log[|log| - 1] < hi then 1 else 0
  }

  lemma CountAppend(log: seq<int>, t: int, cutoff: int)
    ensures log + [] == log
    ensures CountAfter(log + [t], cutoff) == CountAfter(log, cutoff) + if t > cutoff then 1 else 0
  {
    assert (log + [t])[..|log|] == log;
  }

  lemma CountInAppend(log: seq<int>, t: int, lo: int, hi: int)
    ensures CountIn(log + [t], lo, hi) == CountIn(log, lo, hi) + if lo <= t < hi then 1 else 0
    ensures log + [] == log
  {
    assert (log + [t])[..|log|] == log;
  }

  lemma {:induction false} CountInConcat(a: seq<int>, b: seq<int>, lo: int, hi: int)
    ensures CountIn(a + b, lo, hi) == CountIn(a, lo, hi) + CountIn(b, lo, hi)
  {
    if b == [] {
      assert a + b == a;
    } else {
      CountInConcat(a, b[..|b| - 1], lo, hi);
      assert (a + b)[..|a + b| - 1] == a + b[..|b| - 1];
    }
  }

  lemma {:induction false} CountInNone(log: seq<int>, lo: int, hi: int)
    requires forall i :: 0 <= i < |log| ==> log[i] < lo || hi <= log[i]
    ensures CountIn(log, lo, hi) == 0
  {
    if log != [] {
      CountInNone(log[..|log| - 1], lo, hi);
    }
  }

  lemma CountInNothing(lo: int, hi: int)
    ensures CountIn([], lo, hi) == 0
  {
  }

  lemma {:induction false} CountNothing(log: seq<int>, cutoff: int)
    requires Below(log, cutoff)
    ensures CountAfter(log, cutoff) == 0
  {
    if log != [] {
      CountNothing(log[..|log| - 1], cutoff);
    }
  }

  lemma {:induction false} CountInIsAfter(log: seq<int>, lo: int, hi: int)
    requires Below(log, hi - 1)
    ensures CountIn(log, lo, hi) == CountAfter(log, lo - 1)
  {
    if log != [] {
      CountInIsAfter(log[..|log| - 1], lo, hi);
    }
  }

  lemma {:induction false} CountAfterLater(log: seq<int>, cutoff: int, later: int)
    requires cutoff <= later
    ensures CountAfter(log, later) <= CountAfter(log, cutoff)
  {
    if log != [] {
      CountAfterLater(log[..|log| - 1], cutoff, later);
    }
  }

  lemma {:induction false} EmptyWindow(log: seq<int>, lo: int)
    ensures CountIn(log, lo, lo) == 0
  {
    if log != [] {
      EmptyWindow(log[..|log| - 1], lo);
    }
  }

  /** Whether the times are all `t`. */
  predicate AllAt(log: seq<int>, t: int) {
    forall i :: 0 <= i < |log| ==> log[i] == t
  }

  lemma {:induction false} CountAll(log: seq<int>, t: int, period: nat)
    requires period > 0 && AllAt(log, t)
    ensures CountIn(log, t, t + period) == |log|
  {
    if log != [] {
      CountAll(log[..|log| - 1], t, period);
    }
  }

  /** The trim loop: scan from the newest entry until one is expired or `cap`
      entries have been seen, then slice. */
  method Trim(log: seq<int>, cutoff: int, cap: nat) returns (kept: seq<int>)
    ensures kept == Keep(log, cutoff, cap)
  {
    var i, n := |log| - 1, 0;
    while i >= 0 && log[i] > cutoff && n < cap
      invariant -1 <= i < |log| && n == |log| - 1 - i <= cap
      invariant forall j :: i < j < |log| ==> log[j] > cutoff
    {
      i, n := i - 1, n + 1;
    }
    KeepIs(log, cutoff, cap, i + 1);
    kept := log[i + 1..];
  }

  /** On an ordered log the kept part is exactly the newest entries: all that are
      in the window, up to `cap`. */
  lemma KeepIsNewest(log: seq<int>, cutoff: int, cap: nat)
    requires Sorted(log)
    ensures CountAfter(log, cutoff) <= |log|
    ensures var n := if CountAfter(log, cutoff) < cap then CountAfter(log, cutoff) else cap;
            Keep(log, cutoff, cap) == log[|log| - n..]
  {
    CountAfterSorted(log, cutoff);
    var n := if CountAfter(log, cutoff) < cap then CountAfter(log, cutoff) else cap;
    KeepIs(log, cutoff, cap, |log| - n);
  }

  /** In an ordered log the entries newer than `cutoff` are a suffix. */
  lemma {:induction false} CountAfterSorted(log: seq<int>, cutoff: int)
    requires Sorted(log)
    ensures CountAfter(log, cutoff) <= |log|
    ensures forall i :: 0 <= i < |log| ==> (log[i] > cutoff <==> i >= |log| - CountAfter(log, cutoff))
  {
    if log != [] {
      CountAfterSorted(log[..|log| - 1], cutoff);
    }
  }

  /** A bounded log answers "over the limit?" like the count over the whole log. */
  lemma KeepDecides(log: seq<int>, cutoff: int, max: nat)
    requires Sorted(log)
    ensures |Keep(log, cutoff, max + 1)| > max <==> CountAfter(log, cutoff) > max
  {
    KeepIsNewest(log, cutoff, max + 1);
  }

  /** Trimming early is never noticed: trimming, appending and trimming again
      later gives what appending and trimming once would have given. */
  lemma KeepAbsorbs(log: seq<int>, cutoff: int, cap: nat, more: seq<int>, later: int)
    requires cutoff <= later
    ensures Keep(Keep(log, cutoff, cap) + more, later, cap) == Keep(log + more, later, cap)
  {
    var first := Start(log, cutoff, cap, |log|);
    var all, kept := log + more, log[first..] + more;
    var start := Start(all, later, cap, |all|);
    LaterStart(log, cutoff, cap, more, later);
    assert forall j :: 0 <= j < |kept| ==> kept[j] == all[first + j];
    KeepIs(kept, later, cap, start - first);
  }

  lemma LaterStart(log: seq<int>, cutoff: int, cap: nat, more: seq<int>, later: int)
    requires cutoff <= later
    ensures Start(log, cutoff, cap, |log|) <= Start(log + more, later, cap, |log + more|)
  {
    var first := Start(log, cutoff, cap, |log|);
    assert first > 0 ==> (log + more)[first - 1] == log[first - 1];
  }

  /** Logs that look alike now look alike for ever, whatever is appended to both. */
  lemma KeepExtends(a: seq<int>, b: seq<int>, cutoff: int, cap: nat, more: seq<int>, later: int)
    requires Keep(a, cutoff, cap) == Keep(b, cutoff, cap) && cutoff <= later
    ensures Keep(a + more, later, cap) == Keep(b + more, later, cap)
  {
    KeepAbsorbs(a, cutoff, cap, more, later);
    KeepAbsorbs(b, cutoff, cap, more, later);
  }

  lemma KeepLater(a: seq<int>, b: seq<int>, cutoff: int, cap: nat, later: int)
    requires Keep(a, cutoff, cap) == Keep(b, cutoff, cap) && cutoff <= later
    ensures Keep(a, later, cap) == Keep(b, later, cap)
  {
    KeepExtends(a, b, cutoff, cap, [], later);
    assert a + [] == a && b + [] == b;
  }

  lemma KeepTwice(log: seq<int>, cutoff: int, cap: nat)
    ensures Keep(Keep(log, cutoff, cap), cutoff, cap) == Keep(log, cutoff, cap)
  {
    KeepAbsorbs(log, cutoff, cap, [], cutoff);
    assert Keep(log, cutoff, cap) + [] == Keep(log, cutoff, cap) && log + [] == log;
  }

  /** Nothing survives in a window that starts after the last entry. */
  lemma KeepNothing(log: seq<int>, cutoff: int, cap: nat)
    requires Below(log, cutoff)
    ensures Keep(log, cutoff, cap) == [] == Keep([], cutoff, cap)
  {
  }

  lemma KeepBelow(log: seq<int>, cutoff: int, cap: nat, bound: int)
    requires Below(log, bound)
    ensures Below(Keep(log, cutoff, cap), bound)
  {
  }

  /** Steps on one log: record an event, or run the trim loop. */
  datatype Step = Add(t: int) | Tidy(t: int)

  predicate Timed(steps: seq<Step>) {
    forall i, j :: 0 <= i < j < |steps| ==> steps[i].t <= steps[j].t
  }

  /** The log a record stores: every `Tidy` runs the trim loop for a window of `period`. */
  function Stored(steps: seq<Step>, period: nat, cap: nat): seq<int> {
    if steps == [] then []
    else
      var before := Stored(steps[..|steps| - 1], period, cap);
      match steps[|steps| - 1]
      case Add(t) => before + [t]
      case Tidy(t) => Keep(before, t - period, cap)
  }

  /** The log nobody ever trims. */
  function Everything(steps: seq<Step>): seq<int> {
    if steps == [] then []
    else
      var before := Everything(steps[..|steps| - 1]);
      match steps[|steps| - 1]
      case Add(t) => before + [t]
      case Tidy(_) => before
  }

  /** Trimming refines the unbounded log: after any interleaving of adds and trims
      under a non-decreasing clock, the stored log answers the limit question at
      every later time as the full history would. */
  lemma TrimmingRefinesHistory(steps: seq<Step>, period: nat, max: nat, now: int)
    requires Timed(steps) && forall s <- steps :: s.t <= now
    ensures |Keep(Stored(steps, period, max + 1), now - period, max + 1)| > max
            <==> CountAfter(Everything(steps), now - period) > max
  {
    hide Keep, Stored, Everything, CountAfter;
    StoredLooksFull(steps, period, max + 1, now);
    EverythingSorted(steps);
    KeepDecides(Everything(steps), now - period, max);
  }

  lemma {:induction false} StoredLooksFull(steps: seq<Step>, period: nat, cap: nat, now: int)
    requires Timed(steps) && forall s <- steps :: s.t <= now
    ensures Keep(Stored(steps, period, cap), now - period, cap) == Keep(Everything(steps), now - period, cap)
  {
    hide Keep;
    if steps != [] {
      var init, last := steps[..|steps| - 1], steps[|steps| - 1];
      StoredLooksFull(init, period, cap, last.t);
      StepLooksFull(Stored(init, period, cap), Everything(init), period, cap, last, now);
    }
  }

  lemma StepLooksFull(stored: seq<int>, all: seq<int>, period: nat, cap: nat, step: Step, now: int)
    requires Keep(stored, step.t - period, cap) == Keep(all, step.t - period, cap) && step.t <= now
    ensures match step
            case Add(t) => Keep(stored + [t], now - period, cap) == Keep(all + [t], now - period, cap)
            case Tidy(t) => Keep(Keep(stored, t - period, cap), now - period, cap) == Keep(all, now - period, cap)
  {
    hide Keep;
    var cutoff := step.t - period;
    if step.Add? {
      KeepExtends(stored, all, cutoff, cap, [step.t], now - period);
    } else {
      KeepTwice(stored, cutoff, cap);
      KeepLater(Keep(stored, cutoff, cap), all, cutoff, cap, now - period);
    }
  }

  lemma {:induction false} EverythingSorted(steps: seq<Step>)
    requires Timed(steps)
    ensures Sorted(Everything(steps))
    ensures steps == [] ==> Everything(steps) == []
    ensures steps != [] ==> Below(Everything(steps), steps[|steps| - 1].t)
  {
    if steps != [] {
      EverythingSorted(steps[..|steps| - 1]);
    }
  }
}
