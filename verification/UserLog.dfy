/** Logs of events that name an email, ordered from oldest to newest, and the trim loop
    that keeps enough of them to see one distinct email more than the limit. */
module UserLog {

  /** An event at time `t` for email `u`; `e` is the error number of a failed login. */
  datatype Entry = Entry(t: int, u: string, e: int)

  /** The emails named from position `i` on. */
  function Users(log: seq<Entry>, i: nat): set<string>
    requires i <= |log|
    decreases |log| - i
  {
    if i == |log| then {} else {log[i].u} + Users(log, i + 1)
  }

  predicate Sorted(log: seq<Entry>) {
    forall i, j :: 0 <= i < j < |log| ==> log[i].t <= log[j].t
  }

  predicate Below(log: seq<Entry>, bound: int) {
    forall i :: 0 <= i < |log| ==> log[i].t <= bound
  }

  lemma {:induction false} SubsetSize<T>(a: set<T>, b: set<T>)
    requires a <= b
    ensures |a| <= |b|
  {
    assert b == a + (b - a);
  }

  lemma {:induction false} UsersShrink(log: seq<Entry>, i: nat, j: nat)
    requires i <= j <= |log|
    ensures Users(log, j) <= Users(log, i) && |Users(log, j)| <= |Users(log, i)|
    decreases j - i
  {
    if i < j {
      UsersShrink(log, i + 1, j);
    }
    SubsetSize(Users(log, j), Users(log, i));
  }

  lemma {:induction false} UsersOfSuffix(log: seq<Entry>, first: nat, i: nat)
    requires first <= |log| && i <= |log| - first
    ensures Users(log[first..], i) == Users(log, first + i)
    decreases |log| - i
  {
    if first + i < |log| {
      UsersOfSuffix(log, first, i + 1);
    }
  }

  lemma {:induction false} UsersGrow(log: seq<Entry>, more: seq<Entry>, i: nat)
    requires i <= |log|
    ensures Users(log, i) <= Users(log + more, i) && |Users(log, i)| <= |Users(log + more, i)|
    decreases |log| - i
  {
    if i < |log| {
      UsersGrow(log, more, i + 1);
    }
    SubsetSize(Users(log, i), Users(log + more, i));
  }

  lemma {:induction false} UsersAre(log: seq<Entry>, i: nat, u: string)
    requires i <= |log|
    ensures u in Users(log, i) <==> exists j :: i <= j < |log| && log[j].u == u
    decreases |log| - i
  {
    if i < |log| {
      UsersAre(log, i + 1, u);
    }
  }

  /** The backwards scan stops in front of position `k`: everything from `k` on is newer than
      `cutoff`, position `k` was reached with at most `max` emails seen, and the next
      position is missing, expired, or reached with more than `max` seen. */
  predicate StopsAt(log: seq<Entry>, cutoff: int, max: nat, k: nat) {
    && k <= |log|
    && (forall j :: k <= j < |log| ==> log[j].t > cutoff)
    && (k < |log| ==> |Users(log, k + 1)| <= max)
    && (k == 0 || log[k - 1].t <= cutoff || |Users(log, k)| > max)
  }

  lemma StopsOnce(log: seq<Entry>, cutoff: int, max: nat, k: nat, k': nat)
    requires StopsAt(log, cutoff, max, k) && StopsAt(log, cutoff, max, k')
    ensures k == k'
  {
    if k < k' {
      UsersShrink(log, k + 1, k');
    } else if k' < k {
      UsersShrink(log, k' + 1, k);
    }
  }

  /** Where the scan stops, coming down from position `i`. */
  function Start(log: seq<Entry>, cutoff: int, max: nat, i: nat): (k: nat)
    requires i <= |log|
    ensures k <= i
  {
    if i == 0 || log[i - 1].t <= cutoff || |Users(log, i)| > max then i
    else Start(log, cutoff, max, i - 1)
  }

  /** The newest entries in the window, as many as it takes to see `max + 1` emails. */
  function Keep(log: seq<Entry>, cutoff: int, max: nat): seq<Entry> {
    log[Start(log, cutoff, max, |log|)..]
  }

  lemma {:induction false} StartStops(log: seq<Entry>, cutoff: int, max: nat, i: nat)
    requires i <= |log| && (forall j :: i <= j < |log| ==> log[j].t > cutoff)
    requires i < |log| ==> |Users(log, i + 1)| <= max
    ensures StopsAt(log, cutoff, max, Start(log, cutoff, max, i))
  {
    hide Users;
    if !(i == 0 || log[i - 1].t <= cutoff || |Users(log, i)| > max) {
      StartStops(log, cutoff, max, i - 1);
    }
  }

  /** The stopping conditions determine the kept suffix. */
  lemma KeepIs(log: seq<Entry>, cutoff: int, max: nat, k: nat)
    requires StopsAt(log, cutoff, max, k)
    ensures Keep(log, cutoff, max) == log[k..]
  {
    hide StopsAt, Users;
    StartStops(log, cutoff, max, |log|);
    StopsOnce(log, cutoff, max, k, Start(log, cutoff, max, |log|));
  }

  lemma KeepIsSuffix(log: seq<Entry>, cutoff: int, max: nat) returns (k: nat)
    ensures k <= |log| && Keep(log, cutoff, max) == log[k..]
  {
    k := Start(log, cutoff, max, |log|);
  }

  lemma UsersStep(log: seq<Entry>, i: nat)
    requires i <= |log|
    ensures Users(log, i) == if i == |log| then {} else {log[i].u} + Users(log, i + 1)
  {
  }

  lemma LoopStops(log: seq<Entry>, cutoff: int, max: nat, k: nat)
    requires k <= |log| && forall j :: k <= j < |log| ==> log[j].t > cutoff
    requires k < |log| ==> |Users(log, k + 1)| <= max
    requires k == 0 || log[k - 1].t <= cutoff || |Users(log, k)| > max
    ensures Keep(log, cutoff, max) == log[k..]
  {
    hide Keep, Users;
    KeepIs(log, cutoff, max, k);
  }

  /** The trim loop with its table of emails seen. */
  method Trim(log: seq<Entry>, cutoff: int, max: nat) returns (kept: seq<Entry>)
    ensures kept == Keep(log, cutoff, max)
  {
    hide Keep, StopsAt, Users;
    UsersStep(log, |log|);
    if log == [] {
      LoopStops(log, cutoff, max, 0);
      return log;
    }
    var i, n := |log| - 1, 0;
    var seen: set<string> := {};
    while i >= 0 && log[i].t > cutoff && n <= max
      invariant -1 <= i < |log|
      invariant seen == Users(log, i + 1) && n == |seen|
      invariant forall j :: i < j < |log| ==> log[j].t > cutoff
      invariant i + 1 < |log| ==> |Users(log, i + 2)| <= max
    {
      UsersStep(log, i);
      if log[i].u !in seen {
        seen := seen + {log[i].u};
        n := n + 1;
      }
      i := i - 1;
    }
    LoopStops(log, cutoff, max, i + 1);
    kept := log[i + 1..];
  }

  /** Trimming early is never noticed. */
  lemma KeepAbsorbs(log: seq<Entry>, cutoff: int, max: nat, more: seq<Entry>, later: int)
    requires cutoff <= later
    ensures Keep(Keep(log, cutoff, max) + more, later, max) == Keep(log + more, later, max)
  {
    hide Users, StopsAt, Start;
    StartStops(log, cutoff, max, |log|);
    var first := Start(log, cutoff, max, |log|);
    var all, kept := log + more, log[first..] + more;
    StartStops(all, later, max, |all|);
    var start := Start(all, later, max, |all|);
    AbsorbedStart(log, cutoff, max, more, later, first, start);
    assert kept == all[first..];
    SuffixStops(all, later, max, first, start);
    KeepIs(kept, later, max, start - first);
  }

  lemma AbsorbedStart(log: seq<Entry>, cutoff: int, max: nat, more: seq<Entry>, later: int, first: nat, start: nat)
    requires cutoff <= later && StopsAt(log, cutoff, max, first) && StopsAt(log + more, later, max, start)
    ensures first <= start <= |log + more|
  {
    hide Users;
    if start < first {
      assert (log + more)[first - 1] == log[first - 1];
      UsersGrow(log, more, first);
      UsersShrink(log + more, start + 1, first);
      assert false;
    }
  }

  lemma SuffixStops(log: seq<Entry>, cutoff: int, max: nat, first: nat, k: nat)
    requires first <= k && StopsAt(log, cutoff, max, k)
    ensures StopsAt(log[first..], cutoff, max, k - first)
  {
    hide Users;
    UsersOfSuffix(log, first, k - first);
    if k < |log| {
      UsersOfSuffix(log, first, k - first + 1);
    }
  }

  lemma KeepExtends(a: seq<Entry>, b: seq<Entry>, cutoff: int, max: nat, more: seq<Entry>, later: int)
    requires Keep(a, cutoff, max) == Keep(b, cutoff, max) && cutoff <= later
    ensures Keep(a + more, later, max) == Keep(b + more, later, max)
  {
    hide Keep;
    KeepAbsorbs(a, cutoff, max, more, later);
    KeepAbsorbs(b, cutoff, max, more, later);
  }

  lemma KeepLater(a: seq<Entry>, b: seq<Entry>, cutoff: int, max: nat, later: int)
    requires Keep(a, cutoff, max) == Keep(b, cutoff, max) && cutoff <= later
    ensures Keep(a, later, max) == Keep(b, later, max)
  {
    hide Keep;
    KeepExtends(a, b, cutoff, max, [], later);
    assert a + [] == a && b + [] == b;
  }

  lemma KeepTwice(log: seq<Entry>, cutoff: int, max: nat)
    ensures Keep(Keep(log, cutoff, max), cutoff, max) == Keep(log, cutoff, max)
  {
    hide Keep;
    KeepAbsorbs(log, cutoff, max, [], cutoff);
    assert Keep(log, cutoff, max) + [] == Keep(log, cutoff, max) && log + [] == log;
  }

  /** The entries from position `i` on that are newer than `cutoff`. */
  function Recent(log: seq<Entry>, cutoff: int, i: nat): seq<Entry>
    requires i <= |log|
    decreases |log| - i
  {
    if i == |log| then []
    else (if log[i].t > cutoff then [log[i]] else []) + Recent(log, cutoff, i + 1)
  }

  lemma {:induction false} AllRecent(log: seq<Entry>, cutoff: int, i: nat)
    requires i <= |log| && forall j :: i <= j < |log| ==> log[j].t > cutoff
    ensures Recent(log, cutoff, i) == log[i..]
    decreases |log| - i
  {
    if i < |log| {
      AllRecent(log, cutoff, i + 1);
      assert log[i..] == [log[i]] + log[i + 1..];
    }
  }

  lemma SkipExpired(log: seq<Entry>, cutoff: int, i: nat)
    requires i < |log| && log[i].t <= cutoff
    ensures Recent(log, cutoff, i) == Recent(log, cutoff, i + 1)
  {
  }

  lemma {:induction false} RecentIsSuffix(log: seq<Entry>, cutoff: int, i: nat) returns (k: nat)
    requires Sorted(log) && i <= |log|
    ensures i <= k <= |log| && Recent(log, cutoff, i) == log[k..]
    ensures forall j :: i <= j < |log| ==> (log[j].t > cutoff <==> j >= k)
    decreases |log| - i
  {
    hide Recent;
    k := i;
    if i < |log| && log[i].t <= cutoff {
      SkipExpired(log, cutoff, i);
      k := RecentIsSuffix(log, cutoff, i + 1);
    } else {
      AllRecent(log, cutoff, i);
    }
  }

  lemma {:induction false} RecentAppend(log: seq<Entry>, e: Entry, cutoff: int, i: nat)
    requires i <= |log|
    ensures Recent(log + [e], cutoff, i) == Recent(log, cutoff, i) + if e.t > cutoff then [e] else []
    decreases |log| - i
  {
    if i == |log| {
      assert Recent(log + [e], cutoff, |log| + 1) == [];
    } else {
      RecentAppend(log, e, cutoff, i + 1);
    }
  }

  /** On an ordered log, trimming either loses nothing of the window or leaves more than
      `max` distinct emails. */
  lemma KeptAllOrMany(log: seq<Entry>, cutoff: int, max: nat)
    requires Sorted(log)
    ensures var kept, recent := Keep(log, cutoff, max), Recent(log, cutoff, 0);
            && (kept == recent || |Users(kept, 0)| > max)
            && Users(kept, 0) <= Users(recent, 0) && |Users(kept, 0)| <= |Users(recent, 0)|
  {
    hide Users, Start, Recent;
    StartStops(log, cutoff, max, |log|);
    var start := Start(log, cutoff, max, |log|);
    var k := RecentIsSuffix(log, cutoff, 0);
    assert k <= start by {
      assert start < |log| ==> log[start].t > cutoff;
    }
    UsersShrink(log, k, start);
    UsersOfSuffix(log, k, 0);
    UsersOfSuffix(log, start, 0);
  }

  /** Nothing survives in a window that starts after the last entry. */
  lemma KeepNothing(log: seq<Entry>, cutoff: int, max: nat)
    requires Below(log, cutoff)
    ensures Keep(log, cutoff, max) == [] == Keep([], cutoff, max)
  {
    hide Users;
  }

  lemma {:induction false} NothingRecent(log: seq<Entry>, cutoff: int, i: nat)
    requires Below(log, cutoff) && i <= |log|
    ensures Recent(log, cutoff, i) == []
    decreases |log| - i
  {
    if i < |log| {
      NothingRecent(log, cutoff, i + 1);
    }
  }

  lemma KeepBelow(log: seq<Entry>, cutoff: int, max: nat, bound: int)
    requires Below(log, bound)
    ensures Below(Keep(log, cutoff, max), bound)
  {
    hide Users, Start;
  }

  // ---- Runs of one log ----

  /** Steps on one log: record an event, or run the trim loop. */
  datatype Step = Add(entry: Entry) | Tidy(at: int) {
    function Time(): int {
      if Add? then entry.t else at
    }
  }

  predicate Timed(steps: seq<Step>, now: int) {
    && (forall i :: 0 <= i < |steps| ==> steps[i].Time() <= now)
    && (forall i, j :: 0 <= i < j < |steps| ==> steps[i].Time() <= steps[j].Time())
  }

  /** The log a record stores: every `Tidy` runs the trim loop for a window of `period`. */
  function Stored(steps: seq<Step>, period: nat, max: nat): seq<Entry> {
    if steps == [] then []
    else
      var before := Stored(steps[..|steps| - 1], period, max);
      match steps[|steps| - 1]
      case Add(entry) => before + [entry]
      case Tidy(t) => Keep(before, t - period, max)
  }

  /** The log nobody ever trims. */
  function Everything(steps: seq<Step>): seq<Entry> {
    if steps == [] then []
    else
      var before := Everything(steps[..|steps| - 1]);
      match steps[|steps| - 1]
      case Add(entry) => before + [entry]
      case Tidy(_) => before
  }

  lemma StepLooksFull(stored: seq<Entry>, all: seq<Entry>, period: nat, max: nat, step: Step, now: int)
    requires var cutoff := step.Time() - period; Keep(stored, cutoff, max) == Keep(all, cutoff, max)
    requires step.Time() <= now
    ensures match step
            case Add(entry) => Keep(stored + [entry], now - period, max) == Keep(all + [entry], now - period, max)
            case Tidy(t) => Keep(Keep(stored, t - period, max), now - period, max) == Keep(all, now - period, max)
  {
    hide Keep;
    var cutoff := step.Time() - period;
    if step.Add? {
      KeepExtends(stored, all, cutoff, max, [step.entry], now - period);
    } else {
      KeepTwice(stored, cutoff, max);
      KeepLater(Keep(stored, cutoff, max), all, cutoff, max, now - period);
    }
  }

  /** After any interleaving of adds and trims the stored log looks, in every later
      window, like the log nobody trimmed. */
  lemma {:induction false} StoredLooksFull(steps: seq<Step>, period: nat, max: nat, now: int)
    requires Timed(steps, now)
    ensures Keep(Stored(steps, period, max), now - period, max) == Keep(Everything(steps), now - period, max)
  {
    hide Keep;
    if steps != [] {
      var init, last := steps[..|steps| - 1], steps[|steps| - 1];
      StoredLooksFull(init, period, max, last.Time());
      StepLooksFull(Stored(init, period, max), Everything(init), period, max, last, now);
    }
  }

  lemma {:induction false} EverythingSorted(steps: seq<Step>, now: int)
    requires Timed(steps, now)
    ensures Sorted(Everything(steps)) && Below(Everything(steps), now)
  {
    if steps != [] {
      EverythingSorted(steps[..|steps| - 1], steps[|steps| - 1].Time());
    }
  }
}
