/** The score by which an IP address is judged for its failed logins: for every email it
    tried, the weight of the worst failure. */
module LoginScore {
  import opened UserLog

  type Weights = map<int, real>

  /** `weights[errno] || 1`: a missing or zero weight counts as 1. */
  function Weight(w: Weights, e: int): real {
    if e in w && w[e] != 0.0 then w[e] else 1.0
  }

  function MaxReal(a: real, b: real): real {
    if a < b then b else a
  }

  /** The heaviest failure of `u` among the first `n` entries, at least 0. */
  function Worst(w: Weights, log: seq<Entry>, n: nat, u: string): real
    requires n <= |log|
  {
    if n == 0 then 0.0
    else if log[n - 1].u == u then MaxReal(Weight(w, log[n - 1].e), Worst(w, log, n - 1, u))
    else Worst(w, log, n - 1, u)
  }

  /** The emails among the first `n` entries, each once, in order of first appearance. */
  function Firsts(log: seq<Entry>, n: nat): seq<string>
    requires n <= |log|
  {
    if n == 0 then []
    else
      var before := Firsts(log, n - 1);
      if log[n - 1].u in before then before else before + [log[n - 1].u]
  }

  function SumWorst(w: Weights, log: seq<Entry>, users: seq<string>, k: nat): real
    requires k <= |users|
  {
    if k == 0 then 0.0 else SumWorst(w, log, users, k - 1) + Worst(w, log, |log|, users[k - 1])
  }

  /** Sum over the emails of the weight of their worst failure. */
  function Score(w: Weights, log: seq<Entry>): real {
    var users := Firsts(log, |log|);
    SumWorst(w, log, users, |users|)
  }

  /** The two passes of the source: a table from email to worst weight, then its total. */
  method ComputeScore(w: Weights, log: seq<Entry>) returns (total: real)
    ensures total == Score(w, log)
  {
    var weights: map<string, real> := map[];
    var order: seq<string> := [];
    for i := 0 to |log|
      invariant order == Firsts(log, i)
      invariant forall u :: u in weights <==> u in order
      invariant forall u :: Worst(w, log, i, u) == if u in weights then weights[u] else 0.0
    {
      var Entry(_, user, errno) := log[i];
      var before := if user in weights then weights[user] else 0.0;
      if user !in weights {
        order := order + [user];
      }
      weights := weights[user := MaxReal(Weight(w, errno), before)];
    }
    total := 0.0;
    for k := 0 to |order|
      invariant total == SumWorst(w, log, order, k)
    {
      total := total + weights[order[k]];
    }
  }

  // ---- Counting emails ----

  lemma {:induction false} FirstsAre(log: seq<Entry>, n: nat)
    requires n <= |log|
    ensures forall i, j :: 0 <= i < j < |Firsts(log, n)| ==> Firsts(log, n)[i] != Firsts(log, n)[j]
    ensures forall u :: u in Firsts(log, n) <==> exists i :: 0 <= i < n && log[i].u == u
  {
    if n > 0 {
      FirstsAre(log, n - 1);
    }
  }

  ghost function Elements(s: seq<string>): set<string> {
    set x | x in s
  }

  lemma {:induction false} DistinctSize(s: seq<string>)
    requires forall i, j :: 0 <= i < j < |s| ==> s[i] != s[j]
    ensures |Elements(s)| == |s|
  {
    if s != [] {
      var init, last := s[..|s| - 1], s[|s| - 1];
      DistinctSize(init);
      assert Elements(s) == Elements(init) + {last};
    }
  }

  lemma FirstsCount(log: seq<Entry>)
    ensures |Firsts(log, |log|)| == |Users(log, 0)|
  {
    hide Firsts, Users;
    FirstsAre(log, |log|);
    var firsts := Firsts(log, |log|);
    DistinctSize(firsts);
    forall u ensures u in Users(log, 0) <==> u in firsts {
      UsersAre(log, 0, u);
    }
    assert Users(log, 0) == Elements(firsts);
  }

  // ---- Bounds on the score ----

  lemma {:induction false} WorstAtLeast(w: Weights, log: seq<Entry>, n: nat, i: nat)
    requires i < n <= |log|
    ensures Worst(w, log, n, log[i].u) >= Weight(w, log[i].e)
  {
    if i < n - 1 {
      WorstAtLeast(w, log, n - 1, i);
    }
  }

  lemma {:induction false} SumAtLeast(w: Weights, log: seq<Entry>, users: seq<string>, k: nat, q: real)
    requires k <= |users| && forall i :: 0 <= i < k ==> Worst(w, log, |log|, users[i]) > q
    ensures SumWorst(w, log, users, k) >= k as real * q
    ensures k > 0 ==> SumWorst(w, log, users, k) > k as real * q
  {
    hide Worst;
    if k > 0 {
      SumAtLeast(w, log, users, k - 1, q);
      OneMore(k, q);
    }
  }

  lemma OneMore(k: nat, q: real)
    requires k > 0
    ensures k as real * q == (k - 1) as real * q + q
  {
  }

  /** The error weighs enough that `max + 1` emails failing with it exceed the limit. */
  predicate IsHeavy(w: Weights, e: int, max: nat) {
    Weight(w, e) * (max + 1) as real > max as real
  }

  /** Every failure in the log is heavy. */
  predicate Heavy(w: Weights, log: seq<Entry>, max: nat) {
    forall i :: 0 <= i < |log| ==> IsHeavy(w, log[i].e, max)
  }

  /** With the usual weights, none below 1, every error is heavy. */
  lemma UsualWeightsAreHeavy(w: Weights, e: int, max: nat)
    requires forall e <- w :: w[e] >= 1.0
    ensures IsHeavy(w, e, max)
  {
    TimesMono(1.0, Weight(w, e), (max + 1) as real);
  }

  lemma ScoreAboveLimit(w: Weights, log: seq<Entry>, max: nat)
    requires |Users(log, 0)| > max
    requires forall j :: 0 <= j < |log| ==> Worst(w, log, |log|, log[j].u) * (max + 1) as real > max as real
    ensures Score(w, log) > max as real
  {
    hide Users, Firsts, Worst, SumWorst;
    FirstsCount(log);
    FirstsAre(log, |log|);
    var users := Firsts(log, |log|);
    var q := max as real / (max + 1) as real;
    forall i | 0 <= i < |users| ensures Worst(w, log, |log|, users[i]) > q {
      assert users[i] in users;
      var j :| 0 <= j < |log| && log[j].u == users[i];
      QuotientBelow(Worst(w, log, |log|, log[j].u), max);
    }
    SumAtLeast(w, log, users, |users|, q);
    TimesQuotient(|users|, max);
  }

  lemma HeavyScore(w: Weights, log: seq<Entry>, max: nat)
    requires Heavy(w, log, max) && |Users(log, 0)| > max
    ensures Score(w, log) > max as real
  {
    hide Users, Worst, Score;
    forall j | 0 <= j < |log| ensures Worst(w, log, |log|, log[j].u) * (max + 1) as real > max as real {
      assert IsHeavy(w, log[j].e, max);
      WorstAtLeast(w, log, |log|, j);
      TimesMono(Weight(w, log[j].e), Worst(w, log, |log|, log[j].u), (max + 1) as real);
    }
    ScoreAboveLimit(w, log, max);
  }

  lemma TimesMono(a: real, b: real, c: real)
    requires a <= b && c >= 0.0
    ensures a * c <= b * c
  {
  }

  lemma QuotientBelow(weight: real, max: nat)
    requires weight * (max + 1) as real > max as real
    ensures weight > max as real / (max + 1) as real
  {
  }

  lemma TimesQuotient(n: nat, max: nat)
    requires n > max
    ensures n as real * (max as real / (max + 1) as real) >= max as real
  {
    var q := max as real / (max + 1) as real;
    assert (max + 1) as real * q == max as real;
    assert (n - (max + 1)) as real * q >= 0.0;
    assert n as real * q == (max + 1) as real * q + (n - (max + 1)) as real * q;
  }

  /** With heavy failures a trimmed log is over the limit exactly when the whole window is. */
  lemma TrimmedScoreDecides(w: Weights, log: seq<Entry>, cutoff: int, max: nat)
    requires Sorted(log) && Heavy(w, log, max)
    ensures Score(w, Keep(log, cutoff, max)) > max as real <==> Score(w, Recent(log, cutoff, 0)) > max as real
  {
    hide Users, Keep, Recent, Score, IsHeavy;
    KeptAllOrMany(log, cutoff, max);
    var kept, recent := Keep(log, cutoff, max), Recent(log, cutoff, 0);
    if kept != recent {
      var start := KeepIsSuffix(log, cutoff, max);
      var k := RecentIsSuffix(log, cutoff, 0);
      HeavyScore(w, kept, max);
      HeavyScore(w, recent, max);
    }
  }

  // ---- One more failure ----

  lemma {:induction false} WorstGrows(w: Weights, log: seq<Entry>, e: Entry, n: nat, u: string)
    requires n <= |log|
    ensures Worst(w, log + [e], n, u) == Worst(w, log, n, u) >= 0.0
  {
    if n > 0 {
      WorstGrows(w, log, e, n - 1, u);
    }
  }

  lemma {:induction false} FirstsGrow(log: seq<Entry>, e: Entry, n: nat)
    requires n <= |log|
    ensures Firsts(log + [e], n) == Firsts(log, n)
  {
    if n > 0 {
      FirstsGrow(log, e, n - 1);
    }
  }

  lemma {:induction false} SumGrows(w: Weights, log: seq<Entry>, e: Entry, users: seq<string>, more: seq<string>,
                                    k: nat)
    requires k <= |users|
    ensures SumWorst(w, log + [e], users + more, k) >= SumWorst(w, log, users, k)
  {
    if k > 0 {
      SumGrows(w, log, e, users, more, k - 1);
      WorstGrows(w, log, e, |log|, users[k - 1]);
    }
  }

  /** No failure lowers the score, whatever it weighs. */
  lemma ScoreGrows(w: Weights, log: seq<Entry>, e: Entry)
    ensures Score(w, log + [e]) >= Score(w, log)
  {
    var users := Firsts(log, |log|);
    FirstsGrow(log, e, |log|);
    if e.u in users {
      SumGrows(w, log, e, users, [], |users|);
      assert users + [] == users;
    } else {
      SumGrows(w, log, e, users, [e.u], |users|);
      WorstGrows(w, log, e, |log|, e.u);
    }
  }

  // ---- Runs ----

  /** After the run, the verdict on the stored log is the verdict on everything in the window. */
  ghost predicate SameVerdict(w: Weights, steps: seq<Step>, period: nat, max: nat, now: int) {
    Score(w, Keep(Stored(steps, period, max), now - period, max)) > max as real
    <==> Score(w, Recent(Everything(steps), now - period, 0)) > max as real
  }

  lemma HeavyRunsAgree(w: Weights, steps: seq<Step>, period: nat, max: nat, now: int)
    requires Timed(steps, now) && Heavy(w, Everything(steps), max)
    ensures SameVerdict(w, steps, period, max, now)
  {
    hide Keep, Recent, Score, Stored, Everything, Heavy;
    StoredLooksFull(steps, period, max, now);
    EverythingSorted(steps, now);
    TrimmedScoreDecides(w, Everything(steps), now - period, max);
  }

  // ---- A light error hides heavy ones ----

  lemma {:induction false} Unlisted(keys: set<int>) returns (e: int)
    ensures forall k :: k in keys ==> k < e
  {
    e := 0;
    if k :| k in keys {
      var rest := Unlisted(keys - {k});
      e := if rest <= k then k + 1 else rest;
      assert forall j :: j in keys ==> j == k || j in keys - {k};
    }
  }

  /** Some name for the `i`-th email. */
  function Name(i: nat): string {
    if i == 0 then "a" else Name(i - 1) + "a"
  }

  lemma {:induction false} NameLength(i: nat)
    ensures |Name(i)| == i + 1
  {
    if i > 0 {
      NameLength(i - 1);
    }
  }

  /** One failure with error `e` for each of `n` emails, all at time `t`. */
  function Batch(n: nat, e: int, t: int): (log: seq<Entry>)
    ensures |log| == n && forall i :: 0 <= i < n ==> log[i] == Entry(t, Name(i), e)
  {
    if n == 0 then [] else Batch(n - 1, e, t) + [Entry(t, Name(n - 1), e)]
  }

  lemma {:induction false} BatchUsers(log: seq<Entry>, n: nat, e: int, t: int, i: nat)
    requires i <= n && log == Batch(n, e, t)
    ensures |Users(log, i)| == n - i
    decreases n - i
  {
    if i < n {
      BatchUsers(log, n, e, t, i + 1);
      UsersAre(log, i + 1, Name(i));
      NameLength(i);
      forall j | i < j < n ensures Name(j) != Name(i) {
        NameLength(j);
      }
    }
  }

  lemma {:induction false} WorstAtMost(w: Weights, log: seq<Entry>, n: nat, u: string, e: int)
    requires n <= |log| && forall i :: 0 <= i < |log| ==> log[i].e == e
    ensures Worst(w, log, n, u) <= MaxReal(Weight(w, e), 0.0)
  {
    if n > 0 {
      WorstAtMost(w, log, n - 1, u, e);
    }
  }

  lemma {:induction false} SumAtMost(w: Weights, log: seq<Entry>, users: seq<string>, k: nat, e: int)
    requires k <= |users| && forall i :: 0 <= i < |log| ==> log[i].e == e
    ensures SumWorst(w, log, users, k) <= k as real * MaxReal(Weight(w, e), 0.0)
  {
    var q := MaxReal(Weight(w, e), 0.0);
    if k > 0 {
      SumAtMost(w, log, users, k - 1, e);
      WorstAtMost(w, log, |log|, users[k - 1], e);
      assert k as real * q == (k - 1) as real * q + q;
    }
  }

  lemma BatchTailKept(max: nat, plain: int, e: int, period: nat, t: int)
    requires period > 0
    ensures var log := Batch(max + 1, plain, t) + Batch(max + 1, e, t);
            && Keep(log, t - period, max) == Batch(max + 1, e, t)
            && Recent(log, t - period, 0) == log
            && |Users(log, 0)| > max
  {
    hide Keep, Recent, Users, Batch, Name;
    var n := max + 1;
    var light := Batch(n, e, t);
    var log := Batch(n, plain, t) + light;
    assert log[n..] == light;
    UsersOfSuffix(log, n, 0);
    UsersOfSuffix(log, n, 1);
    BatchUsers(light, n, e, t, 0);
    BatchUsers(light, n, e, t, 1);
    LoopStops(log, t - period, max, n);
    AllRecent(log, t - period, 0);
    UsersShrink(log, 0, n);
  }

  lemma LightScore(w: Weights, max: nat, e: int, t: int)
    requires !IsHeavy(w, e, max)
    ensures Score(w, Batch(max + 1, e, t)) <= max as real
  {
    hide Users, Worst, SumWorst, Firsts;
    var n, light := max + 1, Batch(max + 1, e, t);
    BatchUsers(light, n, e, t, 0);
    FirstsCount(light);
    SumAtMost(w, light, Firsts(light, n), n, e);
  }

  lemma MixedScore(w: Weights, max: nat, e: int, plain: int, t: int)
    requires Weight(w, plain) == 1.0
    requires |Users(Batch(max + 1, plain, t) + Batch(max + 1, e, t), 0)| > max
    ensures Score(w, Batch(max + 1, plain, t) + Batch(max + 1, e, t)) > max as real
  {
    hide Users, Worst, Score, Weight, Name, Batch;
    var n, log := max + 1, Batch(max + 1, plain, t) + Batch(max + 1, e, t);
    forall j | 0 <= j < |log| ensures Worst(w, log, |log|, log[j].u) * n as real > max as real {
      MixedWorst(w, n, e, plain, t, j);
    }
    ScoreAboveLimit(w, log, max);
  }

  lemma MixedWorst(w: Weights, n: nat, e: int, plain: int, t: int, j: nat)
    requires Weight(w, plain) == 1.0 && j < 2 * n
    ensures var log := Batch(n, plain, t) + Batch(n, e, t);
            Worst(w, log, |log|, log[j].u) * n as real > (n - 1) as real
  {
    hide Worst, Weight, Batch, Name;
    var log, first := Batch(n, plain, t) + Batch(n, e, t), if j < n then j else j - n;
    assert log[first] == Entry(t, Name(first), plain) && log[j].u == Name(first);
    WorstAtLeast(w, log, |log|, first);
    TimesMono(1.0, Worst(w, log, |log|, Name(first)), n as real);
  }

  /** A light error hides heavy ones: with the newest `max + 1` emails failing lightly, the
      trim loop drops older failures that put the address over the limit. */
  lemma LightErrorHides(w: Weights, max: nat, e: int, plain: int, period: nat, t: int)
    requires !IsHeavy(w, e, max) && Weight(w, plain) == 1.0 && period > 0
    ensures var log := Batch(max + 1, plain, t) + Batch(max + 1, e, t);
            && Score(w, Keep(log, t - period, max)) <= max as real
            && Score(w, Recent(log, t - period, 0)) > max as real
  {
    hide Keep, Recent, Users, Score, Batch;
    BatchTailKept(max, plain, e, period, t);
    LightScore(w, max, e, t);
    MixedScore(w, max, e, plain, t);
  }
}
