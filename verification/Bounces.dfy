/** Whether an email address may be mailed, given its past bounces. */
module Bounces {

  datatype Bounce = Bounce(bounceType: int, createdAt: int)

  const HARD := 1
  const SOFT := 2
  const COMPLAINT := 3

  const TYPES := {HARD, SOFT, COMPLAINT}

  /** For every type, the time in ms for which that many earlier bounces plus this one block. */
  type Rules = rules: map<int, map<nat, int>> | rules.Keys == TYPES
    witness map[HARD := map[], SOFT := map[], COMPLAINT := map[]]

  datatype Tally = Tally(count: nat, latest: int)

  datatype Outcome = Pass | Throw(bounceType: int, latest: int)

  // ---- What the rules mean ----

  /** Number of bounces of one type among the first `n`. */
  function Count(bounces: seq<Bounce>, bounceType: int, n: nat): nat
    requires n <= |bounces|
  {
    if n == 0 then 0 else Count(bounces, bounceType, n - 1) + if bounces[n - 1].bounceType == bounceType then 1 else 0
  }

  /** The tier for the `k`-th bounce of the type exists and is not 0. */
  predicate HasTier(rules: Rules, bounceType: int, k: nat) {
    bounceType in rules && k in rules[bounceType] && rules[bounceType][k] != 0
  }

  /** Bounce `i`, as the k-th of its type, is younger than tier k. */
  predicate Violates(rules: Rules, bounces: seq<Bounce>, i: nat, now: int)
    requires i < |bounces|
  {
    var Bounce(bounceType, createdAt) := bounces[i];
    var k := Count(bounces, bounceType, i);
    HasTier(rules, bounceType, k) && createdAt > now - rules[bounceType][k]
  }

  /** The first date of the type that is not 0, among the first `n` bounces. */
  function FirstDate(bounces: seq<Bounce>, bounceType: int, n: nat): int
    requires n <= |bounces|
  {
    if n == 0 then 0
    else
      var before := FirstDate(bounces, bounceType, n - 1);
      if before == 0 && bounces[n - 1].bounceType == bounceType then bounces[n - 1].createdAt else before
  }

  predicate Descending(bounces: seq<Bounce>) {
    forall i, j :: 0 <= i < j < |bounces| ==> bounces[i].createdAt >= bounces[j].createdAt
  }

  predicate Dated(bounces: seq<Bounce>) {
    forall i :: 0 <= i < |bounces| ==> bounces[i].createdAt > 0
  }

  /** The single pass with its tallies. It throws for the first violating bounce in list
      order, and the error carries the first date of that type. */
  method ApplyRules(rules: Rules, bounces: seq<Bounce>, now: int) returns (outcome: Outcome)
    ensures outcome.Pass? <==> forall i :: 0 <= i < |bounces| ==> !Violates(rules, bounces, i, now)
    ensures outcome.Throw? ==>
              exists i :: 0 <= i < |bounces| && Violates(rules, bounces, i, now)
                          && (forall j :: 0 <= j < i ==> !Violates(rules, bounces, j, now))
                          && outcome == Throw(bounces[i].bounceType, FirstDate(bounces, bounces[i].bounceType, i + 1))
  {
    var tallies: map<int, Tally> := map[HARD := Tally(0, 0), COMPLAINT := Tally(0, 0), SOFT := Tally(0, 0)];
    for i := 0 to |bounces|
      invariant tallies.Keys == TYPES
      invariant forall bounceType <- TYPES ::
                  tallies[bounceType] == Tally(Count(bounces, bounceType, i), FirstDate(bounces, bounceType, i))
      invariant forall j :: 0 <= j < i ==> !Violates(rules, bounces, j, now)
    {
      var Bounce(bounceType, createdAt) := bounces[i];
      if bounceType in rules {
        var tally := tallies[bounceType];
        if tally.latest == 0 {
          tally := tally.(latest := createdAt);
        }
        if tally.count in rules[bounceType] {
          var tier := rules[bounceType][tally.count];
          if tier != 0 && createdAt > now - tier {
            assert Violates(rules, bounces, i, now);
            return Throw(bounceType, tally.latest);
          }
        }
        tallies := tallies[bounceType := Tally(tally.count + 1, tally.latest)];
      }
    }
    return Pass;
  }

  // ---- The rules without an order ----

  /** Number of bounces of one type younger than `cutoff`, in any order. */
  function Younger(bounces: seq<Bounce>, bounceType: int, cutoff: int, n: nat): nat
    requires n <= |bounces|
  {
    if n == 0 then 0
    else Younger(bounces, bounceType, cutoff, n - 1)
         + if bounces[n - 1].bounceType == bounceType && bounces[n - 1].createdAt > cutoff then 1 else 0
  }

  lemma {:induction false} YoungerIsPrefix(bounces: seq<Bounce>, bounceType: int, cutoff: int, n: nat)
    requires n <= |bounces| && Descending(bounces)
    ensures Younger(bounces, bounceType, cutoff, n) <= Count(bounces, bounceType, n)
    ensures n > 0 && bounces[n - 1].createdAt > cutoff ==>
              Younger(bounces, bounceType, cutoff, n) == Count(bounces, bounceType, n)
  {
    if n > 0 {
      YoungerIsPrefix(bounces, bounceType, cutoff, n - 1);
    }
  }

  /** If more than `k` bounces of the type are younger than `cutoff`, the k-th is among them. */
  lemma {:induction false} KthIsYounger(bounces: seq<Bounce>, bounceType: int, cutoff: int, k: nat, n: nat)
    returns (i: nat)
    requires n <= |bounces| && Descending(bounces) && Younger(bounces, bounceType, cutoff, n) > k
    ensures i < n && bounces[i].bounceType == bounceType && bounces[i].createdAt > cutoff
              && Count(bounces, bounceType, i) == k
  {
    YoungerIsPrefix(bounces, bounceType, cutoff, n - 1);
    if Younger(bounces, bounceType, cutoff, n - 1) > k {
      i := KthIsYounger(bounces, bounceType, cutoff, k, n - 1);
    } else {
      i := n - 1;
      PrefixAllYoung(bounces, bounceType, cutoff, n - 1);
    }
  }

  lemma PrefixAllYoung(bounces: seq<Bounce>, bounceType: int, cutoff: int, i: nat)
    requires i < |bounces| && Descending(bounces) && bounces[i].createdAt > cutoff
    ensures Younger(bounces, bounceType, cutoff, i) == Count(bounces, bounceType, i)
  {
    YoungerIsPrefix(bounces, bounceType, cutoff, i);
  }

  lemma {:induction false} YoungerGrows(bounces: seq<Bounce>, bounceType: int, cutoff: int, i: nat, n: nat)
    requires i <= n <= |bounces|
    ensures Younger(bounces, bounceType, cutoff, i) <= Younger(bounces, bounceType, cutoff, n)
  {
    if i < n {
      YoungerGrows(bounces, bounceType, cutoff, i, n - 1);
    }
  }

  /** Some type has, for some tier k, more than k bounces younger than the tier. */
  ghost predicate TooMany(rules: Rules, bounces: seq<Bounce>, now: int) {
    exists bounceType, k: nat :: HasTier(rules, bounceType, k)
      && Younger(bounces, bounceType, now - rules[bounceType][k], |bounces|) > k
  }

  /** On a list sorted by date, newest first, the pass throws exactly when some type has
      more than k bounces younger than its tier k: the order of the rules' evaluation and of
      bounces of other types does not matter. */
  lemma ThrowsExactlyWhen(rules: Rules, bounces: seq<Bounce>, now: int)
    requires Descending(bounces)
    ensures (exists i :: 0 <= i < |bounces| && Violates(rules, bounces, i, now)) <==> TooMany(rules, bounces, now)
  {
    if i :| 0 <= i < |bounces| && Violates(rules, bounces, i, now) {
      var bounceType := bounces[i].bounceType;
      var k := Count(bounces, bounceType, i);
      var cutoff := now - rules[bounceType][k];
      PrefixAllYoung(bounces, bounceType, cutoff, i);
      YoungerGrows(bounces, bounceType, cutoff, i + 1, |bounces|);
    }
    if TooMany(rules, bounces, now) {
      var bounceType, k: nat :| HasTier(rules, bounceType, k)
        && Younger(bounces, bounceType, now - rules[bounceType][k], |bounces|) > k;
      var i := KthIsYounger(bounces, bounceType, now - rules[bounceType][k], k, |bounces|);
      assert Violates(rules, bounces, i, now);
    }
  }

  /** On a descending list of real dates, the date in the error is the newest of its type. */
  lemma {:induction false} FirstDateIsNewest(bounces: seq<Bounce>, bounceType: int, n: nat, j: nat)
    requires n <= |bounces| && Descending(bounces) && Dated(bounces) && Count(bounces, bounceType, n) > 0
    requires j < |bounces| && bounces[j].bounceType == bounceType
    ensures 0 < bounces[j].createdAt <= FirstDate(bounces, bounceType, n)
    ensures exists i :: 0 <= i < n && bounces[i].bounceType == bounceType
              && bounces[i].createdAt == FirstDate(bounces, bounceType, n)
  {
    if Count(bounces, bounceType, n - 1) > 0 {
      FirstDateIsNewest(bounces, bounceType, n - 1, j);
    } else {
      CountZero(bounces, bounceType, n - 1, j);
    }
  }

  lemma {:induction false} CountZero(bounces: seq<Bounce>, bounceType: int, n: nat, j: nat)
    requires n <= |bounces| && j < |bounces| && bounces[j].bounceType == bounceType
               && Count(bounces, bounceType, n) == 0
    ensures n <= j && FirstDate(bounces, bounceType, n) == 0
  {
    if n > 0 {
      CountZero(bounces, bounceType, n - 1, j);
    }
  }

  /** An address that may be mailed stays mailable as long as nothing new bounces. */
  lemma PassingLasts(rules: Rules, bounces: seq<Bounce>, now: int, later: int)
    requires now <= later && forall i :: 0 <= i < |bounces| ==> !Violates(rules, bounces, i, now)
    ensures forall i :: 0 <= i < |bounces| ==> !Violates(rules, bounces, i, later)
  {
    forall i | 0 <= i < |bounces| ensures !Violates(rules, bounces, i, later) {
      assert !Violates(rules, bounces, i, now);
    }
  }
}
