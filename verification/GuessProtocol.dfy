/** The guess bound of the whole server: what `/check` and `/failedLoginAttempt` promise
    about one account attacked from one address, through a cache that may lose records. */
module GuessProtocol {
  import opened Clock
  import opened Customs
  import opened EventLog
  import opened Server
  import opened Store
  import E = EmailRecord
  import P = IpEmailRecord
  import I = IpRecord
  import R = RateRecord
  import U = UidRecord

  /** One account and the address that tries to get in. */
  datatype Attack = Attack(ip: string, email: string)

  /** A password check of this pair that the server lets pass, allowlists aside. */
  predicate IsTry(cfg: Config, c: Cache, request: Request, a: Attack) {
    && request.Check? && Accepted(request) && request.ip == a.ip && request.q.email == a.email
    && IsPasswordChecking(request.q.action) && !request.q.env.allowed
    && !CheckRecords(cfg.limits, FetchRecords(c, request.ip, request.q.email, request.phone), request.q).verdict.block
  }

  /** Times of the passwords tried. */
  function Tries(cfg: Config, requests: seq<Request>, a: Attack, lossy: bool): seq<int> {
    if requests == [] then []
    else
      var init, last := requests[..|requests| - 1], requests[|requests| - 1];
      Tries(cfg, init, a, lossy) + if IsTry(cfg, Served(cfg, init, lossy).0, last, a) then [last.Time()] else []
  }

  predicate IsReport(request: Request, a: Attack) {
    request.FailedLogin? && Accepted(request) && request.ip == a.ip && request.email == a.email
  }

  /** The latest try has not been reported as a failed login yet. */
  predicate Pending(cfg: Config, requests: seq<Request>, a: Attack, lossy: bool) {
    requests != [] &&
    var init, last := requests[..|requests| - 1], requests[|requests| - 1];
    !IsReport(last, a) && (IsTry(cfg, Served(cfg, init, lossy).0, last, a) || Pending(cfg, init, a, lossy))
  }

  /** Every try fails and is reported before the next one is made. */
  predicate TriesReported(cfg: Config, requests: seq<Request>, a: Attack, lossy: bool) {
    requests != [] ==>
      var init, last := requests[..|requests| - 1], requests[|requests| - 1];
      && TriesReported(cfg, init, a, lossy)
      && (IsTry(cfg, Served(cfg, init, lossy).0, last, a) ==> !Pending(cfg, init, a, lossy))
  }

  predicate NoReset(requests: seq<Request>, a: Attack) {
    forall i :: 0 <= i < |requests| ==> !(requests[i].PasswordReset? && requests[i].email == a.email)
  }

  // ---- The requests as steps of the pair's record ----

  /** What a request does to the record of the pair: at most one step. */
  function PairStep(cfg: Config, c: Cache, request: Request, a: Attack): seq<P.Step> {
    if IsReport(request, a) then [P.BadLogin(request.t)]
    else if request.Check? && Accepted(request) && request.ip == a.ip && request.q.email == a.email
            && !TurnedAway(cfg.limits, Fetch(c.ips, a.ip, I.FRESH), request.q.t) then
      [P.Check(request.q.t, request.q.action, Fetch(c.emails, a.email, E.FRESH).pr, IsTry(cfg, c, request, a))]
    else []
  }

  function PairSteps(cfg: Config, requests: seq<Request>, a: Attack, lossy: bool): seq<P.Step> {
    if requests == [] then []
    else
      var init, last := requests[..|requests| - 1], requests[|requests| - 1];
      PairSteps(cfg, init, a, lossy) + PairStep(cfg, Served(cfg, init, lossy).0, last, a)
  }

  function Pair(c: Cache, a: Attack): P.State {
    Fetch(c.pairs, (a.ip, a.email), P.FRESH)
  }

  /** The request is a check that finds the pair banned, and a password reset lifts the ban. */
  predicate IsPardon(cfg: Config, c: Cache, request: Request, a: Attack) {
    var steps := PairStep(cfg, c, request, a);
    steps != [] && P.Amnesty(cfg.limits, Pair(c, a), steps[0])
  }

  /** Times at which a reset lifted a ban of the pair. */
  function Pardons(cfg: Config, requests: seq<Request>, a: Attack, lossy: bool): seq<int> {
    if requests == [] then []
    else
      var init, last := requests[..|requests| - 1], requests[|requests| - 1];
      Pardons(cfg, init, a, lossy) + if IsPardon(cfg, Served(cfg, init, lossy).0, last, a) then [last.Time()] else []
  }

  /** A request moves the pair's record by its step, and a try is a guess of that step. */
  lemma RequestSteps(cfg: Config, c: Cache, request: Request, a: Attack)
    requires !request.Expire?
    ensures var steps, c' := PairStep(cfg, c, request, a), Serve(cfg, c, request).0;
            && |steps| <= 1
            && (steps == [] ==> Pair(c', a) == Pair(c, a) && !IsTry(cfg, c, request, a) && !IsReport(request, a))
            && (steps != [] ==>
                  && Pair(c', a) == P.Applied(cfg.limits, Pair(c, a), steps[0]).0 && steps[0].t == request.Time()
                  && (steps[0].BadLogin? <==> IsReport(request, a))
                  && (IsTry(cfg, c, request, a) <==> P.IsGuess(cfg.limits, Pair(c, a), steps[0])))
  {
    if request.Check? {
      CheckSteps(cfg, c, request, a);
    } else {
      hide CheckRecords, CheckedIp, E.Applied, P.WithBadLogin, U.Updated;
    }
  }

  lemma CheckSteps(cfg: Config, c: Cache, request: Request, a: Attack)
    requires request.Check?
    ensures var steps, c' := PairStep(cfg, c, request, a), Serve(cfg, c, request).0;
            && |steps| <= 1
            && (steps == [] ==> Pair(c', a) == Pair(c, a) && !IsTry(cfg, c, request, a))
            && (steps != [] ==>
                  && Pair(c', a) == P.Applied(cfg.limits, Pair(c, a), steps[0]).0
                  && steps[0].t == request.Time() && steps[0].Check?
                  && (IsTry(cfg, c, request, a) <==> P.IsGuess(cfg.limits, Pair(c, a), steps[0])))
  {
    hide E.Updated, I.Updated, P.Updated, R.Updated, I.IsBlocked, I.IsDisabled, I.IsSuspected, E.IsSuspected,
         I.RetryAfter, Fade;
    var q := request.q;
    E.FlagsUntouched(cfg.limits, Fetch(c.emails, a.email, E.FRESH), E.Check(q.t, q.action, q.unblock));
  }

  /** Without a reset, the account's record has no reset stamp. */
  lemma {:induction false} NoResetStamp(cfg: Config, requests: seq<Request>, a: Attack, lossy: bool)
    requires NoReset(requests, a)
    ensures Fetch(Served(cfg, requests, lossy).0.emails, a.email, E.FRESH).pr == Unset
  {
    hide Serve;
    if requests != [] {
      var init, last := requests[..|requests| - 1], requests[|requests| - 1];
      NoResetStamp(cfg, init, a, lossy);
      if !last.Expire? {
        ResetOnly(cfg, Served(cfg, init, lossy).0, last, a);
      } else {
        ExpireDrops(cfg, Served(cfg, init, lossy).0, last);
      }
    }
  }

  lemma ResetOnly(cfg: Config, c: Cache, request: Request, a: Attack)
    requires !(request.PasswordReset? && request.email == a.email) && !request.Expire?
    ensures Fetch(Serve(cfg, c, request).0.emails, a.email, E.FRESH).pr == Fetch(c.emails, a.email, E.FRESH).pr
  {
    hide E.Updated, I.Updated, P.Applied, R.Updated, U.Updated, CheckedIp;
    if request.Check? {
      E.FlagsUntouched(cfg.limits, Fetch(c.emails, a.email, E.FRESH),
          E.Check(request.q.t, request.q.action, request.q.unblock));
    }
  }

  /** Dropping a lapsed record leaves the pair's record as good as it was. */
  lemma DropKeepsPair(cfg: Config, c: Cache, key: Key, a: Attack, now: int)
    requires Sound(cfg, c, now) && MayExpire(cfg, c, key, now)
    ensures P.Faded(cfg.limits, Pair(Drop(c, key), a), now) == P.Faded(cfg.limits, Pair(c, a), now)
  {
    hide P.Faded, P.Old, OldIp, E.Old;
    var pair := (a.ip, a.email);
    if key == PairKey(pair) && pair in c.pairs {
      P.FadesAway(cfg.limits, c.pairs[pair].record, c.pairs[pair].written, now);
    }
  }

  /** The step a request makes on the pair's record, and on any record that cannot be told from it. */
  lemma StepAgrees(cfg: Config, c: Cache, request: Request, a: Attack, s: P.State)
    requires !request.Expire? && Epoch(cfg.limits, request.Time())
    requires P.Faded(cfg.limits, s, request.Time()) == P.Faded(cfg.limits, Pair(c, a), request.Time())
    ensures var l, t, steps := cfg.limits, request.Time(), PairStep(cfg, c, request, a);
            var s' := Pair(Serve(cfg, c, request).0, a);
            && |steps| <= 1
            && (steps == [] ==>
                 P.Faded(l, s, t) == P.Faded(l, s', t) && !IsTry(cfg, c, request, a) && !IsReport(request, a))
            && (steps != [] ==>
                  && P.Faded(l, P.Applied(l, s, steps[0]).0, t) == P.Faded(l, s', t) && steps[0].t == t
                  && (steps[0].BadLogin? <==> IsReport(request, a))
                  && (IsTry(cfg, c, request, a) <==> P.IsGuess(l, s, steps[0]))
                  && (IsPardon(cfg, c, request, a) <==> P.Amnesty(l, s, steps[0])))
  {
    hide Serve, IsTry, P.Faded, P.Updated, Fetch, TurnedAway, Epoch;
    RequestSteps(cfg, c, request, a);
    var steps := PairStep(cfg, c, request, a);
    if steps != [] {
      P.FadedDecides(cfg.limits, s, Pair(c, a), steps[0], steps[0]);
      P.FadedAmnesty(cfg.limits, s, Pair(c, a), steps[0]);
    }
  }

  /** A server run seen from the pair, losses included: a run of its record with the same tries and
      amnesties, which ends in a record that cannot be told from the one in the cache. */
  lemma {:induction false} RunProjects(cfg: Config, requests: seq<Request>, a: Attack, lossy: bool, now: int)
    requires Clocked(cfg.limits, requests, now)
    requires lossy ==> KeepsPromise(cfg, requests)
    ensures var l, steps := cfg.limits, PairSteps(cfg, requests, a, lossy);
            && P.Faded(l, P.After(l, steps), now) == P.Faded(l, Pair(Served(cfg, requests, lossy).0, a), now)
            && P.Guesses(l, steps) == Tries(cfg, requests, a, lossy)
            && P.Amnesties(l, steps) == Pardons(cfg, requests, a, lossy)
            && (P.Pending(l, steps) <==> Pending(cfg, requests, a, lossy))
            && (P.GuessesReported(l, steps) <==> TriesReported(cfg, requests, a, lossy))
            && P.Clocked(steps) && (forall i :: 0 <= i < |steps| ==> steps[i].t <= now)
  {
    hide Serve, PairStep, IsTry, IsPardon, Pair, MayExpire, Sound, P.Faded, P.Applied, P.IsGuess, P.After, P.Guesses,
         P.Amnesties, P.Pending, P.GuessesReported, P.NoAmnesty, P.Amnesty;
    P.EmptyRun(cfg.limits);
    if requests == [] {
      EmptyPair(a);
    } else {
      var init, last := requests[..|requests| - 1], requests[|requests| - 1];
      var l, t, c, before := cfg.limits, last.Time(), Served(cfg, init, lossy).0, PairSteps(cfg, init, a, lossy);
      RunProjects(cfg, init, a, lossy, t);
      var steps := PairSteps(cfg, requests, a, lossy);
      if last.Expire? {
        ExpireNoStep(cfg, c, last, a);
        assert before + [] == before;
        if lossy {
          RunSound(cfg, init, true, t);
          ExpireDrops(cfg, c, last);
          DropKeepsPair(cfg, c, last.key, a, t);
        }
      } else {
        StepAgrees(cfg, c, last, a, P.After(l, before));
        var step := PairStep(cfg, c, last, a);
        if step == [] {
          NoStepNoPardon(cfg, c, last, a);
          assert before + step == before;
        } else {
          assert step == [step[0]];
          P.RunExtends(l, before, step[0]);
        }
      }
      P.FadedLater(l, P.After(l, steps), Pair(Served(cfg, requests, lossy).0, a), t, now);
    }
  }

  lemma NoStepNoPardon(cfg: Config, c: Cache, request: Request, a: Attack)
    requires PairStep(cfg, c, request, a) == []
    ensures !IsPardon(cfg, c, request, a)
  {
    hide PairStep;
  }

  lemma EmptyPair(a: Attack)
    ensures Pair(EMPTY, a) == P.FRESH
  {
  }

  lemma ExpireNoStep(cfg: Config, c: Cache, request: Request, a: Attack)
    requires request.Expire?
    ensures PairStep(cfg, c, request, a) == [] && !IsTry(cfg, c, request, a) && !IsReport(request, a)
    ensures !IsPardon(cfg, c, request, a)
  {
  }

  /** Losing harmless records changes neither the tries nor what is pending. */
  lemma {:induction false} TriesSurviveLoss(cfg: Config, requests: seq<Request>, a: Attack, now: int)
    requires Clocked(cfg.limits, requests, now) && KeepsPromise(cfg, requests) && DropsHarmless(cfg, requests)
    ensures Tries(cfg, requests, a, true) == Tries(cfg, requests, a, false)
    ensures Pending(cfg, requests, a, true) == Pending(cfg, requests, a, false)
    ensures TriesReported(cfg, requests, a, true) == TriesReported(cfg, requests, a, false)
  {
    hide Served, IsTry;
    if requests != [] {
      var init, last := requests[..|requests| - 1], requests[|requests| - 1];
      TriesSurviveLoss(cfg, init, a, last.Time());
      LossUnnoticed(cfg, init, last.Time());
      TryAlike(cfg, Served(cfg, init, true).0, Served(cfg, init, false).0, last, a);
    }
  }

  lemma TryAlike(cfg: Config, c: Cache, d: Cache, request: Request, a: Attack)
    requires Alike(cfg.limits, c, d, request.Time()) && Epoch(cfg.limits, request.Time())
    ensures IsTry(cfg, c, request, a) == IsTry(cfg, d, request, a)
  {
    hide Alike, CheckRecords, FetchRecords, SaveCheck;
    if request.Check? {
      ServeCheckAlike(cfg.limits, c, d, request.ip, request.phone, request.q);
    }
  }

  /** Whatever anyone asks of the server, however often the password is reset, and although the
      cache loses lapsed records: if every try is reported before the next, one address gets at most
      `maxBadLogins + 1` tries at one account in any window of one rate-limit interval, and as many
      again for each ban of it that a reset lifts in the window. */
  lemma ServerGuessBoundWithResets(cfg: Config, requests: seq<Request>, a: Attack, now: int, lo: int)
    requires Clocked(cfg.limits, requests, now) && KeepsPromise(cfg, requests) && TriesReported(cfg, requests, a, true)
    ensures var hi := lo + cfg.limits.rateLimitIntervalMs;
            CountIn(Tries(cfg, requests, a, true), lo, hi)
            <= (CountIn(Pardons(cfg, requests, a, true), lo, hi) + 1) * (cfg.limits.maxBadLogins + 1)
  {
    hide *;
    RunProjects(cfg, requests, a, true, now);
    P.GuessBoundWithResets(cfg.limits, PairSteps(cfg, requests, a, true), lo);
  }

  /** Without a reset of its password nobody is pardoned. */
  lemma {:induction false} NoResetNoPardon(cfg: Config, requests: seq<Request>, a: Attack, lossy: bool)
    requires NoReset(requests, a)
    ensures Pardons(cfg, requests, a, lossy) == []
  {
    hide Served, IsPardon;
    if requests != [] {
      var init, last := requests[..|requests| - 1], requests[|requests| - 1];
      NoResetNoPardon(cfg, init, a, lossy);
      NoResetStamp(cfg, init, a, lossy);
      NoStampNoPardon(cfg, Served(cfg, init, lossy).0, last, a);
    }
  }

  lemma NoStampNoPardon(cfg: Config, c: Cache, request: Request, a: Attack)
    requires Fetch(c.emails, a.email, E.FRESH).pr == Unset
    ensures !IsPardon(cfg, c, request, a)
  {
    hide P.Updated, IsTry;
  }

  /** So without one, `maxBadLogins + 1` tries it is. */
  lemma ServerGuessBound(cfg: Config, requests: seq<Request>, a: Attack, now: int, lo: int)
    requires Clocked(cfg.limits, requests, now) && KeepsPromise(cfg, requests)
    requires NoReset(requests, a) && TriesReported(cfg, requests, a, true)
    ensures CountIn(Tries(cfg, requests, a, true), lo, lo + cfg.limits.rateLimitIntervalMs)
            <= cfg.limits.maxBadLogins + 1
  {
    hide *;
    ServerGuessBoundWithResets(cfg, requests, a, now, lo);
    NoResetNoPardon(cfg, requests, a, true);
    CountInNothing(lo, lo + cfg.limits.rateLimitIntervalMs);
  }
}
