/** Exactly where cache expiry shows: in a dropped record whose flag is still active, or which
    counts account accesses. */
module ExpiryLimits {
  import opened Clock
  import opened Customs
  import opened Server
  import opened Store
  import I = IpRecord
  import IR = IpRuns
  import E = EmailRecord
  import P = IpEmailRecord
  import R = RateRecord
  import opened EventLog

  /** An action that no record counts. */
  const QUIET := Other("quiet")

  /** Some address and some email. */
  const NAME := "a"

  const CALM := Env(false, false, false, false, false, false)

  // ---- Continuing from a cache ----

  /** Requests that may come from `now` on; nothing is dropped any more. */
  predicate From(l: Limits, requests: seq<Request>, now: int) {
    && (forall i :: 0 <= i < |requests| ==>
          !requests[i].Expire? && Epoch(l, requests[i].Time()) && now <= requests[i].Time())
    && (forall i, j :: 0 <= i < j < |requests| ==> requests[i].Time() <= requests[j].Time())
  }

  function Continued(cfg: Config, c: Cache, requests: seq<Request>): (Cache, seq<Response>) {
    if requests == [] then (c, [])
    else
      var (c', responses) := Continued(cfg, c, requests[..|requests| - 1]);
      var (c'', response) := Serve(cfg, c', requests[|requests| - 1]);
      (c'', responses + [response])
  }

  lemma ContinuedExtends(cfg: Config, c: Cache, requests: seq<Request>, request: Request)
    ensures var (c', responses) := Continued(cfg, c, requests);
            Continued(cfg, c, requests + [request]) ==
              (Serve(cfg, c', request).0, responses + [Serve(cfg, c', request).1])
  {
    hide Serve;
    assert (requests + [request])[..|requests|] == requests;
  }

  lemma ContinuedNone(cfg: Config, c: Cache)
    ensures Continued(cfg, c, []) == (c, [])
  {
    hide Serve;
  }

  lemma ContinuedOnce(cfg: Config, c: Cache, request: Request)
    ensures Continued(cfg, c, [request]) == (Serve(cfg, c, request).0, [Serve(cfg, c, request).1])
  {
    hide Serve, Continued;
    ContinuedNone(cfg, c);
    ContinuedExtends(cfg, c, [], request);
    assert [] + [request] == [request] && [] + [Serve(cfg, c, request).1] == [Serve(cfg, c, request).1];
  }

  /** Caches that cannot be told apart give the same responses for ever. */
  lemma {:induction false} ContinuedAlike(cfg: Config, a: Cache, b: Cache, requests: seq<Request>, now: int)
    requires Alike(cfg.limits, a, b, now) && From(cfg.limits, requests, now)
    ensures Continued(cfg, a, requests).1 == Continued(cfg, b, requests).1
    ensures var t := if requests == [] then now else requests[|requests| - 1].Time();
            Alike(cfg.limits, Continued(cfg, a, requests).0, Continued(cfg, b, requests).0, t)
  {
    hide Alike, Serve, Epoch;
    if requests != [] {
      var init, last := requests[..|requests| - 1], requests[|requests| - 1];
      ContinuedAlike(cfg, a, b, init, now);
      var t := if init == [] then now else init[|init| - 1].Time();
      var (a', b') := (Continued(cfg, a, init).0, Continued(cfg, b, init).0);
      AlikeLater(cfg.limits, a', b', t, last.Time());
      ServeAlike(cfg, a', b', last);
    }
  }

  // ---- Strangers ----

  lemma {:induction false} LongName(names: set<string>) returns (n: nat)
    ensures forall name <- names :: |name| < n
  {
    if names == {} {
      n := 0;
    } else {
      var name :| name in names;
      n := LongName(names - {name});
      n := if n <= |name| then |name| + 1 else n;
    }
  }

  /** An address and an email that the cache knows nothing about. */
  lemma Strangers(c: Cache) returns (name: string)
    ensures name != "" && name !in c.ips && name !in c.emails
    ensures forall pair <- c.pairs :: pair.0 != name && pair.1 != name
  {
    var firsts, seconds := set pair <- c.pairs :: pair.0, set pair <- c.pairs :: pair.1;
    var n := LongName(c.ips.Keys + c.emails.Keys + firsts + seconds);
    name := seq(n + 1, _ => 'a');
    forall pair <- c.pairs ensures pair.0 != name && pair.1 != name {
      assert pair.0 in firsts && pair.1 in seconds;
    }
  }

  // ---- Checks that count nothing but emails ----

  function Asking(t: int, email: string, action: Action): Query {
    Query(t, email, action, false, false, CALM)
  }

  /** What can be left of a record that has lapsed. */
  predicate OnlyFlaggedEmail(s: E.State) {
    s == E.FRESH.(su := s.su, di := s.di)
  }

  predicate OnlyFlaggedIp(s: I.State) {
    s == I.FRESH.(su := s.su, di := s.di, aa := s.aa)
  }

  lemma QuietEmail(l: Limits, s: E.State, t: int)
    requires OnlyFlaggedEmail(s)
    ensures E.Applied(l, s, E.Check(t, QUIET, false)) == (s, 0)
  {
    hide E.Updated;
    E.OneStage(l, s, QUIET, false, t);
  }

  /** Neither an uncounted check nor the sending of an email touches the IP record. */
  lemma QuietIp(l: Limits, s: I.State, action: Action, email: string, t: int)
    requires OnlyFlaggedIp(s) && Epoch(l, t) && (action == QUIET || action.CreateEmail?)
    ensures I.Updated(l, s, action, email, t) == (s, 0)
  {
    RetrySecondsTight(MsLeft(Unset, l.ipRateLimitBanDurationMs, t));
    RetrySecondsTight(MsLeft(Unset, l.blockIntervalMs, t));
  }

  /** On records without bans the verdict of such a check is that of the email record. */
  lemma QuietCheck(l: Limits, r: Records, email: string, action: Action, t: int)
    requires OnlyFlaggedIp(r.ip) && r.pair == P.FRESH && Epoch(l, t) && (action == QUIET || action.CreateEmail?)
    ensures var outcome := CheckRecords(l, r, Asking(t, email, action));
            var (email', delay) := E.Applied(l, r.email, E.Check(t, action, false));
            if I.IsDisabled(l, r.ip, t) then !outcome.saved && outcome.verdict.block && !outcome.verdict.suspect
            else
              && outcome.saved && outcome.records == r.(email := email')
              && (outcome.verdict.block <==> delay > 0)
              && (outcome.verdict.suspect <==> I.IsSuspected(l, r.ip, t) || E.IsSuspected(l, email', t))
  {
    hide I.Updated, E.Applied, I.IsSuspected, E.IsSuspected, I.RetryAfter;
    QuietIp(l, r.ip, action, email, t);
  }

  /** A flag that is still active makes the verdict differ from that without it. */
  lemma FlagShows(l: Limits, ip: I.State, email: E.State, sms: R.State, address: string, t: int)
    requires OnlyFlaggedIp(ip) && OnlyFlaggedEmail(email) && Epoch(l, t)
    requires ip == I.FRESH || email == E.FRESH
    requires I.IsSuspected(l, ip, t) || I.IsDisabled(l, ip, t) || E.IsSuspected(l, email, t)
    ensures var q := Asking(t, address, QUIET);
            CheckRecords(l, Records(ip, email, P.FRESH, sms), q).verdict
            != CheckRecords(l, Records(I.FRESH, E.FRESH, P.FRESH, sms), q).verdict
  {
    hide CheckRecords, E.Applied;
    QuietEmail(l, E.FRESH, t);
    QuietEmail(l, email, t);
    QuietCheck(l, Records(ip, email, P.FRESH, sms), address, QUIET, t);
    QuietCheck(l, Records(I.FRESH, E.FRESH, P.FRESH, sms), address, QUIET, t);
  }

  // ---- A flag on a dropped record ----

  /** A check by the address and email that shows the dropped record differs. */
  lemma VerdictsShow(cfg: Config, a: Cache, b: Cache, ip: string, q: Query)
    requires Epoch(cfg.limits, q.t) && Accepted(Check(ip, "", q))
    requires CheckRecords(cfg.limits, FetchRecords(a, ip, q.email, ""), q).verdict
             != CheckRecords(cfg.limits, FetchRecords(b, ip, q.email, ""), q).verdict
    ensures From(cfg.limits, [Check(ip, "", q)], q.t)
    ensures Continued(cfg, a, [Check(ip, "", q)]).1 != Continued(cfg, b, [Check(ip, "", q)]).1
  {
    hide CheckRecords, FetchRecords, SaveCheck, Continued;
    var check := Check(ip, "", q);
    ContinuedOnce(cfg, a, check);
    ContinuedOnce(cfg, b, check);
    assert Continued(cfg, a, [check]).1[0] != Continued(cfg, b, [check]).1[0];
  }

  lemma FlaggedIpShows(cfg: Config, c: Cache, ip: string, now: int) returns (requests: seq<Request>)
    requires Sound(cfg, c, now) && MayExpire(cfg, c, IpKey(ip), now) && Epoch(cfg.limits, now)
    requires var s := Fetch(c.ips, ip, I.FRESH); I.IsSuspected(cfg.limits, s, now) || I.IsDisabled(cfg.limits, s, now)
    ensures From(cfg.limits, requests, now)
    ensures Continued(cfg, Drop(c, IpKey(ip)), requests).1 != Continued(cfg, c, requests).1
  {
    hide CheckRecords, IR.Faded, E.Faded, P.Faded, R.Faded, IR.Old, Epoch, Continued;
    var l, s := cfg.limits, Fetch(c.ips, ip, I.FRESH);
    var email := Strangers(c);
    var rest, sms := IR.Remainder(l, s, now), Fetch(c.phones, "", R.FRESH);
    var q := Asking(now, email, QUIET);
    IR.FadesAway(l, s, c.ips[ip].written, now);
    CheckAlike(l, Records(s, E.FRESH, P.FRESH, sms), Records(rest, E.FRESH, P.FRESH, sms), q);
    FlagShows(l, rest, E.FRESH, sms, email, now);
    VerdictsShow(cfg, Drop(c, IpKey(ip)), c, ip, q);
    requests := [Check(ip, "", q)];
  }

  lemma SuspectedEmailShows(cfg: Config, c: Cache, email: string, now: int) returns (requests: seq<Request>)
    requires Sound(cfg, c, now) && MayExpire(cfg, c, EmailKey(email), now) && Epoch(cfg.limits, now)
    requires E.IsSuspected(cfg.limits, Fetch(c.emails, email, E.FRESH), now)
    ensures From(cfg.limits, requests, now)
    ensures Continued(cfg, Drop(c, EmailKey(email)), requests).1 != Continued(cfg, c, requests).1
  {
    hide CheckRecords, IR.Faded, E.Faded, P.Faded, R.Faded, E.Old, Epoch, Continued;
    var l, s := cfg.limits, Fetch(c.emails, email, E.FRESH);
    var ip := Strangers(c);
    var rest, sms := E.Remainder(l, s, now), Fetch(c.phones, "", R.FRESH);
    var q := Asking(now, email, QUIET);
    E.FadesAway(l, s, c.emails[email].written, now);
    CheckAlike(l, Records(I.FRESH, s, P.FRESH, sms), Records(I.FRESH, rest, P.FRESH, sms), q);
    FlagShows(l, I.FRESH, rest, sms, email, now);
    VerdictsShow(cfg, Drop(c, EmailKey(email)), c, ip, q);
    requests := [Check(ip, "", q)];
  }

  // ---- The same request again and again ----

  function Repeat(request: Request, n: nat): seq<Request> {
    if n == 0 then [] else Repeat(request, n - 1) + [request]
  }

  lemma {:induction false} RepeatFrom(l: Limits, request: Request, n: nat)
    requires Epoch(l, request.Time()) && !request.Expire?
    ensures From(l, Repeat(request, n), request.Time())
    ensures forall i :: 0 <= i < |Repeat(request, n)| ==> Repeat(request, n)[i] == request
  {
    if n > 0 {
      RepeatFrom(l, request, n - 1);
    }
  }

  /** Some check was answered with a block. */
  predicate SomeBlock(responses: seq<Response>) {
    exists i :: 0 <= i < |responses| && responses[i].Answer? && responses[i].verdict.block
  }

  lemma BlockExtends(responses: seq<Response>, response: Response)
    ensures SomeBlock(responses + [response]) <==>
              SomeBlock(responses) || (response.Answer? && response.verdict.block)
  {
    var responses' := responses + [response];
    assert forall i :: 0 <= i < |responses| ==> responses'[i] == responses[i];
    assert responses'[|responses|] == response;
  }

  // ---- A disabled email whose record is dropped ----

  function Mailing(ip: string, email: string, t: int): Request {
    Check(ip, "", Asking(t, email, CreateEmail))
  }

  function MailSteps(n: nat, t: int): seq<E.Step> {
    if n == 0 then [] else MailSteps(n - 1, t) + [E.Check(t, CreateEmail, false)]
  }

  /** The cache holds this email record and nothing else about the address and the email. */
  predicate Knows(c: Cache, ip: string, email: string, s: E.State) {
    && ip != "" && email != ""
    && Fetch(c.ips, ip, I.FRESH) == I.FRESH && Fetch(c.emails, email, E.FRESH) == s
    && Fetch(c.pairs, (ip, email), P.FRESH) == P.FRESH
  }

  lemma MailingStep(cfg: Config, c: Cache, ip: string, email: string, s: E.State, t: int)
    requires Knows(c, ip, email, s) && Epoch(cfg.limits, t)
    ensures var (c', response) := Serve(cfg, c, Mailing(ip, email, t));
            var (s', delay) := E.Applied(cfg.limits, s, E.Check(t, CreateEmail, false));
            Knows(c', ip, email, s') && response.Answer? && (response.verdict.block <==> delay > 0)
  {
    hide CheckRecords, E.Applied;
    QuietCheck(cfg.limits, FetchRecords(c, ip, email, ""), email, CreateEmail, t);
  }

  /** A cache that knows that the email is disabled lets everything pass. */
  lemma {:induction false} DisabledNeverBlocks(cfg: Config, c: Cache, ip: string, email: string, since: int, t: int,
                                               n: nat)
    requires Epoch(cfg.limits, t) && 0 < since <= t < since + cfg.limits.disableIntervalMs
    requires Knows(c, ip, email, E.FRESH.(di := At(since)))
    ensures var (c', responses) := Continued(cfg, c, Repeat(Mailing(ip, email, t), n));
            Knows(c', ip, email, E.FRESH.(di := At(since))) && !SomeBlock(responses)
  {
    hide Continued, E.Applied, Knows, Serve, SomeBlock, Mailing, Epoch;
    if n == 0 {
      ContinuedNone(cfg, c);
      assert !SomeBlock([]) by { NoBlockYet(); }
    } else {
      var mailing := Mailing(ip, email, t);
      DisabledNeverBlocks(cfg, c, ip, email, since, t, n - 1);
      var (c', responses) := Continued(cfg, c, Repeat(mailing, n - 1));
      E.DisabledPasses(cfg.limits, E.Emails, CreateEmail, since, t);
      MailingStep(cfg, c', ip, email, E.FRESH.(di := At(since)), t);
      ContinuedExtends(cfg, c, Repeat(mailing, n - 1), mailing);
      BlockExtends(responses, Serve(cfg, c', mailing).1);
    }
  }

  lemma NoBlockYet()
    ensures !SomeBlock([])
  {
  }

  lemma NothingSent(l: Limits)
    ensures E.Sent(l, E.Emails, []) == [] && E.After(l, []) == E.FRESH
  {
  }

  lemma SentExtends(l: Limits, steps: seq<E.Step>, step: E.Step)
    ensures E.After(l, steps + [step]) == E.Applied(l, E.After(l, steps), step).0
    ensures E.Sent(l, E.Emails, steps + [step]) ==
              E.Sent(l, E.Emails, steps) + if E.LetThrough(l, E.After(l, steps), E.Emails, step) then [step.t] else []
  {
    hide E.Applied;
    assert (steps + [step])[..|steps|] == steps;
  }

  /** A cache that has forgotten it counts: as long as it has not blocked, every email was sent. */
  lemma {:induction false} ForgottenCounts(cfg: Config, c: Cache, ip: string, email: string, t: int, n: nat)
    requires Epoch(cfg.limits, t) && Knows(c, ip, email, E.FRESH)
    ensures var (c', responses) := Continued(cfg, c, Repeat(Mailing(ip, email, t), n));
            && Knows(c', ip, email, E.After(cfg.limits, MailSteps(n, t)))
            && (SomeBlock(responses) || |E.Sent(cfg.limits, E.Emails, MailSteps(n, t))| == n)
    ensures forall sent <- E.Sent(cfg.limits, E.Emails, MailSteps(n, t)) :: sent == t
  {
    hide Continued, E.Applied, E.Sent, E.After, Knows, Serve, SomeBlock, Mailing, Epoch;
    if n == 0 {
      ContinuedNone(cfg, c);
      NothingSent(cfg.limits);
    } else {
      ForgottenCounts(cfg, c, ip, email, t, n - 1);
      var l, mailing, steps := cfg.limits, Mailing(ip, email, t), MailSteps(n - 1, t);
      var (c', responses) := Continued(cfg, c, Repeat(mailing, n - 1));
      SentExtends(l, steps, E.Check(t, CreateEmail, false));
      MailingStep(cfg, c', ip, email, E.After(l, steps), t);
      ContinuedExtends(cfg, c, Repeat(mailing, n - 1), mailing);
      BlockExtends(responses, Serve(cfg, c', mailing).1);
    }
  }

  lemma {:induction false} MailStepsClocked(l: Limits, n: nat, t: int)
    requires Epoch(l, t)
    ensures E.Clocked(l, MailSteps(n, t))
    ensures forall i :: 0 <= i < |MailSteps(n, t)| ==> MailSteps(n, t)[i] == E.Check(t, CreateEmail, false)
  {
    if n > 0 {
      MailStepsClocked(l, n - 1, t);
    }
  }

  /** One email more than allowed makes it block. */
  lemma ForgottenBlocks(cfg: Config, c: Cache, ip: string, email: string, t: int)
    requires Epoch(cfg.limits, t) && cfg.limits.rateLimitIntervalMs > 0 && Knows(c, ip, email, E.FRESH)
    ensures SomeBlock(Continued(cfg, c, Repeat(Mailing(ip, email, t), cfg.limits.maxEmails + 1)).1)
  {
    hide Continued, E.Sent, E.After, E.Updated, Knows, SomeBlock, CountIn;
    var l, n := cfg.limits, cfg.limits.maxEmails + 1;
    ForgottenCounts(cfg, c, ip, email, t, n);
    MailStepsClocked(l, n, t);
    E.RequestThroughput(l, E.Emails, MailSteps(n, t), t);
    var sent := E.Sent(l, E.Emails, MailSteps(n, t));
    assert forall i :: 0 <= i < |sent| ==> sent[i] in sent;
    CountAll(sent, t, l.rateLimitIntervalMs);
  }

  lemma ReplaceEmail(l: Limits, c: Cache, email: string, s: E.State, now: int)
    requires E.Faded(l, Fetch(c.emails, email, E.FRESH), now) == E.Faded(l, s, now)
    ensures Alike(l, c, c.(emails := c.emails[email := Cell(s, now)]), now)
  {
    hide IR.Faded, E.Faded, P.Faded, R.Faded;
  }

  lemma DisabledEmailShows(cfg: Config, c: Cache, email: string, now: int) returns (requests: seq<Request>)
    requires Sound(cfg, c, now) && MayExpire(cfg, c, EmailKey(email), now) && Epoch(cfg.limits, now)
    requires var s := Fetch(c.emails, email, E.FRESH);
             E.IsDisabled(cfg.limits, s, now) && !E.IsSuspected(cfg.limits, s, now)
    requires cfg.limits.rateLimitIntervalMs > 0
    ensures From(cfg.limits, requests, now)
    ensures Continued(cfg, Drop(c, EmailKey(email)), requests).1 != Continued(cfg, c, requests).1
  {
    hide Continued, Repeat, SomeBlock, E.Faded, Alike;
    var l, s := cfg.limits, Fetch(c.emails, email, E.FRESH);
    var ip := Strangers(c);
    E.FadesAway(l, s, c.emails[email].written, now);
    var rest := E.Remainder(l, s, now);
    var c' := c.(emails := c.emails[email := Cell(rest, now)]);
    requests := Repeat(Mailing(ip, email, now), l.maxEmails + 1);
    RepeatFrom(l, Mailing(ip, email, now), l.maxEmails + 1);
    ReplaceEmail(l, c, email, rest, now);
    ContinuedAlike(cfg, c, c', requests, now);
    DisabledNeverBlocks(cfg, c', ip, email, s.di.ms, now, l.maxEmails + 1);
    ForgottenBlocks(cfg, Drop(c, EmailKey(email)), ip, email, now);
  }

  // ---- Account accesses on a dropped record ----

  function Access(ip: string, t: int): Request {
    CheckIpOnly(t, ip, ConsumeSigninCode, CALM)
  }

  function Times(n: nat, t: int): seq<int> {
    if n == 0 then [] else Times(n - 1, t) + [t]
  }

  /** One access on a record that counted `aa` so far. */
  lemma AccessCounted(cfg: Config, c: Cache, ip: string, aa: seq<int>, t: int)
    requires Epoch(cfg.limits, t) && cfg.limits.ipRateLimitBanDurationMs > 0
    requires ip != "" && Fetch(c.ips, ip, I.FRESH) == I.FRESH.(aa := aa)
    ensures var (c', response) := Serve(cfg, c, Access(ip, t));
            && response.Answer? && (response.verdict.block <==> |aa| + 1 > cfg.limits.maxAccountAccess)
            && (!response.verdict.block ==> Fetch(c'.ips, ip, I.FRESH) == I.FRESH.(aa := aa + [t]))
  {
    RetrySecondsTight(MsLeft(At(t), cfg.limits.ipRateLimitBanDurationMs, t));
  }

  lemma {:induction false} AccessesCounted(cfg: Config, c: Cache, ip: string, aa: seq<int>, n: nat, t: int)
    requires Epoch(cfg.limits, t) && cfg.limits.ipRateLimitBanDurationMs > 0
    requires ip != "" && Fetch(c.ips, ip, I.FRESH) == I.FRESH.(aa := aa) && |aa| + n <= cfg.limits.maxAccountAccess
    ensures var (c', responses) := Continued(cfg, c, Repeat(Access(ip, t), n));
            && |Times(n, t)| == n && !SomeBlock(responses)
            && Fetch(c'.ips, ip, I.FRESH) == I.FRESH.(aa := aa + Times(n, t))
  {
    hide Continued, Serve, SomeBlock, Access, Fetch, Epoch;
    if n == 0 {
      ContinuedNone(cfg, c);
      NoBlockYet();
      assert aa + [] == aa;
    } else {
      AccessesCounted(cfg, c, ip, aa, n - 1, t);
      var (c', responses) := Continued(cfg, c, Repeat(Access(ip, t), n - 1));
      AccessCounted(cfg, c', ip, aa + Times(n - 1, t), t);
      ContinuedExtends(cfg, c, Repeat(Access(ip, t), n - 1), Access(ip, t));
      BlockExtends(responses, Serve(cfg, c', Access(ip, t)).1);
      assert aa + Times(n - 1, t) + [t] == aa + Times(n, t);
    }
  }

  lemma ReplaceIp(l: Limits, c: Cache, ip: string, s: I.State, now: int)
    requires IR.Faded(l, Fetch(c.ips, ip, I.FRESH), now) == IR.Faded(l, s, now)
    ensures Alike(l, c, c.(ips := c.ips[ip := Cell(s, now)]), now)
  {
    hide IR.Faded, E.Faded, P.Faded, R.Faded;
  }

  /** As many accesses as fill the old record: the last is refused there, but not by a fresh one. */
  lemma AccessesShow(cfg: Config, c: Cache, ip: string, now: int) returns (requests: seq<Request>)
    requires Sound(cfg, c, now) && MayExpire(cfg, c, IpKey(ip), now) && Epoch(cfg.limits, now)
    requires var s := Fetch(c.ips, ip, I.FRESH);
             s.aa != [] && !I.IsSuspected(cfg.limits, s, now) && !I.IsDisabled(cfg.limits, s, now)
    requires cfg.limits.ipRateLimitBanDurationMs > 0
    ensures From(cfg.limits, requests, now)
    ensures Continued(cfg, Drop(c, IpKey(ip)), requests).1 != Continued(cfg, c, requests).1
  {
    hide Continued, Repeat, SomeBlock, Serve, IR.Faded, Alike, Epoch;
    var l, s := cfg.limits, Fetch(c.ips, ip, I.FRESH);
    IR.FadesAway(l, s, c.ips[ip].written, now);
    var rest, n := IR.Remainder(l, s, now), l.maxAccountAccess - |s.aa|;
    var c' := c.(ips := c.ips[ip := Cell(rest, now)]);
    RepeatFrom(l, Access(ip, now), n + 1);
    requests := Repeat(Access(ip, now), n + 1);
    ReplaceIp(l, c, ip, rest, now);
    ContinuedAlike(cfg, c, c', requests, now);
    AccessesCounted(cfg, Drop(c, IpKey(ip)), ip, [], n + 1, now);
    LastAccessBlocks(cfg, c', ip, s.aa, n, now);
  }

  lemma LastAccessBlocks(cfg: Config, c: Cache, ip: string, aa: seq<int>, n: nat, t: int)
    requires Epoch(cfg.limits, t) && cfg.limits.ipRateLimitBanDurationMs > 0
    requires ip != "" && Fetch(c.ips, ip, I.FRESH) == I.FRESH.(aa := aa) && |aa| + n == cfg.limits.maxAccountAccess
    ensures SomeBlock(Continued(cfg, c, Repeat(Access(ip, t), n + 1)).1)
  {
    hide Continued, Serve, SomeBlock, Access, Fetch, Epoch;
    AccessesCounted(cfg, c, ip, aa, n, t);
    var (c', responses) := Continued(cfg, c, Repeat(Access(ip, t), n));
    AccessCounted(cfg, c', ip, aa + Times(n, t), t);
    ContinuedExtends(cfg, c, Repeat(Access(ip, t), n), Access(ip, t));
    BlockExtends(responses, Serve(cfg, c', Access(ip, t)).1);
  }

  // ---- Exactly when dropping a record shows ----

  lemma HarmfulShows(cfg: Config, c: Cache, key: Key, now: int) returns (requests: seq<Request>)
    requires Sound(cfg, c, now) && MayExpire(cfg, c, key, now) && Epoch(cfg.limits, now)
    requires cfg.limits.rateLimitIntervalMs > 0 && cfg.limits.ipRateLimitBanDurationMs > 0
    requires !Harmless(cfg.limits, c, key, now)
    ensures From(cfg.limits, requests, now)
    ensures Continued(cfg, Drop(c, key), requests).1 != Continued(cfg, c, requests).1
  {
    hide Sound, MayExpire, From, Continued, Drop, Fetch, Epoch;
    match key {
      case IpKey(ip) =>
        var s := Fetch(c.ips, ip, I.FRESH);
        if I.IsSuspected(cfg.limits, s, now) || I.IsDisabled(cfg.limits, s, now) {
          requests := FlaggedIpShows(cfg, c, ip, now);
        } else {
          requests := AccessesShow(cfg, c, ip, now);
        }
      case EmailKey(email) =>
        if E.IsSuspected(cfg.limits, Fetch(c.emails, email, E.FRESH), now) {
          requests := SuspectedEmailShows(cfg, c, email, now);
        } else {
          requests := DisabledEmailShows(cfg, c, email, now);
        }
    }
  }

  lemma SelfAlike(l: Limits, c: Cache, now: int)
    ensures Alike(l, c, c, now)
  {
    hide IR.Faded, E.Faded, P.Faded, R.Faded;
  }

  /** For every cache that a run can produce, lossy or not, and every lapsed record in it: dropping
      the record goes unnoticed by everything that may be asked from then on exactly when the
      record is harmless. */
  lemma DropUnnoticedExactlyWhen(cfg: Config, before: seq<Request>, lossy: bool, key: Key, now: int)
    requires Clocked(cfg.limits, before, now) && Epoch(cfg.limits, now)
    requires cfg.limits.rateLimitIntervalMs > 0 && cfg.limits.ipRateLimitBanDurationMs > 0
    requires MayExpire(cfg, Served(cfg, before, lossy).0, key, now)
    ensures var c := Served(cfg, before, lossy).0;
            (forall requests | From(cfg.limits, requests, now) ::
               Continued(cfg, Drop(c, key), requests).1 == Continued(cfg, c, requests).1)
            <==> Harmless(cfg.limits, c, key, now)
  {
    hide Served, Sound, MayExpire, From, Continued, Drop, Epoch, Alike, Harmless;
    var c := Served(cfg, before, lossy).0;
    RunSound(cfg, before, lossy, now);
    if Harmless(cfg.limits, c, key, now) {
      SelfAlike(cfg.limits, c, now);
      DropUnnoticed(cfg, c, c, key, now);
      forall requests | From(cfg.limits, requests, now)
        ensures Continued(cfg, Drop(c, key), requests).1 == Continued(cfg, c, requests).1
      {
        ContinuedAlike(cfg, Drop(c, key), c, requests, now);
      }
    } else {
      var requests := HarmfulShows(cfg, c, key, now);
    }
  }

  // ---- Whole runs ----

  /** Two caches, one lossy and one not, answer the run differently. */
  predicate Noticed(cfg: Config, requests: seq<Request>) {
    Served(cfg, requests, true).1 != Served(cfg, requests, false).1
  }

  /** No IP record that counts an access is dropped. */
  predicate KeepsAccesses(cfg: Config, requests: seq<Request>) {
    requests != [] ==>
      var init, last := requests[..|requests| - 1], requests[|requests| - 1];
      && KeepsAccesses(cfg, init)
      && (last.Expire? && last.key.IpKey? ==> Fetch(Served(cfg, init, true).0.ips, last.key.ip, I.FRESH).aa == [])
  }

  /** Every flag lapses within the lifetime of the record that holds it. */
  predicate FlagsCovered(cfg: Config) {
    && cfg.limits.suspectIntervalMs <= cfg.IpLifetime() && cfg.limits.suspectIntervalMs <= cfg.EmailLifetime()
    && cfg.limits.disableIntervalMs <= cfg.IpLifetime() && cfg.limits.disableIntervalMs <= cfg.EmailLifetime()
  }

  lemma ServedExtends(cfg: Config, requests: seq<Request>, request: Request, lossy: bool)
    ensures var (c, responses) := Served(cfg, requests, lossy);
            Served(cfg, requests + [request], lossy) ==
              if request.Expire? && !lossy then (c, responses + [Done])
              else (Serve(cfg, c, request).0, responses + [Serve(cfg, c, request).1])
  {
    hide Serve;
    assert (requests + [request])[..|requests|] == requests;
  }

  lemma PromiseExtends(cfg: Config, requests: seq<Request>, request: Request)
    requires KeepsPromise(cfg, requests)
    requires request.Expire? ==> MayExpire(cfg, Served(cfg, requests, true).0, request.key, request.t)
    ensures KeepsPromise(cfg, requests + [request])
    ensures KeepsAccesses(cfg, requests + [request]) <==>
              && KeepsAccesses(cfg, requests)
              && (request.Expire? && request.key.IpKey? ==>
                   Fetch(Served(cfg, requests, true).0.ips, request.key.ip, I.FRESH).aa == [])
  {
    hide Served, MayExpire, Fetch;
    assert (requests + [request])[..|requests|] == requests;
  }

  /** A run that goes on without further drops. */
  lemma {:induction false} ServedContinues(cfg: Config, before: seq<Request>, rest: seq<Request>, lossy: bool)
    requires forall i :: 0 <= i < |rest| ==> !rest[i].Expire?
    ensures var (c, responses) := Served(cfg, before, lossy);
            Served(cfg, before + rest, lossy) == (Continued(cfg, c, rest).0, responses + Continued(cfg, c, rest).1)
    ensures KeepsPromise(cfg, before) ==> KeepsPromise(cfg, before + rest)
    ensures KeepsPromise(cfg, before) && KeepsAccesses(cfg, before) ==> KeepsAccesses(cfg, before + rest)
  {
    hide Served, Serve, KeepsPromise, KeepsAccesses, MayExpire;
    if rest == [] {
      assert before + rest == before && Served(cfg, before, lossy).1 + [] == Served(cfg, before, lossy).1;
    } else {
      var init, last := rest[..|rest| - 1], rest[|rest| - 1];
      ServedContinues(cfg, before, init, lossy);
      ServedExtends(cfg, before + init, last, lossy);
      assert before + init + [last] == before + rest;
      var (c, responses) := Served(cfg, before, lossy);
      var (c', more) := Continued(cfg, c, init);
      assert responses + more + [Serve(cfg, c', last).1] == responses + (more + [Serve(cfg, c', last).1]);
      if KeepsPromise(cfg, before) {
        PromiseExtends(cfg, before + init, last);
      }
    }
  }

  lemma EmptyRun(cfg: Config)
    ensures Served(cfg, [], true) == (EMPTY, []) == Served(cfg, [], false)
    ensures KeepsPromise(cfg, []) && KeepsAccesses(cfg, [])
  {
    hide Serve;
  }

  /** Requests without drops, then the drop of a harmful record: a run is given that notices it. */
  lemma DropNoticed(cfg: Config, before: seq<Request>, key: Key, now: int) returns (requests: seq<Request>, end: int)
    requires Clocked(cfg.limits, before, now) && Epoch(cfg.limits, now)
    requires forall i :: 0 <= i < |before| ==> !before[i].Expire?
    requires cfg.limits.rateLimitIntervalMs > 0 && cfg.limits.ipRateLimitBanDurationMs > 0
    requires var c := Continued(cfg, EMPTY, before).0; MayExpire(cfg, c, key, now) && !Harmless(cfg.limits, c, key, now)
    ensures Clocked(cfg.limits, requests, end) && KeepsPromise(cfg, requests) && Noticed(cfg, requests)
    ensures (key.IpKey? ==> Fetch(Continued(cfg, EMPTY, before).0.ips, key.ip, I.FRESH).aa == []) ==>
              KeepsAccesses(cfg, requests)
  {
    hide Served, Continued, Serve, KeepsPromise, KeepsAccesses, MayExpire, Harmless, Sound, Epoch, Drop, Clocked, Fetch;
    var c, expire := Continued(cfg, EMPTY, before).0, Expire(now, key);
    EmptyRun(cfg);
    ServedContinues(cfg, [], before, true);
    ServedContinues(cfg, [], before, false);
    assert [] + before == before;
    RunSound(cfg, before, true, now);
    var rest := HarmfulShows(cfg, c, key, now);
    ExpireDrops(cfg, c, expire);
    ServedExtends(cfg, before, expire, true);
    ServedExtends(cfg, before, expire, false);
    PromiseExtends(cfg, before, expire);
    ServedContinues(cfg, before + [expire], rest, true);
    ServedContinues(cfg, before + [expire], rest, false);
    requests := before + [expire] + rest;
    end := RunClocked(cfg.limits, before, expire, rest);
    StillDiffer(Served(cfg, before + [expire], true).1, Continued(cfg, Drop(c, key), rest).1,
        Continued(cfg, c, rest).1);
  }

  lemma StillDiffer<T>(a: seq<T>, b: seq<T>, b': seq<T>)
    requires b != b'
    ensures a + b != a + b'
  {
    assert (a + b)[|a|..] == b && (a + b')[|a|..] == b';
  }

  lemma RunClocked(l: Limits, before: seq<Request>, request: Request, rest: seq<Request>) returns (end: int)
    requires Clocked(l, before, request.Time()) && Epoch(l, request.Time()) && From(l, rest, request.Time())
    ensures Clocked(l, before + [request] + rest, end)
  {
    hide Epoch;
    end := if rest == [] then request.Time() else rest[|rest| - 1].Time();
  }

  function Target(flag: Request): Key {
    if flag.FlagIp? then IpKey(NAME) else EmailKey(NAME)
  }

  predicate IsFlag(flag: Request, t: int) {
    || (flag.FlagIp? && flag.t == t && flag.ip == NAME && !flag.flag.Block?)
    || (flag.FlagEmail? && flag.t == t && flag.email == NAME && !flag.flag.Block?)
  }

  function Lifetime(cfg: Config, flag: Request): nat {
    if flag.FlagIp? then cfg.IpLifetime() else cfg.EmailLifetime()
  }

  /** The flag is on record, and still active when the record lapses. */
  lemma FlagWritten(cfg: Config, flag: Request)
    requires IsFlag(flag, Late(cfg.limits))
    requires Lifetime(cfg, flag) <
               if flag.flag.Suspect? then cfg.limits.suspectIntervalMs else cfg.limits.disableIntervalMs
    ensures var (c, t) := (Serve(cfg, EMPTY, flag).0, Late(cfg.limits) + Lifetime(cfg, flag));
            && MayExpire(cfg, c, Target(flag), t) && !Harmless(cfg.limits, c, Target(flag), t)
            && (flag.FlagIp? ==> Fetch(c.ips, NAME, I.FRESH).aa == [])
  {
    hide I.Updated, E.Updated;
  }

  /** A suspect or disable flag that outlives its record is noticed. */
  lemma FlagNoticed(cfg: Config, flag: Request) returns (requests: seq<Request>, now: int)
    requires IsFlag(flag, Late(cfg.limits))
    requires cfg.limits.rateLimitIntervalMs > 0 && cfg.limits.ipRateLimitBanDurationMs > 0
    requires Lifetime(cfg, flag) <
               if flag.flag.Suspect? then cfg.limits.suspectIntervalMs else cfg.limits.disableIntervalMs
    ensures Clocked(cfg.limits, requests, now) && KeepsPromise(cfg, requests) && KeepsAccesses(cfg, requests)
    ensures Noticed(cfg, requests)
  {
    hide Continued, Serve, Drop, MayExpire, Harmless, KeepsPromise, KeepsAccesses, Noticed;
    ContinuedOnce(cfg, EMPTY, flag);
    FlagWritten(cfg, flag);
    requests, now := DropNoticed(cfg, [flag], Target(flag), Late(cfg.limits) + Lifetime(cfg, flag));
  }

  /** Account accesses are never trimmed, so expiry forgives them: one access and a pause as long
      as the record's lifetime already make a difference. */
  lemma AccessExpiryNoticed(cfg: Config) returns (requests: seq<Request>, now: int)
    requires cfg.limits.maxAccountAccess > 0
    requires cfg.limits.rateLimitIntervalMs > 0 && cfg.limits.ipRateLimitBanDurationMs > 0
    ensures Clocked(cfg.limits, requests, now) && KeepsPromise(cfg, requests) && Noticed(cfg, requests)
  {
    hide Continued, KeepsPromise, KeepsAccesses, Noticed, Serve;
    var t := Late(cfg.limits);
    AccessCounted(cfg, EMPTY, NAME, [], t);
    ContinuedOnce(cfg, EMPTY, Access(NAME, t));
    AccessWritten(cfg, t);
    requests, now := DropNoticed(cfg, [Access(NAME, t)], IpKey(NAME), t + cfg.IpLifetime());
  }

  lemma AccessWritten(cfg: Config, t: int)
    requires Epoch(cfg.limits, t)
    ensures MayExpire(cfg, Serve(cfg, EMPTY, Access(NAME, t)).0, IpKey(NAME), t + cfg.IpLifetime())
  {
    hide CheckedIp;
  }

  lemma {:induction false} CoveredIsHarmless(cfg: Config, requests: seq<Request>, now: int)
    requires FlagsCovered(cfg) && Clocked(cfg.limits, requests, now)
    requires KeepsPromise(cfg, requests) && KeepsAccesses(cfg, requests)
    ensures DropsHarmless(cfg, requests)
  {
    hide Served, Epoch;
    if requests != [] {
      var init, last := requests[..|requests| - 1], requests[|requests| - 1];
      CoveredIsHarmless(cfg, init, last.Time());
      RunSound(cfg, init, true, last.Time());
    }
  }

  /** Exactly when losing lapsed records goes unnoticed on every run that loses no counted
      access: when no flag outlives the record that holds it. */
  lemma ExpiryUnobservableExactlyWhen(cfg: Config)
    requires cfg.limits.rateLimitIntervalMs > 0 && cfg.limits.ipRateLimitBanDurationMs > 0
    ensures (forall requests, now ::
               Clocked(cfg.limits, requests, now) && KeepsPromise(cfg, requests) && KeepsAccesses(cfg, requests) ==>
                   !Noticed(cfg, requests))
            <==> FlagsCovered(cfg)
  {
    hide KeepsPromise, Served, Clocked, KeepsAccesses, DropsHarmless;
    var l, t := cfg.limits, Late(cfg.limits);
    if FlagsCovered(cfg) {
      forall requests, now | Clocked(l, requests, now) && KeepsPromise(cfg, requests) && KeepsAccesses(cfg, requests)
        ensures !Noticed(cfg, requests)
      {
        CoveredIsHarmless(cfg, requests, now);
        ExpiryUnobservable(cfg, requests, now);
      }
    } else if l.suspectIntervalMs > cfg.IpLifetime() {
      var requests, now := FlagNoticed(cfg, FlagIp(t, NAME, Suspect));
    } else if l.suspectIntervalMs > cfg.EmailLifetime() {
      var requests, now := FlagNoticed(cfg, FlagEmail(t, NAME, Suspect));
    } else if l.disableIntervalMs > cfg.IpLifetime() {
      var requests, now := FlagNoticed(cfg, FlagIp(t, NAME, Disable));
    } else {
      var requests, now := FlagNoticed(cfg, FlagEmail(t, NAME, Disable));
    }
  }
}
