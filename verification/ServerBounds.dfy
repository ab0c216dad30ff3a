/** What one address, one phone number and one email address can get out of the whole server in a
    window, with any other traffic and through a cache that may lose records. */
module ServerBounds {
  import opened Clock
  import opened Customs
  import opened Server
  import opened Store
  import UserLog
  import EventLog
  import Throttle
  import I = IpRecord
  import IR = IpRuns
  import E = EmailRecord
  import P = IpEmailRecord
  import R = RateRecord
  import S = SmsRecord
  import U = UidRecord

  /** The request is a check that is let pass, allowlists aside. */
  predicate Passes(cfg: Config, c: Cache, request: Request)
    requires request.Check?
  {
    && !request.q.env.allowed
    && var response := Serve(cfg, c, request).1; response.Answer? && !response.verdict.block
  }

  /** A check that passes was accepted, not turned away, and kept waiting by none of its records. */
  lemma PassingCheck(cfg: Config, c: Cache, request: Request)
    requires request.Check? && Passes(cfg, c, request)
    ensures var l, q, r := cfg.limits, request.q, FetchRecords(c, request.ip, request.q.email, request.phone);
            && Accepted(request) && !TurnedAway(l, r.ip, q.t)
            && I.Updated(l, r.ip, q.action, q.email, q.t).1 == 0
            && E.Applied(l, r.email, E.Check(q.t, q.action, q.unblock)).1 == 0
            && R.Updated(S.SmsRule(l), r.sms, q.phone && IsSmsSending(q.action), q.t).1 == 0
  {
    hide I.Updated, E.Applied, P.Applied, R.Updated, CheckRecords, TurnedAway, SaveCheck;
    var r := FetchRecords(c, request.ip, request.q.email, request.phone);
    if TurnedAway(cfg.limits, r.ip, request.q.t) {
      TurnedAwayVerdict(cfg.limits, r, request.q);
    } else {
      VerdictIsExact(cfg.limits, r, request.q);
    }
  }

  /** A check that is not turned away saves what its records made of it. */
  lemma CheckSaves(cfg: Config, c: Cache, request: Request)
    requires request.Check? && Accepted(request)
    ensures var l, q, r := cfg.limits, request.q, FetchRecords(c, request.ip, request.q.email, request.phone);
            var email := E.Applied(l, r.email, E.Check(q.t, q.action, q.unblock)).0;
            var pair := P.Applied(l, r.pair, P.Check(q.t, q.action, email.pr, true)).0;
            var sms := R.Updated(S.SmsRule(l), r.sms, q.phone && IsSmsSending(q.action), q.t).0;
            Serve(cfg, c, request).0 ==
              if TurnedAway(l, r.ip, q.t) then c
              else SaveCheck(c, request.ip, request.phone, q,
                             Records(I.Updated(l, r.ip, q.action, q.email, q.t).0, email, pair, sms))
  {
    hide I.Updated, E.Applied, P.Applied, R.Updated, CheckRecords, TurnedAway, SaveCheck;
    var r := FetchRecords(c, request.ip, request.q.email, request.phone);
    if TurnedAway(cfg.limits, r.ip, request.q.t) {
      TurnedAwayVerdict(cfg.limits, r, request.q);
    } else {
      VerdictIsExact(cfg.limits, r, request.q);
    }
  }

  // ---- One address ----

  /** What a request does to the record of an address: at most one step. */
  function IpSteps(cfg: Config, c: Cache, request: Request, ip: string): seq<IR.Step> {
    var away := TurnedAway(cfg.limits, Fetch(c.ips, ip, I.FRESH), request.Time());
    if !Accepted(request) then []
    else match request
      case Check(ip', _, q) => if ip' == ip && !away then [IR.Check(q.t, q.action, q.email)] else []
      case CheckIpOnly(t, ip', action, _) => if ip' == ip && !away then [IR.Check(t, action, "")] else []
      case FailedLogin(t, ip', email, errno) => if ip' == ip then [IR.BadLogin(t, email, errno)] else []
      case FlagIp(t, ip', flag) => if ip' == ip then [IpStep(flag, t)] else []
      case _ => []
  }

  /** The cell holds what the step makes of the record, written now; without a step it is left alone. */
  ghost predicate Moved<K, T>(before: map<K, Cell<T>>, after: map<K, Cell<T>>, key: K, next: seq<T>, t: int) {
    if next == [] then (key in before <==> key in after) && (key in before ==> before[key] == after[key])
    else key in after && after[key] == Cell(next[0], t)
  }

  lemma CheckMovesIp(cfg: Config, c: Cache, request: Request, ip: string)
    requires request.Check?
    ensures var steps := IpSteps(cfg, c, request, ip);
            && |steps| <= 1
            && (steps == [] ==> Moved(c.ips, Serve(cfg, c, request).0.ips, ip, [], request.Time()))
            && (steps != [] ==>
                  && steps[0].t == request.Time()
                  && Moved(c.ips, Serve(cfg, c, request).0.ips, ip,
                           [IR.Applied(cfg.limits, Fetch(c.ips, ip, I.FRESH), steps[0]).0], request.Time()))
  {
    if Accepted(request) {
      hide Serve, I.Updated, E.Updated, P.Applied, R.Updated, TurnedAway, E.Trimmed;
      CheckSaves(cfg, c, request);
    }
  }

  lemma IpMoves(cfg: Config, c: Cache, request: Request, ip: string)
    requires !request.Expire?
    ensures var steps := IpSteps(cfg, c, request, ip);
            && |steps| <= 1
            && (steps == [] ==> Moved(c.ips, Serve(cfg, c, request).0.ips, ip, [], request.Time()))
            && (steps != [] ==>
                  && steps[0].t == request.Time()
                  && Moved(c.ips, Serve(cfg, c, request).0.ips, ip,
                           [IR.Applied(cfg.limits, Fetch(c.ips, ip, I.FRESH), steps[0]).0], request.Time()))
  {
    hide I.Updated, E.Applied, P.Applied, R.Updated, U.Updated, I.WithReport, E.WithBadLogin, P.WithBadLogin,
         I.TooHeavy, TurnedAway, CheckRecords, CheckedIp;
    if request.Check? {
      CheckMovesIp(cfg, c, request, ip);
    } else if request.CheckIpOnly? {
      CheckedIpIsExact(cfg.limits, Fetch(c.ips, request.ip, I.FRESH), request.action, request.env, request.t);
    }
  }

  /** The request is an account status check of the address, and passes. */
  predicate IsVisit(cfg: Config, c: Cache, request: Request, ip: string) {
    request.Check? && Passes(cfg, c, request) && request.ip == ip && IsAccountStatus(request.q.action)
  }

  /** The account status checks of the address that pass, with the email each is about. */
  function Visits(cfg: Config, requests: seq<Request>, ip: string, lossy: bool): seq<UserLog.Entry> {
    if requests == [] then []
    else
      var init, last := requests[..|requests| - 1], requests[|requests| - 1];
      Visits(cfg, init, ip, lossy)
      + if IsVisit(cfg, Served(cfg, init, lossy).0, last, ip) then [UserLog.Entry(last.q.t, last.q.email, 0)] else []
  }

  /** The ledger explains the address's record and holds no answer later than its last write. */
  ghost predicate Tracked(cfg: Config, c: Cache, ip: string, g: IR.Ledger, now: int) {
    var s := Fetch(c.ips, ip, I.FRESH);
    && g.Explains(cfg.limits, s.statuses, s.rl, now)
    && IR.Few(g.answered, IR.Window(cfg.limits), cfg.limits.maxAccountStatusCheck)
    && (ip in c.ips ==> UserLog.Below(g.answered, c.ips[ip].written))
  }

  /** A lapsed record can be dropped: everything the ledger holds is out of the window. */
  lemma DropTracked(cfg: Config, c: Cache, key: Key, ip: string, g: IR.Ledger, now: int) returns (g': IR.Ledger)
    requires Tracked(cfg, c, ip, g, now) && MayExpire(cfg, c, key, now)
    ensures Tracked(cfg, Drop(c, key), ip, g', now) && g'.answered == g.answered
  {
    hide UserLog.Keep, IR.Few, IR.Window;
    g' := g;
    if key == IpKey(ip) && ip in c.ips {
      g' := IR.Ledger(g.answered, 0, g.answered);
      var l := cfg.limits;
      UserLog.KeepNothing(g.answered, now - l.ipRateLimitIntervalMs, l.maxAccountStatusCheck);
    }
  }

  lemma MoveTracked(cfg: Config, c: Cache, c': Cache, ip: string, g: IR.Ledger, next: seq<I.State>, t: int)
    requires Moved(c.ips, c'.ips, ip, next, t)
    requires if next == [] then Tracked(cfg, c, ip, g, t)
             else g.Explains(cfg.limits, next[0].statuses, next[0].rl, t)
                  && IR.Few(g.answered, IR.Window(cfg.limits), cfg.limits.maxAccountStatusCheck)
    ensures Tracked(cfg, c', ip, g, t)
  {
    hide UserLog.Keep, IR.Few, IR.Window;
  }

  lemma StepTracked(cfg: Config, c: Cache, request: Request, ip: string, g: IR.Ledger) returns (g': IR.Ledger)
    requires Tracked(cfg, c, ip, g, request.Time()) && !request.Expire? && Epoch(cfg.limits, request.Time())
    requires IR.Window(cfg.limits) > 0
    ensures Tracked(cfg, Serve(cfg, c, request).0, ip, g', request.Time())
    ensures forall e <- g.answered :: e in g'.answered
    ensures IpSteps(cfg, c, request, ip) != [] ==>
              var s, step := Fetch(c.ips, ip, I.FRESH), IpSteps(cfg, c, request, ip)[0];
              IR.LetThrough(cfg.limits, s, step) ==> UserLog.Entry(step.t, step.email, 0) in g'.answered
  {
    hide IR.Few, IR.Applied, Serve, IpSteps, IR.Ledger.Explains, Fetch, Moved;
    var s, steps, t := Fetch(c.ips, ip, I.FRESH), IpSteps(cfg, c, request, ip), request.Time();
    IpMoves(cfg, c, request, ip);
    g' := g;
    if steps == [] {
      MoveTracked(cfg, c, Serve(cfg, c, request).0, ip, g, [], t);
    } else {
      g' := IR.StepExplained(cfg.limits, g, s, steps[0]);
      MoveTracked(cfg, c, Serve(cfg, c, request).0, ip, g', [IR.Applied(cfg.limits, s, steps[0]).0], t);
    }
  }

  /** A check of the address that passes is one its record answers. */
  lemma VisitIsAnswered(cfg: Config, c: Cache, request: Request, ip: string)
    requires IsVisit(cfg, c, request, ip)
    ensures var q := request.q;
            && IpSteps(cfg, c, request, ip) == [IR.Check(q.t, q.action, q.email)]
            && IR.LetThrough(cfg.limits, Fetch(c.ips, ip, I.FRESH), IR.Check(q.t, q.action, q.email))
  {
    hide I.Updated, Serve, Passes, TurnedAway, E.Applied, R.Updated;
    PassingCheck(cfg, c, request);
  }

  lemma {:induction false} VisitsTracked(cfg: Config, requests: seq<Request>, ip: string, lossy: bool, now: int)
      returns (g: IR.Ledger)
    requires Clocked(cfg.limits, requests, now) && (lossy ==> KeepsPromise(cfg, requests))
    requires IR.Window(cfg.limits) > 0
    ensures Tracked(cfg, Served(cfg, requests, lossy).0, ip, g, now)
    ensures forall e <- Visits(cfg, requests, ip, lossy) :: e in g.answered
  {
    hide Tracked, Serve, MayExpire, IpSteps, Passes, IR.LetThrough, IR.Window;
    if requests == [] {
      g := IR.Ledger([], 0, []);
      NothingTracked(cfg, ip, now);
    } else {
      var init, last := requests[..|requests| - 1], requests[|requests| - 1];
      var c := Served(cfg, init, lossy).0;
      g := VisitsTracked(cfg, init, ip, lossy, last.Time());
      if !last.Expire? {
        g := StepTracked(cfg, c, last, ip, g);
        if IsVisit(cfg, c, last, ip) {
          VisitIsAnswered(cfg, c, last, ip);
        }
      } else if lossy {
        ExpireDrops(cfg, c, last);
        g := DropTracked(cfg, c, last.key, ip, g, last.t);
      }
      TrackedLater(cfg, Served(cfg, requests, lossy).0, ip, g, last.Time(), now);
    }
  }

  lemma NothingTracked(cfg: Config, ip: string, now: int)
    ensures Tracked(cfg, EMPTY, ip, IR.Ledger([], 0, []), now)
  {
    hide IR.Window;
  }

  lemma TrackedLater(cfg: Config, c: Cache, ip: string, g: IR.Ledger, now: int, later: int)
    requires Tracked(cfg, c, ip, g, now) && now <= later
    ensures Tracked(cfg, c, ip, g, later)
  {
    hide IR.Few, IR.Window, IR.Ledger.Explains;
    var s := Fetch(c.ips, ip, I.FRESH);
    IR.ExplainsLater(cfg.limits, g, s.statuses, s.rl, now, later);
  }

  /** Whatever anyone asks of the server, and although the cache loses lapsed records: in any window of
      the shorter of counting interval and ban duration, the account status checks of one address that
      pass are about at most `maxAccountStatusCheck` emails. */
  lemma ServerDistinctEmailBound(cfg: Config, requests: seq<Request>, ip: string, lossy: bool, now: int, lo: int)
    requires Clocked(cfg.limits, requests, now) && (lossy ==> KeepsPromise(cfg, requests))
    ensures |IR.EmailsIn(Visits(cfg, requests, ip, lossy), lo, lo + IR.Window(cfg.limits))|
            <= cfg.limits.maxAccountStatusCheck
  {
    hide Visits, Served, IR.EmailsIn, IR.Few;
    var visits, window := Visits(cfg, requests, ip, lossy), IR.Window(cfg.limits);
    if window > 0 {
      var g := VisitsTracked(cfg, requests, ip, lossy, now);
      IR.FewInEveryWindow(g.answered, window, cfg.limits.maxAccountStatusCheck, lo);
      FewerEmails(visits, g.answered, lo, lo + window);
    } else {
      IR.NoEmails(visits, lo);
    }
  }

  lemma FewerEmails(a: seq<UserLog.Entry>, b: seq<UserLog.Entry>, lo: int, hi: int)
    requires forall e <- a :: e in b
    ensures |IR.EmailsIn(a, lo, hi)| <= |IR.EmailsIn(b, lo, hi)|
  {
    forall u | u in IR.EmailsIn(a, lo, hi) ensures u in IR.EmailsIn(b, lo, hi) {
      var i :| 0 <= i < |a| && lo <= a[i].t < hi && a[i].u == u;
      assert a[i] in b;
      var j :| 0 <= j < |b| && b[j] == a[i];
    }
    UserLog.SubsetSize(IR.EmailsIn(a, lo, hi), IR.EmailsIn(b, lo, hi));
  }

  // ---- One phone number ----

  /** What a request does to the record of a phone number: at most one call. */
  function PhoneCalls(cfg: Config, c: Cache, request: Request, phone: string): seq<R.Call> {
    if request.Check? && Accepted(request) && request.q.phone && request.phone == phone
       && !TurnedAway(cfg.limits, Fetch(c.ips, request.ip, I.FRESH), request.q.t)
    then [R.Call(request.q.t, IsSmsSending(request.q.action))]
    else []
  }

  function AllCalls(cfg: Config, requests: seq<Request>, phone: string, lossy: bool): seq<R.Call> {
    if requests == [] then []
    else
      var init, last := requests[..|requests| - 1], requests[|requests| - 1];
      AllCalls(cfg, init, phone, lossy) + PhoneCalls(cfg, Served(cfg, init, lossy).0, last, phone)
  }

  /** The request asks for a text to the number, and passes. */
  predicate IsText(cfg: Config, c: Cache, request: Request, phone: string) {
    request.Check? && Passes(cfg, c, request) && request.q.phone && request.phone == phone
    && IsSmsSending(request.q.action)
  }

  /** Times of the texts to the number that pass. */
  function Texts(cfg: Config, requests: seq<Request>, phone: string, lossy: bool): seq<int> {
    if requests == [] then []
    else
      var init, last := requests[..|requests| - 1], requests[|requests| - 1];
      Texts(cfg, init, phone, lossy)
      + if IsText(cfg, Served(cfg, init, lossy).0, last, phone) then [last.Time()] else []
  }

  function Phone(c: Cache, phone: string): R.State {
    Fetch(c.phones, phone, R.FRESH)
  }

  lemma PhoneMoves(cfg: Config, c: Cache, request: Request, phone: string)
    requires !request.Expire?
    ensures var rule, calls, s' := S.SmsRule(cfg.limits), PhoneCalls(cfg, c, request, phone),
                                   Phone(Serve(cfg, c, request).0, phone);
            && |calls| <= 1
            && (calls == [] ==> s' == Phone(c, phone) && !IsText(cfg, c, request, phone))
            && (calls != [] ==>
                  && calls[0].t == request.Time()
                  && s' == R.Updated(rule, Phone(c, phone), calls[0].counted, calls[0].t).0
                  && (IsText(cfg, c, request, phone) ==>
                        calls[0].counted && R.Updated(rule, Phone(c, phone), true, calls[0].t).1 == 0))
  {
    hide I.Updated, E.Applied, P.Applied, R.Updated, U.Updated, I.WithReport, E.WithBadLogin, P.WithBadLogin,
         I.TooHeavy, TurnedAway, CheckRecords, CheckedIp, Passes;
    if request.Check? {
      var r := FetchRecords(c, request.ip, request.q.email, request.phone);
      if TurnedAway(cfg.limits, r.ip, request.q.t) {
        TurnedAwayVerdict(cfg.limits, r, request.q);
      } else {
        VerdictIsExact(cfg.limits, r, request.q);
      }
      if Passes(cfg, c, request) {
        PassingCheck(cfg, c, request);
      }
    }
  }

  lemma DropKeepsPhone(cfg: Config, c: Cache, key: Key, phone: string, now: int)
    requires Sound(cfg, c, now) && MayExpire(cfg, c, key, now)
    ensures var rule := S.SmsRule(cfg.limits);
            R.Faded(rule, Phone(Drop(c, key), phone), now) == R.Faded(rule, Phone(c, phone), now)
  {
    hide R.Faded, R.Old, OldIp, E.Old;
    if key == PhoneKey(phone) && phone in c.phones {
      R.FadesAway(S.SmsRule(cfg.limits), c.phones[phone].record, c.phones[phone].written, now);
    }
  }

  /** A request moves the number's record, and any record that cannot be told from it, by its call. */
  lemma CallAgrees(cfg: Config, c: Cache, request: Request, phone: string, s: R.State)
    requires !request.Expire? && Epoch(cfg.limits, request.Time())
    requires var rule, t := S.SmsRule(cfg.limits), request.Time();
             R.Faded(rule, s, t) == R.Faded(rule, Phone(c, phone), t)
    ensures var rule, t, calls := S.SmsRule(cfg.limits), request.Time(), PhoneCalls(cfg, c, request, phone);
            var s' := Phone(Serve(cfg, c, request).0, phone);
            && |calls| <= 1
            && (calls == [] ==> R.Faded(rule, s, t) == R.Faded(rule, s', t) && !IsText(cfg, c, request, phone))
            && (calls != [] ==>
                  && calls[0].t == t
                  && R.Faded(rule, R.Updated(rule, s, calls[0].counted, t).0, t) == R.Faded(rule, s', t)
                  && (IsText(cfg, c, request, phone) ==> calls[0].counted && R.Updated(rule, s, true, t).1 == 0))
  {
    hide Serve, IsText, R.Faded, R.Updated, Fetch, PhoneCalls;
    PhoneMoves(cfg, c, request, phone);
    var calls := PhoneCalls(cfg, c, request, phone);
    if calls != [] {
      R.FadedDecides(S.SmsRule(cfg.limits), s, Phone(c, phone), calls[0].counted, request.Time());
    }
  }

  /** A server run seen from the number, losses included: a run of its record that lets through at
      least the texts that pass. */
  lemma {:induction false} PhoneProjects(cfg: Config, requests: seq<Request>, phone: string, lossy: bool, now: int,
                                         lo: int, hi: int)
    requires Clocked(cfg.limits, requests, now) && (lossy ==> KeepsPromise(cfg, requests))
    ensures var rule, calls := S.SmsRule(cfg.limits), AllCalls(cfg, requests, phone, lossy);
            && R.Faded(rule, R.After(rule, calls), now)
               == R.Faded(rule, Phone(Served(cfg, requests, lossy).0, phone), now)
            && EventLog.CountIn(Texts(cfg, requests, phone, lossy), lo, hi)
               <= EventLog.CountIn(R.Allowed(rule, calls), lo, hi)
            && R.Clocked(calls) && (forall i :: 0 <= i < |calls| ==> calls[i].t <= now)
  {
    hide Serve, IsText, Phone, PhoneCalls, MayExpire, Sound, R.Faded, R.Updated, R.After, R.Allowed, EventLog.CountIn;
    var rule := S.SmsRule(cfg.limits);
    if requests == [] {
      R.EmptyRun(rule);
      EmptyPhone(phone);
    } else {
      var init, last := requests[..|requests| - 1], requests[|requests| - 1];
      var t, c, before := last.Time(), Served(cfg, init, lossy).0, AllCalls(cfg, init, phone, lossy);
      PhoneProjects(cfg, init, phone, lossy, t, lo, hi);
      EventLog.CountInAppend(Texts(cfg, init, phone, lossy), t, lo, hi);
      if last.Expire? {
        ExpireNoCall(cfg, c, last, phone);
        assert before + [] == before;
        if lossy {
          RunSound(cfg, init, true, t);
          ExpireDrops(cfg, c, last);
          DropKeepsPhone(cfg, c, last.key, phone, t);
        }
      } else {
        CallAgrees(cfg, c, last, phone, R.After(rule, before));
        var calls := PhoneCalls(cfg, c, last, phone);
        if calls == [] {
          assert before + calls == before;
        } else {
          assert calls == [calls[0]];
          R.RunExtends(rule, before, calls[0]);
          EventLog.CountInAppend(R.Allowed(rule, before), t, lo, hi);
        }
      }
      R.FadedLater(rule, R.After(rule, AllCalls(cfg, requests, phone, lossy)),
          Phone(Served(cfg, requests, lossy).0, phone), t, now);
    }
  }

  lemma EmptyPhone(phone: string)
    ensures Phone(EMPTY, phone) == R.FRESH
  {
  }

  lemma ExpireNoCall(cfg: Config, c: Cache, request: Request, phone: string)
    requires request.Expire?
    ensures PhoneCalls(cfg, c, request, phone) == [] && !IsText(cfg, c, request, phone)
  {
  }

  /** Whatever anyone asks of the server, and although the cache loses lapsed records, at most `maxSms`
      texts to one number pass in any window of one interval. */
  lemma ServerTextBound(cfg: Config, requests: seq<Request>, phone: string, lossy: bool, now: int, lo: int)
    requires Clocked(cfg.limits, requests, now) && (lossy ==> KeepsPromise(cfg, requests))
    ensures EventLog.CountIn(Texts(cfg, requests, phone, lossy), lo, lo + cfg.limits.smsRateLimitIntervalMs)
            <= cfg.limits.maxSms
  {
    hide Texts, AllCalls, Served, R.Allowed, R.After, R.Faded, EventLog.CountIn;
    PhoneProjects(cfg, requests, phone, lossy, now, lo, lo + cfg.limits.smsRateLimitIntervalMs);
    R.LongBanThrottles(S.SmsRule(cfg.limits), AllCalls(cfg, requests, phone, lossy), lo);
  }

  // ---- One email address ----

  /** What a request does to the record of an email address: at most one step. */
  function EmailSteps(cfg: Config, c: Cache, request: Request, email: string): seq<E.Step> {
    if !Accepted(request) then []
    else match request
      case Check(ip, _, q) =>
        if q.email == email && !TurnedAway(cfg.limits, Fetch(c.ips, ip, I.FRESH), q.t)
        then [E.Check(q.t, q.action, q.unblock)] else []
      case FailedLogin(t, _, email', _) => if email' == email then [E.BadLogin(t)] else []
      case PasswordReset(t, email') => if email' == email then [E.Reset(t)] else []
      case FlagEmail(t, email', flag) => if email' == email then [EmailStep(flag, t)] else []
      case _ => []
  }

  lemma CheckMovesEmail(cfg: Config, c: Cache, request: Request, email: string)
    requires request.Check?
    ensures var steps := EmailSteps(cfg, c, request, email);
            && |steps| <= 1
            && (steps == [] ==> Moved(c.emails, Serve(cfg, c, request).0.emails, email, [], request.Time()))
            && (steps != [] ==>
                  && steps[0].t == request.Time()
                  && Moved(c.emails, Serve(cfg, c, request).0.emails, email,
                           [E.Applied(cfg.limits, Fetch(c.emails, email, E.FRESH), steps[0]).0], request.Time()))
  {
    if Accepted(request) {
      hide Serve, I.Updated, E.Updated, P.Applied, R.Updated, TurnedAway, E.Trimmed;
      CheckSaves(cfg, c, request);
    }
  }

  lemma EmailMoves(cfg: Config, c: Cache, request: Request, email: string)
    requires !request.Expire?
    ensures var steps := EmailSteps(cfg, c, request, email);
            && |steps| <= 1
            && (steps == [] ==> Moved(c.emails, Serve(cfg, c, request).0.emails, email, [], request.Time()))
            && (steps != [] ==>
                  && steps[0].t == request.Time()
                  && Moved(c.emails, Serve(cfg, c, request).0.emails, email,
                           [E.Applied(cfg.limits, Fetch(c.emails, email, E.FRESH), steps[0]).0], request.Time()))
  {
    hide I.Updated, E.Updated, P.Applied, R.Updated, U.Updated, I.WithReport, E.WithBadLogin, P.WithBadLogin,
         I.TooHeavy, TurnedAway, CheckRecords, CheckedIp, E.Trimmed;
    if request.Check? {
      CheckMovesEmail(cfg, c, request, email);
    }
  }

  /** The request is a check of the email address of this kind, and passes. */
  predicate IsSending(cfg: Config, c: Cache, request: Request, kind: E.Kind, email: string) {
    request.Check? && Passes(cfg, c, request) && request.q.email == email && kind.Counts(request.q.action)
  }

  /** Times of the requests of one kind for the email address that pass. */
  function Sendings(cfg: Config, requests: seq<Request>, kind: E.Kind, email: string, lossy: bool): seq<int> {
    if requests == [] then []
    else
      var init, last := requests[..|requests| - 1], requests[|requests| - 1];
      Sendings(cfg, init, kind, email, lossy)
      + if IsSending(cfg, Served(cfg, init, lossy).0, last, kind, email) then [last.Time()] else []
  }

  predicate IsDisabling(request: Request, email: string) {
    request.FlagEmail? && request.email == email && request.flag == Disable
  }

  predicate IsAbout(request: Request, email: string) {
    request.Check? && request.q.email == email
  }

  /** No request about the address is checked while it is disabled. */
  predicate NeverDisabled(l: Limits, requests: seq<Request>, email: string) {
    forall i, j :: 0 <= i < j < |requests| && IsDisabling(requests[i], email) && IsAbout(requests[j], email) ==>
      requests[j].Time() - requests[i].Time() >= l.disableIntervalMs
  }

  lemma {:induction false} DisabledByFlag(cfg: Config, requests: seq<Request>, email: string, lossy: bool)
    ensures var di := Fetch(Served(cfg, requests, lossy).0.emails, email, E.FRESH).di;
            di.At? ==> exists i :: 0 <= i < |requests| && IsDisabling(requests[i], email) && requests[i].Time() == di.ms
  {
    hide Serve, IsDisabling;
    if requests != [] {
      var init, last := requests[..|requests| - 1], requests[|requests| - 1];
      DisabledByFlag(cfg, init, email, lossy);
      var c := Served(cfg, init, lossy).0;
      if last.Expire? {
        ExpireDrops(cfg, c, last);
      } else {
        DisableMoves(cfg, c, last, email);
      }
      var di := Fetch(c.emails, email, E.FRESH).di;
      var di' := Fetch(Served(cfg, requests, lossy).0.emails, email, E.FRESH).di;
      if di.At? && di' == di {
        var i :| 0 <= i < |init| && IsDisabling(init[i], email) && init[i].Time() == di.ms;
        assert requests[i] == init[i];
      } else if di'.At? {
        assert IsDisabling(requests[|requests| - 1], email);
      }
    }
  }

  lemma DisableMoves(cfg: Config, c: Cache, request: Request, email: string)
    requires !request.Expire?
    ensures var s, s' := Fetch(c.emails, email, E.FRESH), Fetch(Serve(cfg, c, request).0.emails, email, E.FRESH);
            s'.di == s.di || (IsDisabling(request, email) && s'.di == At(request.Time()))
  {
    hide Serve, E.Applied, TurnedAway;
    EmailMoves(cfg, c, request, email);
    var steps := EmailSteps(cfg, c, request, email);
    if steps != [] {
      E.FlagsUntouched(cfg.limits, Fetch(c.emails, email, E.FRESH), steps[0]);
    }
  }

  /** The ledger explains the email address's record and holds no request later than its last write. */
  ghost predicate Billed(cfg: Config, c: Cache, kind: E.Kind, email: string, g: Throttle.Ledger, now: int) {
    var l, s := cfg.limits, Fetch(c.emails, email, E.FRESH);
    && g.Explains(kind.Log(s), s.rl, l.rateLimitIntervalMs, kind.Max(l) + 1, now) && !g.pending
    && Throttle.Spaced(g.accepted, l.rateLimitIntervalMs, kind.Max(l))
    && (email in c.emails ==> EventLog.Below(g.accepted, c.emails[email].written))
  }

  lemma DropBilled(cfg: Config, c: Cache, key: Key, kind: E.Kind, email: string, g: Throttle.Ledger, now: int)
      returns (g': Throttle.Ledger)
    requires Billed(cfg, c, kind, email, g, now) && MayExpire(cfg, c, key, now)
    ensures Billed(cfg, Drop(c, key), kind, email, g', now) && g'.accepted == g.accepted
  {
    hide EventLog.Keep, Throttle.Spaced;
    g' := g;
    if key == EmailKey(email) && email in c.emails {
      g' := Throttle.Ledger(g.accepted, 0, g.accepted, false);
      EventLog.KeepNothing(g.accepted, now - cfg.limits.rateLimitIntervalMs, kind.Max(cfg.limits) + 1);
    }
  }

  lemma MoveBilled(cfg: Config, c: Cache, c': Cache, kind: E.Kind, email: string, g: Throttle.Ledger,
                   next: seq<E.State>, t: int)
    requires Moved(c.emails, c'.emails, email, next, t)
    requires var l := cfg.limits;
             if next == [] then Billed(cfg, c, kind, email, g, t)
             else
               && g.Explains(kind.Log(next[0]), next[0].rl, l.rateLimitIntervalMs, kind.Max(l) + 1, t) && !g.pending
               && Throttle.Spaced(g.accepted, l.rateLimitIntervalMs, kind.Max(l))
    ensures Billed(cfg, c', kind, email, g, t)
  {
    hide EventLog.Keep, Throttle.Spaced;
  }

  lemma StepBilled(cfg: Config, c: Cache, request: Request, kind: E.Kind, email: string, g: Throttle.Ledger)
      returns (g': Throttle.Ledger)
    requires Billed(cfg, c, kind, email, g, request.Time()) && !request.Expire? && Epoch(cfg.limits, request.Time())
    requires cfg.limits.rateLimitIntervalMs > 0
    requires IsAbout(request, email) ==> !E.IsDisabled(cfg.limits, Fetch(c.emails, email, E.FRESH), request.Time())
    ensures Billed(cfg, Serve(cfg, c, request).0, kind, email, g', request.Time())
    ensures var steps := EmailSteps(cfg, c, request, email);
            var sent := steps != [] && E.LetThrough(cfg.limits, Fetch(c.emails, email, E.FRESH), kind, steps[0]);
            g'.accepted == g.accepted + (if sent then [request.Time()] else [])
  {
    hide E.Applied, Serve, EmailSteps, Throttle.Ledger.Explains, Fetch, Moved, E.LetThrough, Throttle.Spaced,
         E.IsDisabled;
    var s, steps, t := Fetch(c.emails, email, E.FRESH), EmailSteps(cfg, c, request, email), request.Time();
    EmailMoves(cfg, c, request, email);
    StepIsCheck(cfg, c, request, email);
    g' := g;
    assert g.accepted + [] == g.accepted;
    if steps == [] {
      MoveBilled(cfg, c, Serve(cfg, c, request).0, kind, email, g, [], t);
    } else {
      g' := E.StepExplained(cfg.limits, kind, g, s, steps[0]);
      MoveBilled(cfg, c, Serve(cfg, c, request).0, kind, email, g', [E.Applied(cfg.limits, s, steps[0]).0], t);
    }
  }

  lemma StepIsCheck(cfg: Config, c: Cache, request: Request, email: string)
    ensures var steps := EmailSteps(cfg, c, request, email);
            steps != [] && steps[0].Check? ==> IsAbout(request, email) && steps[0].t == request.Time()
  {
    hide TurnedAway;
  }

  /** A request that passes is one the record of its email address lets through. */
  lemma SendingIsLetThrough(cfg: Config, c: Cache, request: Request, kind: E.Kind, email: string)
    requires IsSending(cfg, c, request, kind, email)
    ensures var steps := EmailSteps(cfg, c, request, email);
            steps != [] && E.LetThrough(cfg.limits, Fetch(c.emails, email, E.FRESH), kind, steps[0])
  {
    hide I.Updated, Serve, Passes, TurnedAway, E.Applied, R.Updated;
    PassingCheck(cfg, c, request);
  }

  lemma {:induction false} SendingsBilled(cfg: Config, requests: seq<Request>, kind: E.Kind, email: string, lossy: bool,
                                          now: int, lo: int, hi: int)
      returns (g: Throttle.Ledger)
    requires Clocked(cfg.limits, requests, now) && (lossy ==> KeepsPromise(cfg, requests))
    requires NeverDisabled(cfg.limits, requests, email) && cfg.limits.rateLimitIntervalMs > 0
    ensures Billed(cfg, Served(cfg, requests, lossy).0, kind, email, g, now)
    ensures EventLog.CountIn(Sendings(cfg, requests, kind, email, lossy), lo, hi)
            <= EventLog.CountIn(g.accepted, lo, hi)
  {
    hide Billed, Serve, MayExpire, EmailSteps, IsSending, IsDisabling, E.LetThrough, EventLog.CountIn;
    if requests == [] {
      g := Throttle.EMPTY;
      NothingBilled(cfg, kind, email, now);
    } else {
      var init, last := requests[..|requests| - 1], requests[|requests| - 1];
      var c, t := Served(cfg, init, lossy).0, last.Time();
      g := SendingsBilled(cfg, init, kind, email, lossy, t, lo, hi);
      EventLog.CountInAppend(Sendings(cfg, init, kind, email, lossy), t, lo, hi);
      EventLog.CountInAppend(g.accepted, t, lo, hi);
      ExpireNoSending(cfg, c, last, kind, email);
      if !last.Expire? {
        NotDisabled(cfg, requests, email, lossy);
        g := StepBilled(cfg, c, last, kind, email, g);
        if IsSending(cfg, c, last, kind, email) {
          SendingIsLetThrough(cfg, c, last, kind, email);
        }
      } else if lossy {
        ExpireDrops(cfg, c, last);
        g := DropBilled(cfg, c, last.key, kind, email, g, t);
      }
      BilledLater(cfg, Served(cfg, requests, lossy).0, kind, email, g, t, now);
    }
  }

  lemma ExpireNoSending(cfg: Config, c: Cache, request: Request, kind: E.Kind, email: string)
    ensures request.Expire? ==> !IsSending(cfg, c, request, kind, email)
  {
  }

  lemma NotDisabled(cfg: Config, requests: seq<Request>, email: string, lossy: bool)
    requires requests != [] && NeverDisabled(cfg.limits, requests, email)
    ensures var c, last := Served(cfg, requests[..|requests| - 1], lossy).0, requests[|requests| - 1];
            IsAbout(last, email) ==> !E.IsDisabled(cfg.limits, Fetch(c.emails, email, E.FRESH), last.Time())
  {
    hide Served, IsDisabling;
    DisabledByFlag(cfg, requests[..|requests| - 1], email, lossy);
  }

  lemma NothingBilled(cfg: Config, kind: E.Kind, email: string, now: int)
    ensures Billed(cfg, EMPTY, kind, email, Throttle.EMPTY, now)
  {
  }

  lemma BilledLater(cfg: Config, c: Cache, kind: E.Kind, email: string, g: Throttle.Ledger, now: int, later: int)
    requires Billed(cfg, c, kind, email, g, now) && now <= later
    ensures Billed(cfg, c, kind, email, g, later)
  {
    hide Throttle.Spaced, Throttle.Ledger.Explains;
    var l, s := cfg.limits, Fetch(c.emails, email, E.FRESH);
    Throttle.ExplainsLater(g, kind.Log(s), s.rl, l.rateLimitIntervalMs, kind.Max(l) + 1, now, later);
  }

  /** Whatever anyone asks of the server, from however many addresses, and although the cache loses
      lapsed records: unless the email address is checked while disabled, at most the configured number
      of requests of one kind for it pass in any window of one rate-limit interval. */
  lemma ServerRequestBound(cfg: Config, requests: seq<Request>, kind: E.Kind, email: string, lossy: bool, now: int,
                           lo: int)
    requires Clocked(cfg.limits, requests, now) && (lossy ==> KeepsPromise(cfg, requests))
    requires NeverDisabled(cfg.limits, requests, email)
    ensures EventLog.CountIn(Sendings(cfg, requests, kind, email, lossy), lo, lo + cfg.limits.rateLimitIntervalMs)
            <= kind.Max(cfg.limits)
  {
    hide Sendings, Served, EventLog.CountIn, Throttle.Spaced, NeverDisabled;
    var period, max := cfg.limits.rateLimitIntervalMs, kind.Max(cfg.limits);
    if period > 0 {
      var g := SendingsBilled(cfg, requests, kind, email, lossy, now, lo, lo + period);
      Throttle.SpacedBoundsWindows(g.accepted, period, max, lo);
    } else {
      EventLog.EmptyWindow(Sendings(cfg, requests, kind, email, lossy), lo);
    }
  }

  // ---- One uid ----

  /** The checks of the uid that were accepted. */
  function UidChecks(requests: seq<Request>, uid: string): seq<U.Check> {
    if requests == [] then []
    else
      var last := requests[|requests| - 1];
      UidChecks(requests[..|requests| - 1], uid)
      + if last.CheckAuthenticated? && Accepted(last) && last.uid == uid then [U.Check(last.t, last.name)] else []
  }

  lemma UidMoves(cfg: Config, c: Cache, request: Request, uid: string)
    requires !request.Expire?
    ensures var s, s' := Fetch(c.uids, uid, U.FRESH), Fetch(Serve(cfg, c, request).0.uids, uid, U.FRESH);
            if request.CheckAuthenticated? && Accepted(request) && request.uid == uid then
              var next := U.Updated(cfg.limits, s, request.name, request.t);
              s' == next.0 && Serve(cfg, c, request).1 == Wait(next.1)
            else s' == s
  {
    hide CheckRecords, CheckedIp, U.Updated, E.Applied, IR.Applied, I.WithReport, E.WithBadLogin, P.WithBadLogin,
         I.TooHeavy;
  }

  /** A server run seen from the uid, losses included: the record in the cache cannot be told from the
      one that saw all the checks. */
  lemma {:induction false} UidProjects(cfg: Config, requests: seq<Request>, uid: string, lossy: bool, now: int)
    requires Clocked(cfg.limits, requests, now) && (lossy ==> KeepsPromise(cfg, requests))
    ensures var s := Fetch(Served(cfg, requests, lossy).0.uids, uid, U.FRESH);
            U.Alike(cfg.limits, s, U.After(cfg.limits, UidChecks(requests, uid)), now)
  {
    hide Serve, MayExpire, Sound, U.Alike, U.Updated, Accepted;
    if requests == [] {
      SameUids(cfg.limits, now);
    } else {
      var init, last := requests[..|requests| - 1], requests[|requests| - 1];
      var l, t, c, checks := cfg.limits, last.Time(), Served(cfg, init, lossy).0, UidChecks(init, uid);
      var s := Fetch(c.uids, uid, U.FRESH);
      UidProjects(cfg, init, uid, lossy, t);
      assert checks + [] == checks;
      if last.Expire? {
        if lossy {
          RunSound(cfg, init, true, t);
          ExpireDrops(cfg, c, last);
          DropKeepsUid(cfg, c, last.key, uid, U.After(l, checks), t);
        }
      } else {
        UidMoves(cfg, c, last, uid);
        if last.CheckAuthenticated? && Accepted(last) && last.uid == uid {
          U.AlikeDecides(l, s, U.After(l, checks), last.name, t);
          var check := U.Check(last.t, last.name);
          assert (checks + [check])[..|checks|] == checks;
        }
      }
      U.AlikeLater(l, Fetch(Served(cfg, requests, lossy).0.uids, uid, U.FRESH), U.After(l, UidChecks(requests, uid)),
          t, now);
    }
  }

  lemma SameUids(l: Limits, now: int)
    ensures U.Alike(l, U.FRESH, U.FRESH, now)
  {
  }

  lemma DropKeepsUid(cfg: Config, c: Cache, key: Key, uid: string, s: U.State, now: int)
    requires Sound(cfg, c, now) && MayExpire(cfg, c, key, now)
    requires U.Alike(cfg.limits, Fetch(c.uids, uid, U.FRESH), s, now)
    ensures U.Alike(cfg.limits, Fetch(Drop(c, key).uids, uid, U.FRESH), s, now)
  {
    hide U.Alike, U.Old, OldIp, E.Old;
    if key == UidKey(uid) && uid in c.uids {
      var record := c.uids[uid].record;
      U.FadesAway(cfg.limits, record, c.uids[uid].written, now);
      U.AlikeChain(cfg.limits, record, U.FRESH, s, now);
    }
  }

  /** The server answers a check of a uid exactly as the record that saw every earlier check of it would,
      whatever else was asked and whatever lapsed records were lost. */
  lemma ServerUidAnswer(cfg: Config, requests: seq<Request>, uid: string, name: string, lossy: bool, now: int)
    requires Clocked(cfg.limits, requests, now) && Epoch(cfg.limits, now) && (lossy ==> KeepsPromise(cfg, requests))
    requires uid != "" && name != ""
    ensures var l := cfg.limits;
            Serve(cfg, Served(cfg, requests, lossy).0, CheckAuthenticated(now, uid, name)).1 ==
              Wait(U.Updated(l, U.After(l, UidChecks(requests, uid)), name, now).1)
  {
    hide Serve, Served, U.Alike, U.Updated, UidChecks, U.After;
    var c := Served(cfg, requests, lossy).0;
    UidProjects(cfg, requests, uid, lossy, now);
    UidMoves(cfg, c, CheckAuthenticated(now, uid, name), uid);
    U.AlikeDecides(cfg.limits, Fetch(c.uids, uid, U.FRESH), U.After(cfg.limits, UidChecks(requests, uid)), name, now);
  }
}
