/** The cache behind the server. It may drop a record once the record's lifetime has passed
    since it was last written; a dropped record is fetched again as a fresh one. */
module Store {
  import opened Clock
  import opened Customs
  import opened Server
  import I = IpRecord
  import IR = IpRuns
  import E = EmailRecord
  import P = IpEmailRecord
  import R = RateRecord
  import S = SmsRecord
  import U = UidRecord

  datatype Cell<+T> = Cell(record: T, written: int)

  datatype Cache = Cache(
    ips: map<string, Cell<I.State>>,
    emails: map<string, Cell<E.State>>,
    pairs: map<(string, string), Cell<P.State>>,
    phones: map<string, Cell<R.State>>,
    uids: map<string, Cell<U.State>>)

  const EMPTY := Cache(map[], map[], map[], map[], map[])

  function Fetch<K, T>(cells: map<K, Cell<T>>, key: K, blank: T): T {
    if key in cells then cells[key].record else blank
  }

  datatype Config = Config(limits: Limits, recordLifetimeMs: nat) {
    function IpLifetime(): nat {
      Max(recordLifetimeMs,
          Max(limits.blockIntervalMs, Max(limits.ipRateLimitIntervalMs, limits.ipRateLimitBanDurationMs)))
    }

    function EmailLifetime(): nat {
      Max(recordLifetimeMs, Max(limits.rateLimitIntervalMs, limits.blockIntervalMs))
    }

    function PairLifetime(): nat {
      Max(recordLifetimeMs, limits.rateLimitIntervalMs)
    }

    function PhoneLifetime(): nat {
      Max(recordLifetimeMs, limits.smsRateLimitIntervalMs)
    }

    function UidLifetime(): nat {
      Max(recordLifetimeMs, Max(limits.uidRateLimitIntervalMs, limits.uidRateLimitBanDurationMs))
    }
  }

  datatype Flag = Block | Suspect | Disable

  datatype Key =
    | IpKey(ip: string)
    | EmailKey(email: string)
    | PairKey(pair: (string, string))
    | PhoneKey(phone: string)
    | UidKey(uid: string)

  /** Requests to the server, bans and flags from its queues, and the cache dropping a record. */
  datatype Request =
    | Check(ip: string, phone: string, q: Query)
    | CheckIpOnly(t: int, ip: string, action: Action, env: Env)
    | CheckAuthenticated(t: int, uid: string, name: string)
    | FailedLogin(t: int, ip: string, email: string, errno: int)
    | PasswordReset(t: int, email: string)
    | FlagIp(t: int, ip: string, flag: Flag)
    | FlagEmail(t: int, email: string, flag: Flag)
    | Expire(t: int, key: Key)
  {
    function Time(): int {
      if Check? then q.t else t
    }
  }

  /** `Reported` tells whether the address went over its limit, which the server passes on to the
      reputation service. */
  datatype Response = Answer(verdict: Verdict) | Wait(ms: int) | Reported(over: bool) | Refused | Done

  function IpStep(flag: Flag, t: int): IR.Step {
    match flag case Block => IR.Block(t) case Suspect => IR.Suspect(t) case Disable => IR.Disable(t)
  }

  function EmailStep(flag: Flag, t: int): E.Step {
    match flag case Block => E.Block(t) case Suspect => E.Suspect(t) case Disable => E.Disable(t)
  }

  function FetchRecords(c: Cache, ip: string, email: string, phone: string): Records {
    Records(Fetch(c.ips, ip, I.FRESH), Fetch(c.emails, email, E.FRESH),
                   Fetch(c.pairs, (ip, email), P.FRESH), Fetch(c.phones, phone, R.FRESH))
  }

  /** The `/checkIpOnly` handler: the record to save, if any, and the answer. */
  function CheckedIp(l: Limits, s: I.State, action: Action, env: Env, t: int): (I.State, bool, Verdict) {
    if TurnedAway(l, s, t) then
      (s, false, Allowlisted(Verdict(true, I.RetryAfter(l, s, t), false, false, NoReason), env))
    else
      var (s', delay) := I.Updated(l, s, action, "", t);
      var v := Verdict(delay > 0, delay, false, env.suspicious, if delay > 0 then OtherReason else NoReason);
      var v := if env.blocklisted then v.(block := true, reason := InBlocklist, retryAfter := 0) else v;
      var v := if env.badReputation then v.(block := true, reason := BadReputation,
            retryAfter := I.RetryAfter(l, s', t)) else v;
      (s', true, Allowlisted(v, env))
  }

  function SaveCheck(c: Cache, ip: string, phone: string, q: Query, r: Records): Cache {
    Cache(c.ips[ip := Cell(r.ip, q.t)], c.emails[q.email := Cell(r.email, q.t)],
        c.pairs[(ip, q.email) := Cell(r.pair, q.t)],
          if q.phone then c.phones[phone := Cell(r.sms, q.t)] else c.phones, c.uids)
  }

  function Drop(c: Cache, key: Key): Cache {
    match key
    case IpKey(ip) => c.(ips := c.ips - {ip})
    case EmailKey(email) => c.(emails := c.emails - {email})
    case PairKey(pair) => c.(pairs := c.pairs - {pair})
    case PhoneKey(phone) => c.(phones := c.phones - {phone})
    case UidKey(uid) => c.(uids := c.uids - {uid})
  }

  /** The request names what its handler needs; a message of a queue names whom it is about. */
  predicate Accepted(request: Request) {
    match request
    case Check(ip, _, q) => ip != "" && q.email != "" && IsNamed(q.action)
    case CheckIpOnly(_, ip, action, _) => ip != "" && IsNamed(action)
    case CheckAuthenticated(_, uid, name) => uid != "" && name != ""
    case FailedLogin(_, ip, email, _) => ip != "" && email != ""
    case PasswordReset(_, email) => email != ""
    case FlagIp(_, ip, _) => ip != ""
    case FlagEmail(_, email, _) => email != ""
    case Expire(_, _) => true
  }

  /** A request with missing parameters is refused and changes nothing. */
  function Serve(cfg: Config, c: Cache, request: Request): (Cache, Response) {
    if Accepted(request) then Handle(cfg, c, request) else (c, Refused)
  }

  function Handle(cfg: Config, c: Cache, request: Request): (Cache, Response) {
    var l := cfg.limits;
    match request
    case Check(ip, phone, q) =>
      var outcome := CheckRecords(l, FetchRecords(c, ip, q.email, phone), q);
      (if outcome.saved then SaveCheck(c, ip, phone, q, outcome.records) else c, Answer(outcome.verdict))
    case CheckIpOnly(t, ip, action, env) =>
      var (s', saved, verdict) := CheckedIp(l, Fetch(c.ips, ip, I.FRESH), action, env, t);
      (if saved then c.(ips := c.ips[ip := Cell(s', t)]) else c, Answer(verdict))
    case CheckAuthenticated(t, uid, name) =>
      var (s', delay) := U.Updated(l, Fetch(c.uids, uid, U.FRESH), name, t);
      (c.(uids := c.uids[uid := Cell(s', t)]), Wait(delay))
    case FailedLogin(t, ip, email, errno) =>
      var r := FetchRecords(c, ip, email, "");
      var reported := I.WithReport(l, r.ip, email, errno, t);
      (c.(ips := c.ips[ip := Cell(reported, t)],
          emails := c.emails[email := Cell(E.WithBadLogin(l, r.email, t), t)],
          pairs := c.pairs[(ip, email) := Cell(P.WithBadLogin(l, r.pair, t), t)]), Reported(I.TooHeavy(l, reported.lf)))
    case PasswordReset(t, email) =>
      (c.(emails := c.emails[email := Cell(E.Applied(l, Fetch(c.emails, email, E.FRESH), E.Reset(t)).0, t)]), Done)
    case FlagIp(t, ip, flag) =>
      (c.(ips := c.ips[ip := Cell(IR.Applied(l, Fetch(c.ips, ip, I.FRESH), IpStep(flag, t)).0, t)]), Done)
    case FlagEmail(t, email, flag) =>
      (c.(emails := c.emails[email := Cell(E.Applied(l, Fetch(c.emails, email, E.FRESH), EmailStep(flag, t)).0, t)]),
          Done)
    case Expire(_, key) => (Drop(c, key), Done)
  }

  /** The answer of `/checkIpOnly`, from what the record answers on its own. */
  lemma CheckedIpIsExact(l: Limits, s: I.State, action: Action, env: Env, t: int)
    ensures var (s', delay) := I.Updated(l, s, action, "", t);
            var (after, saved, v) := CheckedIp(l, s, action, env, t);
            if TurnedAway(l, s, t) then
              && !saved && after == s && v == Verdict(!env.allowed, I.RetryAfter(l, s, t), false, false, NoReason)
            else
              && saved && after == s' && !v.unblock
              && (v.block <==> !env.allowed && (delay > 0 || env.blocklisted || env.badReputation))
              && (v.suspect <==> !env.allowed && env.suspicious)
              && v.retryAfter == (if env.badReputation then I.RetryAfter(l, s', t)
                                  else if env.blocklisted then 0 else delay)
              && v.reason == (if env.badReputation then BadReputation else if env.blocklisted then InBlocklist
                              else if delay > 0 then OtherReason else NoReason)
  {
    hide I.Updated, I.RetryAfter, TurnedAway;
  }

  // ---- Runs with and without losses ----

  predicate Clocked(l: Limits, requests: seq<Request>, now: int) {
    && (forall i :: 0 <= i < |requests| ==> Epoch(l, requests[i].Time()) && requests[i].Time() <= now)
    && (forall i, j :: 0 <= i < j < |requests| ==> requests[i].Time() <= requests[j].Time())
  }

  /** The cache after the requests and the responses to them; a cache that is not `lossy`
      ignores every `Expire`. */
  function Served(cfg: Config, requests: seq<Request>, lossy: bool): (Cache, seq<Response>) {
    if requests == [] then (EMPTY, [])
    else
      var last := requests[|requests| - 1];
      var (c, responses) := Served(cfg, requests[..|requests| - 1], lossy);
      if last.Expire? && !lossy then (c, responses + [Done])
      else
        var (c', response) := Serve(cfg, c, last);
        (c', responses + [response])
  }

  predicate Lapsed<K, T>(cells: map<K, Cell<T>>, key: K, lifetime: nat, now: int) {
    key in cells ==> now >= cells[key].written + lifetime
  }

  /** The record's lifetime has passed since it was last written. */
  predicate MayExpire(cfg: Config, c: Cache, key: Key, now: int) {
    match key
    case IpKey(ip) => Lapsed(c.ips, ip, cfg.IpLifetime(), now)
    case EmailKey(email) => Lapsed(c.emails, email, cfg.EmailLifetime(), now)
    case PairKey(pair) => Lapsed(c.pairs, pair, cfg.PairLifetime(), now)
    case PhoneKey(phone) => Lapsed(c.phones, phone, cfg.PhoneLifetime(), now)
    case UidKey(uid) => Lapsed(c.uids, uid, cfg.UidLifetime(), now)
  }

  /** The cache drops records only after their lifetime. */
  predicate KeepsPromise(cfg: Config, requests: seq<Request>) {
    requests != [] ==>
      var init, last := requests[..|requests| - 1], requests[|requests| - 1];
      KeepsPromise(cfg, init) && (last.Expire? ==> MayExpire(cfg, Served(cfg, init, true).0, last.key, last.t))
  }

  /** The record holds nothing that outlives it: no flag still active and, for an IP, no
      account access, since accesses are never trimmed. */
  predicate Harmless(l: Limits, c: Cache, key: Key, now: int) {
    match key
    case IpKey(ip) =>
      var s := Fetch(c.ips, ip, I.FRESH);
      s.aa == [] && !I.IsSuspected(l, s, now) && !I.IsDisabled(l, s, now)
    case EmailKey(email) =>
      var s := Fetch(c.emails, email, E.FRESH);
      !E.IsSuspected(l, s, now) && !E.IsDisabled(l, s, now)
    case _ => true
  }

  /** Only harmless records are dropped. */
  predicate DropsHarmless(cfg: Config, requests: seq<Request>) {
    requests != [] ==>
      var init, last := requests[..|requests| - 1], requests[|requests| - 1];
      DropsHarmless(cfg, init) && (last.Expire? ==> Harmless(cfg.limits, Served(cfg, init, true).0, last.key, last.t))
  }

  // ---- Caches that cannot be told apart ----

  /** Every fetch from the one and the other gives records that are the `same`. */
  ghost predicate AlikeCells<K(!new), T>(a: map<K, Cell<T>>, b: map<K, Cell<T>>, blank: T, same: (T, T) -> bool) {
    forall key: K :: same(Fetch(a, key, blank), Fetch(b, key, blank))
  }

  lemma PutAlike<K(!new), T>(a: map<K, Cell<T>>, b: map<K, Cell<T>>, key: K, x: T, y: T, t: int, blank: T,
                             same: (T, T) -> bool)
    requires AlikeCells(a, b, blank, same) && same(x, y)
    ensures AlikeCells(a[key := Cell(x, t)], b[key := Cell(y, t)], blank, same)
  {
    var (a', b') := (a[key := Cell(x, t)], b[key := Cell(y, t)]);
    forall other: K ensures same(Fetch(a', other, blank), Fetch(b', other, blank)) {
      assert same(Fetch(a, other, blank), Fetch(b, other, blank));
    }
  }

  lemma DropAlike<K(!new), T>(a: map<K, Cell<T>>, b: map<K, Cell<T>>, key: K, blank: T, same: (T, T) -> bool)
    requires AlikeCells(a, b, blank, same) && same(blank, Fetch(b, key, blank))
    ensures AlikeCells(a - {key}, b, blank, same)
  {
    forall other: K ensures same(Fetch(a - {key}, other, blank), Fetch(b, other, blank)) {
      assert same(Fetch(a, other, blank), Fetch(b, other, blank));
    }
  }

  lemma ImpliesAlike<K(!new), T>(a: map<K, Cell<T>>, b: map<K, Cell<T>>, blank: T, same: (T, T) -> bool,
                                 same': (T, T) -> bool)
    requires AlikeCells(a, b, blank, same)
    requires forall key: K :: same(Fetch(a, key, blank), Fetch(b, key, blank)) ==>
               same'(Fetch(a, key, blank), Fetch(b, key, blank))
    ensures AlikeCells(a, b, blank, same')
  {
  }

  ghost function SameIp(l: Limits, now: int): (I.State, I.State) -> bool {
    (x, y) => IR.Faded(l, x, now) == IR.Faded(l, y, now)
  }

  ghost function SameEmail(l: Limits, now: int): (E.State, E.State) -> bool {
    (x, y) => E.Faded(l, x, now) == E.Faded(l, y, now)
  }

  ghost function SamePair(l: Limits, now: int): (P.State, P.State) -> bool {
    (x, y) => P.Faded(l, x, now) == P.Faded(l, y, now)
  }

  ghost function SamePhone(l: Limits, now: int): (R.State, R.State) -> bool {
    (x, y) => R.Faded(S.SmsRule(l), x, now) == R.Faded(S.SmsRule(l), y, now)
  }

  ghost function SameUid(l: Limits, now: int): (U.State, U.State) -> bool {
    (x, y) => U.Alike(l, x, y, now)
  }

  ghost predicate Alike(l: Limits, a: Cache, b: Cache, now: int) {
    && AlikeCells(a.ips, b.ips, I.FRESH, SameIp(l, now)) && AlikeCells(a.emails, b.emails, E.FRESH, SameEmail(l, now))
    && AlikeCells(a.pairs, b.pairs, P.FRESH, SamePair(l, now))
    && AlikeCells(a.phones, b.phones, R.FRESH, SamePhone(l, now))
    && AlikeCells(a.uids, b.uids, U.FRESH, SameUid(l, now))
  }

  lemma SameIpLater(l: Limits, now: int, later: int)
    requires now <= later
    ensures forall x, y :: SameIp(l, now)(x, y) ==> SameIp(l, later)(x, y)
  {
    hide IR.Faded, E.Faded, P.Faded, R.Faded, U.Alike;
    forall x, y | SameIp(l, now)(x, y) ensures SameIp(l, later)(x, y) {
      IR.FadedLater(l, x, y, now, later);
    }
  }

  lemma SameEmailLater(l: Limits, now: int, later: int)
    requires now <= later
    ensures forall x, y :: SameEmail(l, now)(x, y) ==> SameEmail(l, later)(x, y)
  {
    hide IR.Faded, E.Faded, P.Faded, R.Faded, U.Alike;
    forall x, y | SameEmail(l, now)(x, y) ensures SameEmail(l, later)(x, y) {
      E.FadedLater(l, x, y, now, later);
    }
  }

  lemma SamePairLater(l: Limits, now: int, later: int)
    requires now <= later
    ensures forall x, y :: SamePair(l, now)(x, y) ==> SamePair(l, later)(x, y)
  {
    hide IR.Faded, E.Faded, P.Faded, R.Faded, U.Alike;
    forall x, y | SamePair(l, now)(x, y) ensures SamePair(l, later)(x, y) {
      P.FadedLater(l, x, y, now, later);
    }
  }

  lemma SamePhoneLater(l: Limits, now: int, later: int)
    requires now <= later
    ensures forall x, y :: SamePhone(l, now)(x, y) ==> SamePhone(l, later)(x, y)
  {
    hide IR.Faded, E.Faded, P.Faded, R.Faded, U.Alike;
    forall x, y | SamePhone(l, now)(x, y) ensures SamePhone(l, later)(x, y) {
      R.FadedLater(S.SmsRule(l), x, y, now, later);
    }
  }

  lemma SameUidLater(l: Limits, now: int, later: int)
    requires now <= later
    ensures forall x, y :: SameUid(l, now)(x, y) ==> SameUid(l, later)(x, y)
  {
    hide IR.Faded, E.Faded, P.Faded, R.Faded, U.Alike;
    forall x, y | SameUid(l, now)(x, y) ensures SameUid(l, later)(x, y) {
      U.AlikeLater(l, x, y, now, later);
    }
  }

  lemma AlikeLater(l: Limits, a: Cache, b: Cache, now: int, later: int)
    requires Alike(l, a, b, now) && now <= later
    ensures Alike(l, a, b, later)
  {
    hide SameIp, SameEmail, SamePair, SamePhone, SameUid, Fetch, AlikeCells;
    SameIpLater(l, now, later);
    ImpliesAlike(a.ips, b.ips, I.FRESH, SameIp(l, now), SameIp(l, later));
    SameEmailLater(l, now, later);
    ImpliesAlike(a.emails, b.emails, E.FRESH, SameEmail(l, now), SameEmail(l, later));
    SamePairLater(l, now, later);
    ImpliesAlike(a.pairs, b.pairs, P.FRESH, SamePair(l, now), SamePair(l, later));
    SamePhoneLater(l, now, later);
    ImpliesAlike(a.phones, b.phones, R.FRESH, SamePhone(l, now), SamePhone(l, later));
    SameUidLater(l, now, later);
    ImpliesAlike(a.uids, b.uids, U.FRESH, SameUid(l, now), SameUid(l, later));
  }

  ghost predicate AlikeRecords(l: Limits, a: Records, b: Records, now: int) {
    && IR.Faded(l, a.ip, now) == IR.Faded(l, b.ip, now) && E.Faded(l, a.email, now) == E.Faded(l, b.email, now)
    && P.Faded(l, a.pair, now) == P.Faded(l, b.pair, now)
    && R.Faded(S.SmsRule(l), a.sms, now) == R.Faded(S.SmsRule(l), b.sms, now)
  }

  /** Records that cannot be told apart get the same verdict and stay that way. */
  lemma CheckAlike(l: Limits, a: Records, b: Records, q: Query)
    requires AlikeRecords(l, a, b, q.t) && Epoch(l, q.t)
    ensures var (x, y) := (CheckRecords(l, a, q), CheckRecords(l, b, q));
            x.saved == y.saved && x.verdict == y.verdict && AlikeRecords(l, x.records, y.records, q.t)
  {
    hide I.Updated, E.Applied, P.Applied, R.Updated, IR.Faded, P.Faded, R.Faded,
         I.IsBlocked, I.IsDisabled, I.IsSuspected, E.IsSuspected, I.RetryAfter, Fade, E.Trimmed;
    var t := q.t;
    IR.FadedVerdicts(l, a.ip, b.ip, t);
    if !TurnedAway(l, a.ip, t) {
      var ipStep, emailStep := IR.Check(t, q.action, q.email), E.Check(t, q.action, q.unblock);
      IR.FadedDecides(l, a.ip, b.ip, ipStep);
      IR.FadedVerdicts(l, IR.Applied(l, a.ip, ipStep).0, IR.Applied(l, b.ip, ipStep).0, t);
      E.FadedDecides(l, a.email, b.email, emailStep);
      var (e, f) := (E.Applied(l, a.email, emailStep).0, E.Applied(l, b.email, emailStep).0);
      E.FadedVerdicts(l, e, f, t);
      P.FadedDecides(l, a.pair, b.pair, P.Check(t, q.action, e.pr, true), P.Check(t, q.action, f.pr, true));
      R.FadedDecides(S.SmsRule(l), a.sms, b.sms, q.phone && IsSmsSending(q.action), t);
    }
  }

  lemma FetchAlike(l: Limits, a: Cache, b: Cache, ip: string, email: string, phone: string, uid: string, now: int)
    requires Alike(l, a, b, now)
    ensures AlikeRecords(l, FetchRecords(a, ip, email, phone), FetchRecords(b, ip, email, phone), now)
    ensures SameIp(l, now)(Fetch(a.ips, ip, I.FRESH), Fetch(b.ips, ip, I.FRESH))
    ensures SameUid(l, now)(Fetch(a.uids, uid, U.FRESH), Fetch(b.uids, uid, U.FRESH))
  {
    hide IR.Faded, E.Faded, P.Faded, R.Faded, U.Alike, Fetch;
  }

  lemma SaveAlike(l: Limits, a: Cache, b: Cache, ip: string, phone: string, q: Query, r: Records, r': Records)
    requires Alike(l, a, b, q.t) && AlikeRecords(l, r, r', q.t)
    ensures Alike(l, SaveCheck(a, ip, phone, q, r), SaveCheck(b, ip, phone, q, r'), q.t)
  {
    hide IR.Faded, E.Faded, P.Faded, R.Faded, U.Alike, AlikeCells;
    PutAlike(a.ips, b.ips, ip, r.ip, r'.ip, q.t, I.FRESH, SameIp(l, q.t));
    PutAlike(a.emails, b.emails, q.email, r.email, r'.email, q.t, E.FRESH, SameEmail(l, q.t));
    PutAlike(a.pairs, b.pairs, (ip, q.email), r.pair, r'.pair, q.t, P.FRESH, SamePair(l, q.t));
    PutAlike(a.phones, b.phones, phone, r.sms, r'.sms, q.t, R.FRESH, SamePhone(l, q.t));
  }

  lemma CheckedIpAlike(l: Limits, a: I.State, b: I.State, action: Action, env: Env, t: int)
    requires SameIp(l, t)(a, b) && Epoch(l, t)
    ensures var (x, y) := (CheckedIp(l, a, action, env, t), CheckedIp(l, b, action, env, t));
            x.1 == y.1 && x.2 == y.2 && SameIp(l, t)(x.0, y.0)
  {
    hide I.Updated, IR.Faded, I.IsBlocked, I.IsDisabled, I.RetryAfter;
    IR.FadedVerdicts(l, a, b, t);
    IR.FadedDecides(l, a, b, IR.Check(t, action, ""));
    IR.FadedVerdicts(l, I.Updated(l, a, action, "", t).0, I.Updated(l, b, action, "", t).0, t);
  }

  lemma StepAlike(l: Limits, a: Records, b: Records, ipStep: IR.Step, emailStep: E.Step, t: int)
    requires AlikeRecords(l, a, b, t) && Epoch(l, t) && ipStep.t == t && emailStep.t == t
    ensures SameIp(l, t)(IR.Applied(l, a.ip, ipStep).0, IR.Applied(l, b.ip, ipStep).0)
    ensures SameEmail(l, t)(E.Applied(l, a.email, emailStep).0, E.Applied(l, b.email, emailStep).0)
    ensures SamePair(l, t)(P.WithBadLogin(l, a.pair, t), P.WithBadLogin(l, b.pair, t))
  {
    hide IR.Faded, E.Faded, P.Faded, R.Faded, IR.Applied, E.Applied, P.WithBadLogin;
    IR.FadedDecides(l, a.ip, b.ip, ipStep);
    E.FadedDecides(l, a.email, b.email, emailStep);
    P.FadedDecides(l, a.pair, b.pair, P.BadLogin(t), P.BadLogin(t));
  }

  lemma ServeCheckAlike(l: Limits, a: Cache, b: Cache, ip: string, phone: string, q: Query)
    requires Alike(l, a, b, q.t) && Epoch(l, q.t)
    ensures var (x, y) := (CheckRecords(l, FetchRecords(a, ip, q.email, phone), q),
              CheckRecords(l, FetchRecords(b, ip, q.email, phone), q));
            && x.saved == y.saved && x.verdict == y.verdict
            && Alike(l, SaveCheck(a, ip, phone, q, x.records), SaveCheck(b, ip, phone, q, y.records), q.t)
  {
    hide Alike, AlikeRecords, CheckRecords, SaveCheck, Fetch, SameIp, SameUid;
    var (r, r') := (FetchRecords(a, ip, q.email, phone), FetchRecords(b, ip, q.email, phone));
    FetchAlike(l, a, b, ip, q.email, phone, "", q.t);
    CheckAlike(l, r, r', q);
    SaveAlike(l, a, b, ip, phone, q, CheckRecords(l, r, q).records, CheckRecords(l, r', q).records);
  }

  lemma ReportAlike(l: Limits, a: I.State, b: I.State, email: string, errno: int, t: int)
    requires SameIp(l, t)(a, b)
    ensures I.WithReport(l, a, email, errno, t).lf == I.WithReport(l, b, email, errno, t).lf
  {
    hide I.Trimmed;
  }

  lemma FailedLoginAlike(l: Limits, a: Cache, b: Cache, ip: string, email: string, errno: int, t: int)
    requires Alike(l, a, b, t) && Epoch(l, t)
    ensures var (r, r') := (FetchRecords(a, ip, email, ""), FetchRecords(b, ip, email, ""));
            && I.WithReport(l, r.ip, email, errno, t).lf == I.WithReport(l, r'.ip, email, errno, t).lf
            && AlikeCells(a.ips[ip := Cell(I.WithReport(l, r.ip, email, errno, t), t)],
                          b.ips[ip := Cell(I.WithReport(l, r'.ip, email, errno, t), t)], I.FRESH, SameIp(l, t))
            && AlikeCells(a.emails[email := Cell(E.WithBadLogin(l, r.email, t), t)],
                          b.emails[email := Cell(E.WithBadLogin(l, r'.email, t), t)], E.FRESH, SameEmail(l, t))
            && AlikeCells(a.pairs[(ip, email) := Cell(P.WithBadLogin(l, r.pair, t), t)],
                          b.pairs[(ip, email) := Cell(P.WithBadLogin(l, r'.pair, t), t)], P.FRESH, SamePair(l, t))
  {
    hide SameIp, SameEmail, SamePair, SamePhone, SameUid, AlikeCells, AlikeRecords, Fetch,
         I.WithReport, E.WithBadLogin, P.WithBadLogin;
    FetchAlike(l, a, b, ip, email, "", "", t);
    var (r, r') := (FetchRecords(a, ip, email, ""), FetchRecords(b, ip, email, ""));
    ReportAlike(l, r.ip, r'.ip, email, errno, t);
    StepAlike(l, r, r', IR.BadLogin(t, email, errno), E.BadLogin(t), t);
    PutAlike(a.ips, b.ips, ip, I.WithReport(l, r.ip, email, errno, t), I.WithReport(l, r'.ip, email, errno, t), t,
        I.FRESH, SameIp(l, t));
    PutAlike(a.emails, b.emails, email, E.WithBadLogin(l, r.email, t), E.WithBadLogin(l, r'.email, t), t, E.FRESH,
        SameEmail(l, t));
    PutAlike(a.pairs, b.pairs, (ip, email), P.WithBadLogin(l, r.pair, t), P.WithBadLogin(l, r'.pair, t), t, P.FRESH,
        SamePair(l, t));
  }

  lemma CheckIpOnlyAlike(l: Limits, a: Cache, b: Cache, ip: string, action: Action, env: Env, t: int)
    requires Alike(l, a, b, t) && Epoch(l, t)
    ensures var (x, y) := (CheckedIp(l, Fetch(a.ips, ip, I.FRESH), action, env, t),
              CheckedIp(l, Fetch(b.ips, ip, I.FRESH), action, env, t));
            && x.1 == y.1 && x.2 == y.2
            && AlikeCells(a.ips[ip := Cell(x.0, t)], b.ips[ip := Cell(y.0, t)], I.FRESH, SameIp(l, t))
  {
    hide SameIp, SameEmail, SamePair, SamePhone, SameUid, AlikeCells, AlikeRecords, CheckedIp, Fetch;
    FetchAlike(l, a, b, ip, "", "", "", t);
    var (r, r') := (Fetch(a.ips, ip, I.FRESH), Fetch(b.ips, ip, I.FRESH));
    CheckedIpAlike(l, r, r', action, env, t);
    PutAlike(a.ips, b.ips, ip, CheckedIp(l, r, action, env, t).0, CheckedIp(l, r', action, env, t).0, t, I.FRESH,
        SameIp(l, t));
  }

  lemma AuthenticatedAlike(l: Limits, a: Cache, b: Cache, uid: string, name: string, t: int)
    requires Alike(l, a, b, t) && Epoch(l, t)
    ensures var (x, y) := (U.Updated(l, Fetch(a.uids, uid, U.FRESH), name, t),
              U.Updated(l, Fetch(b.uids, uid, U.FRESH), name, t));
            && x.1 == y.1 && AlikeCells(a.uids[uid := Cell(x.0, t)], b.uids[uid := Cell(y.0, t)], U.FRESH,
                 SameUid(l, t))
  {
    hide SameIp, SameEmail, SamePair, SamePhone, AlikeCells, AlikeRecords, U.Updated, U.Alike, Fetch;
    FetchAlike(l, a, b, "", "", "", uid, t);
    var (r, r') := (Fetch(a.uids, uid, U.FRESH), Fetch(b.uids, uid, U.FRESH));
    U.AlikeDecides(l, r, r', name, t);
    PutAlike(a.uids, b.uids, uid, U.Updated(l, r, name, t).0, U.Updated(l, r', name, t).0, t, U.FRESH, SameUid(l, t));
  }

  /** Caches that cannot be told apart answer every request alike and stay that way. */
  lemma ServeAlike(cfg: Config, a: Cache, b: Cache, request: Request)
    requires Alike(cfg.limits, a, b, request.Time()) && Epoch(cfg.limits, request.Time()) && !request.Expire?
    ensures Serve(cfg, a, request).1 == Serve(cfg, b, request).1
    ensures Alike(cfg.limits, Serve(cfg, a, request).0, Serve(cfg, b, request).0, request.Time())
  {
    hide Alike, Handle, Accepted;
    HandleAlike(cfg, a, b, request);
  }

  lemma HandleAlike(cfg: Config, a: Cache, b: Cache, request: Request)
    requires Alike(cfg.limits, a, b, request.Time()) && Epoch(cfg.limits, request.Time()) && !request.Expire?
    ensures Handle(cfg, a, request).1 == Handle(cfg, b, request).1
    ensures Alike(cfg.limits, Handle(cfg, a, request).0, Handle(cfg, b, request).0, request.Time())
  {
    hide SameIp, SameEmail, SamePair, SamePhone, SameUid, AlikeCells, CheckRecords, SaveCheck, CheckedIp,
         IR.Applied, E.Applied, U.Updated, I.WithReport, I.TooHeavy, E.WithBadLogin, P.WithBadLogin, Fetch;
    var l, t := cfg.limits, request.Time();
    match request {
      case Check(ip, phone, q) =>
        ServeCheckAlike(l, a, b, ip, phone, q);
      case CheckIpOnly(_, ip, action, env) =>
        CheckIpOnlyAlike(l, a, b, ip, action, env, t);
      case CheckAuthenticated(_, uid, name) =>
        AuthenticatedAlike(l, a, b, uid, name, t);
      case FailedLogin(_, ip, email, errno) =>
        FailedLoginAlike(l, a, b, ip, email, errno, t);
      case PasswordReset(_, email) =>
        SetEmailAlike(l, a, b, email, E.Reset(t));
      case FlagIp(_, ip, flag) =>
        SetIpAlike(l, a, b, ip, IpStep(flag, t));
      case FlagEmail(_, email, flag) =>
        SetEmailAlike(l, a, b, email, EmailStep(flag, t));
    }
  }

  lemma SetEmailAlike(l: Limits, a: Cache, b: Cache, email: string, step: E.Step)
    requires Alike(l, a, b, step.t) && Epoch(l, step.t)
    ensures var (r, r') := (Fetch(a.emails, email, E.FRESH), Fetch(b.emails, email, E.FRESH));
            AlikeCells(a.emails[email := Cell(E.Applied(l, r, step).0, step.t)],
                b.emails[email := Cell(E.Applied(l, r', step).0, step.t)],
                       E.FRESH, SameEmail(l, step.t))
  {
    hide SameIp, SameEmail, SamePair, SamePhone, AlikeCells, E.Applied, Fetch;
    var t := step.t;
    FetchAlike(l, a, b, "", email, "", "", t);
    var (r, r') := (FetchRecords(a, "", email, ""), FetchRecords(b, "", email, ""));
    StepAlike(l, r, r', IR.Block(t), step, t);
    PutAlike(a.emails, b.emails, email, E.Applied(l, r.email, step).0, E.Applied(l, r'.email, step).0, t, E.FRESH,
        SameEmail(l, t));
  }

  lemma SetIpAlike(l: Limits, a: Cache, b: Cache, ip: string, step: IR.Step)
    requires Alike(l, a, b, step.t) && Epoch(l, step.t)
    ensures var (r, r') := (Fetch(a.ips, ip, I.FRESH), Fetch(b.ips, ip, I.FRESH));
            AlikeCells(a.ips[ip := Cell(IR.Applied(l, r, step).0, step.t)],
                b.ips[ip := Cell(IR.Applied(l, r', step).0, step.t)],
                       I.FRESH, SameIp(l, step.t))
  {
    hide SameIp, SameEmail, SamePair, SamePhone, AlikeCells, IR.Applied, Fetch;
    var t := step.t;
    FetchAlike(l, a, b, ip, "", "", "", t);
    var (r, r') := (FetchRecords(a, ip, "", ""), FetchRecords(b, ip, "", ""));
    StepAlike(l, r, r', step, E.Block(t), t);
    PutAlike(a.ips, b.ips, ip, IR.Applied(l, r.ip, step).0, IR.Applied(l, r'.ip, step).0, t, I.FRESH, SameIp(l, t));
  }

  // ---- Dropping a lapsed record ----

  /** Every cell was written by now and is `old` for the time it was written. */
  ghost predicate SoundCells<K, T>(cells: map<K, Cell<T>>, aged: (T, int) -> bool, now: int) {
    forall key <- cells :: aged(cells[key].record, cells[key].written) && cells[key].written <= now
  }

  /** The record holds only times up to `bound`, and no more accesses than are let through. */
  ghost function OldIp(cfg: Config): (I.State, int) -> bool {
    (s: I.State, bound) => IR.Old(s, bound) && |s.aa| <= cfg.limits.maxAccountAccess
  }

  ghost predicate Sound(cfg: Config, c: Cache, now: int) {
    && "" !in c.ips && "" !in c.emails
    && SoundCells(c.ips, OldIp(cfg), now) && SoundCells(c.emails, E.Old, now)
    && SoundCells(c.pairs, P.Old, now) && SoundCells(c.phones, R.Old, now) && SoundCells(c.uids, U.Old, now)
  }

  lemma DropIp(cfg: Config, a: Cache, b: Cache, ip: string, now: int)
    requires Alike(cfg.limits, a, b, now) && Sound(cfg, a, now) && MayExpire(cfg, a, IpKey(ip), now)
    requires Harmless(cfg.limits, a, IpKey(ip), now)
    ensures AlikeCells(a.ips - {ip}, b.ips, I.FRESH, SameIp(cfg.limits, now))
  {
    hide IR.Faded, E.Faded, P.Faded, R.Faded, U.Alike, IR.Old, E.Old, P.Old, R.Old, U.Old;
    var l := cfg.limits;
    assert SameIp(l, now)(Fetch(a.ips, ip, I.FRESH), Fetch(b.ips, ip, I.FRESH));
    if ip in a.ips {
      IR.FadesAway(l, a.ips[ip].record, a.ips[ip].written, now);
    }
    DropAlike(a.ips, b.ips, ip, I.FRESH, SameIp(l, now));
  }

  lemma DropEmail(cfg: Config, a: Cache, b: Cache, email: string, now: int)
    requires Alike(cfg.limits, a, b, now) && Sound(cfg, a, now) && MayExpire(cfg, a, EmailKey(email), now)
    requires Harmless(cfg.limits, a, EmailKey(email), now)
    ensures AlikeCells(a.emails - {email}, b.emails, E.FRESH, SameEmail(cfg.limits, now))
  {
    hide IR.Faded, E.Faded, P.Faded, R.Faded, U.Alike, IR.Old, E.Old, P.Old, R.Old, U.Old;
    var l := cfg.limits;
    assert SameEmail(l, now)(Fetch(a.emails, email, E.FRESH), Fetch(b.emails, email, E.FRESH));
    if email in a.emails {
      E.FadesAway(l, a.emails[email].record, a.emails[email].written, now);
    }
    DropAlike(a.emails, b.emails, email, E.FRESH, SameEmail(l, now));
  }

  lemma DropPair(cfg: Config, a: Cache, b: Cache, pair: (string, string), now: int)
    requires Alike(cfg.limits, a, b, now) && Sound(cfg, a, now) && MayExpire(cfg, a, PairKey(pair), now)
    ensures AlikeCells(a.pairs - {pair}, b.pairs, P.FRESH, SamePair(cfg.limits, now))
  {
    hide IR.Faded, E.Faded, P.Faded, R.Faded, U.Alike, IR.Old, E.Old, P.Old, R.Old, U.Old;
    var l := cfg.limits;
    assert SamePair(l, now)(Fetch(a.pairs, pair, P.FRESH), Fetch(b.pairs, pair, P.FRESH));
    if pair in a.pairs {
      P.FadesAway(l, a.pairs[pair].record, a.pairs[pair].written, now);
    }
    DropAlike(a.pairs, b.pairs, pair, P.FRESH, SamePair(l, now));
  }

  lemma DropPhone(cfg: Config, a: Cache, b: Cache, phone: string, now: int)
    requires Alike(cfg.limits, a, b, now) && Sound(cfg, a, now) && MayExpire(cfg, a, PhoneKey(phone), now)
    ensures AlikeCells(a.phones - {phone}, b.phones, R.FRESH, SamePhone(cfg.limits, now))
  {
    hide IR.Faded, E.Faded, P.Faded, R.Faded, U.Alike, IR.Old, E.Old, P.Old, R.Old, U.Old;
    var l := cfg.limits;
    assert SamePhone(l, now)(Fetch(a.phones, phone, R.FRESH), Fetch(b.phones, phone, R.FRESH));
    if phone in a.phones {
      R.FadesAway(S.SmsRule(l), a.phones[phone].record, a.phones[phone].written, now);
    }
    DropAlike(a.phones, b.phones, phone, R.FRESH, SamePhone(l, now));
  }

  lemma DropUid(cfg: Config, a: Cache, b: Cache, uid: string, now: int)
    requires Alike(cfg.limits, a, b, now) && Sound(cfg, a, now) && MayExpire(cfg, a, UidKey(uid), now)
    ensures AlikeCells(a.uids - {uid}, b.uids, U.FRESH, SameUid(cfg.limits, now))
  {
    hide IR.Faded, E.Faded, P.Faded, R.Faded, U.Alike, IR.Old, E.Old, P.Old, R.Old, U.Old;
    var l := cfg.limits;
    var (x, y) := (Fetch(a.uids, uid, U.FRESH), Fetch(b.uids, uid, U.FRESH));
    assert SameUid(l, now)(x, y);
    if uid in a.uids {
      U.FadesAway(l, x, a.uids[uid].written, now);
      U.AlikeChain(l, x, U.FRESH, y, now);
    }
    DropAlike(a.uids, b.uids, uid, U.FRESH, SameUid(l, now));
  }

  /** Dropping a lapsed and harmless record makes no difference. */
  lemma DropUnnoticed(cfg: Config, a: Cache, b: Cache, key: Key, now: int)
    requires Alike(cfg.limits, a, b, now) && Sound(cfg, a, now) && MayExpire(cfg, a, key, now)
    requires Harmless(cfg.limits, a, key, now)
    ensures Alike(cfg.limits, Drop(a, key), b, now)
  {
    hide SameIp, SameEmail, SamePair, SamePhone, SameUid, AlikeCells, Sound, MayExpire, Harmless;
    match key
    case IpKey(ip) => DropIp(cfg, a, b, ip, now);
    case EmailKey(email) => DropEmail(cfg, a, b, email, now);
    case PairKey(pair) => DropPair(cfg, a, b, pair, now);
    case PhoneKey(phone) => DropPhone(cfg, a, b, phone, now);
    case UidKey(uid) => DropUid(cfg, a, b, uid, now);
  }

  // ---- Soundness is kept ----

  lemma SoundPut<K, T>(cells: map<K, Cell<T>>, key: K, x: T, aged: (T, int) -> bool, now: int, t: int)
    requires SoundCells(cells, aged, now) && aged(x, t) && now <= t
    ensures SoundCells(cells[key := Cell(x, t)], aged, t)
  {
  }

  lemma SoundLater<K, T>(cells: map<K, Cell<T>>, aged: (T, int) -> bool, now: int, t: int)
    requires SoundCells(cells, aged, now) && now <= t
    ensures SoundCells(cells, aged, t)
  {
  }

  lemma SoundFetch<K, T>(cells: map<K, Cell<T>>, key: K, blank: T, aged: (T, int) -> bool, now: int)
    returns (bound: int)
    requires SoundCells(cells, aged, now) && aged(blank, now)
    ensures bound <= now && aged(Fetch(cells, key, blank), bound)
  {
    bound := if key in cells then cells[key].written else now;
  }

  lemma CacheLater(cfg: Config, c: Cache, now: int, t: int)
    requires Sound(cfg, c, now) && now <= t
    ensures Sound(cfg, c, t)
  {
    hide SoundCells, OldIp;
    SoundLater(c.ips, OldIp(cfg), now, t);
    SoundLater(c.emails, E.Old, now, t);
    SoundLater(c.pairs, P.Old, now, t);
    SoundLater(c.phones, R.Old, now, t);
    SoundLater(c.uids, U.Old, now, t);
  }

  /** The IP cell of a sound cache after a step on it. */
  lemma IpCellSound(cfg: Config, c: Cache, ip: string, step: IR.Step, now: int)
    requires Sound(cfg, c, now) && now <= step.t
    ensures var s' := IR.Applied(cfg.limits, Fetch(c.ips, ip, I.FRESH), step).0;
            SoundCells(c.ips[ip := Cell(s', step.t)], OldIp(cfg), step.t)
  {
    hide IR.Applied, SoundCells, Fetch;
    var s := Fetch(c.ips, ip, I.FRESH);
    var bound := SoundFetch(c.ips, ip, I.FRESH, OldIp(cfg), now);
    IR.StaysOld(cfg.limits, s, step, bound);
    IR.AccessesBounded(cfg.limits, s, step);
    SoundPut(c.ips, ip, IR.Applied(cfg.limits, s, step).0, OldIp(cfg), now, step.t);
  }

  lemma EmailCellSound(cfg: Config, c: Cache, email: string, step: E.Step, now: int)
    requires Sound(cfg, c, now) && now <= step.t
    ensures var s' := E.Applied(cfg.limits, Fetch(c.emails, email, E.FRESH), step).0;
            SoundCells(c.emails[email := Cell(s', step.t)], E.Old, step.t)
  {
    hide E.Applied, SoundCells, Fetch;
    var s := Fetch(c.emails, email, E.FRESH);
    var bound := SoundFetch(c.emails, email, E.FRESH, E.Old, now);
    E.StaysOld(cfg.limits, s, step, bound);
    SoundPut(c.emails, email, E.Applied(cfg.limits, s, step).0, E.Old, now, step.t);
  }

  lemma PairCellSound(cfg: Config, c: Cache, pair: (string, string), step: P.Step, now: int)
    requires Sound(cfg, c, now) && now <= step.t
    ensures var s' := P.Applied(cfg.limits, Fetch(c.pairs, pair, P.FRESH), step).0;
            SoundCells(c.pairs[pair := Cell(s', step.t)], P.Old, step.t)
  {
    hide P.Applied, SoundCells, Fetch;
    var s := Fetch(c.pairs, pair, P.FRESH);
    var bound := SoundFetch(c.pairs, pair, P.FRESH, P.Old, now);
    P.StaysOld(cfg.limits, s, step, bound);
    SoundPut(c.pairs, pair, P.Applied(cfg.limits, s, step).0, P.Old, now, step.t);
  }

  lemma PhoneCellSound(cfg: Config, c: Cache, phone: string, counted: bool, now: int, t: int)
    requires Sound(cfg, c, now) && now <= t
    ensures var s' := R.Updated(S.SmsRule(cfg.limits), Fetch(c.phones, phone, R.FRESH), counted, t).0;
            SoundCells(c.phones[phone := Cell(s', t)], R.Old, t)
  {
    hide R.Updated, SoundCells, Fetch;
    var rule, s := S.SmsRule(cfg.limits), Fetch(c.phones, phone, R.FRESH);
    var bound := SoundFetch(c.phones, phone, R.FRESH, R.Old, now);
    R.StaysOld(rule, s, counted, t, bound);
    SoundPut(c.phones, phone, R.Updated(rule, s, counted, t).0, R.Old, now, t);
  }

  lemma UidCellSound(cfg: Config, c: Cache, uid: string, name: string, now: int, t: int)
    requires Sound(cfg, c, now) && now <= t
    ensures var s' := U.Updated(cfg.limits, Fetch(c.uids, uid, U.FRESH), name, t).0;
            SoundCells(c.uids[uid := Cell(s', t)], U.Old, t)
  {
    hide U.Updated, SoundCells, Fetch;
    var s := Fetch(c.uids, uid, U.FRESH);
    var bound := SoundFetch(c.uids, uid, U.FRESH, U.Old, now);
    U.StaysOld(cfg.limits, s, name, t, bound);
    SoundPut(c.uids, uid, U.Updated(cfg.limits, s, name, t).0, U.Old, now, t);
  }

  lemma CheckKeepsSound(cfg: Config, c: Cache, ip: string, phone: string, q: Query, now: int)
    requires Sound(cfg, c, now) && now <= q.t && ip != "" && q.email != ""
    ensures Sound(cfg, Handle(cfg, c, Check(ip, phone, q)).0, q.t)
  {
    hide SoundCells, OldIp, I.Updated, E.Applied, P.Applied, R.Updated, Judged, Fetch;
    var l, t := cfg.limits, q.t;
    CacheLater(cfg, c, now, t);
    IpCellSound(cfg, c, ip, IR.Check(t, q.action, q.email), now);
    EmailCellSound(cfg, c, q.email, E.Check(t, q.action, q.unblock), now);
    var email := E.Applied(l, Fetch(c.emails, q.email, E.FRESH), E.Check(t, q.action, q.unblock)).0;
    PairCellSound(cfg, c, (ip, q.email), P.Check(t, q.action, email.pr, true), now);
    PhoneCellSound(cfg, c, phone, q.phone && IsSmsSending(q.action), now, t);
  }

  lemma ServeKeepsSound(cfg: Config, c: Cache, request: Request, now: int)
    requires Sound(cfg, c, now) && now <= request.Time()
    ensures Sound(cfg, Serve(cfg, c, request).0, request.Time())
  {
    hide SoundCells, OldIp, CheckRecords, I.Updated, I.WithReport, E.WithBadLogin, P.WithBadLogin, U.Updated, Fetch;
    var t := request.Time();
    CacheLater(cfg, c, now, t);
    if !Accepted(request) {
      return;
    }
    match request {
      case Check(ip, phone, q) => CheckKeepsSound(cfg, c, ip, phone, q, now);
      case CheckIpOnly(_, ip, action, _) => IpCellSound(cfg, c, ip, IR.Check(t, action, ""), now);
      case CheckAuthenticated(_, uid, name) => UidCellSound(cfg, c, uid, name, now, t);
      case FailedLogin(_, ip, email, errno) =>
        IpCellSound(cfg, c, ip, IR.BadLogin(t, email, errno), now);
        EmailCellSound(cfg, c, email, E.BadLogin(t), now);
        PairCellSound(cfg, c, (ip, email), P.BadLogin(t), now);
      case PasswordReset(_, email) => EmailCellSound(cfg, c, email, E.Reset(t), now);
      case FlagIp(_, ip, flag) => IpCellSound(cfg, c, ip, IpStep(flag, t), now);
      case FlagEmail(_, email, flag) => EmailCellSound(cfg, c, email, EmailStep(flag, t), now);
      case Expire(_, key) => DropKeepsSound(cfg, c, key, t);
    }
  }

  lemma DropKeepsSound(cfg: Config, c: Cache, key: Key, now: int)
    requires Sound(cfg, c, now)
    ensures Sound(cfg, Drop(c, key), now)
  {
    hide OldIp;
  }

  // ---- Losing lapsed records is never noticed ----

  /** Every run, lossy or not, leaves a sound cache. */
  lemma {:induction false} RunSound(cfg: Config, requests: seq<Request>, lossy: bool, now: int)
    requires Clocked(cfg.limits, requests, now)
    ensures Sound(cfg, Served(cfg, requests, lossy).0, now)
  {
    hide Sound, Serve;
    if requests == [] {
      EmptyAlike(cfg, now);
    } else {
      var init, last := requests[..|requests| - 1], requests[|requests| - 1];
      RunSound(cfg, init, lossy, last.Time());
      if !last.Expire? || lossy {
        ServeKeepsSound(cfg, Served(cfg, init, lossy).0, last, last.Time());
      }
      CacheLater(cfg, Served(cfg, requests, lossy).0, last.Time(), now);
    }
  }

  lemma {:induction false} LossUnnoticed(cfg: Config, requests: seq<Request>, now: int)
    requires Clocked(cfg.limits, requests, now) && KeepsPromise(cfg, requests) && DropsHarmless(cfg, requests)
    ensures Alike(cfg.limits, Served(cfg, requests, true).0, Served(cfg, requests, false).0, now)
    ensures Served(cfg, requests, true).1 == Served(cfg, requests, false).1
  {
    hide Alike, Sound, Serve, MayExpire, Harmless;
    if requests == [] {
      EmptyAlike(cfg, now);
    } else {
      var init, last := requests[..|requests| - 1], requests[|requests| - 1];
      var t := last.Time();
      LossUnnoticed(cfg, init, t);
      var (a, b) := (Served(cfg, init, true).0, Served(cfg, init, false).0);
      if last.Expire? {
        RunSound(cfg, init, true, t);
        ExpireDrops(cfg, a, last);
        DropUnnoticed(cfg, a, b, last.key, t);
      } else {
        ServeAlike(cfg, a, b, last);
      }
      AlikeLater(cfg.limits, Served(cfg, requests, true).0, Served(cfg, requests, false).0, t, now);
    }
  }

  lemma ExpireDrops(cfg: Config, c: Cache, request: Request)
    requires request.Expire?
    ensures Serve(cfg, c, request) == (Drop(c, request.key), Done)
  {
    hide CheckRecords, CheckedIp;
  }

  lemma EmptyAlike(cfg: Config, now: int)
    ensures Alike(cfg.limits, EMPTY, EMPTY, now) && Sound(cfg, EMPTY, now)
  {
    hide IR.Faded, E.Faded, P.Faded, R.Faded;
  }

  /** Cache expiry is unobservable: as long as the cache keeps records for their lifetime and
      what it drops is harmless, every response is the one a cache that never loses anything
      would have given, whatever else is asked of the server. */
  lemma ExpiryUnobservable(cfg: Config, requests: seq<Request>, now: int)
    requires Clocked(cfg.limits, requests, now) && KeepsPromise(cfg, requests) && DropsHarmless(cfg, requests)
    ensures Served(cfg, requests, true).1 == Served(cfg, requests, false).1
  {
    LossUnnoticed(cfg, requests, now);
  }
}
