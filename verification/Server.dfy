/** The request handlers of the customs server, on the records they fetch. */
module Server {
  import opened Clock
  import opened Customs
  import I = IpRecord
  import E = EmailRecord
  import P = IpEmailRecord
  import R = RateRecord
  import S = SmsRecord

  /** What the other services and the request itself say: the general suspicion, a missing
      flow id and whether one is required, the IP blocklist, the reputation, the allowlists. */
  datatype Env = Env(
    suspicious: bool, missingFlowId: bool, flowIdRequired: bool, blocklisted: bool, badReputation: bool, allowed: bool)

  datatype Reason = NoReason | OtherReason | InBlocklist | BadReputation

  datatype Verdict = Verdict(block: bool, retryAfter: nat, unblock: bool, suspect: bool, reason: Reason)

  /** The records a check fetches; `sms` is used only if the request names a phone. */
  datatype Records = Records(ip: I.State, email: E.State, pair: P.State, sms: R.State)

  datatype Query = Query(t: int, email: string, action: Action, unblock: bool, phone: bool, env: Env)

  datatype Outcome = Outcome(records: Records, saved: bool, verdict: Verdict)

  function Allowlisted(v: Verdict, env: Env): Verdict {
    if (v.block || v.suspect) && env.allowed then v.(block := false, suspect := false) else v
  }

  /** An IP that is blocked or disabled is turned away before any record is touched. */
  predicate TurnedAway(l: Limits, ip: I.State, now: int) {
    I.IsBlocked(l, ip, now) || I.IsDisabled(l, ip, now)
  }

  /** The verdict from the four delays and everything else that may block. */
  function Judged(l: Limits, ip: I.State, email: E.State, delay: nat, q: Query): Verdict {
    var suspect := q.env.suspicious || I.IsSuspected(l, ip, q.t) || E.IsSuspected(l, email, q.t);
    var noFlow := delay == 0 && q.action.AccountLogin? && q.env.missingFlowId;
    var unblock := |email.ub| <= l.maxUnblockAttempts;
    var v := Verdict(delay > 0 || (noFlow && q.env.flowIdRequired), delay, unblock, suspect || noFlow,
                     if delay > 0 then OtherReason else NoReason);
    var v := if q.env.blocklisted then v.(block := true, reason := InBlocklist, retryAfter := 0) else v;
    if q.env.badReputation then v.(block := true, reason := BadReputation, retryAfter := I.RetryAfter(l, ip, q.t))
        else v
  }

  /** `checkRecords` of the `/check` handler. */
  function CheckRecords(l: Limits, r: Records, q: Query): Outcome {
    if TurnedAway(l, r.ip, q.t) then
      Outcome(r, false, Allowlisted(Verdict(true, I.RetryAfter(l, r.ip, q.t), false, false, NoReason), q.env))
    else
      var (email, blockEmail) := E.Applied(l, r.email, E.Check(q.t, q.action, q.unblock));
      var (pair, blockPair) := P.Applied(l, r.pair, P.Check(q.t, q.action, email.pr, true));
      var (ip, blockIp) := I.Updated(l, r.ip, q.action, q.email, q.t);
      var (sms, blockSms) := R.Updated(S.SmsRule(l), r.sms, q.phone && IsSmsSending(q.action), q.t);
      var delay := Max(Max(blockEmail, blockPair), Max(blockIp, blockSms));
      Outcome(Records(ip, email, pair, sms), true, Allowlisted(Judged(l, ip, email, delay, q), q.env))
  }

  /** The answer to a check, from what the four records answer on their own: it blocks exactly when one
      of them asks to wait, a login lacks a flow id that is required, or the blocklist or the reputation
      say so; the delay is the longest of the four unless the last two override it. An allowlisted
      request is neither blocked nor suspect. */
  lemma VerdictIsExact(l: Limits, r: Records, q: Query)
    requires !TurnedAway(l, r.ip, q.t)
    ensures var email := E.Applied(l, r.email, E.Check(q.t, q.action, q.unblock));
            var pair := P.Applied(l, r.pair, P.Check(q.t, q.action, email.0.pr, true));
            var ip := I.Updated(l, r.ip, q.action, q.email, q.t);
            var phone := R.Updated(S.SmsRule(l), r.sms, q.phone && IsSmsSending(q.action), q.t);
            var waits := email.1 > 0 || pair.1 > 0 || ip.1 > 0 || phone.1 > 0;
            var Outcome(after, saved, v) := CheckRecords(l, r, q);
            var lacksFlow := q.action.AccountLogin? && q.env.missingFlowId;
            && saved && after == Records(ip.0, email.0, pair.0, phone.0)
            && (v.block <==>
                  && !q.env.allowed
                  && (waits || (lacksFlow && q.env.flowIdRequired) || q.env.blocklisted || q.env.badReputation))
            && (v.suspect <==>
                  && !q.env.allowed
                  && (|| q.env.suspicious || I.IsSuspected(l, ip.0, q.t) || E.IsSuspected(l, email.0, q.t)
                      || (lacksFlow && !waits)))
            && (v.unblock <==> |email.0.ub| <= l.maxUnblockAttempts)
            && (if q.env.badReputation then
                  v.reason == BadReputation && v.retryAfter == I.RetryAfter(l, ip.0, q.t)
                else if q.env.blocklisted then
                  v.reason == InBlocklist && v.retryAfter == 0
                else
                  && v.reason == (if waits then OtherReason else NoReason)
                  && v.retryAfter >= email.1 && v.retryAfter >= pair.1
                  && v.retryAfter >= ip.1 && v.retryAfter >= phone.1
                  && (v.retryAfter == email.1 || v.retryAfter == pair.1
                      || v.retryAfter == ip.1 || v.retryAfter == phone.1))
  {
    hide E.Applied, P.Applied, I.Updated, R.Updated, I.IsSuspected, E.IsSuspected, I.RetryAfter, TurnedAway;
  }

  /** An address that is blocked or disabled is told so, and nothing is counted or saved. */
  lemma TurnedAwayVerdict(l: Limits, r: Records, q: Query)
    requires TurnedAway(l, r.ip, q.t)
    ensures var Outcome(after, saved, v) := CheckRecords(l, r, q);
            && !saved && after == r && v.retryAfter == I.RetryAfter(l, r.ip, q.t)
            && v.block == !q.env.allowed && !v.suspect && !v.unblock && v.reason == NoReason
  {
  }

  /** The handler on the record objects it fetched. `sms` is null without a phone number. */
  method CheckObjects(l: Limits, ip: I.IpRecord, email: E.EmailRecord, pair: P.IpEmailRecord, sms: S.SMSRecord?,
                      q: Query)
      returns (saved: bool, verdict: Verdict)
    requires ip.limits == l && email.limits == l && pair.limits == l && (sms != null ==> sms.limits == l)
    requires q.phone <==> sms != null
    modifies ip, email, pair, sms
    ensures var before := Records(old(ip.View()), old(email.View()), old(pair.View()),
                                  if sms == null then R.FRESH else old(sms.View()));
            var after := Records(ip.View(), email.View(), pair.View(), if sms == null then R.FRESH else sms.View());
            CheckRecords(l, before, q) == Outcome(after, saved, verdict)
  {
    hide I.Updated, E.Updated, P.Updated, Judged, E.Trimmed;
    if I.IsBlocked(l, ip.View(), q.t) || I.IsDisabled(l, ip.View(), q.t) {
      return false, Allowlisted(Verdict(true, I.RetryAfter(l, ip.View(), q.t), false, false, NoReason), q.env);
    }
    var blockEmail := email.Update(q.action, q.unblock, q.t);
    var blockPair := pair.Update(q.action, q.t);
    var blockIp := ip.Update(q.action, q.email, q.t);
    var blockSms := 0;
    if sms != null {
      blockSms := sms.Update(q.action, q.t);
    }
    if blockPair > 0 {
      var lifted := pair.UnblockIfReset(email.pr);
      if lifted {
        blockPair := 0;
      }
    }
    var delay := Max(Max(blockEmail, blockPair), Max(blockIp, blockSms));
    var _ := email.CanUnblock(q.t);
    return true, Allowlisted(Judged(l, ip.View(), email.View(), delay, q), q.env);
  }

  /** The record steps of the `/failedLoginAttempt` handler; `over` is what the reputation service is told. */
  method ReportObjects(l: Limits, ip: I.IpRecord, email: E.EmailRecord, pair: P.IpEmailRecord, address: string,
                       errno: int, now: int)
      returns (over: bool)
    requires ip.limits == l && email.limits == l && pair.limits == l
    modifies ip, email, pair
    ensures ip.View() == I.WithReport(l, old(ip.View()), address, errno, now)
    ensures email.View() == E.WithBadLogin(l, old(email.View()), now)
    ensures pair.View() == P.WithBadLogin(l, old(pair.View()), now)
    ensures over <==> I.TooHeavy(l, ip.View().lf)
  {
    ip.AddBadLogin(address, errno, now);
    pair.AddBadLogin(now);
    email.AddBadLogin(now);
    over := ip.IsOverBadLogins(now);
  }
}
