/** The record kept for a phone number. */
module SmsRecord {
  import opened Clock
  import opened Customs
  import opened EventLog
  import opened Throttle
  import Rate = RateRecord

  /** The sms limits as a rule: the ban lasts as long as the counting period. */
  function SmsRule(l: Limits): Rate.Rule {
    Rate.Rule(l.maxSms, l.smsRateLimitIntervalMs, l.smsRateLimitIntervalMs)
  }

  class SMSRecord {
    var rl: Stamp
    var sms: seq<int>
    const limits: Limits

    function View(): Rate.State
      reads this
    {
      Rate.State(rl, sms)
    }

    constructor (limits: Limits)
      ensures View() == Rate.FRESH && this.limits == limits
    {
      this.limits := limits;
      rl, sms := Unset, [];
    }

    method IsOverSmsLimit(now: int) returns (over: bool)
      modifies this`sms
      ensures sms == Keep(old(sms), now - limits.smsRateLimitIntervalMs, limits.maxSms + 1)
      ensures over <==> |sms| > limits.maxSms
    {
      hide Keep;
      sms := Trim(sms, now - limits.smsRateLimitIntervalMs, limits.maxSms + 1);
      over := |sms| > limits.maxSms;
    }

    method Update(action: Action, now: int) returns (retryAfter: nat)
      modifies this
      ensures (View(), retryAfter) == Rate.Updated(SmsRule(limits), old(View()), IsSmsSending(action), now)
    {
      if IsSmsSending(action) {
        if Active(rl, limits.smsRateLimitIntervalMs, now) {
          return RetrySeconds(MsLeft(rl, limits.smsRateLimitIntervalMs, now));
        }
        sms := sms + [now];
        var over := IsOverSmsLimit(now);
        if over {
          rl, sms := At(now), [];
          return RetrySeconds(MsLeft(rl, limits.smsRateLimitIntervalMs, now));
        }
      }
      return 0;
    }
  }

  /** A request concerning the phone number. */
  datatype Request = Request(t: int, action: Action)

  function Calls(requests: seq<Request>): seq<Rate.Call> {
    seq(|requests|, i requires 0 <= i < |requests| => Rate.Call(requests[i].t, IsSmsSending(requests[i].action)))
  }

  /** Whatever else is asked in between and however often the number gets banned, every
      window of one interval sees at most `maxSms` sms requests let through. */
  lemma SmsThroughput(l: Limits, requests: seq<Request>, lo: int)
    requires forall i :: 0 <= i < |requests| ==> requests[i].t > 0
    requires forall i, j :: 0 <= i < j < |requests| ==> requests[i].t <= requests[j].t
    ensures CountIn(Rate.Allowed(SmsRule(l), Calls(requests)), lo, lo + l.smsRateLimitIntervalMs) <= l.maxSms
  {
    hide Rate.Allowed, CountIn;
    Rate.LongBanThrottles(SmsRule(l), Calls(requests), lo);
  }
}
