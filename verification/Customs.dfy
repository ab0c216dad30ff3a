/** What the customs records share: the action classes and the limits. */
module Customs {

  /** The actions the classes list, and everything else. */
  datatype Action =
    | AccountLogin | AccountDestroy | PasswordChange
    | RecoveryEmailVerifyCode | PasswordForgotVerifyCode | VerifyRecoveryCode | VerifySessionCode | VerifyTotpCode
    | AccountCreate | PasswordForgotSendCode | AccountStatusCheck | SendUnblockCode | RecoveryKeyExists
    | CreateEmail | RecoveryEmailResendCode | RecoveryEmailSecondaryResendCode | PasswordForgotResendCode
    | ConnectDeviceSms
    | ConsumeSigninCode
    | Other(name: string)

  predicate IsPasswordChecking(a: Action) {
    a.AccountLogin? || a.AccountDestroy? || a.PasswordChange?
  }

  predicate IsCodeVerifying(a: Action) {
    || a.RecoveryEmailVerifyCode? || a.PasswordForgotVerifyCode? || a.VerifyRecoveryCode?
    || a.VerifySessionCode? || a.VerifyTotpCode?
  }

  predicate IsAccountStatus(a: Action) {
    || a.AccountCreate? || a.AccountLogin? || a.AccountDestroy? || a.PasswordChange?
    || a.PasswordForgotSendCode? || a.AccountStatusCheck? || a.SendUnblockCode? || a.RecoveryKeyExists?
  }

  predicate IsEmailSending(a: Action) {
    || a.AccountCreate? || a.CreateEmail? || a.RecoveryEmailResendCode? || a.RecoveryEmailSecondaryResendCode?
    || a.PasswordForgotSendCode? || a.PasswordForgotResendCode? || a.SendUnblockCode?
  }

  predicate IsSmsSending(a: Action) {
    a.ConnectDeviceSms?
  }

  predicate IsAccountAccess(a: Action) {
    a.ConsumeSigninCode?
  }

  /** The request names its action. */
  predicate IsNamed(a: Action) {
    a.Other? ==> a.name != ""
  }

  /** The configured limits, with every interval in ms. */
  datatype Limits = Limits(
    blockIntervalMs: nat,
    suspectIntervalMs: nat,
    disableIntervalMs: nat,
    rateLimitIntervalMs: nat,
    maxEmails: nat,
    maxBadLogins: nat,
    maxBadLoginsPerIp: nat,
    maxBadLoginsPerEmail: nat,
    maxUnblockAttempts: nat,
    maxVerifyCodes: nat,
    ipRateLimitIntervalMs: nat,
    ipRateLimitBanDurationMs: nat,
    maxAccountStatusCheck: nat,
    badLoginErrnoWeights: map<int, real>,
    maxChecksPerUid: nat,
    uidRateLimitBanDurationMs: nat,
    uidRateLimitIntervalMs: nat,
    maxSms: nat,
    smsRateLimitIntervalMs: nat,
    maxAccountAccess: nat)

  /** The clock counts from 1970, so its readings are positive and no interval
      reaches back beyond its origin. */
  predicate Epoch(l: Limits, now: int) {
    && now > 0
    && now >= l.blockIntervalMs && now >= l.suspectIntervalMs && now >= l.disableIntervalMs
    && now >= l.rateLimitIntervalMs && now >= l.smsRateLimitIntervalMs
    && now >= l.ipRateLimitIntervalMs && now >= l.ipRateLimitBanDurationMs
  }

  /** A time at which the clock is past every interval. */
  function Late(l: Limits): (t: int)
    ensures Epoch(l, t)
  {
    1 + l.blockIntervalMs + l.suspectIntervalMs + l.disableIntervalMs + l.rateLimitIntervalMs
    + l.smsRateLimitIntervalMs + l.ipRateLimitIntervalMs + l.ipRateLimitBanDurationMs
  }
}
