# Verified models of the Firefox Accounts limiter, reminders, blocklist and key wrapping

A Dafny model of five parts of Firefox Accounts whose correctness depends on whole runs rather than
on single calls, with proofs that hold for every input, every run and every interleaving modelled.

- **The customs server** keeps small timed records per IP address, email, address and email pair,
  phone number and uid, and answers each request with a delay. The records are classes that change
  in place; each method is proved equal to a step of a state machine, and the theorems are about
  runs of those machines: trimmed logs decide like full histories, sliding windows and password
  guesses are bounded although bans wipe the logs, and a cache that loses lapsed records cannot be
  told from one that keeps everything.
- **The IP blocklist** answers like a linear scan of its rows, also while it is being reloaded.
- **The reminder scheduler** loses no record, invents none and mails nobody twice.
- **The key-wrapping protocol** of the auth client keeps kB through any sequence of password changes
  and recovery-key resets.
- **The bounce rules**, one pass with running tallies, match their declarative meaning.

`dafny verify dfyconfig.toml` checks the whole project.

## How the files fit together

| files | what they hold |
|---|---|
| `Results` | optional values and failures |
| `Clock`, `EventLog`, `UserLog`, `Throttle` | stamps and delays, the two trim loops, window counting |
| `Customs`, `RateRecord`, `SmsRecord`, `IpEmailRecord`, `EmailRecord`, `LoginScore`, `IpRecord`, `IpRuns`, `UidRecord`, `UidRuns` | the records and their runs |
| `EmailRuns`, `IpStory` | what those two records answer on every run, told by records that never trim |
| `Server`, `Store`, `ExpiryLimits`, `GuessProtocol`, `ServerBounds` | the handlers, the expiring cache, and what holds of the whole server |
| `Blocklist`, `BlocklistText`, `Bounces` | the blocklist index and its reload; the text of its rows; the bounce rules |
| `Hex`, `OnePw` | the hex codec and XOR; the key-wrapping protocol |
| `Reminders`, `ReminderRun`, `ReminderRound`, `ReminderScript` | the sorted sets; a run as a fold over records, with the theorems; what it comes to for one account; the script's loops, proved to refine the fold |

Time is an integer number of milliseconds, read once per call, never decreasing, positive and at
least as large as every configured interval. The limits stay fixed during a run. Calls out of the
system (reputation, blocklist hit, allowlist, flow id, mail delivery, the rollout lottery) are inputs.

## Where the code does not keep a promise

Each of these is settled by an if-and-only-if over all runs, with a run that fails constructed for
every configuration on the wrong side.

- A user-defined rule whose ban is shorter than its counting period lets more than `max` calls
  through per period (`RateRecord.ThrottlesExactlyWhen`).
- An email record's `shouldBlock` counts a disabled address as blocked, but the delay it then returns
  ignores the disable stamp, so a disabled address that is not limited otherwise is let through
  uncounted (`EmailRecord.ThroughputExactlyWhen`).
- Trimming the bad logins of an IP by unique email is harmless only for heavy errno weights
  (`IpRuns.LoginVerdictExactlyWhen`).
- A check of a uid for one action lifts the ban earned by another and is not counted, so two actions
  together are not limited (`UidRuns.ThroughputExactlyWhen`).
- Records expire before a long suspect or disable flag does, by default a disable flag of one year
  (`ExpiryLimits.ExpiryUnobservableExactlyWhen`), and account accesses, which are never trimmed, are
  forgotten only by expiry (`ExpiryLimits.AccessExpiryNoticed`). Every other drop of a lapsed record
  goes unnoticed (`ExpiryLimits.DropUnnoticedExactlyWhen`).
- A user-defined record is stored for its ban only, so a longer counting period is forgotten early
  (`RateRecord.ExpiryUnnoticedExactlyWhen`).
- `hexToUint8` refuses the empty string that `uint8ToHex` produces (`Hex.HexRoundTrip`).
- kB depends on the key derivation: if two passwords shared an authPW but not an unwrap key, one
  change with the other password would lose it (`OnePw.CollisionLosesKb`). Changes made with the
  current password keep it whatever the derivation (`OnePw.KbIsInvariant`).

## Model

| member | source | states |
|---|---|---|
| EventLog.Start | packages/fxa-customs-server/lib/email_record.js:44-59 | the first kept position: everything from it on is inside the window, at most `cap` entries are kept, and the scan stops only at the cap, at the front or at an expired entry |
| EventLog.Trim | packages/fxa-customs-server/lib/email_record.js:44-59 | the backwards trim loop, shared in shape by every timestamp log, computes the specified suffix |
| EventLog.KeepIsNewest | packages/fxa-customs-server/lib/email_record.js:212-230 | on a sorted log, trimming keeps exactly the newest min(in-window count, cap) entries |
| EventLog.KeepDecides | packages/fxa-customs-server/lib/email_record.js:39-42 | the kept length exceeds `max` exactly when the in-window count of the whole log does |
| EventLog.KeepAbsorbs | packages/fxa-customs-server/lib/email_record.js:130-148 | trimming early changes no later trim, whatever is appended in between; no sortedness is assumed |
| EventLog.StoredLooksFull | packages/fxa-customs-server/lib/email_record.js:70-88 | after any interleaving of additions and trims under a running clock, the stored log trims like a log that was never trimmed |
| EventLog.TrimmingRefinesHistory | packages/fxa-customs-server/lib/record.js:32-58 | so the over-limit answer at any later time is the answer of the full history, although at most `max` + 1 entries are stored |
| Throttle.SpacedBoundsWindows | packages/fxa-customs-server/lib/record.js:79-93 | if any `max` + 1 consecutive let-through times span at least the period, no half-open window of that length holds more than `max` of them |
| Throttle.OldestIsOld | packages/fxa-customs-server/lib/record.js:79-93 | a not banned, not full log proves that the let-through call `cap` places back is out of the window, even though bans wiped the log |
| RateRecord.Record.IsOverLimit | packages/fxa-customs-server/lib/record.js:32-35 | trims the hits in place and compares their number with `max` |
| RateRecord.Record.Update | packages/fxa-customs-server/lib/record.js:79-93 | the object's new fields and the delay are those of the state machine that the run theorems are about |
| RateRecord.LongBanThrottles | packages/fxa-customs-server/lib/record.js:37-93 | with a ban at least as long as the counting period, over every run at most `max` counted calls get 0 in any half-open period |
| RateRecord.ShortBanLeaks | packages/fxa-customs-server/lib/record.js:60-93 | with a shorter ban there is a run, built for every such rule, that lets more than `max` calls through in one period |
| RateRecord.ZeroRuleAllowsNothing | packages/fxa-customs-server/lib/record.js:79-93 | a rule with `max` 0 and a real ban never lets a counted call through |
| RateRecord.RetryAfterIsExact | packages/fxa-customs-server/lib/record.js:60-93 | n seconds are fewer than the delay exactly when the caller is still banned n seconds later |
| RateRecord.RecordTellsStory | packages/fxa-customs-server/lib/record.js:32-93 | after every run the stored hits and ban are, in every later window, those of a record that never trims |
| RateRecord.VerdictIsExact | packages/fxa-customs-server/lib/record.js:79-93 | over every run a counted call is refused exactly when the latest ban stands or more than `max` calls since it, this one included, are in the period; the delay is what is left of the ban |
| RateRecord.ThrottlesExactlyWhen | packages/fxa-customs-server/lib/record.js:79-93 | the sliding-window bound holds for all runs if and only if the ban is at least the period, or `max` is 0 and there is a ban |
| RateRecord.FadedDecides | packages/fxa-customs-server/lib/record.js:79-93 | records that agree on their unexpired part answer alike and still agree afterwards |
| RateRecord.FadesAway | packages/fxa-customs-server/lib/record.js:28-30 | once the ban has passed since the last write, a record whose hits are empty or out of the period cannot be told from a fresh one |
| RateRecord.LongPeriodNoticed | packages/fxa-customs-server/lib/record.js:28-93 | a counting period longer than the stored lifetime is noticed: a full burst, a pause and one more call are answered differently after the drop |
| RateRecord.ExpiryUnnoticedExactlyWhen | packages/fxa-customs-server/lib/record.js:28-93 | for a record kept at least as long as its ban, dropping it is unnoticed by every later call of every run if and only if the period fits the lifetime, or `max` or the ban is 0 |
| SmsRecord.SMSRecord.IsOverSmsLimit | packages/fxa-customs-server/lib/sms_record.js:27-47 | trims the phone number's hits in place and compares with `maxSms` |
| SmsRecord.SMSRecord.Update | packages/fxa-customs-server/lib/sms_record.js:69-84 | the object follows the rate-record machine with equal period and ban, counting only SMS-sending actions |
| SmsRecord.SmsThroughput | packages/fxa-customs-server/lib/sms_record.js:32-84 | over every run at most `maxSms` SMS actions get 0 in any half-open window of the SMS interval |
| IpEmailRecord.IpEmailRecord.TrimBadLogins | packages/fxa-customs-server/lib/ip_email_record.js:37-55 | in-place trim of the bad logins |
| IpEmailRecord.IpEmailRecord.AddBadLogin | packages/fxa-customs-server/lib/ip_email_record.js:32-35 | trim and append |
| IpEmailRecord.IpEmailRecord.UnblockIfReset | packages/fxa-customs-server/lib/ip_email_record.js:70-77 | clears ban and bad logins exactly when the reset is later than the ban; otherwise nothing changes |
| IpEmailRecord.IpEmailRecord.Update | packages/fxa-customs-server/lib/ip_email_record.js:86-106 | the object's new fields and the delay are those of the pair state machine |
| IpEmailRecord.GuessBound | packages/fxa-customs-server/lib/ip_email_record.js:27-106 | over every run without a reset amnesty in which each let-through password check is reported before the next, at most `maxBadLogins` + 1 of them fall in any half-open rate-limit interval, although each ban wipes the log |
| IpEmailRecord.GuessBoundWithResets | packages/fxa-customs-server/lib/ip_email_record.js:27-106 | with resets allowed, a half-open rate-limit interval sees at most (r + 1) (`maxBadLogins` + 1) reported guesses, r being the bans that resets lift in it |
| IpEmailRecord.ResetLiftsBan | packages/fxa-customs-server/lib/ip_email_record.js:70-106 | a check of a banned pair ends in a fresh record and delay 0 if and only if a reset is later than the ban |
| IpEmailRecord.RetryAfterIsExact | packages/fxa-customs-server/lib/ip_email_record.js:79-84 | n seconds are fewer than the delay exactly when the pair is still banned n seconds later |
| IpEmailRecord.RecordTellsStory | packages/fxa-customs-server/lib/ip_email_record.js:27-106 | after every run the stored bad logins and ban are, in every later window, those of a record that never trims |
| IpEmailRecord.VerdictIsExact | packages/fxa-customs-server/lib/ip_email_record.js:86-106 | over every run a password check is refused exactly when, by the reports since the last ban or amnesty, the ban stands or the reports are too many, and no later reset lifts it |
| IpEmailRecord.BansAreEarned | packages/fxa-customs-server/lib/ip_email_record.js:27-68 | over every run, bans times (`maxBadLogins` + 1) plus the reports since the last clear never exceed the reported bad logins |
| IpEmailRecord.BanNeedsReports | packages/fxa-customs-server/lib/ip_email_record.js:86-106 | a step that bans has had at least `maxBadLogins` + 1 reports since the last clear |
| IpEmailRecord.FadedDecides | packages/fxa-customs-server/lib/ip_email_record.js:61-106 | pair records agreeing on their unexpired part, with reset stamps agreeing likewise, answer alike and stay so: forgetting a lapsed reset changes no amnesty |
| IpEmailRecord.FadesAway | packages/fxa-customs-server/lib/ip_email_record.js:23-25 | a pair record untouched for the rate-limit interval cannot be told from a fresh one |
| EmailRecord.EmailRecord.RateLimit | packages/fxa-customs-server/lib/email_record.js:182-186 | sets the ban stamp and empties the email and SMS logs, but not codes, bad logins or unblocks |
| EmailRecord.EmailRecord.AddBadLogin | packages/fxa-customs-server/lib/email_record.js:207-210 | trims and appends, so that the log the machine of `EmailRuns.RecordTellsStory` relies on gains the login |
| EmailRecord.EmailRecord.CanUnblock | packages/fxa-customs-server/lib/email_record.js:124-148 | trims the unblock attempts and answers whether their number is within the limit |
| EmailRecord.EmailRecord.CountCode | packages/fxa-customs-server/lib/email_record.js:65-92 | the code-verifying stage of `update`, with its early return |
| EmailRecord.EmailRecord.CountEmail | packages/fxa-customs-server/lib/email_record.js:39-63 | the email-sending stage of `update`, with its early return |
| EmailRecord.EmailRecord.CountText | packages/fxa-customs-server/lib/email_record.js:94-118 | the SMS stage of `update`, with its early return |
| EmailRecord.EmailRecord.CheckLogins | packages/fxa-customs-server/lib/email_record.js:202-230 | the bad-login stage of `update`, with its early return |
| EmailRecord.EmailRecord.Update | packages/fxa-customs-server/lib/email_record.js:232-295 | the object's new fields and the delay are those of the email state machine |
| EmailRecord.RetryAfterIsExact | packages/fxa-customs-server/lib/email_record.js:154-200 | n seconds are fewer than the delay exactly when the record is still rate-limited or blocked n seconds later: positive exactly when limited, and the least sufficient number |
| EmailRecord.RequestFate | packages/fxa-customs-server/lib/email_record.js:232-295 | the exact fate of a counted request: refused while blocked or rate-limited, let through uncounted while disabled, banned when it or the bad logins are too many, otherwise counted and let through |
| EmailRecord.UncountedExactlyWhen | packages/fxa-customs-server/lib/email_record.js:150-200 | a counted request is let through uncounted if and only if the address is disabled and neither rate-limited nor blocked |
| EmailRecord.RequestThroughput | packages/fxa-customs-server/lib/email_record.js:232-295 | while the address is not disabled, over every run and for each of emails, codes and SMS, at most the kind's maximum get 0 in any half-open rate-limit interval, whatever is interleaved |
| EmailRecord.DisabledLeaks | packages/fxa-customs-server/lib/email_record.js:166-200 | a disabled address lets any number of counted actions through at one instant, since the delay does not read the disable stamp |
| EmailRecord.ThroughputExactlyWhen | packages/fxa-customs-server/lib/email_record.js:166-295 | the bound holds for all runs, disabled or not, if and only if the disable interval or the rate-limit interval is 0 |
| EmailRecord.BansNeverShorten | packages/fxa-customs-server/lib/email_record.js:182-186 | along any run the ban stamp never moves back |
| EmailRecord.FlagsUntouched | packages/fxa-customs-server/lib/email_record.js:170-190 | the suspect, disable and reset stamps change only in their own steps |
| EmailRuns.RecordTellsStory | packages/fxa-customs-server/lib/email_record.js:39-295 | after every run of checks, failed logins, resets and flags, the record holds in every later window what a record that never trims would: all five logs, the ban and the flags |
| EmailRuns.LoginsToldExactly | packages/fxa-customs-server/lib/email_record.js:207-230 | the bad logins of that record are exactly the reported ones, which no ban clears |
| EmailRuns.BlockToldExactly | packages/fxa-customs-server/lib/email_record.js:154-180 | it is blocked exactly when some manual block is younger than the block interval |
| EmailRuns.UnblocksToldExactly | packages/fxa-customs-server/lib/email_record.js:120-148 | its unblock attempts are exactly the checks that offered a code while no block stood |
| EmailRuns.VerdictIsExact | packages/fxa-customs-server/lib/email_record.js:232-295 | over every run a request is refused exactly when a manual block stands, or a counted one meets a standing ban, or, a counted one only if the address is not disabled, it is one too many of its kind or the reported bad logins in the interval are |
| EmailRuns.BadLoginVerdict | packages/fxa-customs-server/lib/email_record.js:202-295 | a request of no counted kind is refused exactly when a manual block stands or more than `maxBadLoginsPerEmail` logins were reported in the interval; a standing ban does not matter |
| EmailRuns.UnblockVerdict | packages/fxa-customs-server/lib/email_record.js:120-148 | unblocking is refused exactly when more than `maxUnblockAttempts` offered codes, this one included, are in the interval |
| EmailRecord.FadedDecides | packages/fxa-customs-server/lib/email_record.js:150-295 | records agreeing on their unexpired part answer every step alike, offer the same unblocking and still agree |
| EmailRecord.FadesAway | packages/fxa-customs-server/lib/email_record.js:35-37 | a record older than its intervals cannot be told from its still active flags alone |
| UserLog.Trim | packages/fxa-customs-server/lib/ip_record.js:165-186 | the trim-by-unique-email loop with its table of seen emails computes the specified suffix |
| UserLog.KeepAbsorbs | packages/fxa-customs-server/lib/ip_record.js:165-186 | trimming early changes no later trim of the extended log |
| UserLog.KeptAllOrMany | packages/fxa-customs-server/lib/ip_record.js:165-186 | on a sorted log the trim keeps everything in the window or still more than `maxUnique` emails |
| UserLog.StoredLooksFull | packages/fxa-customs-server/lib/ip_record.js:64-75 | after any interleaving of additions and trims the stored log trims like the full history |
| LoginScore.ComputeScore | packages/fxa-customs-server/lib/ip_record.js:42-62 | the weights-table loop computes the sum over users of their heaviest error |
| LoginScore.TrimmedScoreDecides | packages/fxa-customs-server/lib/ip_record.js:42-75 | if every failure in it is heavy, the trimmed log exceeds the limit exactly when the whole window does |
| LoginScore.HeavyRunsAgree | packages/fxa-customs-server/lib/ip_record.js:42-75 | so do the repeatedly trimmed log and the never trimmed history, at every later time |
| LoginScore.LightErrorHides | packages/fxa-customs-server/lib/ip_record.js:42-75 | an error weight w with w (max + 1) <= max lets the trim loop turn an over-limit log into one within the limit; the log is constructed for every such weight and every time |
| LoginScore.UsualWeightsAreHeavy | packages/fxa-customs-server/lib/ip_record.js:42-62 | with weights of at least 1 every error is heavy, for every limit |
| IpRecord.IpRecord.RateLimit | packages/fxa-customs-server/lib/ip_record.js:220-225 | sets the ban stamp and empties status checks, SMS and accesses |
| IpRecord.IpRecord.TrimLog | packages/fxa-customs-server/lib/ip_record.js:73-75 | trims a log by unique emails |
| IpRecord.IpRecord.AddBadLogin | packages/fxa-customs-server/lib/ip_record.js:64-71 | trim and append, with 999 for a missing errno |
| IpRecord.IpRecord.IsOverBadLogins | packages/fxa-customs-server/lib/ip_record.js:42-62 | trims in place and compares the weighted score with the limit |
| IpRecord.IpRecord.CountStatus | packages/fxa-customs-server/lib/ip_record.js:237-250 | the account-status stage of `update` |
| IpRecord.IpRecord.CountCode | packages/fxa-customs-server/lib/ip_record.js:77-101 | the code-verifying stage of `update` |
| IpRecord.IpRecord.CheckLogins | packages/fxa-customs-server/lib/ip_record.js:237-295 | the password-checking stage of `update`: a refused check counts as one more bad login, and too heavy logins ban; `IpStory.PasswordVerdictIsExact` says when |
| IpRecord.IpRecord.CountText | packages/fxa-customs-server/lib/ip_record.js:129-155 | the SMS stage of `update` |
| IpRecord.IpRecord.Update | packages/fxa-customs-server/lib/ip_record.js:237-295 | the object's new fields and the delay are those of the IP state machine, whose answers `IpStory` characterises action by action |
| IpRecord.CountUsers | packages/fxa-customs-server/lib/ip_record.js:103-115 | the counting loop with its table of seen emails yields the number of distinct emails |
| IpRuns.RetryAfterIsExact | packages/fxa-customs-server/lib/ip_record.js:192-235 | n seconds are fewer than the delay exactly when the address is still rate-limited or blocked n seconds later |
| IpRuns.BansNeverShorten | packages/fxa-customs-server/lib/ip_record.js:220-225 | along any run the ban stamp never moves back and is never in the future |
| IpRuns.LoginVerdictIsExact | packages/fxa-customs-server/lib/ip_record.js:42-75 | along any run of checks, reports and bans, the stored log's verdict is that of all in-window bad logins ever recorded, if every error but 0 is heavy |
| IpRuns.LightErrorForgives | packages/fxa-customs-server/lib/ip_record.js:64-75 | for every error but 0 that is not heavy there is a run of reports after which the record's verdict differs from that of its history |
| IpRuns.LoginVerdictExactlyWhen | packages/fxa-customs-server/lib/ip_record.js:42-75 | the verdict is that of the history on every run of the record if and only if every error e other than 0 has a weight w with w (max + 1) > max, or the window is empty |
| LoginScore.ScoreGrows | packages/fxa-customs-server/lib/ip_record.js:42-62 | one more failure never lowers the score, whatever the weights |
| IpStory.RecordTellsStory | packages/fxa-customs-server/lib/ip_record.js:42-295 | after every run the record holds, in every later window, what a record that never trims would: logins, codes, status checks, texts, accesses, ban and flags |
| IpStory.BlockToldExactly | packages/fxa-customs-server/lib/ip_record.js:200-230 | it is blocked exactly when some manual block is younger than the block interval |
| IpStory.CodesToldExactly | packages/fxa-customs-server/lib/ip_record.js:237-262 | its code checks are exactly those made while no block stood, which no ban clears |
| IpStory.LoginsToldExactly | packages/fxa-customs-server/lib/ip_record.js:264-275 | its failed logins are exactly the reported ones and the refused password checks |
| IpStory.VerdictIsExact | packages/fxa-customs-server/lib/ip_record.js:237-296 | over every run a status check, code check, text, access or other action is refused exactly when a manual block stands, or its kind is over its limit counted in full, or the latest ban stands and the action is not an access |
| IpStory.PasswordVerdictIsExact | packages/fxa-customs-server/lib/ip_record.js:237-296 | with heavy errors, over every run a password check is refused exactly when a manual block or ban stands, too many emails were asked about since the last ban, or all failed logins ever recorded in the interval score above the limit |
| IpStory.CodeEmailBound | packages/fxa-customs-server/lib/ip_record.js:253-262 | wherever bans last, the code checks that get 0 are for at most `maxVerifyCodes` distinct emails in any half-open counting interval |
| IpStory.TextBound | packages/fxa-customs-server/lib/ip_record.js:277-284 | over every run at most `maxSms` texts of one address get 0 in any half-open window of the shorter of counting interval and ban |
| IpRuns.DistinctEmailBound | packages/fxa-customs-server/lib/ip_record.js:103-250 | over every run the account-status actions that get 0 touch at most `maxAccountStatusCheck` distinct emails in any half-open window of the shorter of counting interval and ban, although the log is trimmed by uniqueness and wiped at each ban |
| IpRuns.FadedDecides | packages/fxa-customs-server/lib/ip_record.js:188-295 | records agreeing on their unexpired part answer every step alike and still agree |
| IpRuns.AccessesBounded | packages/fxa-customs-server/lib/ip_record.js:157-163 | the accesses on record never exceed `maxAccountAccess`, after any step |
| IpRuns.FadesAway | packages/fxa-customs-server/lib/ip_record.js:34-40 | a record older than its intervals cannot be told from its still active flags and its accesses alone |
| UidRecord.UidRecord.AddCount | packages/fxa-customs-server/lib/uid_record.js:34-43 | the object's new fields and the delay are those of the uid state machine |
| UidRecord.UidRecord.GetPossibleRetryDelay | packages/fxa-customs-server/lib/uid_record.js:89-100 | whether a ban is dropped, kept or started, and the milliseconds left of it |
| UidRecord.VerdictCountsRecorded | packages/fxa-customs-server/lib/uid_record.js:34-100 | over every run the delay is 0 exactly when the accepted in-window checks of the untrimmed log, this one included, are fewer than `maxChecksPerUid` (or bans have length 0); it never exceeds the ban, and the stored list never exceeds `maxChecksPerUid` + 1 |
| UidRuns.UidThroughput | packages/fxa-customs-server/lib/uid_record.js:34-100 | over every run at most `maxChecksPerUid` checks of an action get 0 in any half-open counting interval, plus one for each time such a check lifts the ban of another action |
| UidRuns.DelayIsTimeLeft | packages/fxa-customs-server/lib/uid_record.js:70-100 | over every run a positive delay is what is left of a ban that a check in the run started and that every check since has met |
| UidRuns.SingleActionThroughput | packages/fxa-customs-server/lib/uid_record.js:34-100 | so for a uid that is checked for one action only the bound is `maxChecksPerUid` |
| UidRuns.TwoActionsLeak | packages/fxa-customs-server/lib/uid_record.js:38-93 | for all positive limits, alternating two actions at one instant lets any number of checks of one of them through |
| UidRuns.ThroughputExactlyWhen | packages/fxa-customs-server/lib/uid_record.js:34-100 | the bound `maxChecksPerUid` holds for every action of every run if and only if the interval is 0, or the limit is 0 and there is a ban |
| UidRecord.AlikeDecides | packages/fxa-customs-server/lib/uid_record.js:34-100 | records agreeing on their unexpired part give equal delays and still agree |
| UidRecord.FadesAway | packages/fxa-customs-server/lib/uid_record.js:23-32 | a record older than interval and ban cannot be told from a fresh one |
| Server.CheckObjects | packages/fxa-customs-server/lib/server.js:211-323 | the handler's sequence of updates on the four record objects, the reset amnesty, the unblock question and the verdict, equal to the value-level handler that `Server.VerdictIsExact` and the server theorems are about; a turned-away address changes nothing |
| Server.VerdictIsExact | packages/fxa-customs-server/lib/server.js:228-323 | a check is blocked exactly when one of the four records asks to wait, a login lacks a required flow id, or blocklist or reputation say so, and it is not allowlisted; unless the last two override it the delay is the greatest of the four; suspicion, unblocking, reason and saved records likewise |
| Server.TurnedAwayVerdict | packages/fxa-customs-server/lib/server.js:211-226 | a blocked or disabled address gets its own delay, and nothing is counted or saved |
| Store.CheckedIpIsExact | packages/fxa-customs-server/lib/server.js:477-519 | the same for `/checkIpOnly`, from what the IP record alone answers |
| Server.ReportObjects | packages/fxa-customs-server/lib/server.js:580-598 | a failed login is recorded on all three objects, and the reputation report is made exactly when the address is over its limit |
| Store.CheckAlike | packages/fxa-customs-server/lib/server.js:211-323 | record sets that cannot be told apart give the same `/check` verdict and remain so |
| Store.ServeAlike | packages/fxa-customs-server/lib/records.js:24-28 | caches that cannot be told apart answer every request alike, refused ones included, and remain so |
| Store.DropUnnoticed | packages/fxa-customs-server/lib/records.js:81-94 | dropping a lapsed record with no active flag and no accesses leaves a cache that cannot be told from the undropped one, whatever the other records hold |
| Store.ServeKeepsSound | packages/fxa-customs-server/lib/records.js:81-94 | every stored record holds no time later than its write, after every request of any kind |
| Store.RunSound | packages/fxa-customs-server/lib/records.js:24-94 | so does every record of every cache that a run can produce, lossy or not |
| Store.ExpiryUnobservable | packages/fxa-customs-server/lib/records.js:24-94 | for every sequence of requests in which only lapsed records without active flags or accesses are dropped (pair, phone and uid records always qualify), the responses are those of a cache that never drops anything |
| ExpiryLimits.FlaggedIpShows | packages/fxa-customs-server/lib/server.js:218-261 | for every reachable cache, dropping an IP record with an active suspect or disable flag is noticed by a check given |
| ExpiryLimits.SuspectedEmailShows | packages/fxa-customs-server/lib/server.js:254-261 | the same for a suspected email |
| ExpiryLimits.DisabledEmailShows | packages/fxa-customs-server/lib/email_record.js:166-200 | the same for a disabled email, which shows only in that its requests are never limited |
| ExpiryLimits.AccessesShow | packages/fxa-customs-server/lib/ip_record.js:157-163 | the same for an IP record with accesses, by as many accesses as fill it |
| ExpiryLimits.DropUnnoticedExactlyWhen | packages/fxa-customs-server/lib/records.js:24-94 | for every cache a run can produce and every lapsed record in it, dropping it is unnoticed by all continuations if and only if no flag of it is active and it counts no access |
| ExpiryLimits.FlagNoticed | packages/fxa-customs-server/lib/dataflow.js:84-89 | a flag whose interval outlives its record is noticed: a run is given whose responses differ with and without the expiry |
| ExpiryLimits.ExpiryUnobservableExactlyWhen | packages/fxa-customs-server/lib/records.js:24-94 | over all runs that drop no IP record with accesses, expiry is unobservable if and only if the suspect and disable intervals fit the IP and email lifetimes |
| ExpiryLimits.AccessExpiryNoticed | packages/fxa-customs-server/lib/ip_record.js:157-163 | account accesses are never trimmed, so under every configuration that allows any, some run notices their expiry |
| GuessProtocol.RunProjects | packages/fxa-customs-server/lib/server.js:211-323 | what a server run, lossy or not, does to one pair record is a run of the pair machine with the same let-through guesses, reports and lifted bans, ending in a record that cannot be told from the cached one |
| GuessProtocol.TriesSurviveLoss | packages/fxa-customs-server/lib/records.js:24-94 | a cache that loses only records without active flags or accesses lets exactly the same guesses through |
| GuessProtocol.ServerGuessBoundWithResets | packages/fxa-customs-server/lib/server.js:229-241 | the guess bound for whole server runs with any other traffic and any resets, over a cache that may drop any lapsed record: (r + 1) (`maxBadLogins` + 1) reported guesses of one address at one email per half-open rate-limit interval, r being the bans of the pair that resets lift in it; checks of allowlisted addresses and emails are not counted |
| GuessProtocol.ServerGuessBound | packages/fxa-customs-server/lib/server.js:580-598 | without a reset of that account's password, at most `maxBadLogins` + 1; checks of allowlisted addresses and emails are not counted |
| ServerBounds.IpMoves | packages/fxa-customs-server/lib/server.js:188-720 | what each kind of request does to the record of an address: at most one step, written at its time, and otherwise nothing |
| ServerBounds.EmailMoves | packages/fxa-customs-server/lib/server.js:188-720 | the same for the record of an email address |
| ServerBounds.PhoneMoves | packages/fxa-customs-server/lib/server.js:188-323 | the same for the record of a phone number, and a text that passes is one this record lets through |
| ServerBounds.UidMoves | packages/fxa-customs-server/lib/server.js:387-456 | the same for the record of a uid, with the delay that is answered |
| ServerBounds.ServerDistinctEmailBound | packages/fxa-customs-server/lib/server.js:188-323 | over every server run with any other traffic, through a cache that loses lapsed records, the account-status checks of one address that are not blocked are about at most `maxAccountStatusCheck` emails in any half-open window of the shorter of counting interval and ban |
| ServerBounds.ServerTextBound | packages/fxa-customs-server/lib/server.js:188-323 | over every such run at most `maxSms` texts to one number are not blocked in any half-open SMS interval |
| ServerBounds.ServerRequestBound | packages/fxa-customs-server/lib/server.js:188-323 | over every such run, unless an email address is checked while disabled, at most the configured number of its emails, codes or SMS requests are not blocked in any half-open rate-limit interval, from however many addresses |
| ServerBounds.ServerUidAnswer | packages/fxa-customs-server/lib/server.js:387-456 | `/checkAuthenticated` answers as the record that saw every earlier check of the uid would, whatever lapsed records were lost |
| Blocklist.MaskedIsLeading | packages/fxa-customs-server/lib/ip_blocklist.js:21-23 | two addresses mask alike exactly when their leading bits agree |
| Blocklist.RangeIsInterval | packages/fxa-customs-server/lib/ip_blocklist.js:21-46 | a row covers exactly the interval of its block size from its base, as section 3.1 of RFC 4632 has it |
| Blocklist.RowMatches | packages/fxa-customs-server/lib/ip_blocklist.js:25-46 | a parsed row matches an address exactly when the line covers it; a comment covers nothing |
| BlocklistText.TextRowIsRow | packages/fxa-customs-server/lib/ip_blocklist.js:25-46 | splitting the text of a line, reading its prefix length and masking give the row of the line under its dotted address |
| BlocklistText.DottedDistinguishes | packages/fxa-customs-server/lib/ip_blocklist.js:95-97 | no two addresses share their dotted text, so filing rows by text loses nothing |
| BlocklistText.TextRowMatches | packages/fxa-customs-server/lib/ip_blocklist.js:25-46 | a lookup by dotted text meets a row's text exactly when the line covers the address |
| Blocklist.IndexIsScan | packages/fxa-customs-server/lib/ip_blocklist.js:86-160 | for every list of rows, in any order and with duplicates, the index hits an address exactly when some row covers it, and every stored length has its entry |
| Blocklist.IPBlocklist.Load | packages/fxa-customs-server/lib/ip_blocklist.js:86-121 | loading replaces the index by the one built from the rows, so that it answers like a scan |
| Blocklist.LoadBecomesLive | packages/fxa-customs-server/lib/ip_blocklist.js:86-121 | when a load swaps in, the live index answers like a scan of that load's rows if all of them were read, and of the rows current before otherwise, whatever other loads interleave |
| Blocklist.IPBlocklist.Contains | packages/fxa-customs-server/lib/ip_blocklist.js:128-160 | the lookup masks once per stored length and answers whether the index hits |
| Blocklist.IPBlocklistManager.Contains | packages/fxa-customs-server/lib/ip_blocklist_manager.js:55-89 | true exactly when some list that is not log-only hits; the hit paths are those of all hitting lists |
| Blocklist.LiveIsBuilt | packages/fxa-customs-server/lib/ip_blocklist.js:55-121 | with any interleaving of loads, row by row, refreshes and clears, the live index is the one built from one complete row set |
| Blocklist.ReloadIsAtomic | packages/fxa-customs-server/lib/ip_blocklist.js:55-207 | so each lookup answers for that row set and never a mixture, and never meets a length without an entry |
| Bounces.ApplyRules | packages/fxa-auth-server/lib/bounces.js:42-74 | the single pass throws at the first violating bounce, with its type and the first date seen of that type, and passes when there is none |
| Bounces.ThrowsExactlyWhen | packages/fxa-auth-server/lib/bounces.js:39-74 | on a date-descending list some bounce violates its tier exactly when, for some type and k, more than k bounces of the type are younger than tier k |
| Bounces.FirstDateIsNewest | packages/fxa-auth-server/lib/bounces.js:59-70 | the date in the error is the newest of that type in the whole list |
| Bounces.PassingLasts | packages/fxa-auth-server/lib/bounces.js:57-70 | a list that passes now passes at every later time |
| Hex.HexRoundTrip | packages/fxa-auth-client/lib/utils.ts:4-19 | decoding the encoding gives the bytes back exactly when there are any: the empty string is refused |
| Hex.HexBack | packages/fxa-auth-client/lib/utils.ts:6-19 | encoding what was decoded gives the string back in lower case |
| Hex.HexIsNumeral | packages/fxa-auth-client/lib/utils.ts:14-19 | each pair of digits is the byte's numeral to base 16, high digit first |
| Hex.XorTwice | packages/fxa-auth-client/lib/utils.ts:32-34 | XOR with the same key twice is the identity; with `Hex.XorIsBitwise` and `Hex.XorZero` the operation is pinned |
| Hex.XorDistinguishes | packages/fxa-auth-client/lib/utils.ts:32-34 | different keys of full length give different results, so the result names the key |
| Hex.XorIsBitwise | packages/fxa-auth-client/lib/utils.ts:32-34 | every bit of every byte is 1 exactly where the two inputs differ |
| Hex.XorZero | packages/fxa-auth-client/lib/utils.ts:32-34 | XOR with zeros changes nothing |
| OnePw.UnwrapTwice | packages/fxa-auth-client/lib/crypto.ts:132-134 | unwrapping through the hex codec is its own inverse on 32-byte keys and never fails on them |
| OnePw.UnbundleInverts | packages/fxa-auth-client/lib/crypto.ts:67-130 | the client's slicing, MAC check and XOR undo the server's bundling of kA and wrapKb |
| OnePw.StartAccepted | packages/fxa-auth-client/lib/client.ts:776-820 | a change starts exactly when the email leads to the account and the password fits it or, after one retry, the stored email; the credentials used are those of the email that fitted |
| OnePw.ChangeRewraps | packages/fxa-auth-client/lib/client.ts:728-774 | a change succeeds exactly when its start is accepted, and wraps for the new password whatever the accepted credentials unwrap |
| OnePw.ChangeKeepsKbExactlyWhen | packages/fxa-auth-client/lib/client.ts:728-774 | an accepted change leaves kB under the new password if and only if the accepted credentials have the current wrapping key; nothing is assumed of the derivation |
| OnePw.ResetHolds | packages/fxa-auth-client/lib/client.ts:1085-1117 | after a recovery-key reset the new password fetches kA and kB |
| OnePw.KbIsInvariantExactlyWhen | packages/fxa-auth-client/lib/client.ts:524-549 | along every sequence of changes and recovery-key resets, kB is fetched with the current password at every point if and only if no accepted change was made with another wrapping key |
| OnePw.KbIsInvariant | packages/fxa-auth-client/lib/client.ts:524-549 | as long as each accepted change is made with the current password and its email, the keys fetched with the current password are the original kA and kB, for any primitives of the right output lengths |
| OnePw.CollisionLosesKb | packages/fxa-auth-client/lib/client.ts:728-774 | one change made, with an email that leads to the account, by another password of the same authPW but another wrapping key goes through, and the new password then fetches a different key |
| OnePw.NobodyLosesKbExactlyWhen | packages/fxa-auth-client/lib/client.ts:728-774 | no run of an account loses kB, whoever makes the changes, if and only if no password passes with an email of the account while having another wrapping key |
| Reminders.Decode | packages/fxa-auth-server/lib/verification-reminders.js:183-204 | the index-parity loop turns the flat list of members and scores back into the popped records |
| Reminders.ZPopRangeByScore | packages/fxa-auth-server/lib/redis.js:162-170 | reads and removes, in one step, exactly the members scored between 0 and the cutoff |
| Reminders.LookAdded | packages/fxa-auth-server/lib/verification-reminders.js:112-118 | creating puts the uid in every set with the given time and touches nothing else |
| Reminders.LookReinstated | packages/fxa-auth-server/lib/verification-reminders.js:223-236 | reinstating restores each listed uid under the key with its own timestamp and touches nothing else |
| Reminders.ProcessThenReinstate | packages/fxa-auth-server/lib/verification-reminders.js:176-251 | processing and then reinstating everything restores every sorted set |
| Reminders.ReminderModule.Create | packages/fxa-auth-server/lib/verification-reminders.js:110-141 | adds the uid under every key when the rollout lottery says so |
| Reminders.ReminderModule.Delete | packages/fxa-auth-server/lib/verification-reminders.js:151-166 | removes the uid from every key's set, except those whose removal fails, and nothing else |
| Reminders.ReminderModule.Process | packages/fxa-auth-server/lib/verification-reminders.js:176-213 | returns for each key exactly the entries with 0 <= timestamp <= now - interval and removes exactly these |
| Reminders.ReminderModule.Reinstate | packages/fxa-auth-server/lib/verification-reminders.js:223-236 | adds the listed records back under the key |
| ReminderRun.LogIsTasks | packages/fxa-auth-server/scripts/verification-reminders.js:72-116 | each popped record has exactly one outcome, in order; failures are put back in two modules and discarded in the third |
| ReminderRun.WorkBalance | packages/fxa-auth-server/scripts/verification-reminders.js:59-125 | at every point of a run a record is where it was, waiting in the batch, or lost with the log saying why |
| ReminderRun.RunKeepsOrExplains | packages/fxa-auth-server/scripts/verification-reminders.js:59-125 | after a run a record is in its set with its original timestamp if and only if it was before and the log's last word on it is not that it is gone |
| ReminderRun.OnlyMailedLeave | packages/fxa-auth-server/scripts/verification-reminders.js:127-237 | for an account that never hits a drop error, the sets after a run differ from before by the mailed records only |
| ReminderRun.MailsBalance | packages/fxa-auth-server/scripts/verification-reminders.js:72-125 | a mail uses up a stored record that the run does not store again |
| ReminderRun.WorkMailsOnce | packages/fxa-auth-server/scripts/verification-reminders.js:77-94 | one module's share mails nobody twice and nobody already mailed |
| ReminderRun.WorkIsTruthful | packages/fxa-auth-server/scripts/verification-reminders.js:76-111 | every fate in the log is the one that the mailer's answer and the mails before it call for; `ReminderRound.RoundDelivers` says what that comes to |
| ReminderRound.KeyWork | packages/fxa-auth-server/scripts/verification-reminders.js:59-125 | serving a key comes, for one account, to serving its one record there, if any |
| ReminderRound.RoundDelivers | packages/fxa-auth-server/scripts/verification-reminders.js:59-298 | a module's round, told without a log: a mail is sent exactly for the first due record of an account whose mailer takes it, and a record leaves exactly when it is taken, found gone, or deleted by a later such answer |
| ReminderRound.DueRecordFate | packages/fxa-auth-server/scripts/verification-reminders.js:76-125 | a due record of a module that reinstates is back with its old timestamp if it was skipped or failed and no later answer deletes its account's records, and gone otherwise |
| ReminderRound.SentIsMailed | packages/fxa-auth-server/scripts/verification-reminders.js:45-125 | the accounts remembered as mailed are those the mails went to |
| ReminderRun.MailsAreDistinct | packages/fxa-auth-server/scripts/verification-reminders.js:57-94 | the mails named by such a log go to different accounts |
| ReminderRun.OneMailPerAccount | packages/fxa-auth-server/scripts/verification-reminders.js:57-298 | one run mails each account at most once across all keys and all modules |
| ReminderRun.MailsBounded | packages/fxa-auth-server/lib/verification-reminders.js:110-251 | over any sequence of creates, deletes and runs, the mails for a (uid, key), plus 1 if still queued, never exceed the creates for the uid that won the rollout lottery |
| ReminderScript.DeletionSettles | packages/fxa-auth-server/scripts/verification-reminders.js:97-106 | deleting a bounced account commutes with the later reinstatement of other accounts' failures |
| ReminderScript.MailKey | packages/fxa-auth-server/scripts/verification-reminders.js:59-125 | the loop over one key's records, which reinstates failures only at its end, does what handling each record at once would do, mails included |
| ReminderScript.MailModule | packages/fxa-auth-server/scripts/verification-reminders.js:59-125 | the loop over a module's keys does what one fold over all its records does |
| ReminderScript.ShareAccounts | packages/fxa-auth-server/scripts/verification-reminders.js:59-125 | what was due is exactly what the log names, and everything else stayed |
| ReminderScript.Serve | packages/fxa-auth-server/scripts/verification-reminders.js:59-125 | one module's share: from the records due and the mailer's answers alone, exactly which mails are sent and which records leave; the mails are those its truthful log names |
| ReminderScript.Run | packages/fxa-auth-server/scripts/verification-reminders.js:45-298 | the whole script on the three modules, popped up front and served in turn: an account is mailed exactly when some due record of it is taken by its mailer, once, for the first such record in serving order; each module's sets change exactly as the answers call for; the logs are truthful and account for every record |

## Left out

- User-defined rules as a set: only the single rule record is modelled; combining several rules on one action is not.
- Routing, payload validation beyond missing parameters, email normalisation, logging, metrics and configuration schemas: plumbing.
- The reputation service, allowlists, flow-id and user-agent checks: boolean inputs of a request.
- Memcached itself, and two requests that interleave on one record: requests run one after the other, and expiry is the only behaviour of the store.
- Key spaces: IP, email, pair, phone and uid records live in separate maps, while the server puts them under strings in one; emails that collide with IP addresses or with JavaScript's own property names are not modelled.
- Several clock readings within one call: each call reads the clock once.
- Reloading of limits and allowlists at run time: limits are fixed in a run.
- ExpiryLimits.DropUnnoticedExactlyWhen: for a positive rate-limit interval and a positive IP ban, as the limits are meant to be; the continuations drop nothing further.
- IpStory.PasswordVerdictIsExact: for heavy errno weights, the only ones for which the trimmed log decides like the full one (`IpRuns.LoginVerdictExactlyWhen`).
- IpStory.VerdictIsExact: for IP bans of positive length, since a ban of no length refuses nobody; the same holds of `IpStory.CodeEmailBound`.
- ServerBounds.ServerRequestBound: for email addresses that are not checked while disabled, where the record itself does not keep the bound (`EmailRecord.ThroughputExactlyWhen`).
- BlocklistText.TextRowIsRow: for well-formed rows; what a malformed address or prefix becomes is the choice of the ip library, which is not part of this model, and of which only the masking of well-formed addresses is assumed.
- Reading blocklist files and the polling timers.
- Reminder metadata (flow id and begin time, product and device): the sets hold uids and timestamps only; its reads and deletes race across keys.
- Reminders.ZPopRangeByScore: lists the popped members in any order, where Redis lists them by score; nothing proved depends on the order.
- Reminder creation or deletion while a run is under way: a run is one step of a module's history.
- Failures of the store inside a reminder run, except those of the clean-up after a drop error, which the script ignores.
- PBKDF2, HKDF, HMAC and the email salt are uninterpreted functions of the right output lengths; Hawk, JWE, the HTTP client and the server's own second wrapping of wrapKb are not modelled.
- Password reset without a recovery key: it makes a new kB, so there is nothing to keep.
- Integer widths: timestamps and counts are unbounded; JavaScript's doubles are exact in their range.
