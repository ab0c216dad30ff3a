/** The onepw key-wrapping protocol: the account's secret kB is stored only wrapped under a
    key derived from the password, and must survive every change of the password. */
module OnePw {
  import opened Hex
  import opened Results

  const NAMESPACE := "identity.mozilla.com/picl/v1/"

  /** The primitives, about which only the lengths are known: PBKDF2 of a password salted
      with the email, HKDF of a key with an info string to a length, and HMAC. */
  datatype Crypto = Crypto(
    pbkdf2: (string, string) -> seq<Byte>,
    hkdf: (seq<Byte>, string, nat) -> seq<Byte>,
    hmac: (seq<Byte>, seq<Byte>) -> seq<Byte>)
  {
    ghost predicate Sized() {
      && (forall key, info, n :: |hkdf(key, info, n)| == n)
      && (forall key, data :: |hmac(key, data)| == 32)
    }
  }

  datatype Credentials = Credentials(authPW: string, unwrapBKey: string)

  function GetCredentials(c: Crypto, email: string, password: string): Credentials {
    var stretched := c.pbkdf2(password, NAMESPACE + "quickStretch:" + email);
    Credentials(Uint8ToHex(c.hkdf(stretched, NAMESPACE + "authPW", 32)),
                Uint8ToHex(c.hkdf(stretched, NAMESPACE + "unwrapBkey", 32)))
  }

  function UnwrapKB(wrapKB: string, unwrapBKey: string): Result<string> {
    var wrapped :- HexToUint8(wrapKB);
    var key :- HexToUint8(unwrapBKey);
    Ok(Uint8ToHex(Xor(wrapped, key)))
  }

  /** A 32-byte value in lower-case hex, as every key of the protocol is. */
  predicate IsKey(s: string) {
    HexToUint8(s).Ok? && |HexToUint8(s).value| == 32 && Uint8ToHex(HexToUint8(s).value) == s
  }

  lemma KeyOfBytes(bytes: seq<Byte>)
    requires |bytes| == 32
    ensures IsKey(Uint8ToHex(bytes)) && HexToUint8(Uint8ToHex(bytes)) == Ok(bytes)
  {
    hide Uint8ToHex, HexToUint8;
    HexRoundTrip(bytes);
  }

  /** Unwrapping is its own inverse on keys: wrapping is done by unwrapping. */
  lemma UnwrapTwice(kB: string, key: string)
    requires IsKey(kB) && IsKey(key)
    ensures UnwrapKB(kB, key).Ok? && IsKey(UnwrapKB(kB, key).value)
    ensures UnwrapKB(UnwrapKB(kB, key).value, key) == Ok(kB)
  {
    hide Uint8ToHex, HexToUint8, Xor;
    var bytes, pad := HexToUint8(kB).value, HexToUint8(key).value;
    KeyOfBytes(Xor(bytes, pad));
    XorTwice(bytes, pad);
  }

  // ---- The key bundle ----

  /** `b.subarray(begin)`: a negative begin counts from the end. */
  function SubarrayFrom(b: seq<Byte>, begin: int): seq<Byte> {
    var k := if begin < 0 then |b| + begin else begin;
    if k <= 0 then b else if k >= |b| then [] else b[k..]
  }

  /** `b.subarray(0, end)`. */
  function SubarrayTo(b: seq<Byte>, end: nat): seq<Byte> {
    if end <= |b| then b[..end] else b
  }

  datatype Keys = Keys(kA: string, wrapKB: string)

  function BundleKeys(c: Crypto, key: seq<Byte>, payload: nat): seq<Byte> {
    c.hkdf(key, NAMESPACE + "account/keys", 32 + payload)
  }

  /** The server's bundle: the two keys under a one-time pad, and their HMAC. */
  function Bundle(c: Crypto, key: seq<Byte>, kA: seq<Byte>, wrapKb: seq<Byte>): string {
    var material := BundleKeys(c, key, |kA + wrapKb|);
    var ciphertext := Xor(kA + wrapKb, SubarrayFrom(material, 32));
    Uint8ToHex(ciphertext + c.hmac(SubarrayTo(material, 32), ciphertext))
  }

  /** The client's side of it. */
  function UnbundleKeyFetchResponse(c: Crypto, key: string, bundle: string): Result<Keys> {
    var b :- HexToUint8(bundle);
    var k :- HexToUint8(key);
    var material := BundleKeys(c, k, 64);
    var ciphertext := SubarrayTo(b, 64);
    var expectedHmac := SubarrayFrom(b, |b| - 32);
    if c.hmac(SubarrayTo(material, 32), ciphertext) != expectedHmac then Err
    else
      var keyAWrapB := Xor(ciphertext, SubarrayFrom(material, 32));
      Ok(Keys(Uint8ToHex(SubarrayTo(keyAWrapB, 32)), Uint8ToHex(SubarrayFrom(keyAWrapB, 32))))
  }

  /** The client reads from the bundle exactly the keys the server put in. */
  lemma UnbundleInverts(c: Crypto, key: seq<Byte>, kA: seq<Byte>, wrapKb: seq<Byte>)
    requires c.Sized() && key != [] && |kA| == 32 && |wrapKb| == 32
    ensures UnbundleKeyFetchResponse(c, Uint8ToHex(key), Bundle(c, key, kA, wrapKb))
            == Ok(Keys(Uint8ToHex(kA), Uint8ToHex(wrapKb)))
  {
    hide Uint8ToHex, HexToUint8, Xor;
    var payload, material := kA + wrapKb, BundleKeys(c, key, 64);
    var pad := SubarrayFrom(material, 32);
    var ciphertext := Xor(payload, pad);
    var hmac := c.hmac(SubarrayTo(material, 32), ciphertext);
    var b := ciphertext + hmac;
    HexRoundTrip(key);
    HexRoundTrip(b);
    XorTwice(payload, pad);
    assert SubarrayTo(b, 64) == ciphertext && SubarrayFrom(b, |b| - 32) == hmac;
    assert SubarrayTo(payload, 32) == kA && SubarrayFrom(payload, 32) == wrapKb;
  }

  // ---- The account and what may happen to it ----

  /** What the server keeps of an account. `emails` are the spellings and addresses by which it finds
      the account, the stored email among them. */
  datatype Account = Account(email: string, emails: set<string>, authPW: string, kA: string, wrapKb: string) {
    predicate Valid() {
      IsKey(kA) && IsKey(wrapKb) && email in emails
    }
  }

  /** A one-time key that both sides derive from a key fetch token. */
  type BundleKey = k: seq<Byte> | |k| == 32 witness seq(32, _ => 0)

  /** The `/account/keys` exchange, then unwrapping. */
  function AccountKeys(c: Crypto, account: Account, bundleKey: BundleKey, unwrapBKey: string)
    : Result<(string, string)>
  {
    var kA :- HexToUint8(account.kA);
    var wrapKb :- HexToUint8(account.wrapKb);
    var bundle := Bundle(c, bundleKey, kA, wrapKb);
    var keys :- UnbundleKeyFetchResponse(c, Uint8ToHex(bundleKey), bundle);
    var kB :- UnwrapKB(keys.wrapKB, unwrapBKey);
    Ok((keys.kA, kB))
  }

  datatype Reply = Accepted | UnknownAccount | IncorrectEmailCase(email: string) | IncorrectPassword

  /** The server's answer to `/password/change/start`: an email that does not lead to the account is
      refused, and a wrong password is blamed on the email's case if the email is not the stored one. */
  function ChangeStart(account: Account, email: string, authPW: string): Reply {
    if email !in account.emails then UnknownAccount
    else if authPW == account.authPW then Accepted
    else if email != account.email then IncorrectEmailCase(account.email)
    else IncorrectPassword
  }

  /** The credentials and the email they were derived from, retrying once with the email
      the server knows. */
  function PasswordChangeStart(c: Crypto, account: Account, email: string, password: string,
                               skipCaseError: bool): Result<(Credentials, string)>
    decreases !skipCaseError
  {
    var credentials := GetCredentials(c, email, password);
    match ChangeStart(account, email, credentials.authPW)
    case Accepted => Ok((credentials, email))
    case IncorrectEmailCase(stored) =>
      if skipCaseError then Err else PasswordChangeStart(c, account, stored, password, true)
    case IncorrectPassword => Err
    case UnknownAccount => Err
  }

  /** The account after a password change, or the error that left it as it was. */
  function PasswordChange(c: Crypto, account: Account, bundleKey: BundleKey, email: string, password: string,
                          newPassword: string): Result<Account> {
    var (credentials, used) :- PasswordChangeStart(c, account, email, password, false);
    var keys :- AccountKeys(c, account, bundleKey, credentials.unwrapBKey);
    var newCredentials := GetCredentials(c, used, newPassword);
    var wrapKb :- UnwrapKB(keys.1, newCredentials.unwrapBKey);
    Ok(account.(authPW := newCredentials.authPW, wrapKb := wrapKb))
  }

  /** The account after a reset by someone who holds kB through the recovery key. */
  function ResetPasswordWithRecoveryKey(c: Crypto, account: Account, kB: string, email: string,
                                        newPassword: string): Result<Account> {
    var credentials := GetCredentials(c, email, newPassword);
    var wrapKb :- UnwrapKB(kB, credentials.unwrapBKey);
    Ok(account.(authPW := credentials.authPW, wrapKb := wrapKb))
  }

  // ---- What the stored key unwraps to ----

  lemma CredentialsAreKeys(c: Crypto, email: string, password: string)
    requires c.Sized()
    ensures IsKey(GetCredentials(c, email, password).authPW) && IsKey(GetCredentials(c, email, password).unwrapBKey)
  {
    hide Uint8ToHex, HexToUint8;
    var stretched := c.pbkdf2(password, NAMESPACE + "quickStretch:" + email);
    KeyOfBytes(c.hkdf(stretched, NAMESPACE + "authPW", 32));
    KeyOfBytes(c.hkdf(stretched, NAMESPACE + "unwrapBkey", 32));
  }

  /** Through the bundle, an account's keys are what unwrapping its stored key gives. */
  lemma KeysAreUnwrapped(c: Crypto, account: Account, bundleKey: BundleKey, unwrapBKey: string)
    requires c.Sized() && account.Valid() && IsKey(unwrapBKey)
    ensures AccountKeys(c, account, bundleKey, unwrapBKey) ==
              Ok((account.kA, UnwrapKB(account.wrapKb, unwrapBKey).value))
  {
    hide Uint8ToHex, HexToUint8, Bundle, UnbundleKeyFetchResponse;
    UnbundleInverts(c, bundleKey, HexToUint8(account.kA).value, HexToUint8(account.wrapKb).value);
    UnwrapTwice(account.wrapKb, unwrapBKey);
  }

  lemma OnlyOwnKey(wrapped: string, key: string, key': string)
    requires IsKey(wrapped) && IsKey(key) && IsKey(key') && key != key'
    ensures UnwrapKB(wrapped, key) != UnwrapKB(wrapped, key') && UnwrapKB(wrapped, key').Ok?
  {
    hide Uint8ToHex, HexToUint8, Xor;
    var w, k, k' := HexToUint8(wrapped).value, HexToUint8(key).value, HexToUint8(key').value;
    KeyOfBytes(Xor(w, k));
    KeyOfBytes(Xor(w, k'));
    if Xor(w, k) == Xor(w, k') {
      XorDistinguishes(w, k, k');
    }
  }

  lemma StartAccepted(c: Crypto, account: Account, email: string, password: string)
    ensures var r := PasswordChangeStart(c, account, email, password, false);
            && (r.Ok? <==> email in account.emails
                           && (GetCredentials(c, email, password).authPW == account.authPW
                               || (account.email in account.emails
                                   && GetCredentials(c, account.email, password).authPW == account.authPW)))
            && (r.Ok? ==>
                  && r.value.0 == GetCredentials(c, r.value.1, password) && r.value.0.authPW == account.authPW
                  && r.value.1 in account.emails)
  {
    hide GetCredentials;
  }

  /** A password change goes through exactly when its start is accepted, and then it wraps for the
      new password whatever the accepted credentials unwrap. */
  lemma ChangeRewraps(c: Crypto, account: Account, bundleKey: BundleKey, email: string, password: string,
                      newPassword: string)
    requires c.Sized() && account.Valid()
    ensures var start := PasswordChangeStart(c, account, email, password, false);
            var r := PasswordChange(c, account, bundleKey, email, password, newPassword);
            && (r.Ok? <==> start.Ok?)
            && (start.Ok? ==>
                  var kB := UnwrapKB(account.wrapKb, start.value.0.unwrapBKey);
                  kB.Ok? && IsKey(kB.value)
                      && r == ResetPasswordWithRecoveryKey(c, account, kB.value, start.value.1, newPassword))
  {
    hide GetCredentials, AccountKeys, IsKey, PasswordChangeStart, UnwrapKB;
    StartAccepted(c, account, email, password);
    var start := PasswordChangeStart(c, account, email, password, false);
    if start.Ok? {
      var (credentials, used) := start.value;
      CredentialsAreKeys(c, used, password);
      CredentialsAreKeys(c, used, newPassword);
      KeysAreUnwrapped(c, account, bundleKey, credentials.unwrapBKey);
      UnwrapTwice(account.wrapKb, credentials.unwrapBKey);
      UnwrapTwice(UnwrapKB(account.wrapKb, credentials.unwrapBKey).value,
          GetCredentials(c, used, newPassword).unwrapBKey);
    }
  }

  // ---- Who can get at kB ----

  /** An account together with the email and password it was last set to. */
  datatype Vault = Vault(account: Account, email: string, password: string)

  function KeyOf(c: Crypto, v: Vault): string {
    GetCredentials(c, v.email, v.password).unwrapBKey
  }

  /** The current password is accepted and fetches kA and kB. */
  ghost predicate Holds(c: Crypto, v: Vault, kA: string, kB: string) {
    && v.account.Valid() && v.account.authPW == GetCredentials(c, v.email, v.password).authPW
    && forall bundleKey :: AccountKeys(c, v.account, bundleKey, KeyOf(c, v)) == Ok((kA, kB))
  }

  lemma HoldsIs(c: Crypto, v: Vault, kA: string, kB: string)
    requires c.Sized() && v.account.Valid() && v.account.authPW == GetCredentials(c, v.email, v.password).authPW
    ensures Holds(c, v, kA, kB) <==> v.account.kA == kA && UnwrapKB(v.account.wrapKb, KeyOf(c, v)) == Ok(kB)
  {
    hide GetCredentials, AccountKeys, UnwrapKB, IsKey;
    CredentialsAreKeys(c, v.email, v.password);
    UnwrapTwice(v.account.wrapKb, KeyOf(c, v));
    var some: BundleKey := seq(32, _ => 0);
    KeysAreUnwrapped(c, v.account, some, KeyOf(c, v));
    forall bundleKey
      ensures AccountKeys(c, v.account, bundleKey, KeyOf(c, v)) == AccountKeys(c, v.account, some, KeyOf(c, v))
    {
      KeysAreUnwrapped(c, v.account, bundleKey, KeyOf(c, v));
    }
  }

  /** Whoever wraps a key for a password can get it back with that password. */
  lemma ResetHolds(c: Crypto, account: Account, kB: string, email: string, newPassword: string)
    requires c.Sized() && IsKey(account.kA) && IsKey(kB) && account.email in account.emails
    ensures var r := ResetPasswordWithRecoveryKey(c, account, kB, email, newPassword);
            r.Ok? && Holds(c, Vault(r.value, email, newPassword), account.kA, kB)
  {
    hide GetCredentials, Holds, UnwrapKB, IsKey;
    CredentialsAreKeys(c, email, newPassword);
    UnwrapTwice(kB, GetCredentials(c, email, newPassword).unwrapBKey);
    var r := ResetPasswordWithRecoveryKey(c, account, kB, email, newPassword);
    HoldsIs(c, Vault(r.value, email, newPassword), account.kA, kB);
  }

  datatype Step =
    | Change(bundleKey: BundleKey, email: string, password: string, newPassword: string)
    | Recover(email: string, newPassword: string)

  /** The credentials and the email with which the server lets a change start. */
  function Started(c: Crypto, v: Vault, step: Step): Result<(Credentials, string)>
    requires step.Change?
  {
    PasswordChangeStart(c, v.account, step.email, step.password, false)
  }

  /** A step that fails leaves everything as it was; a recovery is made by someone who holds kB. */
  function Applied(c: Crypto, v: Vault, kB: string, step: Step): Vault {
    match step
    case Change(bundleKey, email, password, newPassword) =>
      var r := PasswordChange(c, v.account, bundleKey, email, password, newPassword);
      if Started(c, v, step).Ok? && r.Ok? then Vault(r.value, Started(c, v, step).value.1, newPassword) else v
    case Recover(email, newPassword) =>
      var r := ResetPasswordWithRecoveryKey(c, v.account, kB, email, newPassword);
      if r.Ok? then Vault(r.value, email, newPassword) else v
  }

  /** What the owner can get at after a change: the key that the accepted credentials unwrapped. */
  lemma ChangeHandsOver(c: Crypto, v: Vault, kB: string, step: Step)
    requires c.Sized() && v.account.Valid() && step.Change? && Started(c, v, step).Ok?
    ensures var got := UnwrapKB(v.account.wrapKb, Started(c, v, step).value.0.unwrapBKey);
            got.Ok? && Holds(c, Applied(c, v, kB, step), v.account.kA, got.value)
  {
    hide GetCredentials, Holds, UnwrapKB, IsKey, PasswordChange, PasswordChangeStart, ResetPasswordWithRecoveryKey;
    ChangeRewraps(c, v.account, step.bundleKey, step.email, step.password, step.newPassword);
    var start := Started(c, v, step).value;
    var got := UnwrapKB(v.account.wrapKb, start.0.unwrapBKey).value;
    ResetHolds(c, v.account, got, start.1, step.newPassword);
  }

  /** An accepted change keeps kB exactly when the accepted credentials have the wrapping key of the
      current ones; nothing is assumed of the derivation. */
  lemma ChangeKeepsKbExactlyWhen(c: Crypto, v: Vault, kA: string, kB: string, step: Step)
    requires c.Sized() && Holds(c, v, kA, kB) && step.Change? && Started(c, v, step).Ok?
    ensures Holds(c, Applied(c, v, kB, step), kA, kB) <==> Started(c, v, step).value.0.unwrapBKey == KeyOf(c, v)
  {
    hide GetCredentials, UnwrapKB, IsKey, PasswordChangeStart, AccountKeys, Applied;
    StartAccepted(c, v.account, step.email, step.password);
    var start, v' := Started(c, v, step).value, Applied(c, v, kB, step);
    var key, key' := KeyOf(c, v), start.0.unwrapBKey;
    CredentialsAreKeys(c, v.email, v.password);
    CredentialsAreKeys(c, start.1, step.password);
    HoldsIs(c, v, kA, kB);
    ChangeHandsOver(c, v, kB, step);
    var got := UnwrapKB(v.account.wrapKb, key').value;
    HoldsIs(c, v', v.account.kA, got);
    HoldsIs(c, v', kA, kB);
    if key != key' {
      OnlyOwnKey(v.account.wrapKb, key, key');
    }
  }

  // ---- Whole runs ----

  function After(c: Crypto, v: Vault, kB: string, steps: seq<Step>, n: nat): Vault
    requires n <= |steps|
  {
    if n == 0 then v else Applied(c, After(c, v, kB, steps, n - 1), kB, steps[n - 1])
  }

  /** If the step is an accepted change, the credentials presented have the current wrapping key. */
  predicate PresentsKey(c: Crypto, v: Vault, step: Step) {
    step.Change? && Started(c, v, step).Ok? ==> Started(c, v, step).value.0.unwrapBKey == KeyOf(c, v)
  }

  lemma StepKeepsKb(c: Crypto, v: Vault, kA: string, kB: string, step: Step)
    requires c.Sized() && Holds(c, v, kA, kB) && IsKey(kB)
    ensures Holds(c, Applied(c, v, kB, step), kA, kB) <==> PresentsKey(c, v, step)
  {
    hide GetCredentials, UnwrapKB, IsKey, PasswordChange, PasswordChangeStart, AccountKeys,
         ResetPasswordWithRecoveryKey;
    HoldsIs(c, v, kA, kB);
    if step.Recover? {
      ResetHolds(c, v.account, kB, step.email, step.newPassword);
    } else if Started(c, v, step).Ok? {
      ChangeKeepsKbExactlyWhen(c, v, kA, kB, step);
    }
  }

  /** At every point of the run the current password fetches the original keys. */
  ghost predicate KeptThroughout(c: Crypto, v: Vault, kA: string, kB: string, steps: seq<Step>) {
    forall n :: 0 <= n <= |steps| ==> Holds(c, After(c, v, kB, steps, n), kA, kB)
  }

  /** No accepted change is made with a wrapping key other than the current one. */
  predicate KeyThroughout(c: Crypto, v: Vault, kB: string, steps: seq<Step>) {
    forall i :: 0 <= i < |steps| ==> PresentsKey(c, After(c, v, kB, steps, i), steps[i])
  }

  /** Along any sequence of password changes and recovery resets, failed ones included, kB is kept at
      every point exactly when no accepted change was made with another wrapping key. */
  lemma KbIsInvariantExactlyWhen(c: Crypto, v: Vault, kA: string, kB: string, steps: seq<Step>)
    requires c.Sized() && Holds(c, v, kA, kB) && IsKey(kB)
    ensures KeptThroughout(c, v, kA, kB, steps) <==> KeyThroughout(c, v, kB, steps)
  {
    hide Holds, Applied, PresentsKey, IsKey, After;
    if KeyThroughout(c, v, kB, steps) {
      forall n | 0 <= n <= |steps| ensures Holds(c, After(c, v, kB, steps, n), kA, kB) {
        KbKept(c, v, kA, kB, steps, n);
      }
    }
    if KeptThroughout(c, v, kA, kB, steps) {
      forall i | 0 <= i < |steps| ensures PresentsKey(c, After(c, v, kB, steps, i), steps[i]) {
        assert Holds(c, After(c, v, kB, steps, i), kA, kB) && Holds(c, After(c, v, kB, steps, i + 1), kA, kB);
        NextIs(c, v, kB, steps, i);
        StepKeepsKb(c, After(c, v, kB, steps, i), kA, kB, steps[i]);
      }
    }
  }

  lemma NextIs(c: Crypto, v: Vault, kB: string, steps: seq<Step>, i: nat)
    requires i < |steps|
    ensures After(c, v, kB, steps, i + 1) == Applied(c, After(c, v, kB, steps, i), kB, steps[i])
  {
  }

  lemma {:induction false} KbKept(c: Crypto, v: Vault, kA: string, kB: string, steps: seq<Step>, n: nat)
    requires c.Sized() && Holds(c, v, kA, kB) && IsKey(kB) && n <= |steps|
    requires forall i :: 0 <= i < n ==> PresentsKey(c, After(c, v, kB, steps, i), steps[i])
    ensures Holds(c, After(c, v, kB, steps, n), kA, kB)
  {
    hide Holds, Applied, PresentsKey, IsKey;
    if n > 0 {
      KbKept(c, v, kA, kB, steps, n - 1);
      StepKeepsKb(c, After(c, v, kB, steps, n - 1), kA, kB, steps[n - 1]);
    }
  }

  /** The change was started with the current password and the email it was set with. */
  predicate ByOwner(c: Crypto, v: Vault, step: Step) {
    step.Change? && Started(c, v, step).Ok? ==> step.password == v.password && Started(c, v, step).value.1 == v.email
  }

  /** kB is invariant: as long as every change that goes through is made with the current password,
      it keeps the original kA and kB, for any primitives of the right output lengths. */
  lemma KbIsInvariant(c: Crypto, v: Vault, kA: string, kB: string, steps: seq<Step>, n: nat)
    requires c.Sized() && Holds(c, v, kA, kB) && IsKey(kB) && n <= |steps|
    requires forall i :: 0 <= i < n ==> ByOwner(c, After(c, v, kB, steps, i), steps[i])
    ensures Holds(c, After(c, v, kB, steps, n), kA, kB)
  {
    hide Holds, Applied, IsKey, After, GetCredentials, PasswordChangeStart;
    forall i | 0 <= i < n ensures PresentsKey(c, After(c, v, kB, steps, i), steps[i]) {
      var v', step := After(c, v, kB, steps, i), steps[i];
      assert ByOwner(c, v', step);
      if step.Change? {
        StartAccepted(c, v'.account, step.email, step.password);
      }
    }
    KbKept(c, v, kA, kB, steps, n);
  }

  // ---- A change that loses kB ----

  /** Another password with the same proof but another wrapping key passes for the current one: one
      change with it goes through, and the new password then fetches a different key. */
  lemma CollisionLosesKb(c: Crypto, v: Vault, kA: string, kB: string, bundleKey: BundleKey,
                         email: string, password: string, newPassword: string) returns (other: string)
    requires c.Sized() && Holds(c, v, kA, kB) && email in v.account.emails
    requires GetCredentials(c, email, password).authPW == GetCredentials(c, v.email, v.password).authPW
    requires GetCredentials(c, email, password).unwrapBKey != KeyOf(c, v)
    ensures var v' := Applied(c, v, kB, Change(bundleKey, email, password, newPassword));
            && v'.password == newPassword && v'.account.authPW == GetCredentials(c, v'.email, newPassword).authPW
            && other != kB && Holds(c, v', kA, other) && !Holds(c, v', kA, kB)
  {
    hide GetCredentials, UnwrapKB, IsKey, AccountKeys;
    var step := Change(bundleKey, email, password, newPassword);
    CredentialsAreKeys(c, v.email, v.password);
    CredentialsAreKeys(c, email, password);
    HoldsIs(c, v, kA, kB);
    ChangeRewraps(c, v.account, bundleKey, email, password, newPassword);
    ChangeHandsOver(c, v, kB, step);
    OnlyOwnKey(v.account.wrapKb, KeyOf(c, v), GetCredentials(c, email, password).unwrapBKey);
    other := UnwrapKB(v.account.wrapKb, GetCredentials(c, email, password).unwrapBKey).value;
    HoldsIs(c, Applied(c, v, kB, step), kA, other);
    HoldsIs(c, Applied(c, v, kB, step), kA, kB);
  }

  // ---- Accounts that cannot lose kB ----

  /** Whoever passes for the owner with one of these emails has the owner's wrapping key. */
  ghost predicate NoCollision(c: Crypto, emails: set<string>) {
    forall e, p, e', p' :: e' in emails && GetCredentials(c, e, p).authPW == GetCredentials(c, e', p').authPW ==>
      GetCredentials(c, e, p).unwrapBKey == GetCredentials(c, e', p').unwrapBKey
  }

  /** A new account with keys kA and kB that is found by `emails`. */
  function SignedUp(c: Crypto, kA: string, kB: string, email: string, emails: set<string>, password: string)
    : Result<Account>
  {
    ResetPasswordWithRecoveryKey(c, Account(email, emails, "", kA, ""), kB, email, password)
  }

  /** Every run of an account created with these keys and this password keeps kB. */
  ghost predicate AlwaysKept(c: Crypto, kA: string, kB: string, email: string, emails: set<string>, password: string) {
    var account := SignedUp(c, kA, kB, email, emails, password);
    && account.Ok?
    && forall steps :: Holds(c, After(c, Vault(account.value, email, password), kB, steps, |steps|), kA, kB)
  }

  lemma NewAccountKept(c: Crypto, kA: string, kB: string, email: string, emails: set<string>, password: string)
    requires c.Sized() && email in emails && NoCollision(c, emails) && IsKey(kA) && IsKey(kB)
    ensures AlwaysKept(c, kA, kB, email, emails, password)
  {
    hide Holds, Applied, IsKey, After, GetCredentials, UnwrapKB;
    ResetHolds(c, Account(email, emails, "", kA, ""), kB, email, password);
    var v := Vault(SignedUp(c, kA, kB, email, emails, password).value, email, password);
    forall steps ensures Holds(c, After(c, v, kB, steps, |steps|), kA, kB) {
      CollisionFreeKept(c, v, kA, kB, steps, |steps|);
    }
  }

  /** No step changes by which emails the account is found. */
  lemma EmailsStay(c: Crypto, v: Vault, kB: string, step: Step)
    ensures Applied(c, v, kB, step).account.emails == v.account.emails
  {
    hide GetCredentials, AccountKeys, UnwrapKB, PasswordChangeStart;
  }

  lemma {:induction false} CollisionFreeKept(c: Crypto, v: Vault, kA: string, kB: string, steps: seq<Step>, n: nat)
    requires c.Sized() && NoCollision(c, v.account.emails) && Holds(c, v, kA, kB) && IsKey(kB) && n <= |steps|
    ensures Holds(c, After(c, v, kB, steps, n), kA, kB)
    ensures After(c, v, kB, steps, n).account.emails == v.account.emails
  {
    hide Applied, IsKey, GetCredentials, AccountKeys, PasswordChangeStart;
    if n > 0 {
      CollisionFreeKept(c, v, kA, kB, steps, n - 1);
      var v', step := After(c, v, kB, steps, n - 1), steps[n - 1];
      if step.Change? {
        StartAccepted(c, v'.account, step.email, step.password);
      }
      StepKeepsKb(c, v', kA, kB, step);
      EmailsStay(c, v', kB, step);
    }
  }

  /** No run of an account found by `emails` loses kB, whoever makes the changes, exactly when no
      other password passes with one of these emails while having another wrapping key. */
  lemma NobodyLosesKbExactlyWhen(c: Crypto, email: string, emails: set<string>)
    requires c.Sized() && email in emails
    ensures (forall kA, kB, password :: IsKey(kA) && IsKey(kB) ==> AlwaysKept(c, kA, kB, email, emails, password))
            <==> NoCollision(c, emails)
  {
    hide IsKey, Holds, GetCredentials, AlwaysKept;
    if NoCollision(c, emails) {
      forall kA, kB, password | IsKey(kA) && IsKey(kB) ensures AlwaysKept(c, kA, kB, email, emails, password) {
        NewAccountKept(c, kA, kB, email, emails, password);
      }
    } else {
      var e, p, e', p' :| e' in emails && GetCredentials(c, e, p).authPW == GetCredentials(c, e', p').authPW
                          && GetCredentials(c, e, p).unwrapBKey != GetCredentials(c, e', p').unwrapBKey;
      var some := GetCredentials(c, e, p).authPW;
      CredentialsAreKeys(c, e, p);
      CollisionNotKept(c, some, some, email, emails, e, p, e', p');
    }
  }

  /** The losing run: a recovery reset to the one password, and a change made with the other. */
  lemma CollisionNotKept(c: Crypto, kA: string, kB: string, email: string, emails: set<string>,
                         e: string, p: string, e': string, p': string)
    requires c.Sized() && IsKey(kA) && IsKey(kB) && email in emails && e' in emails
    requires GetCredentials(c, e, p).authPW == GetCredentials(c, e', p').authPW
    requires GetCredentials(c, e, p).unwrapBKey != GetCredentials(c, e', p').unwrapBKey
    ensures !AlwaysKept(c, kA, kB, email, emails, p)
  {
    hide IsKey, Holds, Applied, GetCredentials, UnwrapKB, AccountKeys;
    ResetHolds(c, Account(email, emails, "", kA, ""), kB, email, p);
    var v, bundleKey: BundleKey := Vault(SignedUp(c, kA, kB, email, emails, p).value, email, p), seq(32, _ => 0);
    var recover, change := Recover(e, p), Change(bundleKey, e', p', p);
    RecoverIs(c, v, kA, kB, e, p);
    var v1 := Applied(c, v, kB, recover);
    var _ := CollisionLosesKb(c, v1, kA, kB, bundleKey, e', p', p);
    var steps := [recover, change];
    NextIs(c, v, kB, steps, 0);
    NextIs(c, v, kB, steps, 1);
    assert After(c, v, kB, steps, 0) == v;
    assert !Holds(c, After(c, v, kB, steps, |steps|), kA, kB);
  }

  lemma RecoverIs(c: Crypto, v: Vault, kA: string, kB: string, email: string, newPassword: string)
    requires c.Sized() && Holds(c, v, kA, kB) && IsKey(kB)
    ensures var v' := Applied(c, v, kB, Recover(email, newPassword));
            && Holds(c, v', kA, kB) && v'.email == email && v'.password == newPassword
            && v'.account.emails == v.account.emails
  {
    hide IsKey, GetCredentials, UnwrapKB, AccountKeys;
    HoldsIs(c, v, kA, kB);
    ResetHolds(c, v.account, kB, email, newPassword);
  }
}
