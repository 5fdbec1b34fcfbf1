/** The account record of the user store and the checks the handlers make on it:
    the password comparison (bcrypt, as a salted hash of the 72-byte key bcryptjs builds), the
    outcome of a session-token verification (JWT, abstracted), and the OTP guard
    shared by the login verification and the password reset. */
module Accounts {
  import Decimal

  datatype Option<T> = None | Some(value: T)

  /** Stand-in for the database's generated `_id`. */
  type UserId = nat

  /** A code point's UTF-8 encoding, one number per byte. */
  function EncodeChar(c: char): (bytes: seq<nat>)
    ensures 1 <= |bytes| <= 4
    ensures (c as int < 0x80) <==> |bytes| == 1
  {
    var n := c as int;
    if n < 0x80 then [n]
    else if n < 0x800 then [0xC0 + n / 0x40, 0x80 + n % 0x40]
    else if n < 0x10000 then [0xE0 + n / 0x1000, 0x80 + (n / 0x40) % 0x40, 0x80 + n % 0x40]
    else [0xF0 + n / 0x40000, 0x80 + (n / 0x1000) % 0x40, 0x80 + (n / 0x40) % 0x40, 0x80 + n % 0x40]
  }

  /** The UTF-8 bytes bcrypt hashes a password from. */
  function Utf8(s: string): seq<nat> {
    if s == [] then [] else EncodeChar(s[0]) + Utf8(s[1..])
  }

  predicate IsAscii(s: string) {
    forall i :: 0 <= i < |s| ==> s[i] as int < 0x80
  }

  /** An ASCII password is encoded one byte per character. */
  lemma {:induction false} AsciiUtf8(s: string)
    requires IsAscii(s)
    ensures |Utf8(s)| == |s|
    ensures forall i :: 0 <= i < |s| ==> Utf8(s)[i] == s[i] as int
  {
    if s != [] {
      AsciiUtf8(s[1..]);
    }
  }

  /** bcrypt fills its 72-byte Blowfish key schedule from the password and ignores the rest. */
  const BcryptMaxBytes: nat := 72

  /** The key bcryptjs feeds to the Blowfish key schedule: the password's UTF-8 bytes followed
      by a NUL byte, read cyclically from the start until 72 bytes have been taken. */
  function BcryptKey(password: string): (key: seq<nat>)
    ensures |key| == BcryptMaxBytes
  {
    var bytes := Utf8(password) + [0];
    seq(BcryptMaxBytes, i requires 0 <= i < BcryptMaxBytes => bytes[i % |bytes|])
  }

  /** The key starts with the password's own bytes, and when the password is shorter than the
      key the NUL terminator follows them. */
  lemma KeyPrefix(password: string)
    ensures forall i :: 0 <= i < |Utf8(password)| && i < BcryptMaxBytes ==>
      BcryptKey(password)[i] == Utf8(password)[i]
    ensures |Utf8(password)| < BcryptMaxBytes ==> BcryptKey(password)[|Utf8(password)|] == 0
  {
    var bytes := Utf8(password) + [0];
    forall i | 0 <= i <= |Utf8(password)| && i < BcryptMaxBytes
      ensures BcryptKey(password)[i] == bytes[i]
    {
      assert i % |bytes| == i;
    }
  }

  /** A salted password hash. The model assumes Blowfish is collision-free on its key, so a
      hash commits to the salt and the password's key and to nothing else. */
  datatype PasswordHash = Bcrypt(salt: nat, key: seq<nat>)

  /** `bcrypt.hash(password, 10)`, with the random salt supplied by the caller. */
  function Hash(password: string, salt: nat): (h: PasswordHash)
    ensures h.salt == salt && |h.key| == BcryptMaxBytes
  {
    Bcrypt(salt, BcryptKey(password))
  }

  /** `bcrypt.compare(password, hash)`: the attempt is hashed again with the stored salt and the
      result compared with the stored hash. */
  predicate Matches(password: string, hash: PasswordHash)
    ensures Matches(password, hash) <==> hash == Hash(password, hash.salt)
  {
    BcryptKey(password) == hash.key
  }

  /** A hash accepts exactly the passwords that share the key of the one it was made from,
      whatever the salt. */
  lemma HashAcceptsSameKey(password: string, attempt: string, salt: nat)
    ensures Matches(attempt, Hash(password, salt)) <==> BcryptKey(attempt) == BcryptKey(password)
    ensures Matches(password, Hash(password, salt))
  {
  }

  /** Two passwords of at least 72 bytes are interchangeable exactly when their first 72 bytes
      agree: each one's hash then accepts the other. */
  lemma LongPasswordsSharingPrefixCollide(p: string, q: string, salt: nat)
    requires |Utf8(p)| >= BcryptMaxBytes && |Utf8(q)| >= BcryptMaxBytes
    ensures Matches(q, Hash(p, salt)) && Matches(p, Hash(q, salt))
        <==> Utf8(p)[..BcryptMaxBytes] == Utf8(q)[..BcryptMaxBytes]
  {
    KeyPrefix(p);
    KeyPrefix(q);
    if Utf8(p)[..BcryptMaxBytes] == Utf8(q)[..BcryptMaxBytes] {
      assert BcryptKey(p) == BcryptKey(q);
    }
  }

  /** Such pairs exist: two distinct passwords that differ only in their 73rd byte. */
  lemma TruncatedPasswordsCollide(salt: nat)
    ensures var stem := seq(72, _ => 'a');
      && stem + "b" != stem + "c"
      && Matches(stem + "c", Hash(stem + "b", salt))
      && Matches(stem + "b", Hash(stem + "c", salt))
  {
    var stem := seq(72, _ => 'a');
    var p, q := stem + "b", stem + "c";
    assert p[72] != q[72];
    AsciiUtf8(p);
    AsciiUtf8(q);
    assert Utf8(p)[..72] == Utf8(q)[..72];
    LongPasswordsSharingPrefixCollide(p, q, salt);
  }

  /** The NUL terminator and the cyclic reading make a short password collide with its own
      repetition around a NUL: the hash of "a" accepts "a\0a". */
  lemma NulRepetitionCollides(salt: nat)
    ensures "a" != "a\0a" && Matches("a\0a", Hash("a", salt))
  {
    AsciiUtf8("a");
    AsciiUtf8("a\0a");
    var short, long := Utf8("a") + [0], Utf8("a\0a") + [0];
    assert short == [97, 0] && long == [97, 0, 97, 0];
    assert forall i :: 0 <= i < BcryptMaxBytes ==> short[i % 2] == long[i % 4];
  }

  predicate NulFree(s: string) {
    forall i :: 0 <= i < |s| ==> s[i] != '\0'
  }

  /** Without a NUL and within the limit nothing is lost: two such ASCII passwords of at most
      72 characters have the same key only when they are the same password. */
  lemma ShortAsciiPasswordsDistinguished(p: string, q: string)
    requires IsAscii(p) && IsAscii(q) && NulFree(p) && NulFree(q)
    requires |p| <= BcryptMaxBytes && |q| <= BcryptMaxBytes
    ensures BcryptKey(p) == BcryptKey(q) <==> p == q
  {
    AsciiUtf8(p);
    AsciiUtf8(q);
    KeyPrefix(p);
    KeyPrefix(q);
    if BcryptKey(p) == BcryptKey(q) {
      assert forall i :: 0 <= i < |p| ==> p[i] as int == q[i] as int;
    }
  }

  /** The value an OTP field holds once its code has been used. */
  const Placeholder: string := " "

  /** Every OTP is valid for 24 hours, in milliseconds. */
  const OtpLifetimeMs: int := 24 * 60 * 60 * 1000

  datatype Account = Account(
    id: UserId,
    name: string,
    email: string,
    password: PasswordHash,
    isAccountVerified: bool,
    verifyOtp: string,
    verifyOtpExpireAt: int,
    resetOtp: string,
    resetOtpExpireAt: int)

  /** The document `register` saves: verified from the start, no OTP outstanding. */
  function NewAccount(id: UserId, name: string, email: string, hash: PasswordHash): (a: Account)
    ensures a.id == id && a.name == name && a.email == email && a.password == hash
    ensures a.isAccountVerified
    ensures forall presented, now :: presented != "" ==>
      && CheckOtp(a.verifyOtp, a.verifyOtpExpireAt, presented, now) == InvalidOtp
      && CheckOtp(a.resetOtp, a.resetOtpExpireAt, presented, now) == InvalidOtp
  {
    Account(id, name, email, hash, true, "", 0, "", 0)
  }

  /** Fields a login or a resend writes: a fresh login code expiring a day from now. */
  function WithVerifyOtp(a: Account, code: string, now: int): Account {
    a.(verifyOtp := code, verifyOtpExpireAt := now + OtpLifetimeMs)
  }

  /** Fields a reset request writes: a fresh reset code expiring a day from now. */
  function WithResetOtp(a: Account, code: string, now: int): Account {
    a.(resetOtp := code, resetOtpExpireAt := now + OtpLifetimeMs)
  }

  /** Fields a successful login verification writes: the code is spent and the account verified. */
  function AfterVerify(a: Account): Account {
    a.(verifyOtp := Placeholder, verifyOtpExpireAt := 0, isAccountVerified := true)
  }

  /** Fields a successful reset writes: the new hash replaces the old and the code is spent. */
  function AfterReset(a: Account, hash: PasswordHash): Account {
    a.(password := hash, resetOtp := Placeholder, resetOtpExpireAt := 0)
  }

  /** What `isAuthenticated` may disclose about an account: never the hash or the OTP fields. */
  datatype PublicView = PublicView(name: string, email: string, userId: UserId, isAccountVerified: bool)

  function PublicViewOf(a: Account): (v: PublicView)
    ensures v.name == a.name && v.email == a.email && v.userId == a.id
    ensures v.isAccountVerified == a.isAccountVerified
  {
    PublicView(a.name, a.email, a.id, a.isAccountVerified)
  }

  /** The public view depends on no secret: replacing the hash and both codes with their
      expiries leaves it as it was. */
  lemma PublicViewHidesSecrets(a: Account, hash: PasswordHash, verifyOtp: string, verifyOtpExpireAt: int,
                               resetOtp: string, resetOtpExpireAt: int)
    ensures PublicViewOf(a.(password := hash, verifyOtp := verifyOtp, verifyOtpExpireAt := verifyOtpExpireAt,
                            resetOtp := resetOtp, resetOtpExpireAt := resetOtpExpireAt)) == PublicViewOf(a)
  {
  }

  /** Outcome of `jwt.verify` on a cookie value: a bad signature, an expired token and
      any other thrown error are all `Rejected`. */
  datatype TokenCheck = Rejected | Verified(id: UserId)

  /** `findById(id)` finds a document. */
  predicate HasId(users: map<string, Account>, id: UserId) {
    exists e :: e in users && users[e].id == id
  }

  /** The email under which the document with `_id` equal to `id` is stored, if any. */
  ghost function OwnerOf(users: map<string, Account>, id: UserId): (owner: Option<string>)
    ensures owner.Some? <==> HasId(users, id)
    ensures owner.Some? ==> owner.value in users && users[owner.value].id == id
  {
    if HasId(users, id) then (var e :| e in users && users[e].id == id; Some(e)) else None
  }

  /** The guard both `verifyEmail` and `resetPassword` apply to a stored code, in their order:
      a mismatch or a spent code first, expiry only after. */
  datatype OtpCheck = InvalidOtp | ExpiredOtp | OtpAccepted

  function CheckOtp(stored: string, expireAt: int, presented: string, now: int): (c: OtpCheck)
    ensures stored == Placeholder ==> c == InvalidOtp
    ensures c != InvalidOtp ==> presented == stored
    ensures c == OtpAccepted ==> now <= expireAt
  {
    if stored != presented || stored == Placeholder then InvalidOtp
    else if expireAt < now then ExpiredOtp
    else OtpAccepted
  }

  /** The three outcomes of the guard, each characterised in both directions: a wrong code is
      never reported as expired, a right but stale code always is, and a code is still good at
      the very millisecond it expires. */
  lemma CheckOtpOutcomes(stored: string, expireAt: int, presented: string, now: int)
    ensures CheckOtp(stored, expireAt, presented, now) == InvalidOtp
        <==> stored != presented || stored == Placeholder
    ensures CheckOtp(stored, expireAt, presented, now) == ExpiredOtp
        <==> stored == presented && stored != Placeholder && expireAt < now
    ensures CheckOtp(stored, expireAt, presented, now) == OtpAccepted
        <==> stored == presented && stored != Placeholder && now <= expireAt
  {
  }

  /** A login code issued at `issued` is accepted exactly when presented verbatim no later than
      a day after, reported expired when presented verbatim later, and refused otherwise. */
  lemma IssuedVerifyOtpLifecycle(a: Account, random: real, issued: int, presented: string, now: int)
    requires 0.0 <= random < 1.0
    ensures var b := WithVerifyOtp(a, Decimal.OtpCode(random), issued);
      CheckOtp(b.verifyOtp, b.verifyOtpExpireAt, presented, now) ==
        if presented != Decimal.OtpCode(random) then InvalidOtp
        else if now <= issued + OtpLifetimeMs then OtpAccepted
        else ExpiredOtp
  {
  }

  /** The same for a reset code. */
  lemma IssuedResetOtpLifecycle(a: Account, random: real, issued: int, presented: string, now: int)
    requires 0.0 <= random < 1.0
    ensures var b := WithResetOtp(a, Decimal.OtpCode(random), issued);
      CheckOtp(b.resetOtp, b.resetOtpExpireAt, presented, now) ==
        if presented != Decimal.OtpCode(random) then InvalidOtp
        else if now <= issued + OtpLifetimeMs then OtpAccepted
        else ExpiredOtp
  {
  }

  /** Issuing a login code writes only the login code and its expiry, and issuing a reset code
      only the reset code and its expiry: the password, the verified flag and the other code
      are left as they were. */
  lemma IssuingTouchesOnlyItsCode(a: Account, code: string, now: int)
    ensures var b := WithVerifyOtp(a, code, now);
      && b.verifyOtp == code && b.verifyOtpExpireAt == now + OtpLifetimeMs
      && b.(verifyOtp := a.verifyOtp, verifyOtpExpireAt := a.verifyOtpExpireAt) == a
    ensures var b := WithResetOtp(a, code, now);
      && b.resetOtp == code && b.resetOtpExpireAt == now + OtpLifetimeMs
      && b.(resetOtp := a.resetOtp, resetOtpExpireAt := a.resetOtpExpireAt) == a
  {
  }

  /** Codes are single-use: once a verification succeeded, no code passes the login guard
      and the login fields are the only ones touched. */
  lemma VerifyOtpSingleUse(a: Account, presented: string, now: int)
    ensures CheckOtp(AfterVerify(a).verifyOtp, AfterVerify(a).verifyOtpExpireAt, presented, now) == InvalidOtp
    ensures AfterVerify(a).isAccountVerified
    ensures AfterVerify(a).(verifyOtp := a.verifyOtp, verifyOtpExpireAt := a.verifyOtpExpireAt,
                            isAccountVerified := a.isAccountVerified) == a
  {
  }

  /** Once a reset succeeded no code passes the reset guard, the new password logs in, a
      password whose bcrypt key differs from the new one's no longer does, and the login
      fields are untouched. */
  lemma ResetReplacesCredential(a: Account, oldPassword: string, newPassword: string, salt: nat,
                                presented: string, now: int)
    ensures var b := AfterReset(a, Hash(newPassword, salt));
      && CheckOtp(b.resetOtp, b.resetOtpExpireAt, presented, now) == InvalidOtp
      && Matches(newPassword, b.password)
      && (Matches(oldPassword, b.password) <==> BcryptKey(oldPassword) == BcryptKey(newPassword))
      && b.verifyOtp == a.verifyOtp && b.verifyOtpExpireAt == a.verifyOtpExpireAt
      && b.isAccountVerified == a.isAccountVerified && b.id == a.id && b.email == a.email
  {
  }
}
