/** The account handlers: registration, password login with a mailed one-time code,
    resending and checking that code, requesting and using a password-reset code, the
    session probe and logout. The user collection is a `UserStore` object whose map from
    email to account the handlers read and overwrite; each handler's reply is the JSON
    body it sends, and the cookie it sets or clears is returned beside it.

    The libraries the handlers call are inputs here: `salt` is bcrypt's random salt,
    `random` is `Math.random()`, `now` is `Date.now()`, `mail` is the outcome of
    `transporter.sendMail`, and `verify` is `jwt.verify` with the server's secret. */
module AuthController {
  import opened Accounts
  import Decimal

  /** The JSON body of a reply. Every failure is `{success: false, message}`. */
  datatype Reply =
    | Failure(message: string)
    | Success(message: string)
    | SuccessVerification(message: string, requiresVerification: bool)
    | SuccessUser(message: string, userData: PublicView)
  {
    predicate Succeeded() { !Failure? }
  }

  /** Cookies a reply sets or clears; a token is modelled by the account id it is signed for. */
  datatype CookieChange =
    | NoCookieChange
    | SetTempToken(id: UserId)           // provisional token, one hour
    | ReplaceTempWithToken(id: UserId)   // clears tempToken, sets the one-day session token
    | ClearToken                         // logout

  /** What `transporter.sendMail` did: it resolves, or it throws with a message. */
  datatype MailOutcome = Delivered | MailError(reason: string)

  /** The reply after the code has been saved and the mail attempted. */
  function AfterMail(mail: MailOutcome, success: Reply): (r: Reply)
    requires success.Succeeded()
    ensures r.Succeeded() <==> mail.Delivered?
    ensures mail.Delivered? ==> r == success
    ensures mail.MailError? ==> r.message == mail.reason
  {
    if mail.Delivered? then success else Failure(mail.reason)
  }

  const LoginPrompt: string := "Please verify your login with the OTP sent to your email"
  const OtpSent: string := "OTP sent to your email"

  class UserStore {
    /** The `users` collection, keyed by its unique email. */
    var users: map<string, Account>
    /** The next `_id` to hand out. */
    var nextId: UserId

    /** Every account sits under its own email and ids are unique and already handed out. */
    ghost predicate Valid()
      reads this
    {
      && (forall e :: e in users ==> users[e].email == e && users[e].id < nextId)
      && (forall e1, e2 :: e1 in users && e2 in users && users[e1].id == users[e2].id ==> e1 == e2)
    }

    /** Registration marks accounts verified and no handler unmarks them. */
    ghost predicate EveryAccountVerified()
      reads this
    {
      forall e :: e in users ==> users[e].isAccountVerified
    }

    constructor ()
      ensures Valid() && EveryAccountVerified()
      ensures users == map[] && nextId == 0
    {
      users := map[];
      nextId := 0;
    }

    /** In a valid store the id of a stored account leads back to its email. */
    lemma OwnerOfStored(email: string)
      requires Valid() && email in users
      ensures OwnerOf(users, users[email].id) == Some(email)
    {
    }

    /** `findById(userId)` in a valid store. */
    method FindById(userId: UserId) returns (email: Option<string>)
      requires Valid()
      ensures email == OwnerOf(users, userId)
    {
      if !HasId(users, userId) {
        return None;
      }
      var e :| e in users && users[e].id == userId;
      return Some(e);
    }

    /** `POST /register`. */
    method Register(name: string, email: string, password: string, salt: nat) returns (r: Reply)
      requires Valid()
      modifies this
      ensures Valid()
      ensures old(EveryAccountVerified()) ==> EveryAccountVerified()
      ensures name == "" || email == "" || password == "" ==>
        r == Failure("Missing details") && users == old(users) && nextId == old(nextId)
      ensures name != "" && email != "" && password != "" && email in old(users) ==>
        r == Failure("User already exists") && users == old(users) && nextId == old(nextId)
      ensures name != "" && email != "" && password != "" && email !in old(users) ==>
        && r == SuccessVerification("Registration successful. You can now login.", false)
        && !HasId(old(users), old(nextId))
        && users == old(users)[email := NewAccount(old(nextId), name, email, Hash(password, salt))]
        && nextId == old(nextId) + 1
    {
      if name == "" || email == "" || password == "" {
        return Failure("Missing details");
      }
      if email in users {
        return Failure("User already exists");
      }
      var hash := Hash(password, salt);
      var user := NewAccount(nextId, name, email, hash);
      users := users[email := user];
      nextId := nextId + 1;
      r := SuccessVerification("Registration successful. You can now login.", false);
    }

    /** `POST /login`: the new code is saved before the mail is sent, so a failed mail
        leaves the code in place and only withholds the provisional cookie. */
    method Login(email: string, password: string, random: real, now: int, mail: MailOutcome)
      returns (r: Reply, cookie: CookieChange)
      requires Valid()
      requires 0.0 <= random < 1.0
      modifies this
      ensures Valid() && nextId == old(nextId)
      ensures old(EveryAccountVerified()) ==> EveryAccountVerified()
      ensures email == "" || password == "" ==>
        r == Failure("Email and password required") && cookie == NoCookieChange && users == old(users)
      ensures email != "" && password != "" && email !in old(users) ==>
        r == Failure("User not found") && cookie == NoCookieChange && users == old(users)
      ensures email != "" && password != "" && email in old(users) && !Matches(password, old(users)[email].password) ==>
        r == Failure("Invalid password") && cookie == NoCookieChange && users == old(users)
      ensures email != "" && password != "" && email in old(users) && Matches(password, old(users)[email].password) ==>
        && users == old(users)[email := WithVerifyOtp(old(users)[email], Decimal.OtpCode(random), now)]
        && r == AfterMail(mail, SuccessVerification(LoginPrompt, true))
        && cookie == (if mail.Delivered? then SetTempToken(old(users)[email].id) else NoCookieChange)
    {
      if email == "" || password == "" {
        return Failure("Email and password required"), NoCookieChange;
      }
      if email !in users {
        return Failure("User not found"), NoCookieChange;
      }
      var user := users[email];
      if !Matches(password, user.password) {
        return Failure("Invalid password"), NoCookieChange;
      }
      var otp := Decimal.OtpCode(random);
      user := user.(verifyOtp := otp);
      user := user.(verifyOtpExpireAt := now + OtpLifetimeMs);
      users := users[email := user];
      if mail.MailError? {
        return Failure(mail.reason), NoCookieChange;
      }
      return SuccessVerification(LoginPrompt, true), SetTempToken(user.id);
    }

    /** `POST /send-verify-otp`, behind `userAuth`, for the account `userId` it accepted. */
    method SendVerifyOtp(userId: UserId, random: real, now: int, mail: MailOutcome) returns (r: Reply)
      requires Valid()
      requires 0.0 <= random < 1.0
      modifies this
      ensures Valid() && nextId == old(nextId)
      ensures old(EveryAccountVerified()) ==> EveryAccountVerified()
      ensures !HasId(old(users), userId) ==> r == Failure("User not found") && users == old(users)
      ensures HasId(old(users), userId) ==>
        var e := OwnerOf(old(users), userId).value;
        if old(users)[e].isAccountVerified then
          r == Failure("Account already verified") && users == old(users)
        else
          && users == old(users)[e := WithVerifyOtp(old(users)[e], Decimal.OtpCode(random), now)]
          && r == AfterMail(mail, Success(OtpSent))
      /* Since registration already verifies, a resend never issues a code. */
      ensures old(EveryAccountVerified()) ==> !r.Succeeded() && users == old(users)
    {
      var found := FindById(userId);
      if found.None? {
        return Failure("User not found");
      }
      var e := found.value;
      var user := users[e];
      if user.isAccountVerified {
        return Failure("Account already verified");
      }
      var otp := Decimal.OtpCode(random);
      user := user.(verifyOtp := otp);
      user := user.(verifyOtpExpireAt := now + OtpLifetimeMs);
      users := users[e := user];
      r := AfterMail(mail, Success(OtpSent));
    }

    /** `POST /verify-account`, behind `userAuth`: checks the login code of account `userId`. */
    method VerifyEmail(userId: UserId, otp: string, now: int) returns (r: Reply, cookie: CookieChange)
      requires Valid()
      modifies this
      ensures Valid() && nextId == old(nextId)
      ensures old(EveryAccountVerified()) ==> EveryAccountVerified()
      ensures otp == "" ==> r == Failure("OTP required") && cookie == NoCookieChange && users == old(users)
      ensures otp != "" && !HasId(old(users), userId) ==>
        r == Failure("User not found") && cookie == NoCookieChange && users == old(users)
      ensures otp != "" && HasId(old(users), userId) ==>
        var e := OwnerOf(old(users), userId).value;
        var a := old(users)[e];
        match CheckOtp(a.verifyOtp, a.verifyOtpExpireAt, otp, now)
        case InvalidOtp => r == Failure("Invalid OTP") && cookie == NoCookieChange && users == old(users)
        case ExpiredOtp => r == Failure("OTP expired") && cookie == NoCookieChange && users == old(users)
        case OtpAccepted =>
          && users == old(users)[e := AfterVerify(a)]
          && r == Success("Login successful")
          && cookie == ReplaceTempWithToken(userId)
    {
      if otp == "" {
        return Failure("OTP required"), NoCookieChange;
      }
      var found := FindById(userId);
      if found.None? {
        return Failure("User not found"), NoCookieChange;
      }
      var e := found.value;
      var user := users[e];
      if user.verifyOtp != otp || user.verifyOtp == Placeholder {
        return Failure("Invalid OTP"), NoCookieChange;
      }
      if user.verifyOtpExpireAt < now {
        return Failure("OTP expired"), NoCookieChange;
      }
      user := user.(verifyOtp := Placeholder);
      user := user.(verifyOtpExpireAt := 0);
      if !user.isAccountVerified {
        user := user.(isAccountVerified := true);
      }
      users := users[e := user];
      // the message is chosen after the flag has been set
      var message := if user.isAccountVerified then "Login successful" else "Account verified successfully";
      return Success(message), ReplaceTempWithToken(user.id);
    }

    /** `GET /is-auth`: reads only the `token` cookie, never `tempToken`. */
    method IsAuthenticated(token: string, verify: string -> TokenCheck) returns (r: Reply)
      requires Valid()
      ensures token == "" ==> r == Failure("Not authenticated")
      ensures token != "" && verify(token).Rejected? ==> r == Failure("Not authenticated")
      ensures token != "" && verify(token).Verified? && !HasId(users, verify(token).id) ==>
        r == Failure("User not found")
      ensures token != "" && verify(token).Verified? && HasId(users, verify(token).id) ==>
        r == SuccessUser("User is authenticated", PublicViewOf(users[OwnerOf(users, verify(token).id).value]))
      ensures r.SuccessUser? ==> r.userData.userId == verify(token).id
    {
      if token == "" {
        return Failure("Not authenticated");
      }
      var decoded := verify(token);
      if decoded.Rejected? {
        return Failure("Not authenticated");
      }
      var found := FindById(decoded.id);
      if found.None? {
        return Failure("User not found");
      }
      var user := users[found.value];
      r := SuccessUser("User is authenticated", PublicViewOf(user));
    }

    /** `POST /logout`: clears the session cookie only; the store is not consulted and an
        issued token stays valid until it expires. */
    method Logout() returns (r: Reply, cookie: CookieChange)
      ensures r == Success("Logout Success") && cookie == ClearToken
    {
      return Success("Logout Success"), ClearToken;
    }

    /** `POST /send-reset-otp`: only the reset fields of the account are written. */
    method SendResetOtp(email: string, random: real, now: int, mail: MailOutcome) returns (r: Reply)
      requires Valid()
      requires 0.0 <= random < 1.0
      modifies this
      ensures Valid() && nextId == old(nextId)
      ensures old(EveryAccountVerified()) ==> EveryAccountVerified()
      ensures email == "" ==> r == Failure("Email required") && users == old(users)
      ensures email != "" && email !in old(users) ==> r == Failure("User not found") && users == old(users)
      ensures email != "" && email in old(users) ==>
        && users == old(users)[email := WithResetOtp(old(users)[email], Decimal.OtpCode(random), now)]
        && r == AfterMail(mail, Success(OtpSent))
    {
      if email == "" {
        return Failure("Email required");
      }
      if email !in users {
        return Failure("User not found");
      }
      var user := users[email];
      var otp := Decimal.OtpCode(random);
      user := user.(resetOtp := otp);
      user := user.(resetOtpExpireAt := now + OtpLifetimeMs);
      users := users[email := user];
      r := AfterMail(mail, Success(OtpSent));
    }

    /** `POST /reset-password`: the same guard order as `VerifyEmail`, on the reset fields. */
    method ResetPassword(email: string, otp: string, newPassword: string, salt: nat, now: int)
      returns (r: Reply)
      requires Valid()
      modifies this
      ensures Valid() && nextId == old(nextId)
      ensures old(EveryAccountVerified()) ==> EveryAccountVerified()
      ensures email == "" || otp == "" || newPassword == "" ==>
        r == Failure("Email, OTP and new password required") && users == old(users)
      ensures email != "" && otp != "" && newPassword != "" && email !in old(users) ==>
        r == Failure("User not found") && users == old(users)
      ensures email != "" && otp != "" && newPassword != "" && email in old(users) ==>
        var a := old(users)[email];
        match CheckOtp(a.resetOtp, a.resetOtpExpireAt, otp, now)
        case InvalidOtp => r == Failure("Invalid OTP") && users == old(users)
        case ExpiredOtp => r == Failure("OTP expired") && users == old(users)
        case OtpAccepted =>
          users == old(users)[email := AfterReset(a, Hash(newPassword, salt))]
          && r == Success("Password reset successfully")
    {
      if email == "" || otp == "" || newPassword == "" {
        return Failure("Email, OTP and new password required");
      }
      if email !in users {
        return Failure("User not found");
      }
      var user := users[email];
      if user.resetOtp != otp || user.resetOtp == Placeholder {
        return Failure("Invalid OTP");
      }
      if user.resetOtpExpireAt < now {
        return Failure("OTP expired");
      }
      var hash := Hash(newPassword, salt);
      user := user.(password := hash);
      user := user.(resetOtp := Placeholder);
      user := user.(resetOtpExpireAt := 0);
      users := users[email := user];
      r := Success("Password reset successfully");
    }
  }
}
