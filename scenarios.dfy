/** Sequences of handler calls on one store, with what they must answer. Each one follows
    from the handlers' contracts alone. */
module Scenarios {
  import opened Accounts
  import opened AuthController
  import Decimal

  /** A new account can log in with the password it registered with, and the login leaves
      a code that expires exactly one day later. */
  method RegisterThenLogin(store: UserStore, name: string, email: string, password: string,
                           salt: nat, random: real, now: int)
    returns (registered: Reply, login: Reply, cookie: CookieChange)
    requires store.Valid() && 0.0 <= random < 1.0
    requires name != "" && email != "" && password != "" && email !in store.users
    modifies store
    ensures registered.Succeeded() && login == SuccessVerification(LoginPrompt, true)
    ensures email in store.users && cookie == SetTempToken(store.users[email].id)
    ensures store.users[email].verifyOtp == Decimal.OtpCode(random)
    ensures store.users[email].verifyOtpExpireAt == now + OtpLifetimeMs
  {
    registered := store.Register(name, email, password, salt);
    login, cookie := store.Login(email, password, random, now, Delivered);
  }

  /** The mailed code verifies once within its day; the second use is refused as invalid. */
  method LoginThenVerifyTwice(store: UserStore, email: string, password: string, random: real,
                              now: int, later: int)
    returns (login: Reply, first: Reply, second: Reply)
    requires store.Valid() && 0.0 <= random < 1.0
    requires email != "" && password != "" && email in store.users
    requires Matches(password, store.users[email].password)
    requires now <= later <= now + OtpLifetimeMs
    modifies store
    ensures login.Succeeded()
    ensures first == Success("Login successful") && second == Failure("Invalid OTP")
    ensures email in store.users && store.users[email].isAccountVerified
  {
    var id := store.users[email].id;
    var cookie;
    login, cookie := store.Login(email, password, random, now, Delivered);
    store.OwnerOfStored(email);
    first, cookie := store.VerifyEmail(id, Decimal.OtpCode(random), later);
    store.OwnerOfStored(email);
    second, cookie := store.VerifyEmail(id, Decimal.OtpCode(random), later);
  }

  /** The code is saved before the mail is sent: a failed mail is reported as a failure, yet
      the code it would have carried still verifies. The failed login sets no `tempToken`, so
      behind `userAuth` this verification is reachable only with a session cookie left from an
      earlier login. */
  method MailFailureKeepsCode(store: UserStore, email: string, password: string, random: real,
                              now: int, reason: string)
    returns (login: Reply, cookie: CookieChange, verified: Reply)
    requires store.Valid() && 0.0 <= random < 1.0
    requires email != "" && password != "" && email in store.users
    requires Matches(password, store.users[email].password)
    modifies store
    ensures login == Failure(reason) && cookie == NoCookieChange
    ensures verified == Success("Login successful")
  {
    var id := store.users[email].id;
    login, cookie := store.Login(email, password, random, now, MailError(reason));
    store.OwnerOfStored(email);
    var ignored;
    verified, ignored := store.VerifyEmail(id, Decimal.OtpCode(random), now);
  }

  /** After a reset with the mailed code the new password passes the password check. The old
      one is refused unless it shares its 72-byte bcryptjs key with the new one.
      The reset code cannot be used twice. */
  method ResetThenLogin(store: UserStore, email: string, oldPassword: string, newPassword: string,
                        salt: nat, random: real, random2: real, now: int)
    returns (reset: Reply, again: Reply, withOld: Reply, withNew: Reply)
    requires store.Valid() && 0.0 <= random < 1.0 && 0.0 <= random2 < 1.0
    requires email != "" && email in store.users
    requires oldPassword != "" && newPassword != ""
    modifies store
    ensures reset == Success("Password reset successfully")
    ensures again == Failure("Invalid OTP")
    ensures withOld == if BcryptKey(oldPassword) == BcryptKey(newPassword)
                       then SuccessVerification(LoginPrompt, true)
                       else Failure("Invalid password")
    ensures withNew == SuccessVerification(LoginPrompt, true)
  {
    var sent := store.SendResetOtp(email, random, now, Delivered);
    reset := store.ResetPassword(email, Decimal.OtpCode(random), newPassword, salt, now);
    again := store.ResetPassword(email, Decimal.OtpCode(random), newPassword, salt, now);
    var cookie;
    withOld, cookie := store.Login(email, oldPassword, random2, now, Delivered);
    withNew, cookie := store.Login(email, newPassword, random2, now, Delivered);
  }

  /** Each login overwrites the previous code: after two logins only the second code
      verifies, and the first is refused as invalid, not as expired. */
  method SecondLoginSupersedesFirst(store: UserStore, email: string, password: string,
                                    random1: real, random2: real, now: int)
    returns (stale: Reply, current: Reply)
    requires store.Valid() && 0.0 <= random1 < 1.0 && 0.0 <= random2 < 1.0
    requires Decimal.OtpNumber(random1) != Decimal.OtpNumber(random2)
    requires email != "" && password != "" && email in store.users
    requires Matches(password, store.users[email].password)
    modifies store
    ensures stale == Failure("Invalid OTP")
    ensures current == Success("Login successful")
  {
    var id := store.users[email].id;
    var login, cookie := store.Login(email, password, random1, now, Delivered);
    login, cookie := store.Login(email, password, random2, now, Delivered);
    Decimal.OtpCodeDistinguishes(random1, random2);
    store.OwnerOfStored(email);
    stale, cookie := store.VerifyEmail(id, Decimal.OtpCode(random1), now);
    current, cookie := store.VerifyEmail(id, Decimal.OtpCode(random2), now);
  }
}
