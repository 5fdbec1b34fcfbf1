/** The `userAuth` middleware that guards `/send-verify-otp`, `/verify-account` and
    `/api/user/data`: it picks a session cookie, verifies it, looks the account up,
    and confines a request that carries the provisional `tempToken` cookie to the two
    verification endpoints. An absent cookie is the empty string (both are falsy). */
module UserAuth {
  import opened Accounts

  /** The middleware either answers with a message, or lets the request through
      with `req.userId` set. */
  datatype Decision = Deny(message: string) | Allow(userId: UserId)

  /** `fragment` occurs in `s` starting at index `i`. */
  predicate OccursAt(s: string, fragment: string, i: nat) {
    i + |fragment| <= |s| && s[i..i + |fragment|] == fragment
  }

  /** `s.includes(fragment)`, as a scan from the left. */
  function Contains(s: string, fragment: string): (b: bool)
    ensures b <==> exists i: nat :: OccursAt(s, fragment, i)
    decreases |s|
  {
    if |fragment| > |s| then false
    else if s[..|fragment|] == fragment then (assert OccursAt(s, fragment, 0); true)
    else (
      var b := Contains(s[1..], fragment);
      ShiftOccurrence(s, fragment);
      b)
  }

  /** When `fragment` does not start `s`, it occurs in `s` exactly when it occurs in `s[1..]`. */
  lemma ShiftOccurrence(s: string, fragment: string)
    requires |s| > 0 && !OccursAt(s, fragment, 0)
    ensures (exists i: nat :: OccursAt(s, fragment, i)) <==> (exists j: nat :: OccursAt(s[1..], fragment, j))
  {
    if i: nat :| OccursAt(s, fragment, i) {
      assert s[1..][i - 1..i - 1 + |fragment|] == s[i..i + |fragment|];
      assert OccursAt(s[1..], fragment, i - 1);
    }
    if j: nat :| OccursAt(s[1..], fragment, j) {
      assert s[1..][j..j + |fragment|] == s[j + 1..j + 1 + |fragment|];
      assert OccursAt(s, fragment, j + 1);
    }
  }

  const VerifyAccountPath: string := "/verify-account"
  const SendVerifyOtpPath: string := "/send-verify-otp"

  /** Paths a provisional token may reach. */
  predicate VerificationPath(path: string) {
    Contains(path, VerifyAccountPath) || Contains(path, SendVerifyOtpPath)
  }

  /** `req.cookies.token || req.cookies.tempToken`. */
  function ChosenCookie(token: string, tempToken: string): (cookie: string)
    ensures cookie == "" <==> token == "" && tempToken == ""
    ensures token != "" ==> cookie == token
    ensures token == "" ==> cookie == tempToken
  {
    if token != "" then token else tempToken
  }

  function Authorize(token: string, tempToken: string, verify: string -> TokenCheck,
                     users: map<string, Account>, path: string): (d: Decision)
    ensures d.Allow? ==> verify(ChosenCookie(token, tempToken)) == Verified(d.userId) && HasId(users, d.userId)
  {
    var cookie := ChosenCookie(token, tempToken);
    if cookie == "" then Deny("Please login first")
    else match verify(cookie)
      case Rejected => Deny("Authentication failed")
      case Verified(id) =>
        if !HasId(users, id) then Deny("User not found")
        else if tempToken != "" && !Contains(path, VerifyAccountPath) && !Contains(path, SendVerifyOtpPath)
        then Deny("Please verify your login first")
        else Allow(id)
  }

  /** With neither cookie the request is refused before anything is verified. */
  lemma NoCookieMeansLogin(verify: string -> TokenCheck, users: map<string, Account>, path: string)
    ensures Authorize("", "", verify, users, path) == Deny("Please login first")
  {
  }

  /** When `token` is present it is the cookie verified: the value of `tempToken` is
      irrelevant, only whether it is present. */
  lemma TokenWinsOverTempToken(token: string, temp1: string, temp2: string, verify: string -> TokenCheck,
                               users: map<string, Account>, path: string)
    requires token != ""
    requires (temp1 == "") == (temp2 == "")
    ensures Authorize(token, temp1, verify, users, path) == Authorize(token, temp2, verify, users, path)
  {
  }

  /** A cookie that fails verification yields "Authentication failed", whatever the path. */
  lemma RejectedTokenFails(token: string, tempToken: string, verify: string -> TokenCheck,
                           users: map<string, Account>, path: string)
    requires ChosenCookie(token, tempToken) != ""
    requires verify(ChosenCookie(token, tempToken)) == Rejected
    ensures Authorize(token, tempToken, verify, users, path) == Deny("Authentication failed")
  {
  }

  /** The account lookup precedes the path restriction: an unknown id is "User not found"
      on every path, with or without `tempToken`. */
  lemma UnknownUserBeforePathCheck(token: string, tempToken: string, verify: string -> TokenCheck,
                                   users: map<string, Account>, path: string, id: UserId)
    requires ChosenCookie(token, tempToken) != ""
    requires verify(ChosenCookie(token, tempToken)) == Verified(id)
    requires !HasId(users, id)
    ensures Authorize(token, tempToken, verify, users, path) == Deny("User not found")
  {
  }

  /** The presence of `tempToken` confines every request, even one that also carries a
      valid full `token`, to the verification paths. */
  lemma TempTokenConfinesPath(token: string, tempToken: string, verify: string -> TokenCheck,
                              users: map<string, Account>, path: string, id: UserId)
    requires tempToken != ""
    requires verify(ChosenCookie(token, tempToken)) == Verified(id) && HasId(users, id)
    ensures Authorize(token, tempToken, verify, users, path) ==
      if VerificationPath(path) then Allow(id) else Deny("Please verify your login first")
  {
  }

  /** Paths are matched by containment: any path that embeds a verification fragment passes,
      whatever surrounds it. */
  lemma SubstringPathsPass(prefix: string, suffix: string, useVerifyAccount: bool)
    ensures VerificationPath(prefix + (if useVerifyAccount then VerifyAccountPath else SendVerifyOtpPath) + suffix)
  {
    var fragment := if useVerifyAccount then VerifyAccountPath else SendVerifyOtpPath;
    var path := prefix + fragment + suffix;
    assert path[|prefix|..|prefix| + |fragment|] == fragment;
    assert OccursAt(path, fragment, |prefix|);
  }

  /** The request goes through exactly when the chosen cookie verifies to a stored account and,
      if `tempToken` is present, the path is a verification path; `req.userId` is then that
      account's id and no other outcome sets it. */
  lemma AllowExactly(token: string, tempToken: string, verify: string -> TokenCheck,
                     users: map<string, Account>, path: string, id: UserId)
    ensures Authorize(token, tempToken, verify, users, path) == Allow(id) <==>
      && ChosenCookie(token, tempToken) != ""
      && verify(ChosenCookie(token, tempToken)) == Verified(id)
      && HasId(users, id)
      && (tempToken != "" ==> VerificationPath(path))
  {
  }
}
