/**
 * Properties that relate several handler calls: the life of a verification code from
 * signup to verifyEmail, single use of codes and reset tokens, revocation of an earlier
 * reset token, and what login failures do and do not reveal.
 */
module AuthProperties {
  import opened Wrappers
  import opened Encoding
  import opened Bcrypt
  import opened UserModel
  import opened AuthController

  /**
   * The code a signup issues verifies an account at any time strictly before its
   * 24-hour deadline, and no longer matches the new record from the deadline on. When no
   * older record holds the same live code, it is the new record that gets verified.
   */
  lemma SignupThenVerify(s: Store, email: string, password: string, name: string, draw: nat, signedUpAt: int, now: int)
    requires WellFormed(s)
    requires draw < 900000
    requires email != "" && password != "" && name != "" && !EmailTaken(s, email)
    ensures var r := SignupStep(s, Some(email), Some(password), Some(name), draw, signedUpAt);
            var code := DecimalString(100000 + draw);
            && r.response.success
            && (now < signedUpAt + VerificationTokenLifetime ==>
                  VerifyEmailStep(r.store, code, now, false).response.success)
            && (now >= signedUpAt + VerificationTokenLifetime ==>
                  !Satisfies(r.store.users[s.nextId], ByVerificationCode(code, now)))
            && (now < signedUpAt + VerificationTokenLifetime && !AnySatisfies(s, ByVerificationCode(code, now)) ==>
                  VerifyEmailStep(r.store, code, now, false).store.users[s.nextId].isVerified)
  {
  }

  /**
   * A consumed verification code is spent: the verified record matches no code at any
   * later time, a retry with the same code leaves that record as it is, and when no other
   * record held the code the retry is refused with the usual message.
   */
  lemma VerificationCodeSingleUse(s: Store, code: string, now: int, welcomeMailFails: bool, later: int, retryMailFails: bool)
    requires WellFormed(s)
    requires AnySatisfies(s, ByVerificationCode(code, now))
    ensures var r := VerifyEmailStep(s, code, now, welcomeMailFails);
            var id := Lookup(s, ByVerificationCode(code, now)).value;
            var retry := VerifyEmailStep(r.store, code, later, retryMailFails);
            && r.store.users[id].isVerified
            && (forall c, t :: !Satisfies(r.store.users[id], ByVerificationCode(c, t)))
            && retry.store.users[id] == r.store.users[id]
            && ((forall j :: j in s.users && j != id ==> !Satisfies(s.users[j], ByVerificationCode(code, later))) ==>
                  retry == Outcome(Failure(400, InvalidVerificationCode), r.store))
  {
  }

  /**
   * A consumed reset token is spent: the record it unlocked matches no reset token any
   * more, a retry leaves that record as it is, and when no other record held the token
   * the retry is refused with the usual message.
   */
  lemma ResetTokenSingleUse(s: Store, token: string, password: string, now: int, later: int, again: Option<string>)
    requires WellFormed(s)
    requires AnySatisfies(s, ByResetToken(token, now))
    ensures var r := ResetPasswordStep(s, token, Some(password), now);
            var id := Lookup(s, ByResetToken(token, now)).value;
            var retry := ResetPasswordStep(r.store, token, again, later);
            && r.response.success
            && Matches(password, r.store.users[id].password)
            && (forall t, n :: !Satisfies(r.store.users[id], ByResetToken(t, n)))
            && retry.store.users[id] == r.store.users[id]
            && ((forall j :: j in s.users && j != id ==> !Satisfies(s.users[j], ByResetToken(token, later))) ==>
                  retry == Outcome(Failure(400, InvalidResetToken), r.store))
    {
    HashMatches(password);
  }

  /**
   * A second forgotPassword request for the same account replaces the first token: the
   * first token, drawn from different random bytes, no longer unlocks the account, at any time.
   */
  lemma LaterResetRequestRevokesEarlierToken(s: Store, email: string, first: seq<byte>, second: seq<byte>,
                                            now1: int, now2: int, t: int)
    requires WellFormed(s)
    requires |first| == 20 && |second| == 20 && first != second
    requires email != "" && EmailTaken(s, email)
    ensures var r1 := ForgotPasswordStep(s, Some(email), first, now1);
            var r2 := ForgotPasswordStep(r1.store, Some(email), second, now2);
            var id := Lookup(s, ByEmail(email)).value;
            && r1.response.success && r2.response.success
            && Satisfies(r1.store.users[id], ByResetToken(HexEncode(first), now1))
            && !Satisfies(r2.store.users[id], ByResetToken(HexEncode(first), t))
  {
    var r1 := ForgotPasswordStep(s, Some(email), first, now1);
    var id := Lookup(s, ByEmail(email)).value;
    LookupByEmailUnique(r1.store, email, id);
    if HexEncode(first) == HexEncode(second) {
      HexInjective(first, second);
    }
  }

  /**
   * Login does not reveal whether an email is registered: an unknown email and a known
   * email with a wrong password get the very same reply, and neither changes the store.
   */
  lemma LoginFailuresIndistinguishable(unknown: Store, known: Store, email: string, password: string, now1: int, now2: int)
    requires WellFormed(unknown) && WellFormed(known)
    requires email != "" && password != ""
    requires !EmailTaken(unknown, email)
    requires exists id :: id in known.users && known.users[id].email == email && !Matches(password, known.users[id].password)
    ensures LoginStep(unknown, Some(email), Some(password), now1) == Outcome(Failure(400, InvalidCredentials), unknown)
    ensures LoginStep(known, Some(email), Some(password), now2) == Outcome(Failure(400, InvalidCredentials), known)
  {
  }

  /** Whether login succeeds does not depend on the account's verification flag. */
  lemma LoginIgnoresVerification(s: Store, id: UserId, verified: bool, email: Option<string>, password: Option<string>, now: int)
    requires WellFormed(s) && id in s.users
    ensures var flipped := s.(users := s.users[id := s.users[id].(isVerified := verified)]);
            WellFormed(flipped) &&
            LoginStep(flipped, email, password, now).response.success == LoginStep(s, email, password, now).response.success
  {
    var flipped := s.(users := s.users[id := s.users[id].(isVerified := verified)]);
    if Present(email) && Present(password) {
      if CredentialsValid(s, email.value, password.value) {
        var w :| w in s.users && s.users[w].email == email.value && Matches(password.value, s.users[w].password);
        assert flipped.users[w].email == email.value && Matches(password.value, flipped.users[w].password);
      }
      if CredentialsValid(flipped, email.value, password.value) {
        var w :| w in flipped.users && flipped.users[w].email == email.value && Matches(password.value, flipped.users[w].password);
        assert s.users[w].email == email.value && Matches(password.value, s.users[w].password);
      }
    }
  }

  /**
   * The welcome email is sent after the record is saved: when it fails the caller gets
   * 500 "server error", yet the store is exactly the one a successful verification leaves.
   */
  lemma WelcomeMailFailureKeepsVerification(s: Store, code: string, now: int)
    requires WellFormed(s)
    requires AnySatisfies(s, ByVerificationCode(code, now))
    ensures VerifyEmailStep(s, code, now, true).response == Failure(500, ServerError)
    ensures VerifyEmailStep(s, code, now, true).store == VerifyEmailStep(s, code, now, false).store
    ensures VerifyEmailStep(s, code, now, true).store != s
  {
  }

  /**
   * The signup reply carries the whole new record except its password, so the
   * verification code travels back to the client as well as by email.
   */
  lemma SignupReplyCarriesCode(s: Store, email: string, password: string, name: string, draw: nat, now: int)
    requires WellFormed(s)
    requires draw < 900000
    requires email != "" && password != "" && name != "" && !EmailTaken(s, email)
    ensures var r := SignupStep(s, Some(email), Some(password), Some(name), draw, now);
            r.response.user.Some? &&
            r.response.user.value.verificationToken == Some(DecimalString(100000 + draw))
  {
  }

  /**
   * Two signups whose random draws differ store different verification codes, so a code
   * names the draw it came from.
   */
  lemma DistinctDrawsGiveDistinctCodes(s1: Store, s2: Store, email1: string, email2: string,
                                       password1: string, password2: string, name1: string, name2: string,
                                       draw1: nat, draw2: nat, now1: int, now2: int)
    requires WellFormed(s1) && WellFormed(s2)
    requires draw1 < 900000 && draw2 < 900000 && draw1 != draw2
    requires email1 != "" && password1 != "" && name1 != "" && !EmailTaken(s1, email1)
    requires email2 != "" && password2 != "" && name2 != "" && !EmailTaken(s2, email2)
    ensures var r1 := SignupStep(s1, Some(email1), Some(password1), Some(name1), draw1, now1);
            var r2 := SignupStep(s2, Some(email2), Some(password2), Some(name2), draw2, now2);
            r1.store.users[s1.nextId].verificationToken != r2.store.users[s2.nextId].verificationToken
  {
    if DecimalString(100000 + draw1) == DecimalString(100000 + draw2) {
      DecimalInjective(100000 + draw1, 100000 + draw2);
    }
  }
}
