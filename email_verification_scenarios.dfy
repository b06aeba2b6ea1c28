/** Runs of the verification-code store from a fresh instance, each stating
    what the caller observes. */
module EmailVerificationScenarios {
  import opened Common
  import opened EmailVerification

  /** A code verifies for its owner up to and including its expiry instant,
      and a success does not consume it. */
  method IssueThenVerify(email: string, userId: string, now: int, draw: real)
    returns (first: bool, second: bool, owner: Option<string>)
    requires 0.0 <= draw < 1.0
    ensures first && second
    ensures owner == Some(userId)
  {
    var store := new EmailVerificationStore();
    var code := store.AddVerificationCode(email, userId, now, draw);
    first := store.VerifyCode(email, code, userId, now);
    second := store.VerifyCode(email, code, userId, now + CodeLifetimeMs);
    owner := store.GetUserId(email);
  }

  /** One millisecond after its expiry a code fails, and the failure removes
      the entry. */
  method ExpiredCodeRejected(email: string, userId: string, now: int, draw: real)
    returns (ok: bool, owner: Option<string>)
    requires 0.0 <= draw < 1.0
    ensures !ok && owner == None
  {
    var store := new EmailVerificationStore();
    var code := store.AddVerificationCode(email, userId, now, draw);
    ok := store.VerifyCode(email, code, userId, now + CodeLifetimeMs + 1);
    owner := store.GetUserId(email);
  }

  /** A wrong guess deletes the entry, so the right code sent afterwards fails
      too. */
  method WrongGuessLocksOut(email: string, userId: string, now: int, draw: real, guess: string)
    returns (first: bool, second: bool)
    requires 0.0 <= draw < 1.0
    requires guess != GenerateCode(draw)
    ensures !first && !second
  {
    var store := new EmailVerificationStore();
    var code := store.AddVerificationCode(email, userId, now, draw);
    first := store.VerifyCode(email, guess, userId, now);
    second := store.VerifyCode(email, code, userId, now);
  }

  /** Another user presenting the right code fails and deletes the entry, so
      the owner's own attempt then fails as well. */
  method OtherUserLocksOut(email: string, userId: string, intruder: string, now: int, draw: real)
    returns (first: bool, second: bool)
    requires 0.0 <= draw < 1.0
    requires intruder != userId
    ensures !first && !second
  {
    var store := new EmailVerificationStore();
    var code := store.AddVerificationCode(email, userId, now, draw);
    first := store.VerifyCode(email, code, intruder, now);
    second := store.VerifyCode(email, code, userId, now);
  }

  /** Issuing a second code for the same email invalidates the first. */
  method ReissueInvalidatesEarlier(email: string, userId: string, now: int, draw1: real, draw2: real)
    returns (stale: bool)
    requires 0.0 <= draw1 < 1.0 && 0.0 <= draw2 < 1.0
    requires GenerateCode(draw1) != GenerateCode(draw2)
    ensures !stale
  {
    var store := new EmailVerificationStore();
    var code1 := store.AddVerificationCode(email, userId, now, draw1);
    var code2 := store.AddVerificationCode(email, userId, now, draw2);
    stale := store.VerifyCode(email, code1, userId, now);
  }

  /** Verifying, then removing the email, leaves nothing to verify again. */
  method VerifyThenRemove(email: string, userId: string, now: int, draw: real)
    returns (first: bool, second: bool)
    requires 0.0 <= draw < 1.0
    ensures first && !second
  {
    var store := new EmailVerificationStore();
    var code := store.AddVerificationCode(email, userId, now, draw);
    first := store.VerifyCode(email, code, userId, now);
    store.RemoveEmail(email);
    second := store.VerifyCode(email, code, userId, now);
  }

  /** Codes for different emails do not interfere: removing one leaves the
      other verifiable. */
  method EmailsIndependent(e1: string, e2: string, userId: string, now: int, draw1: real, draw2: real)
    returns (ok: bool)
    requires 0.0 <= draw1 < 1.0 && 0.0 <= draw2 < 1.0
    requires e1 != e2
    ensures ok
  {
    var store := new EmailVerificationStore();
    var code1 := store.AddVerificationCode(e1, userId, now, draw1);
    var code2 := store.AddVerificationCode(e2, userId, now, draw2);
    store.RemoveEmail(e2);
    ok := store.VerifyCode(e1, code1, userId, now);
  }

  /** A sweep at the expiry instant keeps the code; one a millisecond later
      removes it. */
  method SweepBoundary(email: string, userId: string, now: int, draw: real)
    returns (atExpiry: Option<string>, after: Option<string>)
    requires 0.0 <= draw < 1.0
    ensures atExpiry == Some(userId) && after == None
  {
    var store := new EmailVerificationStore();
    var code := store.AddVerificationCode(email, userId, now, draw);
    store.CleanupTick(now + CodeLifetimeMs);
    atExpiry := store.GetUserId(email);
    store.CleanupTick(now + CodeLifetimeMs + 1);
    after := store.GetUserId(email);
  }

  /** Once the sweep is stopped (twice, harmlessly), the timer removes
      nothing, however late it is. */
  method StoppedSweepRemovesNothing(email: string, userId: string, now: int, draw: real, later: int)
    returns (owner: Option<string>)
    requires 0.0 <= draw < 1.0
    ensures owner == Some(userId)
  {
    var store := new EmailVerificationStore();
    var code := store.AddVerificationCode(email, userId, now, draw);
    store.StopCleanupTask();
    store.StopCleanupTask();
    store.CleanupTick(later);
    owner := store.GetUserId(email);
  }
}
