/** The in-memory store of email verification codes (`EmailVerificationStore`):
    a map from email to the pending code, its owner and its expiry time, with
    a periodic sweep of expired entries. The clock (`Date.now()`) and the
    random draw (`Math.random()`) are parameters of the operations that use
    them. */
module EmailVerification {
  import opened Common

  /** One pending code; `expiresAt` is in milliseconds. */
  datatype VerificationCode = VerificationCode(code: string, userId: string, expiresAt: int)

  /** A code lives ten minutes. */
  const CodeLifetimeMs: int := 10 * 60 * 1000

  /** `generateCode`, with `Math.random()` supplied as `draw`:
      `Math.floor(100000 + draw * 900000).toString()` is six decimal digits
      denoting a number from 100000 to 999999. */
  function GenerateCode(draw: real): (code: string)
    requires 0.0 <= draw < 1.0
    ensures |code| == 6 && AllDigits(code)
    ensures 100000 <= DecimalValue(code) <= 999999
  {
    var n := (100000.0 + draw * 900000.0).Floor;
    assert 100000 <= n <= 999999;
    DecimalLength(n, 6);
    DecimalString(n)
  }

  /** Whether a stored entry accepts a code from a user at `now`: same owner,
      same code, and not yet expired (the expiry instant itself still counts). */
  predicate Accepts(v: VerificationCode, code: string, userId: string, now: int) {
    v.userId == userId && v.code == code && now <= v.expiresAt
  }

  /** The entries a sweep at `now` keeps: exactly the unexpired ones, each as
      it was. */
  function Unexpired(s: map<string, VerificationCode>, now: int): (r: map<string, VerificationCode>)
    ensures forall e :: e in r <==> e in s && now <= s[e].expiresAt
    ensures forall e :: e in r ==> r[e] == s[e]
  {
    map e | e in s && now <= s[e].expiresAt :: s[e]
  }

  /** Sweeping twice at the same time is sweeping once. */
  lemma UnexpiredIdempotent(s: map<string, VerificationCode>, now: int)
    ensures Unexpired(Unexpired(s, now), now) == Unexpired(s, now)
  {
  }

  class EmailVerificationStore {
    var store: map<string, VerificationCode>
    /** Whether the one-minute sweep is scheduled (`cleanupInterval` is set). */
    var cleanupScheduled: bool

    /** Starts empty, with the sweep scheduled. */
    constructor ()
      ensures store == map[] && cleanupScheduled
    {
      store := map[];
      cleanupScheduled := true;
    }

    /** `addVerificationCode`: a fresh code for `email`, replacing whatever
        entry the email had, whoever owned it; other emails are untouched. */
    method AddVerificationCode(email: string, userId: string, now: int, draw: real) returns (code: string)
      requires 0.0 <= draw < 1.0
      modifies this
      ensures code == GenerateCode(draw)
      ensures store == old(store)[email := VerificationCode(code, userId, now + CodeLifetimeMs)]
      ensures cleanupScheduled == old(cleanupScheduled)
    {
      store := store - {email};
      code := GenerateCode(draw);
      var expiresAt := now + 10 * 60 * 1000;
      store := store[email := VerificationCode(code, userId, expiresAt)];
    }

    /** `verifyCode`: true exactly when an entry exists and accepts the code
        from this user now. A success leaves the entry in place (the code is
        not consumed); every failure against an existing entry (wrong user,
        wrong code or expired) deletes it. */
    method VerifyCode(email: string, code: string, userId: string, now: int) returns (ok: bool)
      modifies this
      ensures ok <==> email in old(store) && Accepts(old(store)[email], code, userId, now)
      ensures store == if email in old(store) && !ok then old(store) - {email} else old(store)
      ensures cleanupScheduled == old(cleanupScheduled)
    {
      if email !in store {
        return false;
      }
      var verification := store[email];
      if verification.userId != userId || verification.code != code || now > verification.expiresAt {
        store := store - {email};
        return false;
      }
      return true;
    }

    /** `getUserId`: the owner of the pending code, if any. */
    function GetUserId(email: string): (r: Option<string>)
      reads this
      ensures r.Some? <==> email in store
      ensures r.Some? ==> r.value == store[email].userId
    {
      if email in store then Some(store[email].userId) else None
    }

    /** `removeEmail`: drops that email's entry, if any, and nothing else. */
    method RemoveEmail(email: string)
      modifies this
      ensures store == old(store) - {email}
      ensures cleanupScheduled == old(cleanupScheduled)
    {
      store := store - {email};
    }

    /** `cleanupExpiredCodes`: visits every entry and deletes those whose
        expiry is before `now`. */
    method CleanupExpiredCodes(now: int)
      modifies this
      ensures store == Unexpired(old(store), now)
      ensures cleanupScheduled == old(cleanupScheduled)
    {
      var pending := store.Keys;
      while pending != {}
        invariant pending <= old(store).Keys
        invariant cleanupScheduled == old(cleanupScheduled)
        invariant store == map e | e in old(store) && (e in pending || now <= old(store)[e].expiresAt) :: old(store)[e]
        decreases pending
      {
        var email :| email in pending;
        if now > store[email].expiresAt {
          store := store - {email};
        }
        pending := pending - {email};
      }
    }

    /** One firing of the sweep timer; after `stopCleanupTask` the timer no
        longer fires, which a firing that changes nothing stands for. */
    method CleanupTick(now: int)
      modifies this
      ensures store == if old(cleanupScheduled) then Unexpired(old(store), now) else old(store)
      ensures cleanupScheduled == old(cleanupScheduled)
    {
      if cleanupScheduled {
        CleanupExpiredCodes(now);
      }
    }

    /** `stopCleanupTask`: unschedules the sweep; stopping twice is stopping
        once. */
    method StopCleanupTask()
      modifies this
      ensures !cleanupScheduled && store == old(store)
    {
      if cleanupScheduled {
        cleanupScheduled := false;
      }
    }
  }
}
