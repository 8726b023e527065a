/** One-time codes for email verification and password reset: issuing a
    code, the text of the mail that carries it, redeeming a verification
    code, and the daily sweep of old codes. Time is integer milliseconds and
    the current time is always passed in. */
module OneTimeCodes {
  import opened Common

  type Code = string

  /** The text form of a `uuidv4()`: 36 characters, hexadecimal digits and
      dashes. */
  predicate UuidText(c: Code)
  {
    |c| == 36 && forall i :: 0 <= i < |c| ==> c[i] in "0123456789abcdef-"
  }

  /** Every code the server issues names a document of its collection. */
  lemma UuidAddressable(c: Code)
    requires UuidText(c)
    ensures Addressable(c) && DocKey(c) == c
  {
    assert forall i :: 0 <= i < |c| ==> c[i] != '/';
    PlainAddressable(c);
  }

  /** Lifetime written into every issued code: one hour. */
  const ExpiryDuration: Millis := 1 * 60 * 60 * 1000

  /** Age past which the sweep deletes a code: 24 hours. */
  const SweepAge: Millis := 24 * 60 * 60 * 1000

  /** A document of `emailVerification` (uid present) or of
      `emailPasswordReset` (no uid). */
  datatype CodeRecord = CodeRecord(uid: Option<Uid>, email: string, createdAt: Millis, expiryDuration: Millis)

  /** The verify route's expiry test: strictly past createdAt + duration. */
  predicate Expired(rec: CodeRecord, now: Millis)
  {
    now > rec.createdAt + rec.expiryDuration
  }

  /** The codes the sweep's query selects: created more than 24 hours ago. */
  function Stale(codes: map<Code, CodeRecord>, now: Millis): set<Code>
  {
    set c | c in codes && codes[c].createdAt < now - SweepAge
  }

  /** The collection after a sweep. */
  function Swept(codes: map<Code, CodeRecord>, now: Millis): map<Code, CodeRecord>
  {
    codes - Stale(codes, now)
  }

  /** The sweep's query and batch: walk the collection and put every code
      older than the cutoff into the delete batch. */
  method CollectStale(codes: map<Code, CodeRecord>, now: Millis) returns (batch: set<Code>)
    ensures batch == Stale(codes, now)
  {
    batch := {};
    var pending := codes.Keys;
    while pending != {}
      invariant pending <= codes.Keys
      invariant forall c :: c in batch <==> c in codes && c !in pending && codes[c].createdAt < now - SweepAge
      decreases pending
    {
      var c :| c in pending;
      if codes[c].createdAt < now - SweepAge {
        batch := batch + {c};
      }
      pending := pending - {c};
    }
  }

  /** Exactly the codes at most 24 hours old survive, unchanged. */
  lemma SweptKeeps(codes: map<Code, CodeRecord>, now: Millis, c: Code)
    ensures c in Swept(codes, now) <==> c in codes && codes[c].createdAt >= now - SweepAge
    ensures c in Swept(codes, now) ==> Swept(codes, now)[c] == codes[c]
  {
  }

  /** A second sweep at the same time deletes nothing more. */
  lemma {:induction false} SweptIdempotent(codes: map<Code, CodeRecord>, now: Millis)
    ensures Swept(Swept(codes, now), now) == Swept(codes, now)
  {
    var once := Swept(codes, now);
    assert Stale(once, now) == {};
  }

  /** A code the verify route would still accept is never swept, since the
      sweep's cutoff lies beyond the one-hour lifetime. */
  lemma SweepSparesLiveCodes(codes: map<Code, CodeRecord>, now: Millis, c: Code)
    requires c in codes && codes[c].expiryDuration <= SweepAge && !Expired(codes[c], now)
    ensures c in Swept(codes, now)
  {
  }

  /** The cutoff ignores the stored duration: a code issued two hours ago is
      expired yet kept, and one exactly 24 hours old is kept too. */
  lemma SweepKeepsExpiredCodes(now: Millis)
    ensures var old2h := CodeRecord(None, "", now - 2 * 60 * 60 * 1000, ExpiryDuration);
            var day := CodeRecord(None, "", now - SweepAge, ExpiryDuration);
            var codes := map["a" := old2h, "b" := day];
            && Expired(old2h, now) && Expired(day, now)
            && Swept(codes, now) == codes
  {
    var codes := map["a" := CodeRecord(None, "", now - 2 * 60 * 60 * 1000, ExpiryDuration),
                     "b" := CodeRecord(None, "", now - SweepAge, ExpiryDuration)];
    assert Stale(codes, now) == {};
  }

  /** An outgoing mail. */
  datatype Mail = Mail(to: string, subject: string, text: string)

  const VerifyPrompt: string := "Click this link to verify your email: "
  const ResetPrompt: string := "Click this link to reset your password: "

  /** The verification mail: the link to the verify page carrying the code. */
  function VerificationMail(email: string, appUrl: string, code: Code): (m: Mail)
    ensures m.to == email && m.subject == "Verify your email"
    ensures m.text == VerifyPrompt + appUrl + "/verify?oobCode=" + code
  {
    Mail(email, "Verify your email", VerifyPrompt + appUrl + "/verify?oobCode=" + code)
  }

  /** The password-reset mail: the link to the reset page carrying the code. */
  function ResetMail(email: string, appUrl: string, code: Code): (m: Mail)
    ensures m.to == email && m.subject == "Reset your password"
    ensures m.text == ResetPrompt + appUrl + "/reset?resetCode=" + code
  {
    Mail(email, "Reset your password", ResetPrompt + appUrl + "/reset?resetCode=" + code)
  }

  /** With a fixed application URL, the code is the tail of the text, so
      different codes never yield the same mail text. */
  lemma {:induction false} MailTextDeterminesCode(appUrl: string, c1: Code, c2: Code)
    ensures VerificationMail("", appUrl, c1).text == VerificationMail("", appUrl, c2).text ==> c1 == c2
    ensures ResetMail("", appUrl, c1).text == ResetMail("", appUrl, c2).text ==> c1 == c2
  {
    var p := VerifyPrompt + appUrl + "/verify?oobCode=";
    assert VerificationMail("", appUrl, c1).text == p + c1;
    assert VerificationMail("", appUrl, c2).text == p + c2;
    assert (p + c1)[|p|..] == c1 && (p + c2)[|p|..] == c2;
    var q := ResetPrompt + appUrl + "/reset?resetCode=";
    assert ResetMail("", appUrl, c1).text == q + c1;
    assert ResetMail("", appUrl, c2).text == q + c2;
    assert (q + c1)[|q|..] == c1 && (q + c2)[|q|..] == c2;
  }

  /** The two code collections and the two places a user's verified flag is
      kept: the auth provider's user record and the `users/{uid}` document. */
  class CodeStore {
    /** The `emailVerification` collection. */
    var verification: map<Code, CodeRecord>
    /** The `emailPasswordReset` collection. */
    var reset: map<Code, CodeRecord>
    /** `emailVerified` of each user record of the auth provider. */
    var authVerified: map<Uid, bool>
    /** `emailVerified` of each `users/{uid}` document. */
    var userVerified: map<Uid, bool>

    /** Registered users start unverified, with no codes issued. */
    constructor (users: set<Uid>)
      ensures verification == map[] && reset == map[]
      ensures authVerified == userVerified == map u | u in users :: false
    {
      verification := map[];
      reset := map[];
      authVerified := map u | u in users :: false;
      userVerified := map u | u in users :: false;
    }

    /** `generateOOBCode`: store a verification code under a new key. */
    method GenerateOOBCode(email: string, uid: Uid, newCode: Code, now: Millis) returns (code: Code)
      modifies this
      ensures code == newCode
      ensures verification == old(verification)[code := CodeRecord(Some(uid), email, now, ExpiryDuration)]
      ensures reset == old(reset) && authVerified == old(authVerified) && userVerified == old(userVerified)
    {
      verification := verification[newCode := CodeRecord(Some(uid), email, now, ExpiryDuration)];
      code := newCode;
    }

    /** `generateResetCode`: store a reset code, carrying no uid. */
    method GenerateResetCode(email: string, newCode: Code, now: Millis) returns (code: Code)
      modifies this
      ensures code == newCode
      ensures reset == old(reset)[code := CodeRecord(None, email, now, ExpiryDuration)]
      ensures verification == old(verification) && authVerified == old(authVerified)
      ensures userVerified == old(userVerified)
    {
      reset := reset[newCode := CodeRecord(None, email, now, ExpiryDuration)];
      code := newCode;
    }

    /** The verify route: redeem a verification code at time `now`. */
    method Redeem(oobCode: Option<Code>, now: Millis) returns (r: Reply<string>)
      modifies this
      ensures reset == old(reset)
      ensures !Truthy(oobCode) ==>
                r == Err(400, "Missing oobCode") && verification == old(verification) &&
                authVerified == old(authVerified) && userVerified == old(userVerified)
      ensures Truthy(oobCode) && !Addressable(oobCode.value) ==>
                // `doc(oobCode)` throws inside the try
                r == Err(500, "Error verifying email") && verification == old(verification) &&
                authVerified == old(authVerified) && userVerified == old(userVerified)
      ensures Truthy(oobCode) && Addressable(oobCode.value) && DocKey(oobCode.value) !in old(verification) ==>
                r == Err(400, "Invalid/Expired Code") && verification == old(verification) &&
                authVerified == old(authVerified) && userVerified == old(userVerified)
      ensures (Truthy(oobCode) && Addressable(oobCode.value) && DocKey(oobCode.value) in old(verification) &&
               Expired(old(verification)[DocKey(oobCode.value)], now)) ==>
                r == Err(400, "Code has expired") && verification == old(verification) - {DocKey(oobCode.value)} &&
                authVerified == old(authVerified) && userVerified == old(userVerified)
      ensures (Truthy(oobCode) && Addressable(oobCode.value) && DocKey(oobCode.value) in old(verification) &&
               !Expired(old(verification)[DocKey(oobCode.value)], now)) ==>
                var rec := old(verification)[DocKey(oobCode.value)];
                if rec.uid.None? || rec.uid.value !in old(authVerified) then
                  // updateUser throws: nothing is written
                  r == Err(500, "Error verifying email") && verification == old(verification) &&
                  authVerified == old(authVerified) && userVerified == old(userVerified)
                else if rec.uid.value !in old(userVerified) then
                  // the auth record is updated, then the document update throws
                  r == Err(500, "Error verifying email") && verification == old(verification) &&
                  authVerified == old(authVerified)[rec.uid.value := true] && userVerified == old(userVerified)
                else
                  r == Ok("Email " + rec.email + " successfully verified") &&
                  verification == old(verification) - {DocKey(oobCode.value)} &&
                  authVerified == old(authVerified)[rec.uid.value := true] &&
                  userVerified == old(userVerified)[rec.uid.value := true]
    {
      if !Truthy(oobCode) {
        return Err(400, "Missing oobCode");
      }
      var code := oobCode.value;
      if !Addressable(code) {
        return Err(500, "Error verifying email");
      }
      var key := DocKey(code);
      if key !in verification {
        return Err(400, "Invalid/Expired Code");
      }
      var rec := verification[key];
      if Expired(rec, now) {
        verification := verification - {key};
        return Err(400, "Code has expired");
      }
      if rec.uid.None? || rec.uid.value !in authVerified {
        return Err(500, "Error verifying email");
      }
      var uid := rec.uid.value;
      authVerified := authVerified[uid := true];
      if uid !in userVerified {
        return Err(500, "Error verifying email");
      }
      userVerified := userVerified[uid := true];
      verification := verification - {key};
      return Ok("Email " + rec.email + " successfully verified");
    }

    /** `cleanupExpiredCodes`: sweep the verification collection only. */
    method CleanupExpiredCodes(now: Millis)
      modifies this
      ensures verification == Swept(old(verification), now)
      ensures reset == old(reset) && authVerified == old(authVerified) && userVerified == old(userVerified)
    {
      var batch := CollectStale(verification, now);
      verification := verification - batch;
    }

    /** `cleanupExpiredPasswordResetCodes`: sweep the reset collection only. */
    method CleanupExpiredPasswordResetCodes(now: Millis)
      modifies this
      ensures reset == Swept(old(reset), now)
      ensures verification == old(verification) && authVerified == old(authVerified)
      ensures userVerified == old(userVerified)
    {
      var batch := CollectStale(reset, now);
      reset := reset - batch;
    }
  }

  /** Redeeming a code twice: once the first call succeeds, the second finds
      the code unknown. */
  method RedeemTwice(store: CodeStore, code: Code, now: Millis, later: Millis)
    returns (first: Reply<string>, second: Reply<string>)
    modifies store
    ensures first.Ok? ==> second == Err(400, "Invalid/Expired Code")
  {
    first := store.Redeem(Some(code), now);
    second := store.Redeem(Some(code), later);
  }

  /** Issuing and then redeeming within the hour verifies the user in both
      places. */
  method IssueThenRedeem(store: CodeStore, email: string, uid: Uid, newCode: Code, now: Millis, at: Millis)
    returns (r: Reply<string>)
    requires UuidText(newCode) && uid in store.authVerified && uid in store.userVerified
    requires now <= at <= now + ExpiryDuration
    modifies store
    ensures r == Ok("Email " + email + " successfully verified")
    ensures uid in store.authVerified && store.authVerified[uid]
    ensures uid in store.userVerified && store.userVerified[uid] && newCode !in store.verification
  {
    var code := store.GenerateOOBCode(email, uid, newCode, now);
    UuidAddressable(code);
    r := store.Redeem(Some(code), at);
  }
}
