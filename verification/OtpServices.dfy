/** The services that issue and verify one-time codes, over one shared database. */
module OtpServices {
  import opened SequenceFacts
  import opened OtpModel

  class OtpDatabase {
    var otps: map<Id, Otp>
    ghost var issued: set<Id>
    var admins: map<Id, Admin>
    var users: map<Id, bool>

    constructor ()
      ensures View() == State(map[], {}, map[], map[])
    {
      otps, issued, admins, users := map[], {}, map[], map[];
    }

    ghost function View(): State
      reads this
    {
      State(otps, issued, admins, users)
    }

    /** `save` of a new record: the database hands out `id` and enforces both foreign keys. */
    method Insert(id: Id, o: Otp) returns (outcome: Outcome)
      requires id !in issued
      modifies this`otps, this`issued
      ensures Reply(View(), outcome) == Issue(old(View()), id, o)
    {
      if (o.userId != None && o.userId.value !in users) || (o.adminId != None && o.adminId.value !in admins) {
        return StorageFailed;
      }
      otps, issued := otps[id := o], issued + {id};
      return Done;
    }

    /** `save` of a loaded record. */
    method Save(id: Id, o: Otp)
      requires id in otps
      modifies this`otps
      ensures otps == old(otps)[id := o]
    {
      otps := otps[id := o];
    }

    method FindOne(f: Filter) returns (pick: Option<Id>)
      ensures Finds(View(), f, pick)
    {
      var hits := set id | id in otps && Matches(otps[id], f);
      if hits == {} {
        assert forall id :: Hit(View(), f, id) ==> id in hits;
        return None;
      }
      var id :| id in hits;
      return Some(id);
    }

    method FindNewest(f: Filter) returns (pick: Option<Id>)
      ensures FindsNewest(View(), f, pick)
    {
      var rest := set id | id in otps && Matches(otps[id], f);
      assert forall id :: Hit(View(), f, id) <==> id in rest;
      if rest == {} {
        return None;
      }
      var best :| best in rest;
      while rest != {}
        invariant Hit(View(), f, best)
        invariant rest <= otps.Keys
        invariant forall id :: Hit(View(), f, id) ==> id in rest || otps[id].createdAt <= otps[best].createdAt
        decreases |rest|
      {
        var id :| id in rest;
        if Matches(otps[id], f) && otps[id].createdAt > otps[best].createdAt {
          best := id;
        }
        rest := rest - {id};
      }
      return Some(best);
    }

    /** The sequence that every verifying service runs on the record it has loaded: expiry, limit, count the
        attempt, compare, accept, saving after each. */
    method Examine(id: Id, now: int, right: bool, accepted: Status) returns (outcome: Outcome)
      requires id in otps
      modifies this`otps
      ensures Reply(View(), outcome) == OtpModel.Examine(old(View()), Some(id), now, right, accepted)
    {
      var record := otps[id];
      if now > record.expiresAt {
        Save(id, record.(status := Expired));
        return Lapsed;
      }
      if record.attempts >= record.maxAttempts {
        Save(id, record.(status := Expired));
        return OverLimit;
      }
      record := record.(attempts := record.attempts + 1);
      if !right {
        Save(id, record);
        return WrongCode;
      }
      Save(id, record.(status := accepted));
      return Accepted;
    }

    method UpdateAll(f: Filter, status: Status)
      modifies this`otps
      ensures View() == ExpireAll(old(View()), f, status)
    {
      otps := map id | id in otps :: if Selected(otps[id], f, status) then otps[id].(status := Expired) else otps[id];
    }

    method SetTwoFactor(adminId: Id, on: bool)
      modifies this`admins
      ensures View() == WithFlag(old(View()), adminId, on)
    {
      if adminId in admins {
        admins := admins[adminId := admins[adminId].(twoFactor := on)];
      }
    }
  }

  class OtpService {
    const db: OtpDatabase

    constructor (db: OtpDatabase)
      ensures this.db == db
    {
      this.db := db;
    }

    method Create(now: int, f: Filter, id: Id, code: string, requestId: Option<string>, ttlMinutes: Option<int>,
                  maxAttempts: Option<int>) returns (outcome: Outcome)
      requires id !in db.issued
      modifies db
      ensures var ttl := if ttlMinutes.Some? then ttlMinutes.value else OTP_TTL_MINUTES;
              var max := if maxAttempts.Some? then maxAttempts.value else DEFAULT_ATTEMPTS;
              Reply(db.View(), outcome) == Issue(old(db.View()), id, NewOtp(f, code, requestId, now, ttl, max))
    {
      var ttl := match ttlMinutes { case Some(t) => t case None => OTP_TTL_MINUTES };
      var max := match maxAttempts { case Some(m) => m case None => DEFAULT_ATTEMPTS };
      outcome := db.Insert(id, NewOtp(f, code, requestId, now, ttl, max));
    }

    method FindPending(f: Filter) returns (pick: Option<Id>)
      requires f.code == None
      ensures FindsNewest(db.View(), f, pick)
    {
      pick := db.FindNewest(f);
    }

    method Verify(id: Id, now: int, code: string) returns (outcome: Outcome)
      requires id in db.otps
      modifies db
      ensures Reply(db.View(), outcome) ==
              Examine(old(db.View()), Some(id), now, CodeIs(old(db.View()), Some(id), code), Verified)
    {
      outcome := db.Examine(id, now, db.otps[id].code == code, Verified);
    }

    method MarkRecordUsed(id: Id)
      requires id in db.otps
      modifies db
      ensures db.View() == MarkUsed(old(db.View()), id)
    {
      db.Save(id, db.otps[id].(status := Used));
    }

    method ExpireAllRecords(f: Filter, status: Status)
      modifies db
      ensures db.View() == ExpireAll(old(db.View()), f, status)
    {
      db.UpdateAll(f, status);
    }

    method CleanupExpiredOtpRecords(now: int)
      modifies db
      ensures db.View() == Cleanup(old(db.View()), now)
    {
      db.otps := map id | id in db.otps && !Stale(db.otps[id], now) :: db.otps[id];
    }
  }

  class TwoFactorService {
    const db: OtpDatabase

    constructor (db: OtpDatabase)
      ensures this.db == db
    {
      this.db := db;
    }

    method Enable(now: int, adminId: Id, email: string, id: Id, code: string) returns (outcome: Outcome)
      requires id !in db.issued
      modifies db
      ensures Reply(db.View(), outcome) == EnableTwoFactor(old(db.View()), now, adminId, email, id, code)
    {
      if !(adminId in db.admins && !db.admins[adminId].deleted) {
        return AccountNotFound;
      }
      if db.admins[adminId].email != email {
        return EmailMismatch;
      }
      outcome := db.Insert(id, NewOtp(OfAdmin(adminId, TwoFactor), code, None, now, OTP_TTL_MINUTES, DEFAULT_ATTEMPTS));
    }

    method Verify(now: int, adminId: Id, code: string) returns (outcome: Outcome)
      modifies db
      ensures exists pick ::
                && FindsNewest(old(db.View()), OfAdmin(adminId, TwoFactor), pick)
                && Reply(db.View(), outcome) == VerifyTwoFactor(old(db.View()), now, adminId, code, pick)
    {
      var found := db.FindNewest(OfAdmin(adminId, TwoFactor));
      if found == None {
        return NothingPending;
      }
      outcome := db.Examine(found.value, now, db.otps[found.value].code == code, Verified);
      if outcome == Accepted {
        db.SetTwoFactor(adminId, true);
      }
    }

    method Disable(adminId: Id, passwordOk: bool) returns (outcome: Outcome)
      modifies db
      ensures Reply(db.View(), outcome) == DisableTwoFactor(old(db.View()), adminId, passwordOk)
    {
      if !(adminId in db.admins && !db.admins[adminId].deleted) {
        return AccountNotFound;
      }
      if !passwordOk {
        return PasswordRefused;
      }
      db.UpdateAll(OfAdmin(adminId, TwoFactor), Verified);
      db.SetTwoFactor(adminId, false);
      return Done;
    }

    method SendCode(now: int, adminId: Id, id: Id, code: string) returns (outcome: Outcome)
      requires id !in db.issued
      modifies db
      ensures Reply(db.View(), outcome) == SendVerificationCode(old(db.View()), now, adminId, id, code)
    {
      if !(adminId in db.admins && !db.admins[adminId].deleted) {
        return AccountNotFound;
      }
      if exists o :: o in db.otps && VerifiedFor(db.otps[o], adminId) {
        return AlreadySent;
      }
      outcome := db.Insert(id, NewOtp(OfAdmin(adminId, TwoFactor), code, None, now, OTP_TTL_MINUTES, DEFAULT_ATTEMPTS));
    }

    method ValidateLogin(now: int, adminId: Id, code: string) returns (outcome: Outcome)
      modifies db
      ensures exists pick ::
                && Finds(old(db.View()), OfAdmin(adminId, TwoFactor).(code := Some(code)), pick)
                && Reply(db.View(), outcome) == ValidateLoginCode(old(db.View()), now, adminId, code, pick)
      ensures outcome != WrongCode
    {
      var found := db.FindOne(OfAdmin(adminId, TwoFactor).(code := Some(code)));
      if found == None {
        return NothingPending;
      }
      outcome := db.Examine(found.value, now, db.otps[found.value].code == code, Used);
    }
  }

  class PasswordResetService {
    const db: OtpDatabase

    constructor (db: OtpDatabase)
      ensures this.db == db
    {
      this.db := db;
    }

    method Verify(now: int, accountId: Id, code: string) returns (outcome: Outcome)
      modifies db
      ensures exists pick ::
                && FindsReset(old(db.View()), accountId, pick)
                && Reply(db.View(), outcome) == VerifyPasswordReset(old(db.View()), now, accountId, code, pick)
    {
      var found := db.FindOne(OfUser(accountId, ResetPassword));
      if found == None {
        found := db.FindOne(OfAdmin(accountId, ResetPassword));
      }
      assert FindsReset(old(db.View()), accountId, found);
      if found == None {
        return NothingPending;
      }
      outcome := db.Examine(found.value, now, db.otps[found.value].code == code, Verified);
    }

    method UserVerify(now: int, userId: Id, code: string, smsOk: bool) returns (outcome: Outcome)
      modifies db
      ensures !UserFound(old(db.View()), userId) ==> Reply(db.View(), outcome) == Reply(old(db.View()), AccountNotFound)
      ensures UserFound(old(db.View()), userId) ==> exists pick ::
                && FindsNewest(old(db.View()), OfUser(userId, ResetPassword), pick)
                && Reply(db.View(), outcome) == UserVerifyPasswordReset(old(db.View()), now, userId, code, smsOk, pick)
    {
      if !(userId in db.users && !db.users[userId]) {
        return AccountNotFound;
      }
      var found := db.FindNewest(OfUser(userId, ResetPassword));
      if found == None {
        return NothingPending;
      }
      var record := db.otps[found.value];
      var right := record.requestId != None && record.requestId.value != "" && smsOk;
      outcome := db.Examine(found.value, now, right, Verified);
      if outcome == Accepted {
        db.Save(found.value, db.otps[found.value].(code := code));
      }
    }

    method AdminSend(now: int, adminId: Id, id: Id, code: string) returns (outcome: Outcome)
      requires id !in db.issued
      modifies db
      ensures Reply(db.View(), outcome) == PasswordResetSend(old(db.View()), now, adminId, id, code)
    {
      if !(adminId in db.admins && !db.admins[adminId].deleted) {
        return AccountNotFound;
      }
      var otp := NewOtp(OfAdmin(adminId, ResetPassword), code, None, now, OTP_TTL_MINUTES, DEFAULT_ATTEMPTS);
      outcome := db.Insert(id, otp);
    }

    method UserSend(now: int, userId: Id, id: Id, requestId: Option<string>) returns (outcome: Outcome)
      requires id !in db.issued
      modifies db
      ensures Reply(db.View(), outcome) == UserPasswordResetSend(old(db.View()), now, userId, id, requestId)
    {
      if !(userId in db.users && !db.users[userId]) {
        return AccountNotFound;
      }
      var filter := OfUser(userId, ResetPassword);
      outcome := db.Insert(id, NewOtp(filter, SMS_PLACEHOLDER, requestId, now, OTP_TTL_MINUTES, DEFAULT_ATTEMPTS));
    }
  }
}
