/** What each one-time-code request does, field by field, and how long an issued code lives. */
module OtpRequests {
  import opened SequenceFacts
  import opened OtpModel
  import opened OtpRuns

  // ---- issuing -----------------------------------------------------------------------------

  ghost predicate StoredAdmin(s: State, adminId: Id) {
    adminId in s.admins && s.admins[adminId].deleted == false
  }

  ghost predicate StoredUser(s: State, userId: Id) {
    userId in s.users && s.users[userId] == false
  }

  /** The record is added under a new key, and nothing else changes. */
  ghost predicate Adds(s: State, u: State, id: Id, o: Otp) {
    id !in s.issued && u.otps == s.otps[id := o] && u.issued == s.issued + {id} && u.admins == s.admins &&
      u.users == s.users
  }

  /** Enabling needs a stored admin with this e-mail; a refusal changes nothing. The code is pending, uncompared, for
      three attempts and ten minutes. */
  lemma EnableDoes(s: State, now: int, adminId: Id, email: string, id: Id, code: string)
    ensures var r := ReplyTo(s, EnableStep(now, adminId, email, id, code));
            && (r.outcome == AccountNotFound <==> !StoredAdmin(s, adminId))
            && (r.outcome == EmailMismatch <==> StoredAdmin(s, adminId) && s.admins[adminId].email != email)
            && (r.outcome == Done <==> StoredAdmin(s, adminId) && s.admins[adminId].email == email && id !in s.issued)
            && (r.outcome != Done ==> r.after == s)
            && (r.outcome == Done ==> Adds(s, r.after, id,
                  Otp(None, Some(adminId), TwoFactor, code, None, Pending, 0, 3, now + 600_000, now)))
  {
  }

  /** A login code needs a stored admin without a verified two-factor record. */
  lemma SendDoes(s: State, now: int, adminId: Id, id: Id, code: string)
    ensures var r := ReplyTo(s, SendStep(now, adminId, id, code));
            && (r.outcome == AccountNotFound <==> !StoredAdmin(s, adminId))
            && (r.outcome == AlreadySent <==> StoredAdmin(s, adminId) && OwnsVerified(s, adminId))
            && (r.outcome == Done <==> StoredAdmin(s, adminId) && !OwnsVerified(s, adminId) && id !in s.issued)
            && (r.outcome != Done ==> r.after == s)
            && (r.outcome == Done ==> Adds(s, r.after, id,
                  Otp(None, Some(adminId), TwoFactor, code, None, Pending, 0, 3, now + 600_000, now)))
  {
    assert HasVerified(s, adminId) <==> OwnsVerified(s, adminId) by {
      if id :| id in s.otps && s.otps[id].adminId == Some(adminId) && s.otps[id].purpose == TwoFactor &&
               s.otps[id].status == Verified {
        assert VerifiedFor(s.otps[id], adminId);
      }
    }
  }

  ghost predicate OwnsVerified(s: State, adminId: Id) {
    exists id :: id in s.otps && s.otps[id].adminId == Some(adminId) && s.otps[id].purpose == TwoFactor &&
                 s.otps[id].status == Verified
  }

  /** A reset code for a stored admin. */
  lemma ResetSendDoes(s: State, now: int, adminId: Id, id: Id, code: string)
    ensures var r := ReplyTo(s, ResetSendStep(now, adminId, id, code));
            && (r.outcome == AccountNotFound <==> !StoredAdmin(s, adminId))
            && (r.outcome == Done <==> StoredAdmin(s, adminId) && id !in s.issued)
            && (r.outcome != Done ==> r.after == s)
            && (r.outcome == Done ==> Adds(s, r.after, id,
                  Otp(None, Some(adminId), ResetPassword, code, None, Pending, 0, 3, now + 600_000, now)))
  {
  }

  /** A text-message code for a stored user, whose record holds the gateway's request id and no code. */
  lemma UserResetSendDoes(s: State, now: int, userId: Id, id: Id, requestId: Option<string>)
    ensures var r := ReplyTo(s, UserResetSendStep(now, userId, id, requestId));
            && (r.outcome == AccountNotFound <==> !StoredUser(s, userId))
            && (r.outcome == Done <==> StoredUser(s, userId) && id !in s.issued)
            && (r.outcome != Done ==> r.after == s)
            && (r.outcome == Done ==> Adds(s, r.after, id,
                  Otp(Some(userId), None, ResetPassword, "SMS_OTP", requestId, Pending, 0, 3, now + 600_000, now)))
  {
  }

  /** The library's create takes owner, lifetime and limit from its caller. */
  lemma CreateCallDoes(s: State, now: int, f: Filter, id: Id, code: string, requestId: Option<string>, ttl: int,
                       max: int)
    ensures var r := ReplyTo(s, LibraryStep(CreateCall(now, f, id, code, requestId, ttl, max)));
            && (r.outcome == Done <==> id !in s.issued && (f.userId.Some? ==> f.userId.value in s.users) &&
                                       (f.adminId.Some? ==> f.adminId.value in s.admins))
            && (r.outcome != Done ==> r.after == s)
            && (r.outcome == Done ==> Adds(s, r.after, id,
                  Otp(f.userId, f.adminId, f.purpose, code, requestId, Pending, 0, max, now + ttl * 60_000, now)))
  {
  }

  // ---- looking up --------------------------------------------------------------------------

  ghost predicate PendingOf(o: Otp, user: Option<Id>, admin: Option<Id>, purpose: Purpose) {
    o.status == Pending && o.purpose == purpose && (user.Some? ==> o.userId == user) &&
      (admin.Some? ==> o.adminId == admin)
  }

  /** A pending record of the owner and purpose, and none of them was created later. */
  ghost predicate NewestOf(s: State, id: Id, user: Option<Id>, admin: Option<Id>, purpose: Purpose) {
    && id in s.otps && PendingOf(s.otps[id], user, admin, purpose)
    && forall other :: other in s.otps && PendingOf(s.otps[other], user, admin, purpose) ==>
         s.otps[other].createdAt <= s.otps[id].createdAt
  }

  ghost predicate AnyOf(s: State, user: Option<Id>, admin: Option<Id>, purpose: Purpose) {
    exists id :: id in s.otps && PendingOf(s.otps[id], user, admin, purpose)
  }

  /** Which record each path finds. */
  ghost predicate FindsRecord(s: State, step: Step, id: Id) {
    match step
    case VerifyStep(_, adminId, _, pick) => pick == Some(id) && NewestOf(s, id, None, Some(adminId), TwoFactor)
    case LoginStep(_, adminId, code, pick) =>
      pick == Some(id) && id in s.otps && PendingOf(s.otps[id], None, Some(adminId), TwoFactor) &&
        s.otps[id].code == code
    case ResetVerifyStep(_, accountId, _, pick) =>
      pick == Some(id) && id in s.otps &&
      (PendingOf(s.otps[id], Some(accountId), None, ResetPassword) ||
       (PendingOf(s.otps[id], None, Some(accountId), ResetPassword) && !AnyOf(s, Some(accountId), None, ResetPassword)))
    case UserResetVerifyStep(_, userId, _, _, pick) =>
      pick == Some(id) && StoredUser(s, userId) && NewestOf(s, id, Some(userId), None, ResetPassword)
    case LibraryStep(VerifyCall(_, f, _, pick)) => pick == Some(id) && NewestFor(s, f, id)
    case _ => false
  }

  ghost predicate PendingFor(s: State, f: Filter, id: Id) {
    id in s.otps && PendingOf(s.otps[id], f.userId, f.adminId, f.purpose) &&
    (f.code.Some? ==> s.otps[id].code == f.code.value)
  }

  /** Likewise for the library, whose callers may also name a code. */
  ghost predicate NewestFor(s: State, f: Filter, id: Id) {
    PendingFor(s, f, id) && forall other :: PendingFor(s, f, other) ==> s.otps[other].createdAt <= s.otps[id].createdAt
  }

  lemma HitMeans(s: State, f: Filter, id: Id)
    ensures Hit(s, f, id) <==> PendingFor(s, f, id)
  {
  }

  lemma NewestMeans(s: State, f: Filter, id: Id)
    ensures FindsNewest(s, f, Some(id)) <==> NewestFor(s, f, id)
  {
    forall other ensures Hit(s, f, other) <==> PendingFor(s, f, other) {
      HitMeans(s, f, other);
    }
  }

  lemma ResetFindsMeans(s: State, accountId: Id, id: Id)
    ensures FindsReset(s, accountId, Some(id)) <==>
              && id in s.otps
              && (PendingOf(s.otps[id], Some(accountId), None, ResetPassword) ||
                  (PendingOf(s.otps[id], None, Some(accountId), ResetPassword) &&
                   !AnyOf(s, Some(accountId), None, ResetPassword)))
  {
    forall other
      ensures Hit(s, OfUser(accountId, ResetPassword), other) <==>
                other in s.otps && PendingOf(s.otps[other], Some(accountId), None, ResetPassword)
      ensures Hit(s, OfAdmin(accountId, ResetPassword), other) <==>
                other in s.otps && PendingOf(s.otps[other], None, Some(accountId), ResetPassword)
    {
      HitMeans(s, OfUser(accountId, ResetPassword), other);
      HitMeans(s, OfAdmin(accountId, ResetPassword), other);
    }
  }

  lemma LooksMeans(s: State, step: Step, id: Id)
    ensures Looks(s, step, id) <==> FindsRecord(s, step, id)
  {
    match step {
      case VerifyStep(_, adminId, _, _) => NewestMeans(s, OfAdmin(adminId, TwoFactor), id);
      case LoginStep(_, adminId, code, _) => HitMeans(s, OfAdmin(adminId, TwoFactor).(code := Some(code)), id);
      case ResetVerifyStep(_, accountId, _, _) => ResetFindsMeans(s, accountId, id);
      case UserResetVerifyStep(_, userId, _, _, _) => NewestMeans(s, OfUser(userId, ResetPassword), id);
      case LibraryStep(VerifyCall(_, f, _, _)) => NewestMeans(s, f, id);
      case _ =>
    }
  }

  // ---- verifying ---------------------------------------------------------------------------

  /** The presented code is the stored one, or the gateway, asked about a request, has confirmed it. */
  ghost predicate Deserves(o: Otp, step: Step) {
    match step
    case VerifyStep(_, _, code, _) => o.code == code
    case LoginStep(_, _, code, _) => o.code == code
    case ResetVerifyStep(_, _, code, _) => o.code == code
    case UserResetVerifyStep(_, _, _, smsOk, _) =>
      smsOk && exists request :: request != "" && o.requestId == Some(request)
    case LibraryStep(VerifyCall(_, _, code, _)) => o.code == code
    case _ => false
  }

  function Answer(o: Otp, now: int, right: bool): Outcome {
    if o.expiresAt < now then Lapsed else if o.maxAttempts <= o.attempts then OverLimit
    else if right then Accepted else WrongCode
  }

  /** A login uses the record up, the other paths verify it; the text-message path stores the code it has accepted. */
  ghost function Judged(o: Otp, step: Step, outcome: Outcome): Otp {
    match outcome
    case Accepted =>
      o.(attempts := o.attempts + 1, status := if step.LoginStep? then Used else Verified,
         code := if step.UserResetVerifyStep? then step.code else o.code)
    case WrongCode => o.(attempts := o.attempts + 1)
    case _ => o.(status := Expired)
  }

  /** What a check does to the record that it finds: late or over the limit it expires, otherwise the attempt counts and
      a right code is accepted. Nothing else changes but the flag of an admin who has just verified. */
  lemma CheckDoes(s: State, step: Step, id: Id)
    requires FindsRecord(s, step, id)
    ensures id in s.otps
    ensures var r, o := ReplyTo(s, step), s.otps[id];
            && r.outcome == Answer(o, Clock(step), Deserves(o, step))
            && r.after.otps == s.otps[id := Judged(o, step, r.outcome)]
            && r.after.issued == s.issued && r.after.users == s.users
            && r.after.admins == if step.VerifyStep? && r.outcome == Accepted && step.adminId in s.admins
                                 then s.admins[step.adminId := s.admins[step.adminId].(twoFactor := true)] else s.admins
  {
    LooksMeans(s, step, id);
    LookedUpIsPending(s, step, id);
  }

  ghost predicate IsCheck(step: Step) {
    step.VerifyStep? || step.LoginStep? || step.ResetVerifyStep? || step.UserResetVerifyStep? ||
    (step.LibraryStep? && step.call.VerifyCall?)
  }

  /** A check that finds no record changes nothing and accepts nothing. */
  lemma EmptyCheckDoes(s: State, step: Step)
    requires IsCheck(step) && forall id :: !FindsRecord(s, step, id)
    ensures Next(s, step) == s
    ensures ReplyTo(s, step).outcome == NothingPending || ReplyTo(s, step).outcome == AccountNotFound
    ensures ReplyTo(s, step).outcome == AccountNotFound ==> step.UserResetVerifyStep? && !StoredUser(s, step.userId)
  {
    if Target(step).Some? {
      LooksMeans(s, step, Target(step).value);
    }
  }

  // ---- bulk changes ------------------------------------------------------------------------

  /** Disabling needs a stored admin and the right password; it expires exactly the admin's verified two-factor records
      and turns the flag off. */
  lemma DisableDoes(s: State, adminId: Id, passwordOk: bool)
    ensures var r := ReplyTo(s, DisableStep(adminId, passwordOk));
            && (r.outcome == AccountNotFound <==> !StoredAdmin(s, adminId))
            && (r.outcome == PasswordRefused <==> StoredAdmin(s, adminId) && !passwordOk)
            && (r.outcome == Done <==> StoredAdmin(s, adminId) && passwordOk)
            && (r.outcome != Done ==> r.after == s)
            && (r.outcome == Done ==>
                  && r.after.admins == s.admins[adminId := s.admins[adminId].(twoFactor := false)]
                  && r.after.users == s.users && r.after.issued == s.issued && r.after.otps.Keys == s.otps.Keys
                  && forall id :: id in s.otps ==>
                       r.after.otps[id] == if s.otps[id].adminId == Some(adminId) && s.otps[id].purpose == TwoFactor &&
                                              s.otps[id].status == Verified
                                           then s.otps[id].(status := Expired) else s.otps[id])
  {
  }

  ghost predicate OldAndDone(o: Otp, now: int) {
    (o.status == Expired || o.status == Used) && o.createdAt + 604_800_000 < now
  }

  /** The clean-up deletes exactly the expired and used records that are more than seven days old. */
  lemma CleanupDoes(s: State, now: int)
    ensures var u := Next(s, CleanupStep(now));
            && u.admins == s.admins && u.users == s.users && u.issued == s.issued
            && (forall id :: id in s.otps ==> (id in u.otps <==> !OldAndDone(s.otps[id], now)))
            && (forall id :: id in u.otps ==> id in s.otps && u.otps[id] == s.otps[id])
  {
  }

  /** The library's mark and its bulk expiry change exactly the named record's and the selected records' status. */
  lemma LibraryWritesDo(s: State, f: Filter, status: Status, marked: Id)
    ensures var u := Next(s, LibraryStep(MarkUsedCall(marked)));
            u == s.(otps := u.otps) && u.otps.Keys == s.otps.Keys && forall id :: id in s.otps ==>
              u.otps[id] == if id == marked then s.otps[id].(status := Used) else s.otps[id]
    ensures var u := Next(s, LibraryStep(ExpireAllCall(f, status)));
            u == s.(otps := u.otps) && u.otps.Keys == s.otps.Keys && forall id :: id in s.otps ==>
              u.otps[id] == if s.otps[id].purpose == f.purpose && s.otps[id].status == status &&
                               (f.userId.Some? ==> s.otps[id].userId == f.userId) &&
                               (f.adminId.Some? ==> s.otps[id].adminId == f.adminId)
                            then s.otps[id].(status := Expired) else s.otps[id]
  {
  }

  // ---- how long a code lives ---------------------------------------------------------------

  /** The moment at which a service issues a code. */
  function IssuedAt(step: Step): Option<int> {
    match step
    case EnableStep(now, _, _, _, _) => Some(now)
    case SendStep(now, _, _, _) => Some(now)
    case ResetSendStep(now, _, _, _) => Some(now)
    case UserResetSendStep(now, _, _, _) => Some(now)
    case _ => None
  }

  /** Step `k` put the record into the table. */
  ghost predicate FirstIn(steps: seq<Step>, k: nat, id: Id)
    requires k < |steps|
  {
    id !in At(steps, k).otps && id in At(steps, k + 1).otps
  }

  lemma IssueOfService(steps: seq<Step>, k: nat, id: Id)
    requires k < |steps| && FirstIn(steps, k, id) && OwnIssue(steps[k])
    ensures IssuedAt(steps[k]).Some?
    ensures At(steps, k + 1).otps[id].expiresAt == IssuedAt(steps[k]).value + 600_000
    ensures At(steps, k + 1).otps[id].maxAttempts == 3 && At(steps, k + 1).otps[id].attempts == 0
  {
    var s, step := At(steps, k), steps[k];
    match step {
      case EnableStep(now, adminId, email, i, code) => EnableDoes(s, now, adminId, email, i, code);
      case SendStep(now, adminId, i, code) => SendDoes(s, now, adminId, i, code);
      case ResetSendStep(now, adminId, i, code) => ResetSendDoes(s, now, adminId, i, code);
      case UserResetSendStep(now, userId, i, requestId) => UserResetSendDoes(s, now, userId, i, requestId);
      case _ => NoOtherStepAdds(s, step, id);
    }
  }

  lemma NoOtherStepAdds(s: State, step: Step, id: Id)
    requires IssuedAt(step) == None && OwnIssue(step) && id in Next(s, step).otps
    ensures id in s.otps
  {
  }

  /** In any run, a code that step `k` of a service has issued is accepted only within ten minutes of that step, and
      compared at most three times. */
  lemma AcceptedWithinTenMinutes(steps: seq<Step>, k: nat, n: nat, id: Id)
    requires k < n < |steps| && FirstIn(steps, k, id) && OwnIssue(steps[k])
    ensures IssuedAt(steps[k]).Some?
    ensures Accepts(At(steps, n), steps[n], id) ==> Clock(steps[n]) <= IssuedAt(steps[k]).value + 600_000
    ensures Comparisons(steps, n, id) <= 3
  {
    IssueOfService(steps, k, id);
    RecordHistory(steps, k + 1, n, id);
    AcceptanceIsDeserved(At(steps, n), steps[n], id);
  }

  /** No check has found the record, and no library call was made. */
  ghost predicate LeftAlone(steps: seq<Step>, k: nat, n: nat, id: Id)
    requires k <= n <= |steps|
  {
    forall i :: k <= i < n ==> Target(steps[i]) != Some(id) && !steps[i].LibraryStep?
  }

  lemma {:induction false} StaysAsIssued(steps: seq<Step>, k: nat, n: nat, id: Id)
    requires k <= n <= |steps| && id in At(steps, k).otps && At(steps, k).otps[id].status == Pending
    requires LeftAlone(steps, k, n, id)
    ensures id in At(steps, n).otps && At(steps, n).otps[id] == At(steps, k).otps[id]
    decreases n
  {
    if k < n {
      StaysAsIssued(steps, k, n - 1, id);
      AlwaysKeysIssued(steps, n - 1);
      OtherStepsSpare(At(steps, n - 1), steps[n - 1], id);
    }
  }

  lemma OtherStepsSpare(s: State, step: Step, id: Id)
    requires KeysIssued(s) && id in s.otps && s.otps[id].status == Pending
    requires Target(step) != Some(id) && !step.LibraryStep?
    ensures id in Next(s, step).otps && Next(s, step).otps[id] == s.otps[id]
  {
  }

  /** The check is the path of the issued code: the same admin or user, the same code, or the gateway's word. */
  ghost predicate OwnPath(issue: Step, check: Step) {
    match issue
    case EnableStep(_, adminId, _, id, code) => OwnLogin(check, adminId, id, code)
    case SendStep(_, adminId, id, code) => OwnLogin(check, adminId, id, code)
    case ResetSendStep(_, adminId, id, code) =>
      check.ResetVerifyStep? && check.accountId == adminId && check.code == code && check.pick == Some(id)
    case UserResetSendStep(_, userId, id, requestId) =>
      check.UserResetVerifyStep? && check.userId == userId && check.smsOk && check.pick == Some(id) &&
      requestId.Some? && requestId.value != ""
    case _ => false
  }

  ghost predicate OwnLogin(check: Step, adminId: Id, id: Id, code: string) {
    || (check.VerifyStep? && check.adminId == adminId && check.code == code && check.pick == Some(id))
    || (check.LoginStep? && check.adminId == adminId && check.code == code && check.pick == Some(id))
  }

  /** No other pending record could be found in its place. */
  ghost predicate Unrivalled(s: State, check: Step, id: Id) {
    forall other :: other in s.otps && other != id && s.otps[other].status == Pending ==>
      match check
      case VerifyStep(_, adminId, _, _) => s.otps[other].purpose != TwoFactor || s.otps[other].adminId != Some(adminId)
      case ResetVerifyStep(_, accountId, _, _) =>
        s.otps[other].purpose != ResetPassword || s.otps[other].userId != Some(accountId)
      case UserResetVerifyStep(_, userId, _, _, _) =>
        s.otps[other].purpose != ResetPassword || s.otps[other].userId != Some(userId)
      case _ => true
  }

  /** Conversely, in any run, a code that step `k` has issued is accepted when it is presented on its own path within
      ten minutes of that step, if no check has found it before and no other pending record rivals it. */
  lemma AcceptedOnItsPath(steps: seq<Step>, k: nat, n: nat, id: Id)
    requires k < n < |steps| && FirstIn(steps, k, id) && OwnPath(steps[k], steps[n])
    requires Target(steps[n]) == Some(id) && LeftAlone(steps, k + 1, n, id) && Unrivalled(At(steps, n), steps[n], id)
    requires steps[n].UserResetVerifyStep? ==> StoredUser(At(steps, n), steps[n].userId)
    requires IssuedAt(steps[k]).Some? && Clock(steps[n]) <= IssuedAt(steps[k]).value + 600_000
    ensures Accepts(At(steps, n), steps[n], id)
  {
    var s, issue, check := At(steps, k), steps[k], steps[n];
    match issue {
      case EnableStep(now, adminId, email, i, code) => EnableDoes(s, now, adminId, email, i, code);
      case SendStep(now, adminId, i, code) => SendDoes(s, now, adminId, i, code);
      case ResetSendStep(now, adminId, i, code) => ResetSendDoes(s, now, adminId, i, code);
      case UserResetSendStep(now, userId, i, requestId) => UserResetSendDoes(s, now, userId, i, requestId);
      case _ =>
    }
    StaysAsIssued(steps, k + 1, n, id);
    assert FindsRecord(At(steps, n), check, id);
    CheckDoes(At(steps, n), check, id);
  }

  /** Accounts come and go without touching a record: an admin is added once, with the flag off, and
      removed by a mark. */
  lemma AccountStepsDo(s: State, id: Id, email: string, deleted: bool)
    ensures var u := Next(s, AccountStep(AddAdminRow(id, email)));
            u == if id in s.admins then s else s.(admins := s.admins[id := Admin(email, false, false)])
    ensures var u := Next(s, AccountStep(RemoveAdminRow(id)));
            u == if id !in s.admins then s else s.(admins := s.admins[id := s.admins[id].(deleted := true)])
    ensures Next(s, AccountStep(SetUserRow(id, deleted))) == s.(users := s.users[id := deleted])
  {
  }
}
