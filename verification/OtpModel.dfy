/** One-time codes, the admin two-factor flag, and every request that reads or writes either. Times
    are in milliseconds. A lookup that can match several rows is answered by any of them (`pick`). */
module OtpModel {
  import opened SequenceFacts

  type Id = string

  const MS_PER_MINUTE := 60_000
  const OTP_TTL_MINUTES := 10
  const DEFAULT_ATTEMPTS := 3
  const RETENTION := 7 * 24 * 60 * 60 * 1000
  const SMS_PLACEHOLDER := "SMS_OTP"

  datatype Status = Pending | Verified | Expired | Used
  datatype Purpose = TwoFactor | ResetPassword

  datatype Otp = Otp(userId: Option<Id>, adminId: Option<Id>, purpose: Purpose, code: string, requestId: Option<string>,
                     status: Status, attempts: nat, maxAttempts: int, expiresAt: int, createdAt: int)

  /** A soft-deleted admin keeps its row. */
  datatype Admin = Admin(email: string, deleted: bool, twoFactor: bool)

  /** `issued` remembers every primary key ever handed out. */
  datatype State = State(otps: map<Id, Otp>, issued: set<Id>, admins: map<Id, Admin>, users: map<Id, bool>)

  datatype Outcome =
    | Done | AccountNotFound | EmailMismatch | PasswordRefused | AlreadySent | StorageFailed
    | NothingPending | Lapsed | OverLimit | WrongCode | Accepted

  datatype Reply = Reply(after: State, outcome: Outcome)

  // ---- lookups -----------------------------------------------------------------------------

  /** A `where` clause: an absent field does not restrict. */
  datatype Filter = Filter(userId: Option<Id>, adminId: Option<Id>, purpose: Purpose, code: Option<string>)

  predicate Matches(o: Otp, f: Filter) {
    && o.status == Pending && o.purpose == f.purpose
    && (f.userId == None || o.userId == f.userId)
    && (f.adminId == None || o.adminId == f.adminId)
    && (f.code == None || f.code.value == o.code)
  }

  predicate Hit(s: State, f: Filter, id: Id) {
    id in s.otps && Matches(s.otps[id], f)
  }

  /** `findOne` without an order: any match, or nothing if there is none. */
  ghost predicate Finds(s: State, f: Filter, pick: Option<Id>) {
    match pick
    case None => forall id :: !Hit(s, f, id)
    case Some(id) => Hit(s, f, id)
  }

  /** `findOne` ordered by `createdAt` descending. */
  ghost predicate FindsNewest(s: State, f: Filter, pick: Option<Id>) {
    && Finds(s, f, pick)
    && (pick != None ==> forall id :: Hit(s, f, id) ==> s.otps[id].createdAt <= s.otps[pick.value].createdAt)
  }

  predicate AdminFound(s: State, adminId: Id) {
    adminId in s.admins && !s.admins[adminId].deleted
  }

  predicate UserFound(s: State, userId: Id) {
    userId in s.users && !s.users[userId]
  }

  predicate VerifiedFor(o: Otp, adminId: Id) {
    o.adminId == Some(adminId) && o.purpose == TwoFactor && o.status == Verified
  }

  predicate HasVerified(s: State, adminId: Id) {
    exists id :: id in s.otps && VerifiedFor(s.otps[id], adminId)
  }

  // ---- issuing -----------------------------------------------------------------------------

  function NewOtp(f: Filter, code: string, requestId: Option<string>, now: int, ttlMinutes: int,
                  maxAttempts: int): Otp {
    Otp(f.userId, f.adminId, f.purpose, code, requestId, Pending, 0, maxAttempts, now + ttlMinutes * MS_PER_MINUTE, now)
  }

  /** Primary key and both foreign keys hold. */
  predicate Storable(s: State, id: Id, o: Otp) {
    && id !in s.issued
    && (o.userId == None || o.userId.value in s.users)
    && (o.adminId == None || o.adminId.value in s.admins)
  }

  function Issue(s: State, id: Id, o: Otp): Reply {
    if Storable(s, id, o) then Reply(s.(otps := s.otps[id := o], issued := s.issued + {id}), Done)
    else Reply(s, StorageFailed)
  }

  function OfAdmin(adminId: Id, purpose: Purpose): Filter {
    Filter(None, Some(adminId), purpose, None)
  }

  function OfUser(userId: Id, purpose: Purpose): Filter {
    Filter(Some(userId), None, purpose, None)
  }

  function EnableTwoFactor(s: State, now: int, adminId: Id, email: string, id: Id, code: string): Reply {
    if !AdminFound(s, adminId) then Reply(s, AccountNotFound)
    else if s.admins[adminId].email != email then Reply(s, EmailMismatch)
    else Issue(s, id, NewOtp(OfAdmin(adminId, TwoFactor), code, None, now, OTP_TTL_MINUTES, DEFAULT_ATTEMPTS))
  }

  function SendVerificationCode(s: State, now: int, adminId: Id, id: Id, code: string): Reply {
    if !AdminFound(s, adminId) then Reply(s, AccountNotFound)
    else if HasVerified(s, adminId) then Reply(s, AlreadySent)
    else Issue(s, id, NewOtp(OfAdmin(adminId, TwoFactor), code, None, now, OTP_TTL_MINUTES, DEFAULT_ATTEMPTS))
  }

  function PasswordResetSend(s: State, now: int, adminId: Id, id: Id, code: string): Reply {
    if !AdminFound(s, adminId) then Reply(s, AccountNotFound)
    else Issue(s, id, NewOtp(OfAdmin(adminId, ResetPassword), code, None, now, OTP_TTL_MINUTES, DEFAULT_ATTEMPTS))
  }

  function UserPasswordResetSend(s: State, now: int, userId: Id, id: Id, requestId: Option<string>): Reply {
    if !UserFound(s, userId) then Reply(s, AccountNotFound)
    else Issue(s, id, NewOtp(OfUser(userId, ResetPassword), SMS_PLACEHOLDER, requestId, now, OTP_TTL_MINUTES,
                             DEFAULT_ATTEMPTS))
  }

  // ---- judging -----------------------------------------------------------------------------

  /** What becomes of a loaded record, `right` telling whether the presented code is the right one. */
  function Judge(o: Otp, now: int, right: bool, accepted: Status): (r: (Otp, Outcome))
    ensures r.1 == Accepted <==> now <= o.expiresAt && o.attempts < o.maxAttempts && right
    ensures r.0.attempts == o.attempts + if r.1 == Accepted || r.1 == WrongCode then 1 else 0
    ensures r.0.status == match r.1 { case Accepted => accepted case WrongCode => o.status case _ => Expired }
  {
    if now > o.expiresAt then (o.(status := Expired), Lapsed)
    else if o.attempts >= o.maxAttempts then (o.(status := Expired), OverLimit)
    else
      var tried := o.(attempts := o.attempts + 1);
      if !right then (tried, WrongCode) else (tried.(status := accepted), Accepted)
  }

  function Examine(s: State, pick: Option<Id>, now: int, right: bool, accepted: Status): Reply
    requires pick == None || pick.value in s.otps
  {
    if pick == None then Reply(s, NothingPending)
    else
      var (o, outcome) := Judge(s.otps[pick.value], now, right, accepted);
      Reply(s.(otps := s.otps[pick.value := o]), outcome)
  }

  predicate CodeIs(s: State, pick: Option<Id>, code: string) {
    pick != None && pick.value in s.otps && s.otps[pick.value].code == code
  }

  function WithFlag(s: State, adminId: Id, on: bool): State {
    if adminId in s.admins then s.(admins := s.admins[adminId := s.admins[adminId].(twoFactor := on)]) else s
  }

  function VerifyTwoFactor(s: State, now: int, adminId: Id, code: string, pick: Option<Id>): Reply
    requires FindsNewest(s, OfAdmin(adminId, TwoFactor), pick)
  {
    var reply := Examine(s, pick, now, CodeIs(s, pick, code), Verified);
    if reply.outcome == Accepted then Reply(WithFlag(reply.after, adminId, true), Accepted) else reply
  }

  /** The code is part of the lookup, so a wrong one finds nothing and costs no attempt. */
  function ValidateLoginCode(s: State, now: int, adminId: Id, code: string, pick: Option<Id>): Reply
    requires Finds(s, OfAdmin(adminId, TwoFactor).(code := Some(code)), pick)
  {
    Examine(s, pick, now, CodeIs(s, pick, code), Used)
  }

  /** The account id is tried as a user's first, then as an admin's. */
  ghost predicate FindsReset(s: State, accountId: Id, pick: Option<Id>) {
    || (pick != None && Finds(s, OfUser(accountId, ResetPassword), pick))
    || (Finds(s, OfUser(accountId, ResetPassword), None) && Finds(s, OfAdmin(accountId, ResetPassword), pick))
  }

  function VerifyPasswordReset(s: State, now: int, accountId: Id, code: string, pick: Option<Id>): Reply
    requires FindsReset(s, accountId, pick)
  {
    Examine(s, pick, now, CodeIs(s, pick, code), Verified)
  }

  /** The gateway is asked only when the record has a request id. */
  predicate GatewayAgrees(s: State, pick: Option<Id>, smsOk: bool) {
    pick != None && pick.value in s.otps &&
    s.otps[pick.value].requestId != None && s.otps[pick.value].requestId.value != "" && smsOk
  }

  function UserVerifyPasswordReset(s: State, now: int, userId: Id, code: string, smsOk: bool, pick: Option<Id>): Reply
    requires FindsNewest(s, OfUser(userId, ResetPassword), pick)
  {
    if !UserFound(s, userId) then Reply(s, AccountNotFound)
    else
      var reply := Examine(s, pick, now, GatewayAgrees(s, pick, smsOk), Verified);
      if reply.outcome == Accepted then
        Reply(reply.after.(otps := reply.after.otps[pick.value := reply.after.otps[pick.value].(code := code)]),
              Accepted)
      else reply
  }

  /** `OtpService.findPending` then `OtpService.verify`. */
  function VerifyPending(s: State, now: int, f: Filter, code: string, pick: Option<Id>): Reply
    requires FindsNewest(s, f, pick)
  {
    Examine(s, pick, now, CodeIs(s, pick, code), Verified)
  }

  // ---- bulk changes ------------------------------------------------------------------------

  predicate Selected(o: Otp, f: Filter, status: Status) {
    && o.purpose == f.purpose && o.status == status
    && (f.userId == None || o.userId == f.userId)
    && (f.adminId == None || o.adminId == f.adminId)
  }

  function ExpireAll(s: State, f: Filter, status: Status): State {
    s.(otps := map id | id in s.otps ::
      if Selected(s.otps[id], f, status) then s.otps[id].(status := Expired) else s.otps[id])
  }

  function DisableTwoFactor(s: State, adminId: Id, passwordOk: bool): Reply {
    if !AdminFound(s, adminId) then Reply(s, AccountNotFound)
    else if !passwordOk then Reply(s, PasswordRefused)
    else Reply(WithFlag(ExpireAll(s, OfAdmin(adminId, TwoFactor), Verified), adminId, false), Done)
  }

  function MarkUsed(s: State, id: Id): State {
    if id in s.otps then s.(otps := s.otps[id := s.otps[id].(status := Used)]) else s
  }

  predicate Stale(o: Otp, now: int) {
    (o.status == Expired || o.status == Used) && o.createdAt < now - RETENTION
  }

  function Cleanup(s: State, now: int): State {
    s.(otps := map id | id in s.otps && !Stale(s.otps[id], now) :: s.otps[id])
  }

  function AddAdmin(s: State, id: Id, email: string): State {
    if id in s.admins then s else s.(admins := s.admins[id := Admin(email, false, false)])
  }

  function RemoveAdmin(s: State, id: Id): State {
    if id in s.admins then s.(admins := s.admins[id := s.admins[id].(deleted := true)]) else s
  }

  function SetUser(s: State, id: Id, deleted: bool): State {
    s.(users := s.users[id := deleted])
  }
}
