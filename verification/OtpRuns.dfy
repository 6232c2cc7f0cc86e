/** Runs over the one-time-code tables: every service that reads or writes a record, in any order.
    A code is compared at most `maxAttempts` times, accepted at most once and never late, a record
    that has left PENDING never returns. What counts as a comparison, and what a text-message record takes
    for the right code, is stated exactly. */
module OtpRuns {
  import opened SequenceFacts
  import opened OtpModel

  datatype Step =
    | EnableStep(now: int, adminId: Id, email: string, id: Id, code: string)
    | SendStep(now: int, adminId: Id, id: Id, code: string)
    | ResetSendStep(now: int, adminId: Id, id: Id, code: string)
    | UserResetSendStep(now: int, userId: Id, id: Id, requestId: Option<string>)
    | VerifyStep(now: int, adminId: Id, code: string, pick: Option<Id>)
    | LoginStep(now: int, adminId: Id, code: string, pick: Option<Id>)
    | ResetVerifyStep(now: int, accountId: Id, code: string, pick: Option<Id>)
    | UserResetVerifyStep(now: int, userId: Id, code: string, smsOk: bool, pick: Option<Id>)
    | DisableStep(adminId: Id, passwordOk: bool)
    | CleanupStep(now: int)
    | AccountStep(account: AccountChange)
    | LibraryStep(call: LibraryCall)

  datatype AccountChange =
    | AddAdminRow(id: Id, email: string)
    | RemoveAdminRow(id: Id)
    | SetUserRow(id: Id, deleted: bool)

  /** The methods of `OtpService`, which any service may call. */
  datatype LibraryCall =
    | CreateCall(now: int, f: Filter, id: Id, code: string, requestId: Option<string>, ttlMinutes: int,
                 maxAttempts: int)
    | VerifyCall(now: int, f: Filter, code: string, pick: Option<Id>)
    | MarkUsedCall(id: Id)
    | ExpireAllCall(f: Filter, status: Status)

  ghost function AccountReply(s: State, c: AccountChange): Reply {
    match c
    case AddAdminRow(id, email) => Reply(AddAdmin(s, id, email), Done)
    case RemoveAdminRow(id) => Reply(RemoveAdmin(s, id), Done)
    case SetUserRow(id, deleted) => Reply(SetUser(s, id, deleted), Done)
  }

  ghost function LibraryReply(s: State, c: LibraryCall): Reply {
    match c
    case CreateCall(now, f, id, code, requestId, ttl, max) => Issue(s, id, NewOtp(f, code, requestId, now, ttl, max))
    case VerifyCall(now, f, code, pick) =>
      if FindsNewest(s, f, pick) then VerifyPending(s, now, f, code, pick) else Reply(s, NothingPending)
    case MarkUsedCall(id) => Reply(MarkUsed(s, id), Done)
    case ExpireAllCall(f, status) => Reply(ExpireAll(s, f, status), Done)
  }

  /** A step whose `pick` is not an answer the database could give does nothing. */
  ghost function ReplyTo(s: State, step: Step): Reply {
    match step
    case EnableStep(now, adminId, email, id, code) => EnableTwoFactor(s, now, adminId, email, id, code)
    case SendStep(now, adminId, id, code) => SendVerificationCode(s, now, adminId, id, code)
    case ResetSendStep(now, adminId, id, code) => PasswordResetSend(s, now, adminId, id, code)
    case UserResetSendStep(now, userId, id, requestId) => UserPasswordResetSend(s, now, userId, id, requestId)
    case VerifyStep(now, adminId, code, pick) =>
      if FindsNewest(s, OfAdmin(adminId, TwoFactor), pick) then VerifyTwoFactor(s, now, adminId, code, pick)
      else Reply(s, NothingPending)
    case LoginStep(now, adminId, code, pick) =>
      if Finds(s, OfAdmin(adminId, TwoFactor).(code := Some(code)), pick) then
        ValidateLoginCode(s, now, adminId, code, pick)
      else Reply(s, NothingPending)
    case ResetVerifyStep(now, accountId, code, pick) =>
      if FindsReset(s, accountId, pick) then VerifyPasswordReset(s, now, accountId, code, pick)
      else Reply(s, NothingPending)
    case UserResetVerifyStep(now, userId, code, smsOk, pick) =>
      if FindsNewest(s, OfUser(userId, ResetPassword), pick) then
        UserVerifyPasswordReset(s, now, userId, code, smsOk, pick)
      else Reply(s, NothingPending)
    case DisableStep(adminId, passwordOk) => DisableTwoFactor(s, adminId, passwordOk)
    case CleanupStep(now) => Reply(Cleanup(s, now), Done)
    case AccountStep(account) => AccountReply(s, account)
    case LibraryStep(call) => LibraryReply(s, call)
  }

  ghost function Next(s: State, step: Step): State {
    ReplyTo(s, step).after
  }

  ghost function At(steps: seq<Step>, n: nat): State
    requires n <= |steps|
  {
    if n == 0 then State(map[], {}, map[], map[]) else Next(At(steps, n - 1), steps[n - 1])
  }

  // ---- one record, one step ----------------------------------------------------------------

  /** The record a step looks up to verify. */
  function Target(step: Step): Option<Id> {
    match step
    case VerifyStep(_, _, _, pick) => pick
    case LoginStep(_, _, _, pick) => pick
    case ResetVerifyStep(_, _, _, pick) => pick
    case UserResetVerifyStep(_, _, _, _, pick) => pick
    case LibraryStep(VerifyCall(_, _, _, pick)) => pick
    case _ => None
  }

  function Clock(step: Step): int {
    match step
    case VerifyStep(now, _, _, _) => now
    case LoginStep(now, _, _, _) => now
    case ResetVerifyStep(now, _, _, _) => now
    case UserResetVerifyStep(now, _, _, _, _) => now
    case LibraryStep(VerifyCall(now, _, _, _)) => now
    case _ => 0
  }

  /** The step compares a presented code with the record's. */
  ghost predicate Compares(s: State, step: Step, id: Id) {
    Target(step) == Some(id) && (ReplyTo(s, step).outcome == WrongCode || ReplyTo(s, step).outcome == Accepted)
  }

  ghost predicate Accepts(s: State, step: Step, id: Id) {
    Target(step) == Some(id) && ReplyTo(s, step).outcome == Accepted
  }

  /** The presented code is the record's, or the text-message gateway vouched for it. */
  predicate RightCode(o: Otp, step: Step) {
    match step
    case VerifyStep(_, _, code, _) => code == o.code
    case LoginStep(_, _, code, _) => code == o.code
    case ResetVerifyStep(_, _, code, _) => code == o.code
    case UserResetVerifyStep(_, _, _, smsOk, _) => smsOk && o.requestId != None && o.requestId.value != ""
    case LibraryStep(VerifyCall(_, _, code, _)) => code == o.code
    case _ => false
  }

  ghost predicate Follows(o: Otp, p: Otp, compared: bool) {
    && p == o.(status := p.status, attempts := p.attempts, code := p.code)
    && (p.status == Pending ==> o.status == Pending && p.code == o.code)
    && p.attempts == o.attempts + (if compared then 1 else 0)
    && (compared ==> o.status == Pending && o.attempts < o.maxAttempts)
  }

  ghost predicate Gone(o: Otp) {
    o.status == Expired || o.status == Used
  }

  /** What a step may do to the record `id`. */
  ghost predicate Moves(s: State, u: State, id: Id, compared: bool, accepted: bool) {
    && s.issued <= u.issued
    && (id in u.otps ==> id in u.issued)
    && (id in s.otps && id in u.otps ==> Follows(s.otps[id], u.otps[id], compared))
    && (id in s.otps && id !in u.otps ==> Gone(s.otps[id]))
    && (id !in s.otps && id in u.otps ==> id !in s.issued && u.otps[id].status == Pending && u.otps[id].attempts == 0)
    && (compared ==> id in s.otps && id in u.otps)
    && (accepted ==> compared && u.otps[id].status != Pending)
  }

  ghost predicate KeysIssued(s: State) {
    s.otps.Keys <= s.issued
  }

  lemma ExamineMoves(s: State, pick: Option<Id>, now: int, right: bool, accepted: Status, id: Id)
    requires KeysIssued(s) && accepted != Pending
    requires pick == None || (pick.value in s.otps && s.otps[pick.value].status == Pending)
    ensures var reply := Examine(s, pick, now, right, accepted);
            Moves(s, reply.after, id, pick == Some(id) && (reply.outcome == WrongCode || reply.outcome == Accepted),
                  pick == Some(id) && reply.outcome == Accepted)
  {
  }

  lemma BulkMoves(s: State, f: Filter, status: Status, now: int, usedId: Id, id: Id)
    requires KeysIssued(s)
    ensures Moves(s, ExpireAll(s, f, status), id, false, false)
    ensures Moves(s, Cleanup(s, now), id, false, false)
    ensures Moves(s, MarkUsed(s, usedId), id, false, false)
  {
  }

  lemma LibraryMoves(s: State, call: LibraryCall, id: Id)
    requires KeysIssued(s)
    ensures var step := LibraryStep(call); Moves(s, Next(s, step), id, Compares(s, step, id), Accepts(s, step, id))
  {
  }

  lemma IssuingMoves(s: State, step: Step, id: Id)
    requires KeysIssued(s) && (step.EnableStep? || step.SendStep? || step.ResetSendStep? || step.UserResetSendStep?)
    ensures Moves(s, Next(s, step), id, false, false)
  {
  }

  lemma CodeChecksMove(s: State, step: Step, id: Id)
    requires KeysIssued(s) && (step.VerifyStep? || step.LoginStep? || step.ResetVerifyStep?)
    ensures Moves(s, Next(s, step), id, Compares(s, step, id), Accepts(s, step, id))
  {
    match step {
      case VerifyStep(now, adminId, code, pick) =>
        if FindsNewest(s, OfAdmin(adminId, TwoFactor), pick) {
          ExamineMoves(s, pick, now, CodeIs(s, pick, code), Verified, id);
        }
      case LoginStep(now, adminId, code, pick) =>
        if Finds(s, OfAdmin(adminId, TwoFactor).(code := Some(code)), pick) {
          ExamineMoves(s, pick, now, CodeIs(s, pick, code), Used, id);
        }
      case ResetVerifyStep(now, accountId, code, pick) =>
        if FindsReset(s, accountId, pick) {
          ExamineMoves(s, pick, now, CodeIs(s, pick, code), Verified, id);
        }
    }
  }

  lemma GatewayCheckMoves(s: State, step: Step, id: Id)
    requires KeysIssued(s) && step.UserResetVerifyStep?
    ensures Moves(s, Next(s, step), id, Compares(s, step, id), Accepts(s, step, id))
  {
  }

  lemma StepMoves(s: State, step: Step, id: Id)
    requires KeysIssued(s)
    ensures Moves(s, Next(s, step), id, Compares(s, step, id), Accepts(s, step, id))
  {
    match step {
      case LibraryStep(call) => LibraryMoves(s, call, id);
      case DisableStep(adminId, _) => BulkMoves(s, OfAdmin(adminId, TwoFactor), Verified, 0, "", id);
      case CleanupStep(now) => BulkMoves(s, OfUser("", TwoFactor), Used, now, "", id);
      case AccountStep(_) =>
      case UserResetVerifyStep(_, _, _, _, _) => GatewayCheckMoves(s, step, id);
      case VerifyStep(_, _, _, _) => CodeChecksMove(s, step, id);
      case LoginStep(_, _, _, _) => CodeChecksMove(s, step, id);
      case ResetVerifyStep(_, _, _, _) => CodeChecksMove(s, step, id);
      case _ => IssuingMoves(s, step, id);
    }
  }

  /** The step's lookup gives this record. At login the code is part of the lookup. */
  ghost predicate Looks(s: State, step: Step, id: Id) {
    match step
    case VerifyStep(_, adminId, _, pick) => pick == Some(id) && FindsNewest(s, OfAdmin(adminId, TwoFactor), pick)
    case LoginStep(_, adminId, code, pick) =>
      pick == Some(id) && Finds(s, OfAdmin(adminId, TwoFactor).(code := Some(code)), pick)
    case ResetVerifyStep(_, accountId, _, pick) => pick == Some(id) && FindsReset(s, accountId, pick)
    case UserResetVerifyStep(_, userId, _, _, pick) =>
      pick == Some(id) && UserFound(s, userId) && FindsNewest(s, OfUser(userId, ResetPassword), pick)
    case LibraryStep(VerifyCall(_, f, _, pick)) => pick == Some(id) && FindsNewest(s, f, pick)
    case _ => false
  }

  lemma LookedUpIsPending(s: State, step: Step, id: Id)
    requires Looks(s, step, id)
    ensures id in s.otps && s.otps[id].status == Pending && Target(step) == Some(id)
  {
  }

  /** A code is compared exactly when the lookup gives the record, in time and within its attempts. */
  lemma ComparesIff(s: State, step: Step, id: Id)
    ensures Compares(s, step, id) <==>
              Looks(s, step, id) && Clock(step) <= s.otps[id].expiresAt && s.otps[id].attempts < s.otps[id].maxAttempts
  {
  }

  /** On every path a code is accepted exactly for the pending record that the lookup gives, in time, within
      its attempts, and if it is the record's code, or on the text-message path the gateway's word is good. */
  lemma AcceptedIff(s: State, step: Step, id: Id)
    ensures Accepts(s, step, id) <==>
              && Looks(s, step, id) && Clock(step) <= s.otps[id].expiresAt
              && s.otps[id].attempts < s.otps[id].maxAttempts && RightCode(s.otps[id], step)
  {
  }

  /** What follows for the record of an accepted code. */
  lemma AcceptanceIsDeserved(s: State, step: Step, id: Id)
    ensures Accepts(s, step, id) ==>
              && id in s.otps && s.otps[id].status == Pending
              && Clock(step) <= s.otps[id].expiresAt
              && s.otps[id].attempts < s.otps[id].maxAttempts
              && RightCode(s.otps[id], step)
  {
    if Accepts(s, step, id) {
      AcceptedIff(s, step, id);
      LookedUpIsPending(s, step, id);
    }
  }

  /** The record belongs to whom the step addresses, whatever code it presents. */
  ghost predicate Addresses(s: State, step: Step, id: Id) {
    if step.LoginStep? then Hit(s, OfAdmin(step.adminId, TwoFactor), id) else Looks(s, step, id)
  }

  lemma WrongLoginKeepsRecord(s: State, now: int, adminId: Id, code: string, pick: Option<Id>, id: Id)
    requires id in s.otps && s.otps[id].code != code
    ensures var step := LoginStep(now, adminId, code, pick);
            !Compares(s, step, id) && id in Next(s, step).otps && Next(s, step).otps[id] == s.otps[id]
  {
  }

  /** A wrong code presented in time and within the limit costs the record an attempt on every path but
      the login, where it costs nothing and changes nothing. */
  lemma WrongCodeCostsIff(s: State, step: Step, id: Id)
    requires KeysIssued(s) && Addresses(s, step, id) && id in s.otps && !RightCode(s.otps[id], step)
    requires Clock(step) <= s.otps[id].expiresAt && s.otps[id].attempts < s.otps[id].maxAttempts
    ensures id in Next(s, step).otps
    ensures Next(s, step).otps[id].attempts == s.otps[id].attempts + 1 <==> !step.LoginStep?
    ensures step.LoginStep? ==> Next(s, step).otps[id] == s.otps[id]
  {
    match step {
      case LoginStep(now, adminId, code, pick) => WrongLoginKeepsRecord(s, now, adminId, code, pick, id);
      case _ =>
        ComparesIff(s, step, id);
        StepMoves(s, step, id);
    }
  }

  lemma StepKeepsKeys(s: State, step: Step)
    requires KeysIssued(s)
    ensures KeysIssued(Next(s, step))
  {
  }

  lemma {:induction false} AlwaysKeysIssued(steps: seq<Step>, n: nat)
    requires n <= |steps|
    ensures KeysIssued(At(steps, n))
  {
    if n > 0 {
      AlwaysKeysIssued(steps, n - 1);
      StepKeepsKeys(At(steps, n - 1), steps[n - 1]);
    }
  }

  // ---- one record, a whole run -------------------------------------------------------------

  /** How often a code was compared with the record's in the first `n` steps. */
  ghost function Comparisons(steps: seq<Step>, n: nat, id: Id): nat
    requires n <= |steps|
  {
    if n == 0 then 0
    else Comparisons(steps, n - 1, id) + if Compares(At(steps, n - 1), steps[n - 1], id) then 1 else 0
  }

  ghost function Acceptances(steps: seq<Step>, n: nat, id: Id): nat
    requires n <= |steps|
  {
    if n == 0 then 0
    else Acceptances(steps, n - 1, id) + if Accepts(At(steps, n - 1), steps[n - 1], id) then 1 else 0
  }

  ghost predicate StillOpen(s: State, id: Id) {
    id !in s.issued || (id in s.otps && s.otps[id].status == Pending)
  }

  lemma MovesCount(s: State, u: State, id: Id, compared: bool, accepted: bool)
    requires Moves(s, u, id, compared, accepted) && KeysIssued(s)
    ensures accepted ==> StillOpen(s, id) && !StillOpen(u, id)
    ensures StillOpen(u, id) ==> StillOpen(s, id)
  {
  }

  /** Over a whole run and across every service, a record is accepted at most once, and not again
      once it has left PENDING. */
  lemma {:induction false} AcceptedAtMostOnce(steps: seq<Step>, n: nat, id: Id)
    requires n <= |steps|
    ensures Acceptances(steps, n, id) <= if StillOpen(At(steps, n), id) then 0 else 1
  {
    if n > 0 {
      AcceptedAtMostOnce(steps, n - 1, id);
      AlwaysKeysIssued(steps, n - 1);
      var s, step := At(steps, n - 1), steps[n - 1];
      StepMoves(s, step, id);
      MovesCount(s, At(steps, n), id, Compares(s, step, id), Accepts(s, step, id));
    }
  }

  /** The stored counter is exactly the number of comparisons made so far, and stays in bounds. */
  lemma {:induction false} AttemptsCountComparisons(steps: seq<Step>, n: nat, id: Id)
    requires n <= |steps|
    ensures var s := At(steps, n);
            && (id !in s.issued ==> Comparisons(steps, n, id) == 0)
            && (id in s.otps ==> s.otps[id].attempts == Comparisons(steps, n, id) &&
                                 (s.otps[id].attempts == 0 || s.otps[id].attempts <= s.otps[id].maxAttempts))
  {
    if n > 0 {
      AttemptsCountComparisons(steps, n - 1, id);
      AlwaysKeysIssued(steps, n - 1);
      StepMoves(At(steps, n - 1), steps[n - 1], id);
    }
  }

  /** A record keeps its owner, purpose, limit and deadline, never becomes PENDING again, and its code
      is never compared more often than its limit, even after it has been deleted. */
  lemma {:induction false} RecordHistory(steps: seq<Step>, k: nat, n: nat, id: Id)
    requires k <= n <= |steps| && id in At(steps, k).otps
    ensures var o, u := At(steps, k).otps[id], At(steps, n);
            && id in u.issued
            && (id in u.otps ==>
                  && u.otps[id] == o.(status := u.otps[id].status, attempts := u.otps[id].attempts,
                                      code := u.otps[id].code)
                  && (u.otps[id].status == Pending ==> o.status == Pending))
            && (Comparisons(steps, n, id) == 0 || Comparisons(steps, n, id) <= o.maxAttempts)
    decreases n
  {
    AttemptsCountComparisons(steps, n, id);
    AlwaysKeysIssued(steps, n);
    if k < n {
      RecordHistory(steps, k, n - 1, id);
      AlwaysKeysIssued(steps, n - 1);
      StepMoves(At(steps, n - 1), steps[n - 1], id);
    }
  }

  // ---- the limit does not count wrong logins -----------------------------------------------

  /** Any number of wrong login codes leaves a record as it is and its comparisons uncounted: at login the
      limit bounds nothing but right codes. */
  lemma {:induction false} WrongLoginsAreFree(steps: seq<Step>, k: nat, n: nat, id: Id)
    requires k <= n <= |steps| && id in At(steps, k).otps
    requires forall i :: k <= i < n ==> steps[i].LoginStep? && steps[i].code != At(steps, k).otps[id].code
    ensures id in At(steps, n).otps && At(steps, n).otps[id] == At(steps, k).otps[id]
    ensures Comparisons(steps, n, id) == Comparisons(steps, k, id)
    decreases n
  {
    if k < n {
      WrongLoginsAreFree(steps, k, n - 1, id);
      var step := steps[n - 1];
      WrongLoginKeepsRecord(At(steps, n - 1), step.now, step.adminId, step.code, step.pick, id);
    }
  }

  // ---- what the repository's own services issue --------------------------------------------

  /** Three attempts and ten minutes; a user's record holds the text-message placeholder until a code is
      accepted. */
  ghost predicate ShippedOtp(o: Otp) {
    && o.maxAttempts == 3 && o.expiresAt == o.createdAt + 600_000
    && (o.userId != None && o.status == Pending ==> o.code == SMS_PLACEHOLDER)
  }

  ghost predicate Shipped(s: State) {
    forall id :: id in s.otps ==> ShippedOtp(s.otps[id])
  }

  ghost predicate OwnIssue(step: Step) {
    step.LibraryStep? ==> !step.call.CreateCall?
  }

  lemma NewRecordShipped(s: State, step: Step, id: Id)
    requires OwnIssue(step) && id !in s.otps && id in Next(s, step).otps
    ensures ShippedOtp(Next(s, step).otps[id])
  {
  }

  lemma {:induction false} AlwaysShipped(steps: seq<Step>, n: nat)
    requires n <= |steps| && forall i :: 0 <= i < n ==> OwnIssue(steps[i])
    ensures Shipped(At(steps, n))
  {
    if n > 0 {
      AlwaysShipped(steps, n - 1);
      AlwaysKeysIssued(steps, n - 1);
      var s, step := At(steps, n - 1), steps[n - 1];
      forall id | id in At(steps, n).otps ensures ShippedOtp(At(steps, n).otps[id]) {
        if id in s.otps { StepMoves(s, step, id); } else { NewRecordShipped(s, step, id); }
      }
    }
  }

  /** So a code the services issued is compared at most three times in any run, and accepted only within
      ten minutes of its issue. Wrong login codes are not comparisons. */
  lemma ThreeComparisonsInTenMinutes(steps: seq<Step>, k: nat, n: nat, id: Id)
    requires k <= n < |steps| && id in At(steps, k).otps && forall i :: 0 <= i < |steps| ==> OwnIssue(steps[i])
    ensures Comparisons(steps, n, id) <= 3
    ensures Accepts(At(steps, n), steps[n], id) ==> Clock(steps[n]) <= At(steps, k).otps[id].createdAt + 600_000
  {
    AlwaysShipped(steps, k);
    RecordHistory(steps, k, n, id);
    AcceptanceIsDeserved(At(steps, n), steps[n], id);
  }

  // ---- text-message records ----------------------------------------------------------------

  /** The gateway was asked about this record and confirmed the presented code. */
  predicate Vouched(o: Otp, step: Step) {
    step.UserResetVerifyStep? && step.smsOk && o.requestId != None && o.requestId.value != ""
  }

  /** The presented text is the placeholder, on a path that compares stored codes. */
  predicate PresentsPlaceholder(step: Step) {
    match step
    case ResetVerifyStep(_, _, code, _) => code == SMS_PLACEHOLDER
    case LibraryStep(VerifyCall(_, _, code, _)) => code == SMS_PLACEHOLDER
    case _ => false
  }

  /** A user's record is accepted exactly when its lookup, time and limit allow it and either the gateway
      vouched, or the presented text is the placeholder on a path that does not ask the gateway. */
  lemma TextRecordAcceptedIff(steps: seq<Step>, n: nat, id: Id)
    requires n < |steps| && forall i :: 0 <= i < |steps| ==> OwnIssue(steps[i])
    requires id in At(steps, n).otps && At(steps, n).otps[id].userId != None
    ensures var s, o := At(steps, n), At(steps, n).otps[id];
            Accepts(s, steps[n], id) <==>
              && Looks(s, steps[n], id) && Clock(steps[n]) <= o.expiresAt && o.attempts < 3
              && (Vouched(o, steps[n]) || PresentsPlaceholder(steps[n]))
  {
    var s, step := At(steps, n), steps[n];
    AlwaysShipped(steps, n);
    AcceptedIff(s, step, id);
    if Looks(s, step, id) {
      LookedUpIsPending(s, step, id);
      UserRecordsAreForReset(steps, n, id);
    }
  }

  /** In these runs users have no two-factor records. */
  lemma {:induction false} UserRecordsAreForReset(steps: seq<Step>, n: nat, id: Id)
    requires n <= |steps| && forall i :: 0 <= i < n ==> OwnIssue(steps[i])
    requires id in At(steps, n).otps && At(steps, n).otps[id].userId != None
    ensures At(steps, n).otps[id].purpose == ResetPassword && At(steps, n).otps[id].adminId == None
  {
    AlwaysKeysIssued(steps, n - 1);
    var s, step := At(steps, n - 1), steps[n - 1];
    StepMoves(s, step, id);
    if id in s.otps {
      UserRecordsAreForReset(steps, n - 1, id);
    } else {
      NewUserRecord(s, step, id);
    }
  }

  lemma NewUserRecord(s: State, step: Step, id: Id)
    requires OwnIssue(step) && id !in s.otps && id in Next(s, step).otps
    ensures var o := Next(s, step).otps[id]; o.userId != None ==> o.purpose == ResetPassword && o.adminId == None
  {
  }

  /** It can happen: a text-message record accepted without the gateway's word. */
  lemma PlaceholderIsAccepted(userId: Id, id: Id, requestId: Option<string>)
    ensures var steps := [AccountStep(SetUserRow(userId, false)), UserResetSendStep(0, userId, id, requestId),
                          ResetVerifyStep(1, userId, SMS_PLACEHOLDER, Some(id))];
            Accepts(At(steps, 2), steps[2], id) && !Vouched(At(steps, 2).otps[id], steps[2])
  {
    var steps := [AccountStep(SetUserRow(userId, false)), UserResetSendStep(0, userId, id, requestId),
                  ResetVerifyStep(1, userId, SMS_PLACEHOLDER, Some(id))];
    var s0 := At(steps, 0);
    var s1 := At(steps, 1);
    assert s1 == Next(s0, steps[0]) == SetUser(s0, userId, false);
    var s2 := At(steps, 2);
    assert s2 == UserPasswordResetSend(s1, 0, userId, id, requestId).after;
    assert Hit(s2, OfUser(userId, ResetPassword), id);
  }
}
