/** The two-factor flag of an admin and the admin's verified two-factor records say the same in every
    run of the repository's services; for calls of `OtpService` from elsewhere the exact condition. */
module TwoFactorFlag {
  import opened SequenceFacts
  import opened OtpModel
  import opened OtpRuns

  ghost predicate FlagAgrees(s: State) {
    forall a :: a in s.admins ==> (s.admins[a].twoFactor <==> HasVerified(s, a))
  }

  ghost predicate OwnersKnown(s: State) {
    forall id :: id in s.otps && s.otps[id].adminId != None ==> s.otps[id].adminId.value in s.admins
  }

  /** The admin's verified two-factor records are the same. */
  ghost predicate SameVerified(s: State, u: State, a: Id) {
    forall id :: (id in s.otps && VerifiedFor(s.otps[id], a)) <==> (id in u.otps && VerifiedFor(u.otps[id], a))
  }

  lemma HasVerifiedSame(s: State, u: State, a: Id)
    requires SameVerified(s, u, a)
    ensures HasVerified(s, a) <==> HasVerified(u, a)
  {
  }

  /** A step that changes neither the verified records nor the flag keeps the agreement. */
  lemma UntouchedFlags(s: State, u: State)
    requires FlagAgrees(s) && OwnersKnown(s) && forall a :: SameVerified(s, u, a)
    requires forall a :: a in s.admins ==> a in u.admins && u.admins[a].twoFactor == s.admins[a].twoFactor
    requires forall a :: a in u.admins && a !in s.admins ==> !u.admins[a].twoFactor
    ensures FlagAgrees(u)
  {
    forall a | a in u.admins ensures u.admins[a].twoFactor <==> HasVerified(u, a) {
      HasVerifiedSame(s, u, a);
    }
  }

  /** Enabling: exactly this admin gains a verified record and the flag. */
  lemma VerifySetsFlag(s: State, now: int, adminId: Id, code: string, pick: Option<Id>)
    requires FlagAgrees(s) && OwnersKnown(s) && FindsNewest(s, OfAdmin(adminId, TwoFactor), pick)
    requires VerifyTwoFactor(s, now, adminId, code, pick).outcome == Accepted
    ensures FlagAgrees(VerifyTwoFactor(s, now, adminId, code, pick).after)
  {
    var u := VerifyTwoFactor(s, now, adminId, code, pick).after;
    assert VerifiedFor(u.otps[pick.value], adminId);
    forall a | a in u.admins && a != adminId ensures u.admins[a].twoFactor <==> HasVerified(u, a) {
      assert SameVerified(s, u, a);
      HasVerifiedSame(s, u, a);
    }
  }

  /** Disabling: exactly this admin loses its verified records and the flag. */
  lemma DisableClearsFlag(s: State, adminId: Id, passwordOk: bool)
    requires FlagAgrees(s)
    ensures FlagAgrees(DisableTwoFactor(s, adminId, passwordOk).after)
  {
    var u := DisableTwoFactor(s, adminId, passwordOk).after;
    forall a | a in u.admins && a != adminId ensures u.admins[a].twoFactor <==> HasVerified(u, a) {
      assert SameVerified(s, u, a);
      HasVerifiedSame(s, u, a);
    }
  }

  lemma IssuingSpares(s: State, step: Step, a: Id)
    requires KeysIssued(s) && (step.EnableStep? || step.SendStep? || step.ResetSendStep? || step.UserResetSendStep?)
    ensures SameVerified(s, Next(s, step), a)
  {
  }

  lemma CheckSpares(s: State, step: Step, a: Id)
    requires step.LoginStep? || step.ResetVerifyStep? || (step.VerifyStep? && ReplyTo(s, step).outcome != Accepted)
    ensures SameVerified(s, Next(s, step), a)
  {
  }

  lemma GatewayCheckSpares(s: State, step: Step, a: Id)
    requires step.UserResetVerifyStep?
    ensures SameVerified(s, Next(s, step), a)
  {
  }

  lemma StepSpares(s: State, step: Step, a: Id)
    requires KeysIssued(s) && !step.LibraryStep? && !step.DisableStep?
    requires step.VerifyStep? ==> ReplyTo(s, step).outcome != Accepted
    ensures SameVerified(s, Next(s, step), a)
  {
    match step {
      case CleanupStep(_) =>
      case AccountStep(_) =>
      case VerifyStep(_, _, _, _) => CheckSpares(s, step, a);
      case LoginStep(_, _, _, _) => CheckSpares(s, step, a);
      case ResetVerifyStep(_, _, _, _) => CheckSpares(s, step, a);
      case UserResetVerifyStep(_, _, _, _, _) => GatewayCheckSpares(s, step, a);
      case _ => IssuingSpares(s, step, a);
    }
  }

  lemma StepKeepsFlags(s: State, step: Step)
    requires Agreed(s) && !step.LibraryStep?
    ensures FlagAgrees(Next(s, step))
  {
    if step.DisableStep? {
      DisableClearsFlag(s, step.adminId, step.passwordOk);
    } else if step.VerifyStep? && ReplyTo(s, step).outcome == Accepted {
      VerifySetsFlag(s, step.now, step.adminId, step.code, step.pick);
    } else {
      forall a ensures SameVerified(s, Next(s, step), a) {
        StepSpares(s, step, a);
      }
      UntouchedFlags(s, Next(s, step));
    }
  }

  /** Admin rows stay. */
  lemma AdminsStay(s: State, step: Step)
    ensures s.admins.Keys <= Next(s, step).admins.Keys
  {
  }

  /** A new record's owner is known; an old record keeps its owner. */
  lemma StepKeepsOwners(s: State, step: Step)
    requires OwnersKnown(s) && KeysIssued(s)
    ensures OwnersKnown(Next(s, step))
  {
    AdminsStay(s, step);
    var u := Next(s, step);
    forall id | id in u.otps && u.otps[id].adminId != None ensures u.otps[id].adminId.value in u.admins {
      if id in s.otps {
        StepMoves(s, step, id);
      } else {
        NewRecordsKnown(s, step, id);
      }
    }
  }

  lemma NewRecordsKnown(s: State, step: Step, id: Id)
    requires id !in s.otps && id in Next(s, step).otps
    ensures var o, u := Next(s, step).otps[id], Next(s, step); o.adminId != None ==> o.adminId.value in u.admins
  {
  }

  ghost predicate Agreed(s: State) {
    FlagAgrees(s) && OwnersKnown(s) && KeysIssued(s)
  }

  // ---- calls of the library ----------------------------------------------------------------

  /** What a caller of `OtpService` has to respect: no two-factor record is verified for an admin whose
      flag is off, and no admin whose flag is on loses the last verified one. */
  ghost predicate LibraryHarmless(s: State, call: LibraryCall) {
    match call
    case CreateCall(_, _, _, _, _, _, _) => true
    case VerifyCall(_, _, _, pick) =>
      pick != None && Accepts(s, LibraryStep(call), pick.value) && s.otps[pick.value].purpose == TwoFactor &&
      s.otps[pick.value].adminId != None && s.otps[pick.value].adminId.value in s.admins ==>
        s.admins[s.otps[pick.value].adminId.value].twoFactor
    case MarkUsedCall(id) =>
      forall a :: a in s.admins && id in s.otps && VerifiedFor(s.otps[id], a) ==>
        exists other :: other in s.otps && other != id && VerifiedFor(s.otps[other], a)
    case ExpireAllCall(f, status) =>
      forall a :: a in s.admins && HasVerified(s, a) ==>
        exists id :: id in s.otps && VerifiedFor(s.otps[id], a) && !Selected(s.otps[id], f, status)
  }

  /** With the flags unchanged, agreement is kept exactly when every admin keeps or lacks verified records. */
  lemma AgreesIffSame(s: State, u: State)
    requires FlagAgrees(s) && u.admins == s.admins
    ensures FlagAgrees(u) <==> forall a :: a in s.admins ==> (HasVerified(u, a) <==> HasVerified(s, a))
  {
  }

  lemma VerifyCallKeepsIff(s: State, now: int, f: Filter, code: string, pick: Option<Id>)
    requires Agreed(s)
    ensures var call := VerifyCall(now, f, code, pick);
            FlagAgrees(LibraryReply(s, call).after) <==> LibraryHarmless(s, call)
  {
    var call := VerifyCall(now, f, code, pick);
    var u := LibraryReply(s, call).after;
    AgreesIffSame(s, u);
    if pick != None && Accepts(s, LibraryStep(call), pick.value) {
      var o, p := s.otps[pick.value], u.otps[pick.value];
      forall a | a in s.admins
        ensures HasVerified(u, a) <==> HasVerified(s, a) || (o.purpose == TwoFactor && o.adminId == Some(a))
      {
        OneMoreVerified(s, u, pick.value, a);
      }
    } else {
      forall a ensures HasVerified(u, a) <==> HasVerified(s, a) {
        assert SameVerified(s, u, a);
        HasVerifiedSame(s, u, a);
      }
    }
  }

  lemma OneMoreVerified(s: State, u: State, id: Id, a: Id)
    requires id in s.otps && s.otps[id].status == Pending
    requires exists p :: u.otps == s.otps[id := p] && p.status == Verified && p.purpose == s.otps[id].purpose &&
                         p.adminId == s.otps[id].adminId
    ensures HasVerified(u, a) <==>
              HasVerified(s, a) || (s.otps[id].purpose == TwoFactor && s.otps[id].adminId == Some(a))
  {
    if HasVerified(s, a) {
      var other :| other in s.otps && VerifiedFor(s.otps[other], a);
      assert other in u.otps && VerifiedFor(u.otps[other], a);
    }
    if s.otps[id].purpose == TwoFactor && s.otps[id].adminId == Some(a) {
      assert VerifiedFor(u.otps[id], a);
    }
  }

  lemma MarkUsedKeepsIff(s: State, id: Id)
    requires Agreed(s)
    ensures FlagAgrees(MarkUsed(s, id)) <==> LibraryHarmless(s, MarkUsedCall(id))
  {
    var u := MarkUsed(s, id);
    AgreesIffSame(s, u);
    forall a | a in s.admins
      ensures HasVerified(u, a) <==> exists other :: other in s.otps && other != id && VerifiedFor(s.otps[other], a)
    {
      if HasVerified(u, a) {
        var other :| other in u.otps && VerifiedFor(u.otps[other], a);
        assert other in s.otps && other != id && VerifiedFor(s.otps[other], a);
      }
      if other :| other in s.otps && other != id && VerifiedFor(s.otps[other], a) {
        assert other in u.otps && VerifiedFor(u.otps[other], a);
      }
    }
  }

  lemma ExpireAllKeepsIff(s: State, f: Filter, status: Status)
    requires Agreed(s)
    ensures FlagAgrees(ExpireAll(s, f, status)) <==> LibraryHarmless(s, ExpireAllCall(f, status))
  {
    var u := ExpireAll(s, f, status);
    AgreesIffSame(s, u);
    forall a | a in s.admins
      ensures HasVerified(u, a) <==>
                exists id :: id in s.otps && VerifiedFor(s.otps[id], a) && !Selected(s.otps[id], f, status)
    {
      if HasVerified(u, a) {
        var id :| id in u.otps && VerifiedFor(u.otps[id], a);
        assert id in s.otps && VerifiedFor(s.otps[id], a) && !Selected(s.otps[id], f, status);
      }
      if id :| id in s.otps && VerifiedFor(s.otps[id], a) && !Selected(s.otps[id], f, status) {
        assert id in u.otps && VerifiedFor(u.otps[id], a);
      }
    }
  }

  lemma CreateCallKeeps(s: State, call: LibraryCall)
    requires Agreed(s) && call.CreateCall?
    ensures FlagAgrees(LibraryReply(s, call).after)
  {
    var u := LibraryReply(s, call).after;
    AgreesIffSame(s, u);
    forall a ensures HasVerified(u, a) <==> HasVerified(s, a) {
      assert SameVerified(s, u, a);
      HasVerifiedSame(s, u, a);
    }
  }

  /** A library call keeps the agreement exactly when it is harmless. */
  lemma LibraryKeepsFlagsIff(s: State, call: LibraryCall)
    requires Agreed(s)
    ensures FlagAgrees(Next(s, LibraryStep(call))) <==> LibraryHarmless(s, call)
  {
    match call {
      case CreateCall(_, _, _, _, _, _, _) => CreateCallKeeps(s, call);
      case VerifyCall(now, f, code, pick) => VerifyCallKeepsIff(s, now, f, code, pick);
      case MarkUsedCall(id) => MarkUsedKeepsIff(s, id);
      case ExpireAllCall(f, status) => ExpireAllKeepsIff(s, f, status);
    }
  }

  // ---- whole runs --------------------------------------------------------------------------

  ghost predicate Harmless(s: State, step: Step) {
    step.LibraryStep? ==> LibraryHarmless(s, step.call)
  }

  lemma StepKeepsAgreedIff(s: State, step: Step)
    requires Agreed(s)
    ensures FlagAgrees(Next(s, step)) <==> Harmless(s, step)
    ensures OwnersKnown(Next(s, step)) && KeysIssued(Next(s, step))
  {
    if step.LibraryStep? {
      LibraryKeepsFlagsIff(s, step.call);
    } else {
      StepKeepsFlags(s, step);
    }
    StepKeepsOwners(s, step);
    StepKeepsKeys(s, step);
  }

  ghost predicate AgreesAt(steps: seq<Step>, i: nat)
    requires i <= |steps|
  {
    FlagAgrees(At(steps, i))
  }

  ghost predicate HarmlessAt(steps: seq<Step>, i: nat)
    requires i < |steps|
  {
    Harmless(At(steps, i), steps[i])
  }

  lemma AgreedStart(steps: seq<Step>)
    ensures AgreesAt(steps, 0) && Agreed(At(steps, 0))
  {
  }

  lemma AgreedNext(steps: seq<Step>, n: nat)
    requires n < |steps| && Agreed(At(steps, n))
    ensures AgreesAt(steps, n + 1) <==> HarmlessAt(steps, n)
    ensures HarmlessAt(steps, n) ==> Agreed(At(steps, n + 1))
  {
    StepKeepsAgreedIff(At(steps, n), steps[n]);
  }

  /** In every state of every run an admin's flag is on exactly when the admin has a VERIFIED two-factor
      record, if and only if every library call on the way is harmless. */
  lemma {:induction false} FlagAlwaysAgreesIff(steps: seq<Step>, n: nat)
    requires n <= |steps|
    ensures (forall i :: 0 <= i <= n ==> AgreesAt(steps, i)) <==> (forall i :: 0 <= i < n ==> HarmlessAt(steps, i))
    ensures (forall i :: 0 <= i < n ==> HarmlessAt(steps, i)) ==> Agreed(At(steps, n))
  {
    AgreedStart(steps);
    if n > 0 {
      FlagAlwaysAgreesIff(steps, n - 1);
      if forall i :: 0 <= i < n - 1 ==> HarmlessAt(steps, i) {
        AgreedNext(steps, n - 1);
      }
    }
  }

  /** The repository's own services call none of them, so for their runs it holds without condition. */
  lemma FlagAlwaysAgrees(steps: seq<Step>, n: nat)
    requires n <= |steps| && forall i :: 0 <= i < n ==> !steps[i].LibraryStep?
    ensures FlagAgrees(At(steps, n))
  {
    assert forall i :: 0 <= i < n ==> HarmlessAt(steps, i);
    FlagAlwaysAgreesIff(steps, n);
  }

  /** While an admin's flag is on, a login code is refused for every existing admin, and conversely. */
  lemma CodeRefusedIffEnabled(steps: seq<Step>, n: nat, now: int, adminId: Id, id: Id, code: string)
    requires n <= |steps| && AdminFound(At(steps, n), adminId)
    requires forall i :: 0 <= i < n ==> HarmlessAt(steps, i)
    ensures SendVerificationCode(At(steps, n), now, adminId, id, code).outcome == AlreadySent
            <==> At(steps, n).admins[adminId].twoFactor
  {
    FlagAlwaysAgreesIff(steps, n);
  }

  /** A harmful call, which no service of the repository makes: `OtpService.verify` on a two-factor record
      leaves the flag off. */
  lemma LibraryVerifyBreaksAgreement(adminId: Id, id: Id, email: string, code: string)
    ensures var f := OfAdmin(adminId, TwoFactor);
            var steps := [AccountStep(AddAdminRow(adminId, email)), EnableStep(0, adminId, email, id, code),
                          LibraryStep(VerifyCall(1, f, code, Some(id)))];
            var s := At(steps, 3);
            adminId in s.admins && HasVerified(s, adminId) && !s.admins[adminId].twoFactor
  {
    var f := OfAdmin(adminId, TwoFactor);
    var steps := [AccountStep(AddAdminRow(adminId, email)), EnableStep(0, adminId, email, id, code),
                  LibraryStep(VerifyCall(1, f, code, Some(id)))];
    var s0 := At(steps, 0);
    var s1 := At(steps, 1);
    assert s1 == Next(s0, steps[0]) == AddAdmin(s0, adminId, email);
    assert s1 == State(map[], {}, map[adminId := Admin(email, false, false)], map[]);
    var s2 := At(steps, 2);
    assert s2.otps == map[id := NewOtp(f, code, None, 0, OTP_TTL_MINUTES, DEFAULT_ATTEMPTS)] && s2.admins == s1.admins;
    assert FindsNewest(s2, f, Some(id)) by {
      assert Hit(s2, f, id);
    }
    var s3 := At(steps, 3);
    assert VerifiedFor(s3.otps[id], adminId);
  }
}
