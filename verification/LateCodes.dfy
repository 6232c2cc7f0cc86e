/** Verifications of one code split at their await: the pending record is looked up, and the judged copy is saved over
    it, with any other verifications in between. The counter counts comparisons, and the code is accepted once,
    exactly as long as a save finds the record as it was looked up. */
module LateCodes {
  import opened SequenceFacts
  import opened OtpModel
  import Runs

  /** `compared` and `accepted` count what happened; a waiting verification holds its copy of the record. */
  datatype LateState = LateState(otp: Otp, compared: nat, accepted: nat, waiting: map<nat, Otp>)

  /** `right` tells whether the presented code is the right one, `becomes` the status on acceptance. */
  datatype LateStep =
    | LookUp(handler: nat)
    | JudgeAndSave(handler: nat, now: int, right: bool, becomes: Status)

  function Saved(u: LateState, h: nat, now: int, right: bool, becomes: Status): LateState
    requires h in u.waiting
  {
    var (o, outcome) := Judge(u.waiting[h], now, right, becomes);
    LateState(o, u.compared + if outcome == WrongCode || outcome == Accepted then 1 else 0,
              u.accepted + if outcome == Accepted then 1 else 0, u.waiting - {h})
  }

  function LateNext(u: LateState, step: LateStep): LateState {
    match step
    case LookUp(h) =>
      if h in u.waiting || u.otp.status != Pending then u else u.(waiting := u.waiting[h := u.otp])
    case JudgeAndSave(h, now, right, becomes) =>
      if h !in u.waiting || becomes == Pending then u else Saved(u, h, now, right, becomes)
  }

  /** The judgement compares codes: the copy is in time and within its attempts. */
  predicate Compares(o: Otp, now: int) {
    now <= o.expiresAt && o.attempts < o.maxAttempts
  }

  /** The two parts in a row judge the record as the whole does. */
  lemma SplitVerificationIsWhole(u: LateState, h: nat, now: int, right: bool, becomes: Status)
    requires h !in u.waiting && u.otp.status == Pending && becomes != Pending
    ensures LateNext(LateNext(u, LookUp(h)), JudgeAndSave(h, now, right, becomes)).otp ==
            Judge(u.otp, now, right, becomes).0
  {
  }

  /** A save overwrites the record with the judged copy: late or over the limit it expires, otherwise the comparison is
      counted, and a right code is accepted. */
  lemma SaveDoes(u: LateState, h: nat, now: int, right: bool, becomes: Status)
    requires h in u.waiting && becomes != Pending
    ensures var v, o := LateNext(u, JudgeAndSave(h, now, right, becomes)), u.waiting[h];
            var late := o.expiresAt < now || o.maxAttempts <= o.attempts;
            && v.waiting == u.waiting - {h}
            && (late ==> v.otp == o.(status := Expired) && v.compared == u.compared && v.accepted == u.accepted)
            && (!late ==> v.compared == u.compared + 1 && v.accepted == u.accepted + (if right then 1 else 0))
            && (!late && right ==> v.otp == o.(attempts := o.attempts + 1, status := becomes))
            && (!late && !right ==> v.otp == o.(attempts := o.attempts + 1))
  {
  }

  // ---- the counter -------------------------------------------------------------------------

  /** The counter counts the comparisons, and they stay within the limit. */
  ghost predicate Counted(u: LateState) {
    u.otp.attempts == u.compared && (u.compared == 0 || u.compared <= u.otp.maxAttempts)
  }

  ghost predicate CountSound(u: LateState) {
    Counted(u) && forall h :: h in u.waiting ==> u.waiting[h].maxAttempts == u.otp.maxAttempts
  }

  /** A save finds the counter as it was looked up. */
  ghost predicate FindsCounter(u: LateState, step: LateStep) {
    step.JudgeAndSave? && step.handler in u.waiting && step.becomes != Pending ==>
      u.waiting[step.handler].attempts == u.otp.attempts
  }

  lemma CountStepIff(u: LateState, step: LateStep)
    requires CountSound(u)
    ensures Counted(LateNext(u, step)) <==> FindsCounter(u, step)
    ensures CountSound(LateNext(u, step)) <==> FindsCounter(u, step)
  {
  }

  /** The counter counts the comparisons throughout a run, which then stay within the limit, if and only if each save
      finds the counter as its verification looked it up. */
  lemma CounterCountsIff(u: LateState, steps: seq<LateStep>)
    requires CountSound(u)
    ensures Runs.Throughout(LateNext, Counted, u, steps) <==> Runs.AllHarmless(LateNext, FindsCounter, u, steps)
  {
    forall v, step | CountSound(v)
      ensures Counted(LateNext(v, step)) <==> FindsCounter(v, step)
      ensures Counted(LateNext(v, step)) ==> CountSound(LateNext(v, step))
    {
      CountStepIff(v, step);
    }
    Runs.ThroughoutIff(LateNext, CountSound, Counted, FindsCounter, u, steps);
  }

  // ---- one acceptance ----------------------------------------------------------------------

  /** The code is accepted at most once, and after that the record is not pending. */
  ghost predicate AcceptedOnce(u: LateState) {
    u.accepted <= 1 && (u.accepted == 1 ==> u.otp.status != Pending)
  }

  ghost predicate OnceSound(u: LateState) {
    AcceptedOnce(u) && forall h :: h in u.waiting ==> u.waiting[h].status == Pending
  }

  /** After an acceptance no verification that had looked the record up before compares its code. */
  ghost predicate ComesFirst(u: LateState, step: LateStep) {
    step.JudgeAndSave? && step.handler in u.waiting && step.becomes != Pending && u.accepted > 0 ==>
      !Compares(u.waiting[step.handler], step.now)
  }

  lemma OnceStepIff(u: LateState, step: LateStep)
    requires OnceSound(u)
    ensures AcceptedOnce(LateNext(u, step)) <==> ComesFirst(u, step)
    ensures OnceSound(LateNext(u, step)) <==> ComesFirst(u, step)
  {
  }

  /** The code is accepted at most once, and for good, throughout a run if and only if no verification that looked the
      record up before an acceptance compares its code after it. */
  lemma AcceptedOnceIff(u: LateState, steps: seq<LateStep>)
    requires OnceSound(u)
    ensures Runs.Throughout(LateNext, AcceptedOnce, u, steps) <==> Runs.AllHarmless(LateNext, ComesFirst, u, steps)
  {
    forall v, step | OnceSound(v)
      ensures AcceptedOnce(LateNext(v, step)) <==> ComesFirst(v, step)
      ensures AcceptedOnce(LateNext(v, step)) ==> OnceSound(LateNext(v, step))
    {
      OnceStepIff(v, step);
    }
    Runs.ThroughoutIff(LateNext, OnceSound, AcceptedOnce, ComesFirst, u, steps);
  }

  /** It happens for any pending record in time: two verifications that both look it up first are both accepted, and the
      counter says one. */
  lemma AcceptedTwice(otp: Otp, now: int)
    requires otp.status == Pending && Compares(otp, now) && otp.attempts == 0
    ensures var both := LateNext(LateNext(LateState(otp, 0, 0, map[]), LookUp(0)), LookUp(1));
            var u := LateNext(LateNext(both, JudgeAndSave(0, now, true, Verified)),
                              JudgeAndSave(1, now, true, Verified));
            u.accepted == 2 && u.compared == 2 && u.otp.attempts == 1
  {
  }

  /** And a wrong code that was looked up first makes an accepted record pending again. */
  lemma PendingAgain(otp: Otp, now: int)
    requires otp.status == Pending && Compares(otp, now)
    ensures var both := LateNext(LateNext(LateState(otp, 0, 0, map[]), LookUp(0)), LookUp(1));
            var u := LateNext(LateNext(both, JudgeAndSave(0, now, true, Verified)),
                              JudgeAndSave(1, now, false, Verified));
            u.accepted == 1 && u.otp.status == Pending
  {
  }
}
