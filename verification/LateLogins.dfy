/** Logins split at their await: the owner's tokens are revoked, and then a new one is stored, with any other steps in
    between. An account has one live token throughout exactly as long as each token that is stored finds no live one. */
module LateLogins {
  import opened SequenceFacts
  import opened TokenModel
  import TokenRuns
  import Runs

  /** The handlers of the accepted logins that have revoked the owner's tokens and not yet stored the new one. */
  datatype LateState = LateState(s: State, waiting: map<nat, Owner>)

  datatype LateStep =
    | Whole(step: TokenRuns.Step)
    | RevokeFirst(handler: nat, owner: Owner, allowed: bool)
    | StoreToken(handler: nat, now: int, id: Id)

  ghost function LateNext(u: LateState, step: LateStep): LateState {
    match step
    case Whole(whole) => u.(s := TokenRuns.Next(u.s, whole))
    case RevokeFirst(h, owner, allowed) =>
      if h in u.waiting || !allowed || !Found(u.s, owner) then u
      else LateState(RevokeAll(u.s, owner), u.waiting[h := owner])
    case StoreToken(h, now, id) =>
      if h !in u.waiting then u else LateState(Generate(u.s, u.waiting[h], now, id), u.waiting - {h})
  }

  lemma SplitLoginIsWhole(u: LateState, h: nat, owner: Owner, now: int, id: Id)
    requires h !in u.waiting && Found(u.s, owner)
    ensures LateNext(LateNext(u, RevokeFirst(h, owner, true)), StoreToken(h, now, id)) ==
            LateNext(u, Whole(TokenRuns.LoginStep(owner, now, id, true)))
  {
    assert u.waiting[h := owner] - {h} == u.waiting;
  }

  ghost predicate OneLive(u: LateState) {
    forall owner, i, j :: TokenRuns.Live(u.s, owner, i) && TokenRuns.Live(u.s, owner, j) ==> i == j
  }

  ghost predicate Sound(u: LateState) {
    OneLive(u) && TokenRuns.KeysIssued(u.s)
  }

  ghost predicate HasLive(s: State, owner: Owner) {
    exists id :: TokenRuns.Live(s, owner, id)
  }

  /** A token is stored only for an account without a live one. */
  ghost predicate HarmlessStep(u: LateState, step: LateStep) {
    step.StoreToken? && step.handler in u.waiting && step.id !in u.s.issued &&
      u.waiting[step.handler] in u.s.accounts ==>
      !HasLive(u.s, u.waiting[step.handler])
  }

  lemma StoreIff(s: State, owner: Owner, now: int, id: Id)
    requires Sound(LateState(s, map[])) && id !in s.issued && owner in s.accounts
    ensures OneLive(LateState(Generate(s, owner, now, id), map[])) <==> !HasLive(s, owner)
    ensures TokenRuns.KeysIssued(Generate(s, owner, now, id))
  {
    var t := Generate(s, owner, now, id);
    assert forall o, i :: TokenRuns.Live(t, o, i) <==> TokenRuns.Live(s, o, i) || (o == owner && i == id);
    if i :| TokenRuns.Live(s, owner, i) {
      assert TokenRuns.Live(t, owner, i) && TokenRuns.Live(t, owner, id);
    }
  }

  lemma WholeKeepsOneLive(s: State, step: TokenRuns.Step)
    requires Sound(LateState(s, map[]))
    ensures Sound(LateState(TokenRuns.Next(s, step), map[]))
  {
    var t := TokenRuns.Next(s, step);
    TokenRuns.StepMoves(s, step, "");
    forall owner, i, j | TokenRuns.Live(t, owner, i) && TokenRuns.Live(t, owner, j) ensures i == j {
      TokenRuns.StepLive(s, step, owner, i);
      TokenRuns.StepLive(s, step, owner, j);
    }
  }

  lemma StepIff(u: LateState, step: LateStep)
    requires Sound(u)
    ensures OneLive(LateNext(u, step)) <==> HarmlessStep(u, step)
    ensures OneLive(LateNext(u, step)) ==> Sound(LateNext(u, step))
  {
    assert Sound(LateState(u.s, map[]));
    match step {
      case Whole(whole) => WholeKeepsOneLive(u.s, whole);
      case RevokeFirst(h, owner, allowed) =>
        assert forall o, i :: TokenRuns.Live(RevokeAll(u.s, owner), o, i) ==> TokenRuns.Live(u.s, o, i);
      case StoreToken(h, now, id) =>
        if h in u.waiting && id !in u.s.issued && u.waiting[h] in u.s.accounts {
          StoreIff(u.s, u.waiting[h], now, id);
        }
    }
  }

  /** An account has at most one live token in every state of a run if and only if each token that a split login stores
      finds no live one of the account at that moment. */
  lemma OneLiveTokenIff(u: LateState, steps: seq<LateStep>)
    requires Sound(u)
    ensures Runs.Throughout((v, step) => LateNext(v, step), v => OneLive(v), u, steps) <==>
            Runs.AllHarmless((v, step) => LateNext(v, step), (v, step) => HarmlessStep(v, step), u, steps)
  {
    forall v, step | Sound(v)
      ensures OneLive(LateNext(v, step)) <==> HarmlessStep(v, step)
      ensures OneLive(LateNext(v, step)) ==> Sound(LateNext(v, step))
    {
      StepIff(v, step);
    }
    Runs.ThroughoutIff((v, step) => LateNext(v, step), v => Sound(v), v => OneLive(v),
                       (v, step) => HarmlessStep(v, step), u, steps);
  }

  /** It happens for any account: two logins, each of which revokes before either stores, leave two live tokens. */
  lemma TwoLoginsLeaveTwo(u: LateState, owner: Owner, now: int, i: Id, j: Id)
    requires u.waiting == map[] && Found(u.s, owner) && i !in u.s.issued && j !in u.s.issued && i != j
    ensures var both := LateNext(LateNext(u, RevokeFirst(0, owner, true)), RevokeFirst(1, owner, true));
            !OneLive(LateNext(LateNext(both, StoreToken(0, now, i)), StoreToken(1, now, j)))
  {
    var both := LateNext(LateNext(u, RevokeFirst(0, owner, true)), RevokeFirst(1, owner, true));
    var s := LateNext(LateNext(both, StoreToken(0, now, i)), StoreToken(1, now, j)).s;
    assert TokenRuns.Live(s, owner, i) && TokenRuns.Live(s, owner, j);
  }
}
