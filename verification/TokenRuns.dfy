/** Runs over the refresh-token table: one live token per account, no token comes back to life, and
    every successful refresh goes back to the account's latest login. */
module TokenRuns {
  import opened SequenceFacts
  import opened TokenModel

  datatype Step =
    | LoginStep(owner: Owner, now: int, id: Id, allowed: bool)
    | RefreshStep(token: Token, now: int, pick: Option<Id>)
    | PasswordStep(owner: Owner, route: Route, password: string, allowed: bool)
    | LogoutStep(caller: Owner, token: Token, pick: Option<Id>)
    | DeleteProfileStep(userId: Id)
    | AddAccountStep(owner: Owner)
    | RemoveAccountStep(owner: Owner)
    | CleanupStep(now: int, resolves: bool)

  /** A step whose `pick` is not an answer the database could give does nothing. */
  ghost function Next(s: State, step: Step): State {
    match step
    case LoginStep(owner, now, id, allowed) => CompleteLogin(s, owner, now, id, allowed)
    case RefreshStep(token, now, pick) => if FindsUnrevoked(s, token, pick) then Refresh(s, now, pick).after else s
    case PasswordStep(owner, route, password, allowed) => SetPassword(s, owner, route, password, allowed)
    case LogoutStep(caller, token, pick) => if FindsAny(s, token, pick) then Logout(s, caller, pick) else s
    case DeleteProfileStep(userId) => DeleteProfile(s, userId)
    case AddAccountStep(owner) => AddAccount(s, owner)
    case RemoveAccountStep(owner) => SoftDelete(s, owner)
    case CleanupStep(now, resolves) => Cleanup(s, now, resolves)
  }

  ghost function At(steps: seq<Step>, n: nat): State
    requires n <= |steps|
  {
    if n == 0 then State(map[], {}, map[]) else Next(At(steps, n - 1), steps[n - 1])
  }

  // ---- one row, one step -------------------------------------------------------------------

  ghost predicate Live(s: State, owner: Owner, id: Id) {
    id in s.rows && s.rows[id].owner == owner && !s.rows[id].revoked
  }

  ghost predicate KeysIssued(s: State) {
    s.rows.Keys <= s.issued
  }

  /** A successful login of `owner` that inserts row `id`. */
  ghost predicate LogsIn(s: State, step: Step, owner: Owner, id: Id) {
    step.LoginStep? && step.owner == owner && step.id == id && step.allowed && Found(s, owner) && id !in s.issued
  }

  predicate Revokes(route: Route) {
    route == OwnChange || route == UserReset
  }

  /** The step revokes all of the owner's tokens. */
  ghost predicate RevokesAll(s: State, step: Step, owner: Owner) {
    match step
    case LoginStep(o, _, _, allowed) => o == owner && allowed && Found(s, o)
    case PasswordStep(o, route, _, allowed) => o == owner && PasswordAccepted(s, o, route, allowed) && Revokes(route)
    case LogoutStep(caller, token, pick) => owner == User(caller.id) && FindsAny(s, token, pick)
    case DeleteProfileStep(userId) => owner == User(userId) && Found(s, owner)
    case _ => false
  }

  /** Rows keep everything but the revoked flag, which only goes up; only a login adds a row. */
  lemma StepMoves(s: State, step: Step, id: Id)
    requires KeysIssued(s)
    ensures KeysIssued(Next(s, step)) && s.issued <= Next(s, step).issued
    ensures var u := Next(s, step);
            && (id in s.rows && id in u.rows ==>
                  u.rows[id] == s.rows[id].(revoked := u.rows[id].revoked) &&
                    (s.rows[id].revoked ==> u.rows[id].revoked))
            && (id !in s.rows && id in u.rows ==>
                  LogsIn(s, step, u.rows[id].owner, id) && u.rows[id] == NewRow(u.rows[id].owner, step.now))
  {
  }

  /** A live row after a step was live before and not revoked with the owner's others, or is the one a
      login just made. */
  lemma StepLive(s: State, step: Step, owner: Owner, id: Id)
    requires KeysIssued(s) && Live(Next(s, step), owner, id)
    ensures LogsIn(s, step, owner, id) || (Live(s, owner, id) && !RevokesAll(s, step, owner))
  {
  }

  lemma {:induction false} AlwaysKeysIssued(steps: seq<Step>, n: nat)
    requires n <= |steps|
    ensures KeysIssued(At(steps, n))
  {
    if n > 0 {
      AlwaysKeysIssued(steps, n - 1);
      StepMoves(At(steps, n - 1), steps[n - 1], "");
    }
  }

  // ---- whole runs --------------------------------------------------------------------------

  /** In every reachable state an account has at most one unrevoked token. */
  lemma {:induction false} OneLiveToken(steps: seq<Step>, n: nat, owner: Owner, i: Id, j: Id)
    requires n <= |steps| && Live(At(steps, n), owner, i) && Live(At(steps, n), owner, j)
    ensures i == j
  {
    if n > 0 {
      AlwaysKeysIssued(steps, n - 1);
      StepLive(At(steps, n - 1), steps[n - 1], owner, i);
      StepLive(At(steps, n - 1), steps[n - 1], owner, j);
      if !LogsIn(At(steps, n - 1), steps[n - 1], owner, i) && !LogsIn(At(steps, n - 1), steps[n - 1], owner, j) {
        OneLiveToken(steps, n - 1, owner, i, j);
      }
    }
  }

  /** A revoked row stays revoked for as long as it exists, and a deleted key is not used again. */
  lemma {:induction false} RevokedForGood(steps: seq<Step>, k: nat, n: nat, id: Id)
    requires k <= n <= |steps| && id in At(steps, k).issued
    requires id in At(steps, k).rows ==> At(steps, k).rows[id].revoked
    ensures id in At(steps, n).issued && (id in At(steps, n).rows ==> At(steps, n).rows[id].revoked)
    decreases n
  {
    if k < n {
      RevokedForGood(steps, k, n - 1, id);
      AlwaysKeysIssued(steps, n - 1);
      StepMoves(At(steps, n - 1), steps[n - 1], id);
    }
  }

  /** Step `k` logged the owner in with row `id`, and none of the later steps before `n` revoked all of
      the owner's tokens. */
  ghost predicate SessionSince(steps: seq<Step>, k: nat, n: nat, owner: Owner, id: Id)
    requires k < n <= |steps|
  {
    LogsIn(At(steps, k), steps[k], owner, id) && forall i :: k < i < n ==> !RevokesAll(At(steps, i), steps[i], owner)
  }

  /** Every live token was issued by the owner's latest login and lives to thirty days after it. */
  lemma {:induction false} LiveSinceLogin(steps: seq<Step>, n: nat, owner: Owner, id: Id) returns (k: nat)
    requires n <= |steps| && Live(At(steps, n), owner, id)
    ensures k < n && SessionSince(steps, k, n, owner, id)
    ensures At(steps, n).rows[id] == NewRow(owner, steps[k].now)
  {
    AlwaysKeysIssued(steps, n - 1);
    var s, step := At(steps, n - 1), steps[n - 1];
    StepLive(s, step, owner, id);
    StepMoves(s, step, id);
    if LogsIn(s, step, owner, id) {
      k := n - 1;
    } else {
      k := LiveSinceLogin(steps, n - 1, owner, id);
    }
  }

  /** A refresh that succeeds names the subject of the presented token, an account that exists and
      whose latest login issued exactly this token no more than thirty days ago, with no request since that
      revokes the account's tokens: no other login, no logout of the user, no password change by the owner,
      no reset by the user and no deletion. A password set in any other way does not count. */
  lemma RefreshGoesBackToLogin(steps: seq<Step>, n: nat, token: Token, now: int, pick: Option<Id>) returns (k: nat)
    requires n <= |steps| && FindsUnrevoked(At(steps, n), token, pick)
    requires Refresh(At(steps, n), now, pick).answer.Subject?
    ensures var owner := Refresh(At(steps, n), now, pick).answer.owner;
            && token.Signed? && owner.id == token.sub && Found(At(steps, n), owner)
            && k < n && SessionSince(steps, k, n, owner, pick.value)
            && token == SignedFor(owner, steps[k].now)
            && now <= steps[k].now + REFRESH_TOKEN_TTL_DAYS * MS_PER_DAY
  {
    var owner := Refresh(At(steps, n), now, pick).answer.owner;
    k := LiveSinceLogin(steps, n, owner, pick.value);
  }

  /** After a request that revokes all of an account's tokens, a refresh for it succeeds only once the
      account has logged in again. */
  lemma NoRefreshUntilLogin(steps: seq<Step>, r: nat, n: nat, owner: Owner, token: Token, now: int, pick: Option<Id>)
      returns (k: nat)
    requires r < n <= |steps| && RevokesAll(At(steps, r), steps[r], owner)
    requires FindsUnrevoked(At(steps, n), token, pick)
    requires Refresh(At(steps, n), now, pick).answer == Subject(owner)
    ensures r <= k < n && LogsIn(At(steps, k), steps[k], owner, pick.value)
  {
    k := RefreshGoesBackToLogin(steps, n, token, now, pick);
  }

  /** An account whose id no other account has. */
  ghost predicate OnlyBearer(s: State, owner: Owner) {
    forall o: Owner :: o.id == owner.id && o in s.accounts ==> o == owner
  }

  /** Conversely: an unexpired live token of an existing account refreshes, whichever row is found. */
  lemma LiveTokenRefreshes(steps: seq<Step>, n: nat, owner: Owner, id: Id, now: int, pick: Option<Id>)
    requires n <= |steps| && Live(At(steps, n), owner, id) && Found(At(steps, n), owner)
    requires now <= At(steps, n).rows[id].expiresAt
    requires OnlyBearer(At(steps, n), owner)
    requires FindsUnrevoked(At(steps, n), At(steps, n).rows[id].token, pick)
    ensures Refresh(At(steps, n), now, pick) == Reply(At(steps, n), Subject(owner))
  {
    var s := At(steps, n);
    assert Unrevoked(s, s.rows[id].token, id);
    var other := s.rows[pick.value].owner;
    var k := LiveSinceLogin(steps, n, owner, id);
    var j := LiveSinceLogin(steps, n, other, pick.value);
    OwnersStay(steps, j, n, other);
    OneLiveToken(steps, n, owner, id, pick.value);
  }

  /** An accepted password change ends the account's session exactly when the owner changed it or a user
      reset it; every other way of setting a password leaves it alive. */
  lemma PasswordEndsSessionIff(s: State, owner: Owner, route: Route, password: string, id: Id)
    requires Live(s, owner, id) && PasswordAccepted(s, owner, route, true)
    ensures var u := SetPassword(s, owner, route, password, true);
            && u.accounts[owner].password == password
            && (!Live(u, owner, id) <==> route == OwnChange || route == UserReset)
  {
  }

  /** So after a reset that revokes nothing, the token from before it still refreshes. */
  lemma SessionOutlivesReset(steps: seq<Step>, n: nat, owner: Owner, id: Id, now: int, pick: Option<Id>)
    requires n < |steps| && Live(At(steps, n), owner, id) && Found(At(steps, n), owner)
    requires steps[n].PasswordStep? && !Revokes(steps[n].route)
    requires now <= At(steps, n).rows[id].expiresAt
    requires OnlyBearer(At(steps, n), owner)
    requires FindsUnrevoked(At(steps, n), At(steps, n).rows[id].token, pick)
    ensures At(steps, n + 1).rows == At(steps, n).rows
    ensures FindsUnrevoked(At(steps, n + 1), At(steps, n).rows[id].token, pick)
    ensures Refresh(At(steps, n + 1), now, pick).answer == Subject(owner)
  {
    var s, u := At(steps, n), At(steps, n + 1);
    assert u.rows == s.rows && u.accounts.Keys == s.accounts.Keys;
    assert forall i :: Unrevoked(u, s.rows[id].token, i) <==> Unrevoked(s, s.rows[id].token, i);
    LiveTokenRefreshes(steps, n + 1, owner, id, now, pick);
  }

  lemma RevokedTokenIsUnknown(steps: seq<Step>, n: nat, owner: Owner, id: Id, route: Route, password: string)
    requires n < |steps| && Live(At(steps, n), owner, id) && OnlyBearer(At(steps, n), owner)
    requires steps[n] == PasswordStep(owner, route, password, true)
    requires PasswordAccepted(At(steps, n), owner, route, true)
    requires Revokes(route)
    ensures FindsUnrevoked(At(steps, n + 1), At(steps, n).rows[id].token, None)
  {
    var s, u, token := At(steps, n), At(steps, n + 1), At(steps, n).rows[id].token;
    var k := LiveSinceLogin(steps, n, owner, id);
    forall i ensures !Unrevoked(u, token, i) {
      if Unrevoked(u, token, i) {
        AlwaysKeysIssued(steps, n);
        StepMoves(s, steps[n], i);
        StepLive(s, steps[n], u.rows[i].owner, i);
        var j := LiveSinceLogin(steps, n, s.rows[i].owner, i);
        OwnersStay(steps, j, n, s.rows[i].owner);
      }
    }
  }

  /** Whichever row the database finds for the token. */
  ghost predicate AlwaysRefreshes(s: State, token: Token, now: int, owner: Owner) {
    forall pick :: FindsUnrevoked(s, token, pick) ==> Refresh(s, now, pick).answer == Subject(owner)
  }

  /** In any run, the token from before an accepted password change still refreshes after it, whichever row the
      database finds, exactly when neither the owner changed the password nor a user reset it. */
  lemma TokenSurvivesPasswordIff(steps: seq<Step>, n: nat, owner: Owner, id: Id, now: int, route: Route,
                                 password: string)
    requires n < |steps| && Live(At(steps, n), owner, id) && OnlyBearer(At(steps, n), owner)
    requires steps[n] == PasswordStep(owner, route, password, true)
    requires PasswordAccepted(At(steps, n), owner, route, true)
    requires now <= At(steps, n).rows[id].expiresAt
    ensures AlwaysRefreshes(At(steps, n + 1), At(steps, n).rows[id].token, now, owner) <==>
            route != OwnChange && route != UserReset
  {
    var s, u, token := At(steps, n), At(steps, n + 1), At(steps, n).rows[id].token;
    if Revokes(route) {
      RevokedTokenIsUnknown(steps, n, owner, id, route, password);
    } else {
      assert u.rows == s.rows && u.accounts.Keys == s.accounts.Keys;
      forall pick | FindsUnrevoked(u, token, pick) ensures Refresh(u, now, pick).answer == Subject(owner) {
        LiveTokenRefreshes(steps, n + 1, owner, id, now, pick);
      }
    }
  }

  lemma {:induction false} OwnersStay(steps: seq<Step>, k: nat, n: nat, owner: Owner)
    requires k <= n <= |steps| && owner in At(steps, k).accounts
    ensures owner in At(steps, n).accounts
    decreases n
  {
    if k < n {
      OwnersStay(steps, k, n - 1, owner);
    }
  }

  // ---- logging out -------------------------------------------------------------------------

  /** A logout leaves the caller's token alive exactly when the caller is an admin and the row found
      for the token is another one that bears it. */
  lemma LogoutMissesIff(s: State, caller: Owner, pick: Option<Id>, id: Id)
    requires Live(s, caller, id) && FindsAny(s, s.rows[id].token, pick)
    ensures Live(Logout(s, caller, pick), caller, id) <==> caller.Admin? && pick != Some(id)
  {
  }

  /** Whichever row the database finds, the logout ends the caller's session exactly when the caller is a user
      or no other row bears the token. */
  lemma LogoutAlwaysEndsIff(s: State, caller: Owner, id: Id)
    requires Live(s, caller, id)
    ensures (forall pick :: FindsAny(s, s.rows[id].token, pick) ==> !Live(Logout(s, caller, pick), caller, id)) <==>
            caller.User? || forall other :: Bears(s, s.rows[id].token, other) ==> other == id
  {
    var token := s.rows[id].token;
    assert Bears(s, token, id);
    forall pick | FindsAny(s, token, pick)
      ensures Live(Logout(s, caller, pick), caller, id) <==> caller.Admin? && pick != Some(id)
    {
      LogoutMissesIff(s, caller, pick, id);
    }
    if other :| Bears(s, token, other) && other != id {
      assert FindsAny(s, token, Some(other));
    }
  }

  /** Two rows of one account bear the same token exactly when their logins fell in one second. */
  lemma {:induction false} SameTokenIffSameSecond(steps: seq<Step>, n: nat, i: Id, j: Id)
    requires n <= |steps| && i in At(steps, n).rows && j in At(steps, n).rows
    requires At(steps, n).rows[i].owner == At(steps, n).rows[j].owner
    ensures var a, b := At(steps, n).rows[i], At(steps, n).rows[j];
            a.token == b.token <==> a.createdAt / 1000 == b.createdAt / 1000
  {
    RowIsSigned(steps, n, i);
    RowIsSigned(steps, n, j);
  }

  lemma {:induction false} RowIsSigned(steps: seq<Step>, n: nat, id: Id)
    requires n <= |steps| && id in At(steps, n).rows
    ensures var row := At(steps, n).rows[id]; row.(revoked := false) == NewRow(row.owner, row.createdAt)
  {
    AlwaysKeysIssued(steps, n - 1);
    StepMoves(At(steps, n - 1), steps[n - 1], id);
    if id in At(steps, n - 1).rows {
      RowIsSigned(steps, n - 1, id);
    }
  }

  /** It can happen: an admin who logs in twice within a second can log out and still refresh. */
  lemma AdminLogoutCanMiss(a: Id, i: Id, j: Id)
    requires i != j
    ensures var admin := Admin(a);
            var token := SignedFor(admin, 0);
            var steps := [AddAccountStep(admin), LoginStep(admin, 0, i, true), LoginStep(admin, 500, j, true),
                          LogoutStep(admin, token, Some(i))];
            var s := At(steps, 4);
            FindsUnrevoked(s, token, Some(j)) && Refresh(s, 1000, Some(j)).answer == Subject(admin)
  {
    var admin := Admin(a);
    var token := SignedFor(admin, 0);
    var steps := [AddAccountStep(admin), LoginStep(admin, 0, i, true), LoginStep(admin, 500, j, true),
                  LogoutStep(admin, token, Some(i))];
    var s1 := At(steps, 1);
    assert s1 == Next(At(steps, 0), steps[0]);
    assert s1 == State(map[], {}, map[admin := Account(false, "")]);
    var s2 := At(steps, 2);
    assert s2.rows == map[i := NewRow(admin, 0)] && s2.issued == {i} && s2.accounts == s1.accounts;
    var s3 := At(steps, 3);
    assert s3.rows == map[i := NewRow(admin, 0).(revoked := true), j := NewRow(admin, 500)] &&
      s3.accounts == s1.accounts;
    assert Bears(s3, token, i);
    var s4 := At(steps, 4);
    assert s4 == Logout(s3, admin, Some(i));
    assert Unrevoked(s4, token, j);
  }
}
