/** What each request does to the refresh tokens and accounts, field by field, and how long a token lives. */
module TokenRequests {
  import opened SequenceFacts
  import opened TokenModel
  import opened TokenRuns

  ghost predicate Stored(s: State, owner: Owner) {
    owner in s.accounts && s.accounts[owner].deleted == false
  }

  /** Exactly the owner's rows are revoked, and nothing else of any row changes. */
  ghost predicate RevokesOwn(s: State, u: State, owner: Owner) {
    && u.rows.Keys == s.rows.Keys && u.issued == s.issued
    && forall id :: id in s.rows ==>
         && u.rows[id] == s.rows[id].(revoked := u.rows[id].revoked)
         && (u.rows[id].revoked <==> s.rows[id].revoked || s.rows[id].owner == owner)
  }

  /** Only this account changes, and only in its password. */
  ghost predicate SetsPassword(s: State, u: State, owner: Owner, password: string) {
    u.accounts.Keys == s.accounts.Keys && owner in s.accounts &&
    u.accounts[owner] == s.accounts[owner].(password := password) &&
    forall o :: o in s.accounts && o != owner ==> u.accounts[o] == s.accounts[o]
  }

  /** An allowed login of a stored account revokes the account's other tokens and stores one that is signed in this
      second and lives for thirty days; any other changes nothing. */
  lemma LoginDoes(s: State, owner: Owner, now: int, id: Id, allowed: bool)
    requires id !in s.issued && KeysIssued(s)
    ensures var u := CompleteLogin(s, owner, now, id, allowed);
            && (!allowed || !Stored(s, owner) ==> u == s)
            && (allowed && Stored(s, owner) ==>
                  && u.accounts == s.accounts && u.issued == s.issued + {id} && u.rows.Keys == s.rows.Keys + {id}
                  && u.rows[id] == Row(Signed(owner.id, now / 1000), owner, now + 2_592_000_000, false, now)
                  && RevokesOwn(s, State(u.rows - {id}, s.issued, u.accounts), owner))
  {
  }

  /** The row that a refresh may find: unrevoked, with this token. */
  ghost predicate Usable(s: State, token: Token, id: Id) {
    id in s.rows && s.rows[id].token == token && s.rows[id].revoked == false
  }

  /** A refresh that finds a row answers its owner if it has not expired and the account is stored; an expired one is
      revoked. A refresh that finds none is refused. */
  lemma RefreshDoes(s: State, token: Token, now: int, pick: Option<Id>)
    requires FindsUnrevoked(s, token, pick)
    ensures var r := Refresh(s, now, pick);
            && (pick == None <==> forall id :: !Usable(s, token, id))
            && (pick.Some? ==> Usable(s, token, pick.value))
            && (pick == None ==> r == Reply(s, UnknownToken))
            && (pick.Some? ==>
                  var row := s.rows[pick.value];
                  && (r.answer == ExpiredToken <==> row.expiresAt < now)
                  && (r.answer == NoOwner <==> now <= row.expiresAt && !Stored(s, row.owner))
                  && (r.answer == Subject(row.owner) <==> now <= row.expiresAt && Stored(s, row.owner))
                  && r.after == if now <= row.expiresAt then s
                                else s.(rows := s.rows[pick.value := row.(revoked := true)]))
  {
    assert forall id :: Unrevoked(s, token, id) <==> Usable(s, token, id);
  }

  /** A password is set exactly when the request is allowed and the account is stored, and of the right kind; the
      owner's change and a user's reset revoke the account's tokens, and no other route touches a token. */
  lemma PasswordDoes(s: State, owner: Owner, route: Route, password: string, allowed: bool)
    ensures var u := SetPassword(s, owner, route, password, allowed);
            var accepted := allowed && Stored(s, owner) &&
              (route == UserReset || route == Registration ==> owner.User?);
            && (!accepted ==> u == s)
            && (accepted ==>
                  && SetsPassword(s, u, owner, password)
                  && (if route == OwnChange || route == UserReset then RevokesOwn(s, u, owner)
                      else u.rows == s.rows && u.issued == s.issued))
  {
  }

  /** The general reset is of the user with this id if there is one, and otherwise of the admin. */
  lemma ResetIsOf(s: State, accountId: Id)
    ensures ResetOwner(s, accountId) == if Stored(s, User(accountId)) then User(accountId) else Admin(accountId)
  {
  }

  /** A logout revokes the row found for the token and all rows of the user with the caller's id, and nothing else. */
  lemma LogoutDoes(s: State, caller: Owner, token: Token, pick: Option<Id>)
    requires FindsAny(s, token, pick)
    ensures pick == None <==> forall id :: id in s.rows ==> s.rows[id].token != token
    ensures pick.Some? ==> pick.value in s.rows && s.rows[pick.value].token == token
    ensures var u := Logout(s, caller, pick);
            && u.accounts == s.accounts && u.issued == s.issued && u.rows.Keys == s.rows.Keys
            && forall id :: id in s.rows ==>
                 && u.rows[id] == s.rows[id].(revoked := u.rows[id].revoked)
                 && (u.rows[id].revoked <==>
                     s.rows[id].revoked || pick == Some(id) || s.rows[id].owner == User(caller.id))
  {
    if pick == None {
      forall id | id in s.rows ensures s.rows[id].token != token {
        assert !Bears(s, token, id);
      }
    }
  }

  /** Deleting a profile revokes the user's tokens and marks the account deleted; an unknown or deleted one is left. */
  lemma DeletionDoes(s: State, userId: Id)
    ensures var u, owner := DeleteProfile(s, userId), User(userId);
            && (!Stored(s, owner) ==> u == s)
            && (Stored(s, owner) ==>
                  && RevokesOwn(s, u, owner)
                  && u.accounts == s.accounts[owner := s.accounts[owner].(deleted := true)])
  {
  }

  /** The clean-up deletes nothing, or exactly the revoked and the expired rows that are more than seven days old. */
  lemma SweepDoes(s: State, now: int, resolves: bool)
    ensures var u := Cleanup(s, now, resolves);
            && u.accounts == s.accounts && u.issued == s.issued
            && (forall id :: id in u.rows ==> id in s.rows && u.rows[id] == s.rows[id])
            && (forall id :: id in s.rows ==> (id !in u.rows <==> resolves && OldAndDead(s.rows[id], now)))
  {
  }

  ghost predicate OldAndDead(row: Row, now: int) {
    row.createdAt + 604_800_000 < now && (row.revoked || row.expiresAt < now)
  }

  // ---- how long a token lives --------------------------------------------------------------

  /** In any run, the token of a login refreshes until thirty days after it, if the account is stored, no other account
      has its id, and nothing since has revoked its tokens. */
  lemma TokenLivesThirtyDays(steps: seq<Step>, k: nat, n: nat, owner: Owner, id: Id, now: int, pick: Option<Id>)
    requires k < n <= |steps| && LogsIn(At(steps, k), steps[k], owner, id) && Live(At(steps, n), owner, id)
    requires Stored(At(steps, n), owner) && OnlyBearer(At(steps, n), owner)
    requires FindsUnrevoked(At(steps, n), Signed(owner.id, steps[k].now / 1000), pick)
    requires now <= steps[k].now + 2_592_000_000
    ensures Refresh(At(steps, n), now, pick) == Reply(At(steps, n), Subject(owner))
  {
    IssuedRowStays(steps, k, n, owner, id);
    LiveTokenRefreshes(steps, n, owner, id, now, pick);
  }

  lemma {:induction false} IssuedRowStays(steps: seq<Step>, k: nat, n: nat, owner: Owner, id: Id)
    requires k < n <= |steps| && LogsIn(At(steps, k), steps[k], owner, id) && id in At(steps, n).rows
    ensures At(steps, n).rows[id].(revoked := false) ==
              Row(Signed(owner.id, steps[k].now / 1000), owner, steps[k].now + 2_592_000_000, false, steps[k].now)
    decreases n
  {
    AlwaysKeysIssued(steps, n - 1);
    if k + 1 == n {
      LoginDoes(At(steps, k), owner, steps[k].now, id, true);
    } else {
      IssuedForGood(steps, k + 1, n - 1, id);
      StepMoves(At(steps, n - 1), steps[n - 1], id);
      IssuedRowStays(steps, k, n - 1, owner, id);
    }
  }

  lemma {:induction false} IssuedForGood(steps: seq<Step>, k: nat, n: nat, id: Id)
    requires k <= n <= |steps| && id in At(steps, k).issued
    ensures id in At(steps, n).issued
    decreases n
  {
    if k < n {
      IssuedForGood(steps, k, n - 1, id);
      AlwaysKeysIssued(steps, n - 1);
      StepMoves(At(steps, n - 1), steps[n - 1], id);
    }
  }

  /** And no longer: a refresh that names an account is of a token that its login issued at most thirty days before. */
  lemma RefreshWithinThirtyDays(steps: seq<Step>, n: nat, token: Token, now: int, pick: Option<Id>) returns (k: nat)
    requires n <= |steps| && FindsUnrevoked(At(steps, n), token, pick)
    requires Refresh(At(steps, n), now, pick).answer.Subject?
    ensures var owner := Refresh(At(steps, n), now, pick).answer.owner;
            && k < n && LogsIn(At(steps, k), steps[k], owner, pick.value) && Stored(At(steps, n), owner)
            && token == Signed(owner.id, steps[k].now / 1000) && now <= steps[k].now + 2_592_000_000
  {
    k := RefreshGoesBackToLogin(steps, n, token, now, pick);
  }

  /** After a deletion nothing refreshes for the account. */
  lemma NoRefreshAfterDeletion(s: State, userId: Id, token: Token, now: int, pick: Option<Id>)
    requires FindsUnrevoked(DeleteProfile(s, userId), token, pick)
    ensures Refresh(DeleteProfile(s, userId), now, pick).answer != Subject(User(userId))
  {
  }

  /** Accounts are added once, without a password, and removed by a mark; tokens stay as they are. */
  lemma AccountStepsDo(s: State, owner: Owner)
    ensures var u := Next(s, AddAccountStep(owner));
            && u.rows == s.rows && u.issued == s.issued
            && u.accounts == if owner in s.accounts then s.accounts else s.accounts[owner := Account(false, "")]
    ensures var u := Next(s, RemoveAccountStep(owner));
            && u.rows == s.rows && u.issued == s.issued
            && (owner !in s.accounts ==> u == s)
            && (owner in s.accounts ==> u.accounts == s.accounts[owner := s.accounts[owner].(deleted := true)])
  {
  }
}
