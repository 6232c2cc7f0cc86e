/** The token service and the login, password, logout and profile requests that drive it. */
module TokenServices {
  import opened SequenceFacts
  import opened TokenModel

  class TokenService {
    var rows: map<Id, Row>
    ghost var issued: set<Id>
    var accounts: map<Owner, Account>

    constructor ()
      ensures View() == State(map[], {}, map[])
    {
      rows, issued, accounts := map[], {}, map[];
    }

    ghost function View(): State
      reads this
    {
      State(rows, issued, accounts)
    }

    method FindUnrevoked(token: Token) returns (pick: Option<Id>)
      ensures FindsUnrevoked(View(), token, pick)
    {
      var hits := set id | id in rows && rows[id].token == token && !rows[id].revoked;
      assert forall id :: Unrevoked(View(), token, id) <==> id in hits;
      if hits == {} {
        return None;
      }
      var id :| id in hits;
      return Some(id);
    }

    method FindAny(token: Token) returns (pick: Option<Id>)
      ensures FindsAny(View(), token, pick)
    {
      var hits := set id | id in rows && rows[id].token == token;
      assert forall id :: Bears(View(), token, id) <==> id in hits;
      if hits == {} {
        return None;
      }
      var id :| id in hits;
      return Some(id);
    }

    method GenerateRefreshToken(owner: Owner, now: int, id: Id) returns (token: Token)
      requires id !in issued && owner in accounts
      modifies this`rows, this`issued
      ensures token == SignedFor(owner, now)
      ensures View() == Generate(old(View()), owner, now, id)
    {
      token := Signed(owner.id, now / 1000);
      rows, issued := rows[id := Row(token, owner, now + REFRESH_TOKEN_TTL_DAYS * MS_PER_DAY, false, now)],
        issued + {id};
    }

    method RefreshAccessToken(token: Token, now: int) returns (answer: Answer)
      modifies this`rows
      ensures exists pick :: FindsUnrevoked(old(View()), token, pick) &&
                             Reply(View(), answer) == Refresh(old(View()), now, pick)
    {
      var found := FindUnrevoked(token);
      if found == None {
        return UnknownToken;
      }
      var row := rows[found.value];
      if now > row.expiresAt {
        rows := rows[found.value := row.(revoked := true)];
        return ExpiredToken;
      }
      if !(row.owner in accounts && !accounts[row.owner].deleted) {
        return NoOwner;
      }
      return Subject(row.owner);
    }

    method RevokeAllTokens(owner: Owner)
      modifies this`rows
      ensures View() == RevokeAll(old(View()), owner)
    {
      rows := map id | id in rows ::
        if rows[id].owner == owner && !rows[id].revoked then rows[id].(revoked := true) else rows[id];
    }

    method RevokeByToken(token: Token)
      modifies this`rows
      ensures exists pick :: FindsAny(old(View()), token, pick) && View() == RevokeToken(old(View()), pick)
    {
      var found := FindAny(token);
      if found != None {
        rows := rows[found.value := rows[found.value].(revoked := true)];
      }
    }

    /** Deletes nothing, or exactly the swept rows: the statement names columns the table may not have. */
    method CleanupExpiredRefreshTokens(now: int, resolves: bool)
      modifies this`rows
      ensures View() == Cleanup(old(View()), now, resolves)
    {
      if resolves {
        rows := map id | id in rows && !Swept(rows[id], now) :: rows[id];
      }
    }
  }

  /** What the user and admin authentication services do with tokens. */
  class AuthService {
    const tokens: TokenService

    constructor (tokens: TokenService)
      ensures this.tokens == tokens
    {
      this.tokens := tokens;
    }

    /** `allowed`: the password, code or provider check passed. */
    method Login(owner: Owner, now: int, id: Id, allowed: bool) returns (token: Option<Token>)
      requires id !in tokens.issued
      modifies tokens
      ensures tokens.View() == CompleteLogin(old(tokens.View()), owner, now, id, allowed)
      ensures token == if allowed && Found(old(tokens.View()), owner) then Some(SignedFor(owner, now)) else None
    {
      if !allowed || !(owner in tokens.accounts && !tokens.accounts[owner].deleted) {
        return None;
      }
      tokens.RevokeAllTokens(owner);
      var refreshToken := tokens.GenerateRefreshToken(owner, now, id);
      return Some(refreshToken);
    }

    /** `allowed`: the current password was right. */
    method ChangePassword(owner: Owner, password: string, allowed: bool) returns (changed: bool)
      modifies tokens
      ensures tokens.View() == SetPassword(old(tokens.View()), owner, OwnChange, password, allowed)
      ensures changed <==> PasswordAccepted(old(tokens.View()), owner, OwnChange, allowed)
    {
      if !(owner in tokens.accounts && !tokens.accounts[owner].deleted) || !allowed {
        return false;
      }
      tokens.accounts := tokens.accounts[owner := tokens.accounts[owner].(password := password)];
      tokens.RevokeAllTokens(owner);
      return true;
    }

    /** `allowed`: the reset token was verified. */
    method UserResetPassword(userId: Id, password: string, allowed: bool) returns (changed: bool)
      modifies tokens
      ensures tokens.View() == SetPassword(old(tokens.View()), User(userId), UserReset, password, allowed)
      ensures changed <==> PasswordAccepted(old(tokens.View()), User(userId), UserReset, allowed)
    {
      var owner := User(userId);
      if !allowed || !(owner in tokens.accounts && !tokens.accounts[owner].deleted) {
        return false;
      }
      tokens.accounts := tokens.accounts[owner := tokens.accounts[owner].(password := password)];
      tokens.RevokeAllTokens(owner);
      return true;
    }

    /** The reset for users and admins, which leaves all tokens as they are. */
    method ResetPassword(accountId: Id, password: string, allowed: bool) returns (changed: bool)
      modifies tokens`accounts
      ensures var s := old(tokens.View());
              && tokens.View() == SetPassword(s, ResetOwner(s, accountId), GeneralReset, password, allowed)
              && (changed <==> PasswordAccepted(s, ResetOwner(s, accountId), GeneralReset, allowed))
    {
      if !allowed {
        return false;
      }
      var owner := User(accountId);
      if !(owner in tokens.accounts && !tokens.accounts[owner].deleted) {
        owner := Admin(accountId);
        if !(owner in tokens.accounts && !tokens.accounts[owner].deleted) {
          return false;
        }
      }
      tokens.accounts := tokens.accounts[owner := tokens.accounts[owner].(password := password)];
      return true;
    }

    /** `allowed`: the user's number is verified and no password set yet, and the two passwords agree. */
    method SetUpPassword(userId: Id, password: string, allowed: bool) returns (done: bool)
      modifies tokens`accounts
      ensures tokens.View() == SetPassword(old(tokens.View()), User(userId), Registration, password, allowed)
      ensures done <==> PasswordAccepted(old(tokens.View()), User(userId), Registration, allowed)
    {
      var owner := User(userId);
      if !allowed || !(owner in tokens.accounts && !tokens.accounts[owner].deleted) {
        return false;
      }
      tokens.accounts := tokens.accounts[owner := tokens.accounts[owner].(password := password)];
      return true;
    }

    /** A profile update or an administrator's update; `password` is the one the body names, if it does. */
    method UpdateAccount(owner: Owner, route: Route, password: Option<string>) returns (found: bool)
      requires route == ProfileUpdate || route == Administration
      modifies tokens`accounts
      ensures found <==> Found(old(tokens.View()), owner)
      ensures tokens.View() == if password == None || password == Some("") then old(tokens.View())
                               else SetPassword(old(tokens.View()), owner, route, password.value, true)
    {
      if !(owner in tokens.accounts && !tokens.accounts[owner].deleted) {
        return false;
      }
      if password.Some? && password.value != "" {
        tokens.accounts := tokens.accounts[owner := tokens.accounts[owner].(password := password.value)];
      }
      return true;
    }

    method LogOut(token: Token, caller: Owner)
      modifies tokens
      ensures exists pick :: FindsAny(old(tokens.View()), token, pick) &&
                             tokens.View() == Logout(old(tokens.View()), caller, pick)
    {
      tokens.RevokeByToken(token);
      tokens.RevokeAllTokens(User(caller.id));
    }

    method RemoveProfile(userId: Id) returns (removed: bool)
      modifies tokens
      ensures tokens.View() == DeleteProfile(old(tokens.View()), userId)
      ensures removed <==> Found(old(tokens.View()), User(userId))
    {
      var owner := User(userId);
      if !(owner in tokens.accounts && !tokens.accounts[owner].deleted) {
        return false;
      }
      tokens.RevokeAllTokens(owner);
      tokens.accounts := tokens.accounts[owner := tokens.accounts[owner].(deleted := true)];
      return true;
    }
  }
}
