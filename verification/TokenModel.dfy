/** Refresh tokens: one row per issued token, and every request that inserts, revokes or reads one.
    A signed token names its subject and the second it was signed in, so two logins of one account
    within a second get the same token. Stored hashes are modelled by the tokens themselves. */
module TokenModel {
  import opened SequenceFacts

  type Id = string

  const MS_PER_DAY := 86_400_000
  const REFRESH_TOKEN_TTL_DAYS := 30
  const RETENTION_DAYS := 7

  datatype Owner = User(id: Id) | Admin(id: Id)

  /** A presented string is a token of ours or anything else. */
  datatype Token = Signed(sub: Id, second: int) | Foreign(text: string)

  datatype Row = Row(token: Token, owner: Owner, expiresAt: int, revoked: bool, createdAt: int)

  datatype Account = Account(deleted: bool, password: string)

  /** The requests that set the password of a stored account: the owner changing it, a user resetting it, the
      reset for either kind of account, a user's set-up during registration, a profile update, and an update by
      an administrator. */
  datatype Route = OwnChange | UserReset | GeneralReset | Registration | ProfileUpdate | Administration

  /** `issued` remembers every primary key ever handed out. */
  datatype State = State(rows: map<Id, Row>, issued: set<Id>, accounts: map<Owner, Account>)

  datatype Answer = Subject(owner: Owner) | UnknownToken | ExpiredToken | NoOwner

  function SignedFor(owner: Owner, now: int): Token {
    Signed(owner.id, now / 1000)
  }

  function NewRow(owner: Owner, now: int): Row {
    Row(SignedFor(owner, now), owner, now + REFRESH_TOKEN_TTL_DAYS * MS_PER_DAY, false, now)
  }

  predicate Found(s: State, owner: Owner) {
    owner in s.accounts && !s.accounts[owner].deleted
  }

  /** The primary key is fresh and the owner's row exists, soft-deleted or not. */
  function Generate(s: State, owner: Owner, now: int, id: Id): State {
    if id in s.issued || owner !in s.accounts then s
    else s.(rows := s.rows[id := NewRow(owner, now)], issued := s.issued + {id})
  }

  function RevokeAll(s: State, owner: Owner): State {
    s.(rows := map id | id in s.rows :: if s.rows[id].owner == owner then s.rows[id].(revoked := true) else s.rows[id])
  }

  function Revoke(s: State, id: Id): State
    requires id in s.rows
  {
    s.(rows := s.rows[id := s.rows[id].(revoked := true)])
  }

  // ---- lookups -----------------------------------------------------------------------------

  predicate Unrevoked(s: State, token: Token, id: Id) {
    id in s.rows && s.rows[id].token == token && !s.rows[id].revoked
  }

  ghost predicate FindsUnrevoked(s: State, token: Token, pick: Option<Id>) {
    match pick
    case None => forall id :: !Unrevoked(s, token, id)
    case Some(id) => Unrevoked(s, token, id)
  }

  predicate Bears(s: State, token: Token, id: Id) {
    id in s.rows && s.rows[id].token == token
  }

  /** `revokeToken` looks among revoked rows too. */
  ghost predicate FindsAny(s: State, token: Token, pick: Option<Id>) {
    match pick
    case None => forall id :: !Bears(s, token, id)
    case Some(id) => Bears(s, token, id)
  }

  // ---- requests ----------------------------------------------------------------------------

  datatype Reply = Reply(after: State, answer: Answer)

  /** A refresh issues an access token; the refresh token is neither replaced nor renewed. */
  function Refresh(s: State, now: int, pick: Option<Id>): Reply
    requires pick == None || pick.value in s.rows
  {
    if pick == None then Reply(s, UnknownToken)
    else
      var row := s.rows[pick.value];
      if now > row.expiresAt then Reply(Revoke(s, pick.value), ExpiredToken)
      else if !Found(s, row.owner) then Reply(s, NoOwner)
      else Reply(s, Subject(row.owner))
  }

  /** The last step of every login; `allowed` stands for the credential checks. */
  function CompleteLogin(s: State, owner: Owner, now: int, id: Id, allowed: bool): State {
    if allowed && Found(s, owner) then Generate(RevokeAll(s, owner), owner, now, id) else s
  }

  /** `allowed` stands for the check of the current password, the reset token, the registration stage or the
      caller. */
  predicate PasswordAccepted(s: State, owner: Owner, route: Route, allowed: bool) {
    allowed && Found(s, owner) && (route == UserReset || route == Registration ==> owner.User?)
  }

  function WithPassword(s: State, owner: Owner, password: string): State
    requires owner in s.accounts
  {
    s.(accounts := s.accounts[owner := s.accounts[owner].(password := password)])
  }

  function SetPassword(s: State, owner: Owner, route: Route, password: string, allowed: bool): State {
    if !PasswordAccepted(s, owner, route, allowed) then s
    else
      match route
      case OwnChange => RevokeAll(WithPassword(s, owner, password), owner)
      case UserReset => RevokeAll(WithPassword(s, owner, password), owner)
      case GeneralReset => WithPassword(s, owner, password)
      case Registration => WithPassword(s, owner, password)
      case ProfileUpdate => WithPassword(s, owner, password)
      case Administration => WithPassword(s, owner, password)
  }

  /** The general reset tries the id as a user's first, then as an admin's. */
  function ResetOwner(s: State, accountId: Id): Owner {
    if Found(s, User(accountId)) then User(accountId) else Admin(accountId)
  }

  function RevokeToken(s: State, pick: Option<Id>): State
    requires pick == None || pick.value in s.rows
  {
    if pick == None then s else Revoke(s, pick.value)
  }

  /** The caller's id is taken for a user's id, whoever the caller is. */
  function Logout(s: State, caller: Owner, pick: Option<Id>): State
    requires pick == None || pick.value in s.rows
  {
    RevokeAll(RevokeToken(s, pick), User(caller.id))
  }

  function SoftDelete(s: State, owner: Owner): State {
    if owner in s.accounts then s.(accounts := s.accounts[owner := s.accounts[owner].(deleted := true)]) else s
  }

  function DeleteProfile(s: State, userId: Id): State {
    if Found(s, User(userId)) then SoftDelete(RevokeAll(s, User(userId)), User(userId)) else s
  }

  function AddAccount(s: State, owner: Owner): State {
    if owner in s.accounts then s else s.(accounts := s.accounts[owner := Account(false, "")])
  }

  predicate Swept(row: Row, now: int) {
    row.createdAt < now - RETENTION_DAYS * MS_PER_DAY && (row.revoked || row.expiresAt < now)
  }

  /** `resolves`: the database knows the columns that the statement names; otherwise it fails. */
  function Cleanup(s: State, now: int, resolves: bool): State {
    if !resolves then s else s.(rows := map id | id in s.rows && !Swept(s.rows[id], now) :: s.rows[id])
  }
}
