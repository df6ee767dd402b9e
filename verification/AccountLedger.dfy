/**
  Users, their external identities, and link invites, with the atomic steps that change them.

  `Apply` gives the effect of one SQL statement or one committed transaction. `archive` remembers
  every invite ever inserted; no statement reads it. E-mail addresses are normalised, so equality
  is the unique index.
*/
module AccountLedger {
  import opened Common

  type Email(==, !new)
  type PublicId(==, !new)
  type Issuer(==, !new)
  type Subject(==, !new)
  type ServiceId(==, !new)

  const INVITE_TTL := 24 * 60 * 60
  const INVITE_WINDOW := 60 * 60
  const INVITE_MAX := 5
  const INVITE_RETENTION := 7 * 24 * 60 * 60

  datatype User = User(
    publicId: PublicId, email: Email, created: int, emailChanged: Option<int>, active: bool, adminBound: Option<int>)

  /** The provider's stable key for a person. */
  datatype External = External(issuer: Issuer, subject: Subject)

  datatype Identity = Identity(user: int, key: External, adminOk: bool)

  datatype Invite = Invite(
    user: int, provider: int, service: ServiceId, email: Email, created: int, expires: int, usedAt: Option<int>)

  type Users = map<int, User>
  type Identities = map<int, Identity>
  type Invites = map<int, Invite>

  datatype Accounts = Accounts(
    users: Users, identities: Identities, invites: Invites, now: int, nextInvite: int, archive: Invites)

  function Empty(now: int): Accounts {
    Accounts(map[], map[], map[], now, 1, map[])
  }

  datatype Step =
    | Tick(seconds: nat)
    | CreateUser(userId: int, publicId: PublicId, email: Email)
    | ChangeEmail(userId: int, email: Email)
    | Deactivate(userId: int)
    | Link(rowId: int, userId: int, key: External)
    | LinkIfFirst(rowId: int, userId: int, key: External)
    | Register(userId: int, publicId: PublicId, email: Email, rowId: int, key: External)
    | Unlink(rowId: int, userId: int)
    | BindAdmin(userId: int, rowId: int)
    | SendInvite(userId: int, provider: int, service: ServiceId, email: Email)
    | RevokeInvite(inviteId: int, userId: int)
    | FinishLink(inviteId: int, provider: int, service: ServiceId, rowId: int, key: External)
    | CleanInvites

  // ---- what the statements look for ----------------------------------------------------------

  predicate EmailFree(users: Users, email: Email) {
    forall u :: u in users ==> users[u].email != email
  }

  /** No unique index of the users table is violated by the new row. */
  predicate UserFits(users: Users, userId: int, publicId: PublicId, email: Email) {
    userId !in users && EmailFree(users, email) && forall u :: u in users ==> users[u].publicId != publicId
  }

  predicate Owned(identities: Identities, key: External) {
    exists i :: i in identities && identities[i].key == key
  }

  predicate Owns(identities: Identities, user: int, key: External) {
    exists i :: i in identities && identities[i].user == user && identities[i].key == key
  }

  predicate HasIdentity(identities: Identities, user: int) {
    exists i :: i in identities && identities[i].user == user
  }

  /** InsertIdentity reports a row. */
  predicate LinkInserts(a: Accounts, rowId: int, user: int, key: External) {
    user in a.users && rowId !in a.identities && !Owned(a.identities, key)
  }

  predicate LinkIfFirstInserts(a: Accounts, rowId: int, user: int, key: External) {
    LinkInserts(a, rowId, user, key) && !HasIdentity(a.identities, user)
  }

  predicate Registers(a: Accounts, userId: int, publicId: PublicId, email: Email, rowId: int, key: External) {
    UserFits(a.users, userId, publicId, email) && rowId !in a.identities && !Owned(a.identities, key)
  }

  predicate Binds(a: Accounts, user: int, rowId: int) {
    && user in a.users && a.users[user].adminBound.None?
    && rowId in a.identities && a.identities[rowId].user == user
  }

  /** The invites the quota counts: this user's, created after the window start. */
  function Counted(invites: Invites, user: int, after: int): set<int> {
    set i | i in invites && invites[i].user == user && invites[i].created > after
  }

  predicate QuotaOpen(a: Accounts, user: int) {
    |Counted(a.invites, user, a.now - INVITE_WINDOW)| < INVITE_MAX
  }

  /** The WHERE clause of ConsumeLinkInvite. */
  predicate InviteValid(a: Accounts, id: int, provider: int, service: ServiceId) {
    && id in a.invites && a.invites[id].provider == provider && a.invites[id].service == service
    && a.invites[id].usedAt.None? && a.invites[id].expires > a.now
  }

  /** The invite's user is active and still has the address the invite was made for. */
  predicate InviteeFits(a: Accounts, id: int)
    requires id in a.invites
  {
    var inv := a.invites[id];
    inv.user in a.users && a.users[inv.user].active && a.users[inv.user].email == inv.email
  }

  predicate LinkFinishes(a: Accounts, id: int, provider: int, service: ServiceId, rowId: int, key: External) {
    && InviteValid(a, id, provider, service) && InviteeFits(a, id)
    && (Owns(a.identities, a.invites[id].user, key) || (!Owned(a.identities, key) && rowId !in a.identities))
  }

  // ---- effects -----------------------------------------------------------------------------------

  function Burn(invites: Invites, user: int, provider: Option<int>, now: int): Invites {
    map i | i in invites ::
      if invites[i].user == user && (provider.None? || invites[i].provider == provider.value) && invites[i].usedAt.None?
      then invites[i].(usedAt := Some(now)) else invites[i]
  }

  function UseInvite(invites: Invites, id: int, now: int): Invites
    requires id in invites
  {
    invites[id := invites[id].(usedAt := Some(now))]
  }

  function NewUser(publicId: PublicId, email: Email, now: int): User {
    User(publicId, email, now, None, true, None)
  }

  function WithEmail(a: Accounts, user: int, email: Email): Accounts
    requires user in a.users
  {
    a.(users := a.users[user := a.users[user].(email := email, emailChanged := Some(a.now))],
       invites := Burn(a.invites, user, None, a.now))
  }

  function Deactivated(a: Accounts, user: int): Accounts
    requires user in a.users
  {
    a.(users := a.users[user := a.users[user].(active := false)], invites := Burn(a.invites, user, None, a.now))
  }

  function WithIdentity(a: Accounts, rowId: int, user: int, key: External): Accounts {
    a.(identities := a.identities[rowId := Identity(user, key, false)])
  }

  function Bound(a: Accounts, user: int, rowId: int): Accounts
    requires user in a.users && rowId in a.identities
  {
    a.(users := a.users[user := a.users[user].(adminBound := Some(a.now))],
       identities := a.identities[rowId := a.identities[rowId].(adminOk := true)])
  }

  function InviteRow(a: Accounts, user: int, provider: int, service: ServiceId, email: Email): Invite {
    Invite(user, provider, service, email, a.now, a.now + INVITE_TTL, None)
  }

  function Sent(a: Accounts, user: int, provider: int, service: ServiceId, email: Email): Accounts {
    var row := InviteRow(a, user, provider, service, email);
    a.(invites := Burn(a.invites, user, Some(provider), a.now)[a.nextInvite := row],
       nextInvite := a.nextInvite + 1,
       archive := a.archive[a.nextInvite := row])
  }

  function LinkFinished(a: Accounts, id: int, rowId: int, key: External): Accounts
    requires id in a.invites
  {
    var used := a.(invites := UseInvite(a.invites, id, a.now));
    if Owned(a.identities, key) then used else WithIdentity(used, rowId, a.invites[id].user, key)
  }

  /** One atomic step; a transaction that fails or matches no row changes nothing. */
  function Apply(a: Accounts, step: Step): Accounts {
    match step
    case Tick(seconds) => a.(now := a.now + seconds)
    case CreateUser(u, publicId, email) =>
      if UserFits(a.users, u, publicId, email) then a.(users := a.users[u := NewUser(publicId, email, a.now)]) else a
    case ChangeEmail(u, email) =>
      if u in a.users && EmailFree(a.users, email) then WithEmail(a, u, email) else a
    case Deactivate(u) => if u in a.users then Deactivated(a, u) else a
    case Link(rowId, u, key) => if LinkInserts(a, rowId, u, key) then WithIdentity(a, rowId, u, key) else a
    case LinkIfFirst(rowId, u, key) =>
      if LinkIfFirstInserts(a, rowId, u, key) then WithIdentity(a, rowId, u, key) else a
    case Register(u, publicId, email, rowId, key) =>
      if Registers(a, u, publicId, email, rowId, key)
      then WithIdentity(a.(users := a.users[u := NewUser(publicId, email, a.now)]), rowId, u, key) else a
    case Unlink(rowId, u) =>
      if rowId in a.identities && a.identities[rowId].user == u then a.(identities := a.identities - {rowId}) else a
    case BindAdmin(u, rowId) => if Binds(a, u, rowId) then Bound(a, u, rowId) else a
    case SendInvite(u, provider, service, email) =>
      if u in a.users && QuotaOpen(a, u) then Sent(a, u, provider, service, email) else a
    case RevokeInvite(id, u) =>
      if id in a.invites && a.invites[id].user == u && a.invites[id].usedAt.None?
      then a.(invites := UseInvite(a.invites, id, a.now)) else a
    case FinishLink(id, provider, service, rowId, key) =>
      if LinkFinishes(a, id, provider, service, rowId, key) then LinkFinished(a, id, rowId, key) else a
    case CleanInvites =>
      a.(invites := map i | i in a.invites && a.invites[i].expires >= a.now - INVITE_RETENTION :: a.invites[i])
  }

  function Run(a: Accounts, steps: seq<Step>): Accounts
    decreases |steps|
  {
    if steps == [] then a else Run(Apply(a, steps[0]), steps[1..])
  }

  lemma {:induction false} RunConcat(a: Accounts, s: seq<Step>, t: seq<Step>)
    ensures Run(a, s + t) == Run(Run(a, s), t)
    decreases |s|
  {
    if s == [] {
      assert s + t == t;
    } else {
      RunConcat(Apply(a, s[0]), s[1..], t);
      assert (s + t)[1..] == s[1..] + t;
    }
  }
}
