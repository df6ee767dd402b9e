/**
  The account tables as the handlers change them: single statements, transactions with their
  rollbacks, and identity resolution, whose database accesses interleave with other requests.
*/
module AccountStore {
  import opened Common
  import opened AccountLedger
  import opened AccountInvariants
  import opened AccountHistory
  import opened AccountLifetimes
  import opened AccountResolution

  datatype LinkResult = LinkCreated | LinkAlready | InviteInvalid | UserInactive | EmailChanged | IdentityTaken

  datatype BindResult = AdminBound | AdminAlreadyBound | AdminIdentityVanished

  datatype EmailResult = EmailSet | NoUser | EmailSame | EmailTaken

  /** An open invite for this service and provider, less than its day old, whose user is active and has its address. */
  predicate FitsInvite(a: Accounts, id: int, provider: int, service: ServiceId) {
    && id in a.invites
    && var row := a.invites[id];
    && row.provider == provider && row.service == service && row.usedAt.None? && a.now < row.expires
    && row.user in a.users && a.users[row.user].active && a.users[row.user].email == row.email
  }

  function Below(n: nat): (ids: set<int>)
    ensures |ids| == n && forall x :: x in ids <==> 0 <= x < n
  {
    if n == 0 then {} else Below(n - 1) + {n - 1}
  }

  /** The database's choice for a new INTEGER PRIMARY KEY: some unused one. */
  method FreshRowId(taken: set<int>) returns (id: int)
    ensures id !in taken
  {
    id := 0;
    while id in taken
      invariant 0 <= id
      invariant Below(id) <= taken
      decreases |taken| - id
    {
      SubsetCardinality(Below(id) + {id}, taken);
      id := id + 1;
      SubsetCardinality(Below(id), taken);
    }
  }

  class Store {
    var users: Users
    var identities: Identities
    var invites: Invites
    var clock: int
    var nextInvite: int
    var archive: Invites

    function Model(): Accounts
      reads this
    {
      Accounts(users, identities, invites, clock, nextInvite, archive)
    }

    constructor (start: int)
      ensures Model() == Empty(start)
    {
      users, identities, invites, clock, nextInvite, archive := map[], map[], map[], start, 1, map[];
    }

    // ---- statements ---------------------------------------------------------------------------

    /** GetIdentity. */
    method FindIdentity(key: External) returns (row: Option<int>)
      requires KeysUnique(identities)
      ensures row.Some? ==> row.value in identities && identities[row.value].key == key
      ensures row.None? <==> !Owned(identities, key)
    {
      if i :| i in identities && identities[i].key == key {
        return Some(i);
      }
      return None;
    }

    /** InsertIdentity, ON CONFLICT (issuer, subject) DO NOTHING; the user exists by the foreign key. */
    method InsertIdentity(user: int, key: External) returns (n: nat, rowId: int)
      requires user in users
      modifies this`identities
      ensures Model() == Apply(old(Model()), Link(rowId, user, key))
      ensures n == 1 <==> LinkInserts(old(Model()), rowId, user, key)
      ensures n <= 1 && rowId !in old(identities)
      ensures n == 0 <==> Owned(old(identities), key)
      ensures if n == 1 then Links(old(Model()), Model(), rowId, user, key) else Model() == old(Model())
    {
      rowId := FreshRowId(identities.Keys);
      if Owned(identities, key) {
        return 0, rowId;
      }
      identities := identities[rowId := Identity(user, key, false)];
      return 1, rowId;
    }

    /** LinkIdentityIfFirst: the condition and the insert are one statement. */
    method LinkIdentityIfFirst(user: int, key: External) returns (n: nat, rowId: int)
      requires user in users
      modifies this`identities
      ensures Model() == Apply(old(Model()), LinkIfFirst(rowId, user, key))
      ensures n == 1 <==> LinkIfFirstInserts(old(Model()), rowId, user, key)
      ensures n <= 1 && rowId !in old(identities)
      ensures n == 0 <==> Owned(old(identities), key) || HasIdentity(old(identities), user)
      ensures if n == 1 then Links(old(Model()), Model(), rowId, user, key) else Model() == old(Model())
    {
      rowId := FreshRowId(identities.Keys);
      if HasIdentity(identities, user) || Owned(identities, key) {
        return 0, rowId;
      }
      identities := identities[rowId := Identity(user, key, false)];
      return 1, rowId;
    }

    /** CreateUser; false is a unique violation. */
    method InsertUser(userId: int, publicId: PublicId, email: Email) returns (ok: bool)
      modifies this`users
      ensures ok <==> UserFits(old(users), userId, publicId, email)
      ensures users == if ok then old(users)[userId := NewUser(publicId, email, clock)] else old(users)
      ensures ok ==> AddsUser(old(users), users, userId, publicId, email, clock)
    {
      if userId in users {
        return false;
      }
      if u :| u in users && (users[u].email == email || users[u].publicId == publicId) {
        return false;
      }
      users := users[userId := User(publicId, email, clock, None, true, None)];
      return true;
    }

    method BurnInvites(user: int, provider: Option<int>)
      modifies this`invites
      ensures invites == Burn(old(invites), user, provider, clock)
      ensures Burnt(old(invites), invites, user, provider, clock)
    {
      invites := Burn(invites, user, provider, clock);
    }

    /** RevokeLinkInvite. */
    method RevokeLinkInvite(id: int, user: int) returns (n: nat)
      modifies this`invites
      ensures Model() == Apply(old(Model()), RevokeInvite(id, user))
      ensures n == 1 <==> id in old(invites) && old(invites)[id].user == user && old(invites)[id].usedAt.None?
      ensures n == 1 ==> invites == old(invites)[id := old(invites)[id].(usedAt := Some(clock))]
      ensures n == 1 || (n == 0 && invites == old(invites))
    {
      if id in invites && invites[id].user == user && invites[id].usedAt.None? {
        invites := invites[id := invites[id].(usedAt := Some(clock))];
        return 1;
      }
      return 0;
    }

    // ---- transactions -----------------------------------------------------------------------------

    /** register: user and identity together, or neither. */
    method RegisterTx(publicId: PublicId, email: Email, key: External) returns (ok: bool, userId: int, rowId: int)
      modifies this
      ensures Model() == Apply(old(Model()), Register(userId, publicId, email, rowId, key))
      ensures ok <==> Registers(old(Model()), userId, publicId, email, rowId, key)
      ensures !ok ==> RegisterBlocked(old(Model()), publicId, email, key) && Model() == old(Model())
      ensures ok ==> AddsUser(old(users), users, userId, publicId, email, clock)
      ensures ok ==> Links(old(Model()).(users := users), Model(), rowId, userId, key)
    {
      var savedUsers := users;
      userId := FreshRowId(users.Keys);
      rowId := FreshRowId(identities.Keys);
      ok := InsertUser(userId, publicId, email);
      if !ok {
        return false, userId, rowId;
      }
      var n;
      n, rowId := InsertIdentity(userId, key);
      if n == 0 {
        users := savedUsers;
        return false, userId, rowId;
      }
    }

    /** bindAdminIdentity: a binding without an approved identity is rolled back. */
    method BindAdminTx(user: int, rowId: int) returns (res: BindResult)
      modifies this
      ensures Model() == Apply(old(Model()), BindAdmin(user, rowId))
      ensures res.AdminBound? <==> Binds(old(Model()), user, rowId)
      ensures res.AdminAlreadyBound? <==> user !in old(users) || old(users)[user].adminBound.Some?
      ensures if res.AdminBound? then Approves(old(Model()), Model(), user, rowId) else Model() == old(Model())
      ensures res.AdminBound? ==> rowId in identities && identities[rowId].adminOk
    {
      var saved := users;
      // BindAdmin
      if user !in users || users[user].adminBound.Some? {
        return AdminAlreadyBound;
      }
      users := users[user := users[user].(adminBound := Some(clock))];
      // SetAdminOK
      if !(rowId in identities && identities[rowId].user == user && users[user].adminBound == Some(clock)) {
        users := saved;
        return AdminIdentityVanished;
      }
      identities := identities[rowId := identities[rowId].(adminOk := true)];
      return AdminBound;
    }

    /** HandleUnlink's transaction; false is 404. */
    method UnlinkTx(rowId: int, user: int) returns (ok: bool)
      modifies this
      ensures Model() == Apply(old(Model()), Unlink(rowId, user))
      ensures ok <==> rowId in old(identities) && old(identities)[rowId].user == user
      ensures if ok then Unlinks(old(Model()), Model(), rowId) else Model() == old(Model())
    {
      ok := rowId in identities && identities[rowId].user == user;
      if ok { identities := identities - {rowId}; }
    }

    /** HandleEmailChange's transaction. */
    method ChangeEmailTx(user: int, email: Email) returns (res: EmailResult)
      requires UsersUnique(users)
      modifies this
      ensures Model() == Apply(old(Model()), ChangeEmail(user, email))
      ensures res.EmailSet? <==> user in old(users) && EmailFree(old(users), email)
      ensures res.EmailSame? <==> user in old(users) && old(users)[user].email == email
      ensures res.NoUser? <==> user !in old(users)
      ensures if res.EmailSet? then Readdresses(old(Model()), Model(), user, email) else Model() == old(Model())
    {
      if user !in users {
        return NoUser;
      }
      if users[user].email == email {
        return EmailSame;
      }
      if !EmailFree(users, email) {
        return EmailTaken;
      }
      users := users[user := users[user].(email := email, emailChanged := Some(clock))];
      BurnInvites(user, None);
      return EmailSet;
    }

    /** HandleDeactivate's transaction. */
    method DeactivateTx(user: int) returns (ok: bool)
      modifies this
      ensures Model() == Apply(old(Model()), Deactivate(user))
      ensures ok <==> user in old(users)
      ensures if ok then SwitchesOff(old(Model()), Model(), user) else Model() == old(Model())
    {
      ok := user in users;
      if ok {
        users := users[user := users[user].(active := false)];
        BurnInvites(user, None);
      }
    }

    /** HandleInviteCreate's transaction: burn, then insert within the quota, else roll the burn back. */
    method SendInviteTx(user: int, provider: int, service: ServiceId, email: Email) returns (id: Option<int>)
      requires Inv(Model()) && user in users
      modifies this
      ensures Model() == Apply(old(Model()), SendInvite(user, provider, service, email))
      ensures id.Some? <==> QuotaOpen(old(Model()), user)
      ensures id.Some? ==> InviteValid(Model(), id.value, provider, service) && id.value !in old(archive)
      ensures id.None? <==> |SentWithin(old(archive), user, clock)| >= 5
      ensures id.Some? ==> id.value == old(nextInvite) && Sends(old(Model()), Model(), user, provider, service, email)
      ensures id.None? ==> Model() == old(Model())
    {
      QuotaExactly(Model(), user);
      if QuotaOpen(Model(), user) { SendByRow(Model(), user, provider, service, email); }
      var saved := invites;
      BurnInvites(user, Some(provider));
      BurningKeepsCount(saved, user, provider, clock, clock - INVITE_WINDOW);
      if |Counted(invites, user, clock - INVITE_WINDOW)| >= INVITE_MAX {
        invites := saved;
        return None;
      }
      var row := Invite(user, provider, service, email, clock, clock + INVITE_TTL, None);
      invites, archive := invites[nextInvite := row], archive[nextInvite := row];
      id := Some(nextInvite);
      nextInvite := nextInvite + 1;
    }

    /** finishLink's transaction: every rejection rolls the consumed invite back. */
    method FinishLinkTx(id: int, provider: int, service: ServiceId, key: External) returns (res: LinkResult, rowId: int)
      requires Inv(Model())
      modifies this
      ensures Model() == Apply(old(Model()), FinishLink(id, provider, service, rowId, key))
      ensures res.LinkCreated? || res.LinkAlready? <==> LinkFinishes(old(Model()), id, provider, service, rowId, key)
      ensures res.InviteInvalid? <==> !InviteValid(old(Model()), id, provider, service)
                                      || old(invites)[id].user !in old(users)
      ensures res.LinkCreated? || res.LinkAlready? <==>
                && FitsInvite(old(Model()), id, provider, service)
                && forall i :: i in old(identities) && old(identities)[i].key == key ==>
                     old(identities)[i].user == old(invites)[id].user
      ensures res.LinkAlready? ==> Owned(old(identities), key)
      ensures res.LinkCreated? ==> !Owned(old(identities), key)
      ensures res.UserInactive? ==> InviteValid(old(Model()), id, provider, service)
                                    && old(invites)[id].user in old(users) && !old(users)[old(invites)[id].user].active
      ensures res.EmailChanged? ==>
                && InviteValid(old(Model()), id, provider, service) && old(invites)[id].user in old(users)
                && old(users)[old(invites)[id].user].active
                && old(users)[old(invites)[id].user].email != old(invites)[id].email
      ensures res.IdentityTaken? ==> Owned(old(identities), key) && !Owns(old(identities), old(invites)[id].user, key)
      ensures !(res.LinkCreated? || res.LinkAlready?) ==> Model() == old(Model())
    {
      rowId := FreshRowId(identities.Keys);
      var saved := invites;
      // ConsumeLinkInvite
      if !(id in invites && invites[id].provider == provider && invites[id].service == service
           && invites[id].usedAt.None? && invites[id].expires > clock) {
        return InviteInvalid, rowId;
      }
      invites := invites[id := invites[id].(usedAt := Some(clock))];
      var inv := invites[id];
      if inv.user !in users {
        invites := saved;
        return InviteInvalid, rowId;
      }
      if !users[inv.user].active {
        invites := saved;
        return UserInactive, rowId;
      }
      if users[inv.user].email != inv.email {
        invites := saved;
        return EmailChanged, rowId;
      }
      var row := FindIdentity(key);
      if row.Some? {
        assert forall i :: i in identities && identities[i].key == key ==> i == row.value;
        if identities[row.value].user != inv.user {
          invites := saved;
          return IdentityTaken, rowId;
        }
        return LinkAlready, rowId;
      }
      var n;
      n, rowId := InsertIdentity(inv.user, key);
      return LinkCreated, rowId;
    }

    // ---- identity resolution -------------------------------------------------------------------------

    /** What other requests committed meanwhile shows up in the tables. */
    method Interfere(steps: seq<Step>)
      requires Inv(Model())
      modifies this
      ensures Model() == Run(old(Model()), steps) && Inv(Model())
    {
      RunKeepsInv(Model(), steps);
      var a := Run(Model(), steps);
      users, identities, invites, clock, nextInvite, archive :=
        a.users, a.identities, a.invites, a.now, a.nextInvite, a.archive;
    }

    /** The other requests' turn before the next access of this request, which has made k and written nothing. */
    method Turn(ghost h: History, sched: seq<seq<Step>>, k: nat)
      requires Describes(h, sched) && Inv(Model()) && Model() == h.at(k)
      modifies this
      ensures Inv(Model()) && Model() == h.at(k + 1)
    {
      assert h.gap(k) == Slot(sched, k);
      Interfere(Slot(sched, k));
    }

    /** matched, for a row just read: the owner, unless deactivated. */
    method ResolveMatched(ghost h: History, idn: Identity, rowId: int, sched: seq<seq<Step>>, k: nat)
      returns (o: Outcome, n: nat)
      requires Describes(h, sched) && Inv(Model()) && Model() == h.at(k)
      requires rowId in identities && identities[rowId] == idn
      modifies this
      ensures Inv(Model()) && Model() == h.at(k + 1) && n == k + 1
      ensures AnswersRow(o, rowId, h.at(k), h.at(k + 1), idn.key)
    {
      UserStays(Model(), Slot(sched, k), idn.user);
      assert h.gap(k) == Slot(sched, k);
      Turn(h, sched, k);
      n := k + 1;
      o := if users[idn.user].active then Matched(idn.user, rowId) else Inactive;
    }

    /** link after the INSERT reported no row: read the identity, and perhaps deny. */
    method ResolveLost(ghost h: History, user: int, login: Login, sched: seq<seq<Step>>, k: nat)
      returns (o: Outcome, n: nat)
      requires Describes(h, sched) && Inv(Model()) && Model() == h.at(k)
      modifies this
      ensures Inv(Model()) && Model() == h.at(n)
      ensures LostLink(o, h, k, n, login, user)
    {
      Turn(h, sched, k);
      n := k + 1;
      var row := FindIdentity(login.key);
      OwnerOfRow(identities, login.key, row, user);
      if row.None? && login.pol.autoLink {
        return DbError, n;
      }
      if row.Some? && (login.pol.autoLink || identities[row.value].user == user) {
        o, n := ResolveMatched(h, identities[row.value], row.value, sched, n);
        return;
      }
      // denyLink reads once more: a concurrent login may have linked this account meanwhile.
      Turn(h, sched, n);
      n := n + 1;
      row := FindIdentity(login.key);
      OwnerOfRow(identities, login.key, row, user);
      if row.Some? && identities[row.value].user == user {
        o, n := ResolveMatched(h, identities[row.value], row.value, sched, n);
        return;
      }
      return LinkDenied, n;
    }

    /** The INSERT of link, conditional on the user having no identity when auto_link is off. */
    method InsertLink(user: int, login: Login) returns (inserted: bool, rowId: int)
      requires Inv(Model()) && user in users
      modifies this
      ensures Inv(Model())
      ensures inserted <==> !LinkBlocked(old(Model()), user, login)
      ensures inserted ==> LinkInserts(old(Model()), rowId, user, login.key)
                           && Model() == Apply(old(Model()), LinkStep(rowId, user, login))
      ensures !inserted ==> Model() == old(Model())
    {
      StepsKeepInv(Model(), user, login.key);
      var n;
      if login.pol.autoLink {
        n, rowId := InsertIdentity(user, login.key);
      } else {
        n, rowId := LinkIdentityIfFirst(user, login.key);
      }
      inserted := n == 1;
    }

    /** link, for the active user the e-mail lookup has just seen. */
    method ResolveLink(ghost h: History, user: int, login: Login, sched: seq<seq<Step>>, k: nat)
      returns (o: Outcome, n: nat)
      requires Describes(h, sched) && Inv(Model()) && Model() == h.at(k) && user in users
      modifies this
      ensures Inv(Model()) && LinkRound(o, h, k, n, Model(), login, user)
    {
      UserStays(Model(), Slot(sched, k), user);
      assert h.gap(k) == Slot(sched, k);
      Turn(h, sched, k);
      n := k + 1;
      ghost var before := Model();
      var inserted, rowId := InsertLink(user, login);
      if !inserted {
        o, n := ResolveLost(h, user, login, sched, n);
        return;
      }
      Interfere(Slot(sched, n));
      assert h.gap(n) == Slot(sched, n);
      n := n + 1;
      var row := FindIdentity(login.key);
      o := if row.None? then DbError else Linked(user, row.value);
      assert TookLink(o, rowId, before, h.gap(k + 1), Model(), login, user);
    }

    /** GetActiveUserByEmail. */
    method FindActiveUser(email: Email) returns (user: Option<int>)
      ensures user.Some? ==> user.value in users && users[user.value].active && users[user.value].email == email
      ensures user.None? ==> forall u :: u in users && users[u].active ==> users[u].email != email
    {
      if u :| u in users && users[u].active && users[u].email == email {
        return Some(u);
      }
      return None;
    }

    /** register, as one transaction; a unique violation asks for another round. */
    method RegisterNew(login: Login, publicId: PublicId) returns (o: Outcome)
      requires Inv(Model())
      modifies this
      ensures Inv(Model()) && RegisterRound(o, old(Model()), Model(), login, publicId)
    {
      ghost var before := Model();
      var ok, userId, rowId := RegisterTx(publicId, login.email, login.key);
      StepKeepsInv(before, Register(userId, publicId, login.email, rowId, login.key));
      o := if ok then Registered(userId) else Retry;
      if ok {
        assert Created(o, rowId, before, Model(), login, publicId);
      }
    }

    /** resolveOnce, for a request that has made k accesses and written nothing. */
    method ResolveOnce(ghost h: History, login: Login, publicId: PublicId, sched: seq<seq<Step>>, k: nat)
      returns (o: Outcome, n: nat)
      requires Describes(h, sched) && Inv(Model()) && Model() == h.at(k)
      modifies this
      ensures Inv(Model()) && !o.Conflict? && Round(o, h, k, n, Model(), login, publicId)
    {
      Turn(h, sched, k);
      n := k + 1;
      var row := FindIdentity(login.key);
      if row.Some? {
        o, n := ResolveMatched(h, identities[row.value], row.value, sched, n);
        return;
      }
      o, n := ResolveUnknown(h, login, publicId, sched, n);
    }

    /** The part of resolveOnce for an identity nobody owns: by e-mail, then by registering. */
    method ResolveUnknown(ghost h: History, login: Login, publicId: PublicId, sched: seq<seq<Step>>, k: nat)
      returns (o: Outcome, n: nat)
      requires Describes(h, sched) && Inv(Model()) && Model() == h.at(k)
      modifies this
      ensures Inv(Model()) && !o.Conflict? && Unknown(o, h, k, n, Model(), login, publicId)
    {
      if login.pol.emailUntrusted {
        return NoAccount, k;
      }
      Turn(h, sched, k);
      n := k + 1;
      var user := FindActiveUser(login.email);
      if user.Some? {
        assert ActiveHolder(h.at(k + 1), user.value, login.email);
        o, n := ResolveLink(h, user.value, login, sched, n);
        return;
      }
      if !login.pol.autoRegister {
        return NoAccount, n;
      }
      Turn(h, sched, n);
      n := n + 1;
      o := RegisterNew(login, publicId);
    }

    /**
      resolveIdentity: at most two rounds. `Resolved` fixes answer and final tables from what the accesses
      of this request see; what it promises to callers is proved about it in AccountResolution.
    */
    method Resolve(login: Login, id1: PublicId, id2: PublicId, sched: seq<seq<Step>>) returns (o: Outcome, n: nat)
      requires Inv(Model())
      modifies this
      ensures Inv(Model())
      ensures Resolved(o, HistoryOf(old(Model()), sched), n, Model(), login, id1, id2)
    {
      HistoryDescribes(Model(), sched);
      o, n := ResolveIdentity(HistoryOf(Model(), sched), login, id1, id2, sched);
    }

    method ResolveIdentity(ghost h: History, login: Login, id1: PublicId, id2: PublicId, sched: seq<seq<Step>>)
      returns (o: Outcome, n: nat)
      requires Describes(h, sched) && Inv(Model()) && Model() == h.at(0)
      modifies this
      ensures Inv(Model()) && Resolved(o, h, n, Model(), login, id1, id2)
    {
      var attempt := 0;
      o, n := Retry, 0;
      while o.Retry?
        invariant 0 <= attempt <= 2 && Inv(Model())
        invariant if o.Retry? then Pending(h, attempt, n, Model(), login, id1)
                  else Resolved(o, h, n, Model(), login, id1, id2)
        decreases 2 - attempt, o.Retry?
      {
        o, n := Attempt(h, login, id1, id2, sched, attempt);
        attempt := attempt + 1;
      }
    }

    /** One turn of resolveIdentity's loop; after the second a lost registration is a conflict. */
    method Attempt(ghost h: History, login: Login, id1: PublicId, id2: PublicId, sched: seq<seq<Step>>, attempt: nat)
      returns (o: Outcome, n: nat)
      requires Describes(h, sched) && Inv(Model()) && Pending(h, attempt, 3 * attempt, Model(), login, id1)
      modifies this
      ensures Inv(Model())
      ensures if o.Retry? then Pending(h, attempt + 1, n, Model(), login, id1)
              else Resolved(o, h, n, Model(), login, id1, id2)
    {
      if attempt == 0 {
        o, n := ResolveOnce(h, login, id1, sched, 0);
        if o.Retry? {
          RetryMeansBlocked(Retry, h, 0, n, Model(), login, id1);
        } else {
          ResolvedInOneRound(o, h, n, Model(), login, id1, id2);
        }
      } else {
        o, n := ResolveOnce(h, login, id2, sched, 3);
        ResolvedInTwoRounds(o, h, n, Model(), login, id1, id2);
        o := if o.Retry? then Conflict else o;
      }
    }
  }

  /** The owner of the one row with the key, if there is one. */
  lemma OwnerOfRow(identities: Identities, key: External, row: Option<int>, user: int)
    requires KeysUnique(identities)
    requires row.Some? ==> row.value in identities && identities[row.value].key == key
    requires row.None? <==> !Owned(identities, key)
    ensures Owns(identities, user, key) <==> row.Some? && identities[row.value].user == user
  {
    if row.Some? {
      forall i | i in identities && identities[i].key == key ensures i == row.value {
      }
    }
  }

  lemma UserStays(a: Accounts, steps: seq<Step>, user: int)
    requires Inv(a) && user in a.users
    ensures user in Run(a, steps).users
  {
    RunEvolves(a, steps);
  }

  lemma StepsKeepInv(a: Accounts, user: int, key: External)
    requires Inv(a)
    ensures forall rowId :: Inv(Apply(a, Link(rowId, user, key))) && Inv(Apply(a, LinkIfFirst(rowId, user, key)))
  {
    forall rowId ensures Inv(Apply(a, Link(rowId, user, key))) && Inv(Apply(a, LinkIfFirst(rowId, user, key))) {
      StepKeepsInv(a, Link(rowId, user, key));
      StepKeepsInv(a, LinkIfFirst(rowId, user, key));
    }
  }

  /** Burned rows still count: burning never opens the quota. */
  lemma BurningKeepsCount(invites: Invites, user: int, provider: int, now: int, after: int)
    ensures Counted(Burn(invites, user, Some(provider), now), user, after) == Counted(invites, user, after)
  {
  }
}
