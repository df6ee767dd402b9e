/** What holds in every reachable account state. */
module AccountInvariants {
  import opened Common
  import opened AccountLedger

  ghost predicate UsersUnique(users: Users) {
    forall u, v ::
      u in users && v in users && (users[u].email == users[v].email || users[u].publicId == users[v].publicId) ==>
        u == v
  }

  ghost predicate Epochs(users: Users, now: int) {
    forall u :: u in users ==>
      && users[u].created <= now
      && (users[u].emailChanged.Some? ==> users[u].created <= users[u].emailChanged.value <= now)
  }

  ghost predicate KeysUnique(identities: Identities) {
    forall i, j :: i in identities && j in identities && identities[i].key == identities[j].key ==> i == j
  }

  ghost predicate OwnersExist(users: Users, identities: Identities) {
    forall i :: i in identities ==> identities[i].user in users
  }

  /** At most one approved identity per user, and only while the user is bound. */
  ghost predicate AdminOnce(users: Users, identities: Identities) {
    && (forall i :: i in identities && identities[i].adminOk ==>
          identities[i].user in users && users[identities[i].user].adminBound.Some?)
    && (forall i, j ::
          i in identities && j in identities && i != j && identities[i].adminOk && identities[j].adminOk ==>
            identities[i].user != identities[j].user)
  }

  ghost predicate OneOpenInvite(invites: Invites) {
    forall i, j ::
      i in invites && j in invites && i != j && invites[i].usedAt.None? && invites[j].usedAt.None? ==>
        invites[i].user != invites[j].user || invites[i].provider != invites[j].provider
  }

  ghost predicate SameButUsed(stored: Invite, sent: Invite) {
    stored == sent.(usedAt := stored.usedAt)
  }

  /** The archive has every invite row, and the table still has every one the quota may count. */
  ghost predicate Archived(a: Accounts) {
    && (forall i :: i in a.invites ==> i in a.archive && SameButUsed(a.invites[i], a.archive[i]))
    && (forall i :: i in a.archive ==>
          && i < a.nextInvite && a.archive[i].created <= a.now
          && a.archive[i].expires == a.archive[i].created + INVITE_TTL
          && (a.archive[i].created > a.now - INVITE_WINDOW ==> i in a.invites))
  }

  /** Invites sent to the user in the window (t - 1 h, t]. */
  function SentWithin(archive: Invites, user: int, t: int): set<int> {
    set i | i in archive && archive[i].user == user && t - 3600 < archive[i].created <= t
  }

  ghost predicate QuotaKept(archive: Invites) {
    forall u, t :: |SentWithin(archive, u, t)| <= INVITE_MAX
  }

  ghost predicate Inv(a: Accounts) {
    && UsersUnique(a.users) && Epochs(a.users, a.now)
    && KeysUnique(a.identities) && OwnersExist(a.users, a.identities) && AdminOnce(a.users, a.identities)
    && OneOpenInvite(a.invites) && Archived(a) && QuotaKept(a.archive)
  }

  /** The sliding window holds one invite more only if the counting window had room. */
  lemma SendKeepsQuota(a: Accounts, user: int, provider: int, service: ServiceId, email: Email)
    requires Archived(a) && QuotaKept(a.archive) && QuotaOpen(a, user)
    ensures QuotaKept(Sent(a, user, provider, service, email).archive)
  {
    var archive := Sent(a, user, provider, service, email).archive;
    forall u, t ensures |SentWithin(archive, u, t)| <= INVITE_MAX {
      var w := SentWithin(archive, u, t);
      if a.nextInvite in w {
        var counted := Counted(a.invites, user, a.now - INVITE_WINDOW);
        forall i | i in w && i != a.nextInvite ensures i in counted {
          assert SameButUsed(a.invites[i], a.archive[i]);
        }
        assert w <= counted + {a.nextInvite};
        SubsetCardinality(w, counted + {a.nextInvite});
      } else {
        assert w == SentWithin(a.archive, u, t);
      }
    }
  }

  lemma SendKeeps(a: Accounts, user: int, provider: int, service: ServiceId, email: Email)
    requires OneOpenInvite(a.invites) && Archived(a) && QuotaKept(a.archive) && QuotaOpen(a, user)
    ensures var b := Sent(a, user, provider, service, email);
            OneOpenInvite(b.invites) && Archived(b) && QuotaKept(b.archive)
  {
    SendKeepsQuota(a, user, provider, service, email);
  }

  lemma BindKeeps(a: Accounts, user: int, rowId: int)
    requires Inv(a) && Binds(a, user, rowId)
    ensures Inv(Bound(a, user, rowId))
  {
  }

  lemma BurnKeeps(a: Accounts, user: int)
    requires OneOpenInvite(a.invites) && Archived(a)
    ensures var b := a.(invites := Burn(a.invites, user, None, a.now)); OneOpenInvite(b.invites) && Archived(b)
  {
  }

  lemma FinishKeeps(a: Accounts, id: int, provider: int, service: ServiceId, rowId: int, key: External)
    requires Inv(a) && LinkFinishes(a, id, provider, service, rowId, key)
    ensures Inv(LinkFinished(a, id, rowId, key))
  {
  }

  lemma EmailKeeps(a: Accounts, user: int, email: Email)
    requires Inv(a) && user in a.users && EmailFree(a.users, email)
    ensures Inv(WithEmail(a, user, email))
  {
    BurnKeeps(a, user);
  }

  lemma DeactivateKeeps(a: Accounts, user: int)
    requires Inv(a) && user in a.users
    ensures Inv(Deactivated(a, user))
  {
    BurnKeeps(a, user);
  }

  lemma RegisterKeeps(a: Accounts, userId: int, publicId: PublicId, email: Email, rowId: int, key: External)
    requires Inv(a) && Registers(a, userId, publicId, email, rowId, key)
    ensures Inv(Apply(a, Register(userId, publicId, email, rowId, key)))
  {
  }

  lemma CleanKeeps(a: Accounts)
    requires Inv(a)
    ensures Inv(Apply(a, CleanInvites))
  {
  }

  lemma CreateKeeps(a: Accounts, userId: int, publicId: PublicId, email: Email)
    requires Inv(a) && UserFits(a.users, userId, publicId, email)
    ensures Inv(Apply(a, CreateUser(userId, publicId, email)))
  {
  }

  lemma LinkKeeps(a: Accounts, rowId: int, user: int, key: External)
    requires Inv(a) && LinkInserts(a, rowId, user, key)
    ensures Inv(WithIdentity(a, rowId, user, key))
  {
  }

  lemma UnlinkKeeps(a: Accounts, rowId: int, user: int)
    requires Inv(a)
    ensures Inv(Apply(a, Unlink(rowId, user)))
  {
  }

  lemma RevokeKeeps(a: Accounts, id: int, user: int)
    requires Inv(a)
    ensures Inv(Apply(a, RevokeInvite(id, user)))
  {
  }

  lemma TickKeeps(a: Accounts, seconds: nat)
    requires Inv(a)
    ensures Inv(Apply(a, Tick(seconds)))
  {
  }

  lemma StepKeepsInv(a: Accounts, step: Step)
    requires Inv(a)
    ensures Inv(Apply(a, step))
  {
    match step
    case Tick(seconds) => TickKeeps(a, seconds);
    case CreateUser(u, publicId, email) =>
      if UserFits(a.users, u, publicId, email) { CreateKeeps(a, u, publicId, email); }
    case Link(rowId, u, key) => if LinkInserts(a, rowId, u, key) { LinkKeeps(a, rowId, u, key); }
    case LinkIfFirst(rowId, u, key) => if LinkIfFirstInserts(a, rowId, u, key) { LinkKeeps(a, rowId, u, key); }
    case Unlink(rowId, u) => UnlinkKeeps(a, rowId, u);
    case RevokeInvite(id, u) => RevokeKeeps(a, id, u);
    case ChangeEmail(u, email) => if u in a.users && EmailFree(a.users, email) { EmailKeeps(a, u, email); }
    case Deactivate(u) => if u in a.users { DeactivateKeeps(a, u); }
    case Register(u, publicId, email, rowId, key) =>
      if Registers(a, u, publicId, email, rowId, key) { RegisterKeeps(a, u, publicId, email, rowId, key); }
    case CleanInvites => CleanKeeps(a);
    case BindAdmin(u, rowId) => if Binds(a, u, rowId) { BindKeeps(a, u, rowId); }
    case SendInvite(u, provider, service, email) =>
      if QuotaOpen(a, u) { SendKeeps(a, u, provider, service, email); }
    case FinishLink(id, provider, service, rowId, key) =>
      if LinkFinishes(a, id, provider, service, rowId, key) { FinishKeeps(a, id, provider, service, rowId, key); }
  }

  lemma {:induction false} RunKeepsInv(a: Accounts, steps: seq<Step>)
    requires Inv(a)
    ensures Inv(Run(a, steps))
    decreases |steps|
  {
    if steps != [] {
      StepKeepsInv(a, steps[0]);
      RunKeepsInv(Apply(a, steps[0]), steps[1..]);
    }
  }
}
