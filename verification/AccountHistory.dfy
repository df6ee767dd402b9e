/** What no run of account steps can undo. */
module AccountHistory {
  import opened Common
  import opened AccountLedger
  import opened AccountInvariants

  /** `b` is the user `a` at a time not before `since`. */
  ghost predicate UserLater(a: User, b: User, since: int) {
    && b.publicId == a.publicId && b.created == a.created
    && (!a.active ==> !b.active)
    && (a.adminBound.Some? ==> b.adminBound == a.adminBound)
    && ((b.email == a.email && b.emailChanged == a.emailChanged)
        || (b.emailChanged.Some? && b.emailChanged.value >= since))
  }

  ghost predicate UsersEvolve(a: Accounts, b: Accounts) {
    && (forall u :: u in a.users ==> u in b.users && UserLater(a.users[u], b.users[u], a.now))
    && (forall u :: u in b.users && u !in a.users ==>
          b.users[u].created >= a.now && (b.users[u].emailChanged.Some? ==> b.users[u].emailChanged.value >= a.now))
  }

  ghost predicate InvitesEvolve(a: Accounts, b: Accounts) {
    && a.nextInvite <= b.nextInvite
    && forall i :: i in b.invites && i < a.nextInvite ==>
         && i in a.invites
         && SameButUsed(b.invites[i], a.invites[i])
         && (a.invites[i].usedAt.Some? ==> b.invites[i] == a.invites[i])
  }

  ghost predicate Evolves(a: Accounts, b: Accounts) {
    a.now <= b.now && UsersEvolve(a, b) && InvitesEvolve(a, b)
  }

  lemma StepUsersEvolve(a: Accounts, step: Step)
    ensures UsersEvolve(a, Apply(a, step))
  {
  }

  lemma StepInvitesEvolve(a: Accounts, step: Step)
    requires Archived(a)
    ensures InvitesEvolve(a, Apply(a, step))
  {
  }

  lemma StepEvolves(a: Accounts, step: Step)
    requires Archived(a)
    ensures Evolves(a, Apply(a, step))
  {
    StepUsersEvolve(a, step);
    StepInvitesEvolve(a, step);
  }

  lemma {:induction false} RunEvolves(a: Accounts, steps: seq<Step>)
    requires Inv(a)
    ensures Evolves(a, Run(a, steps)) && Inv(Run(a, steps))
    decreases |steps|
  {
    RunKeepsInv(a, steps);
    if steps != [] {
      StepEvolves(a, steps[0]);
      StepKeepsInv(a, steps[0]);
      RunEvolves(Apply(a, steps[0]), steps[1..]);
    }
  }

  /** The account tables in every reachable state. */
  lemma AccountSafety(start: int, steps: seq<Step>)
    ensures var a := Run(Empty(start), steps);
      && (forall i, j :: i in a.identities && j in a.identities && a.identities[i].key == a.identities[j].key ==>
            i == j)
      && (forall i, j ::
            i in a.identities && j in a.identities && i != j && a.identities[i].adminOk && a.identities[j].adminOk ==>
            a.identities[i].user != a.identities[j].user)
      && (forall i :: i in a.identities && a.identities[i].adminOk ==>
            a.identities[i].user in a.users && a.users[a.identities[i].user].adminBound.Some?)
      && (forall i, j ::
            i in a.invites && j in a.invites && i != j && a.invites[i].usedAt.None? && a.invites[j].usedAt.None? ==>
            a.invites[i].user != a.invites[j].user || a.invites[i].provider != a.invites[j].provider)
      && (forall u, t :: |SentWithin(a.archive, u, t)| <= 5)
  {
    RunKeepsInv(Empty(start), steps);
  }

  // ---- identities ---------------------------------------------------------------------------------

  predicate Holds(identities: Identities, row: int, user: int, key: External) {
    row in identities && identities[row].user == user && identities[row].key == key
  }

  lemma RowStaysForAStep(a: Accounts, step: Step, row: int, user: int, key: External)
    requires Holds(a.identities, row, user, key) && step != Unlink(row, user)
    ensures Holds(Apply(a, step).identities, row, user, key)
  {
  }

  lemma {:induction false} RowStays(a: Accounts, steps: seq<Step>, row: int, user: int, key: External)
    requires Holds(a.identities, row, user, key)
    requires Unlink(row, user) !in steps
    ensures Holds(Run(a, steps).identities, row, user, key)
    decreases |steps|
  {
    if steps != [] {
      RowStaysForAStep(a, steps[0], row, user, key);
      RowStays(Apply(a, steps[0]), steps[1..], row, user, key);
    }
  }

  /** A key keeps its owner as long as nobody unlinks its own row; nobody else can take it over. */
  lemma OwnerStable(a: Accounts, steps: seq<Step>, row: int, user: int, key: External)
    requires Inv(a) && row in a.identities && a.identities[row].user == user && a.identities[row].key == key
    requires Unlink(row, user) !in steps
    ensures var b := Run(a, steps).identities;
      && row in b && b[row].user == user && b[row].key == key
      && forall v :: Owns(b, v, key) ==> v == user
  {
    RowStays(a, steps, row, user, key);
    RunKeepsInv(a, steps);
  }

  /**
    Only a login at a service with auto_link on, or an invite sent to the user, can add to what the user
    has; `archive` tells whose an invite was.
  */
  predicate AddsFurther(step: Step, user: int, archive: Invites) {
    || (step.Link? && step.userId == user)
    || (step.FinishLink? && step.inviteId in archive && archive[step.inviteId].user == user)
  }

  ghost predicate OneIdentity(identities: Identities, user: int) {
    forall i, j :: i in identities && j in identities && identities[i].user == user && identities[j].user == user ==>
      i == j
  }

  lemma StepAddsNoSecond(a: Accounts, step: Step, user: int, archive: Invites)
    requires Inv(a) && OneIdentity(a.identities, user) && !AddsFurther(step, user, archive)
    requires forall i :: i in a.archive ==> i in archive && archive[i] == a.archive[i]
    ensures OneIdentity(Apply(a, step).identities, user)
  {
    if step.FinishLink? && step.inviteId in a.invites {
      assert SameButUsed(a.invites[step.inviteId], a.archive[step.inviteId]);
    }
  }

  lemma StepKeepsArchive(a: Accounts, step: Step)
    requires Archived(a)
    ensures forall i :: i in a.archive ==> i in Apply(a, step).archive && Apply(a, step).archive[i] == a.archive[i]
  {
  }

  lemma {:induction false} RunKeepsArchive(a: Accounts, steps: seq<Step>)
    requires Inv(a)
    ensures forall i :: i in a.archive ==> i in Run(a, steps).archive && Run(a, steps).archive[i] == a.archive[i]
    decreases |steps|
  {
    if steps != [] {
      StepKeepsArchive(a, steps[0]);
      StepKeepsInv(a, steps[0]);
      RunKeepsArchive(Apply(a, steps[0]), steps[1..]);
    }
  }

  /**
    A user gets no second identity, however first logins race, unless a service with auto_link on links
    one or the user's own invite does; what other users' logins and invites do is free.
  */
  lemma {:induction false} NoSecondIdentity(a: Accounts, steps: seq<Step>, user: int)
    requires Inv(a) && OneIdentity(a.identities, user)
    requires forall i :: 0 <= i < |steps| ==> !AddsFurther(steps[i], user, Run(a, steps).archive)
    ensures OneIdentity(Run(a, steps).identities, user)
    decreases |steps|
  {
    if steps != [] {
      StepKeepsInv(a, steps[0]);
      RunKeepsArchive(a, steps);
      StepAddsNoSecond(a, steps[0], user, Run(a, steps).archive);
      NoSecondIdentity(Apply(a, steps[0]), steps[1..], user);
    }
  }

  lemma ActiveForAStep(a: Accounts, step: Step, user: int)
    requires user in a.users && a.users[user].active
    ensures user in Apply(a, step).users && (Apply(a, step).users[user].active <==> step != Deactivate(user))
  {
  }

  lemma InactiveForAStep(a: Accounts, step: Step, user: int)
    requires user in a.users && !a.users[user].active
    ensures user in Apply(a, step).users && !Apply(a, step).users[user].active
  {
  }

  lemma {:induction false} InactiveForGood(a: Accounts, steps: seq<Step>, user: int)
    requires user in a.users && !a.users[user].active
    ensures user in Run(a, steps).users && !Run(a, steps).users[user].active
    decreases |steps|
  {
    if steps != [] {
      InactiveForAStep(a, steps[0], user);
      InactiveForGood(Apply(a, steps[0]), steps[1..], user);
    }
  }

  /** A user who is active stays active exactly as long as no step deactivates them. */
  lemma {:induction false} ActiveUntilDeactivated(a: Accounts, steps: seq<Step>, user: int)
    requires user in a.users && a.users[user].active
    ensures user in Run(a, steps).users
    ensures Run(a, steps).users[user].active <==> Deactivate(user) !in steps
    decreases |steps|
  {
    if steps != [] {
      ActiveForAStep(a, steps[0], user);
      if steps[0] == Deactivate(user) {
        InactiveForGood(Apply(a, steps[0]), steps[1..], user);
      } else {
        ActiveUntilDeactivated(Apply(a, steps[0]), steps[1..], user);
      }
    }
  }

  /**
    Activity and ownership need not coincide for a freshly linked user: here the user is active
    when the e-mail lookup sees them, is deactivated, and then gets the identity all the same.
  */
  lemma LinkAfterDeactivation(publicId: PublicId, email: Email, key: External)
    ensures var seen := Run(Empty(0), [CreateUser(1, publicId, email)]);
            var after := Run(seen, [Deactivate(1), LinkIfFirst(7, 1, key)]);
      && 1 in seen.users && seen.users[1].active && seen.users[1].email == email
      && Owns(after.identities, 1, key) && 1 in after.users && !after.users[1].active
  {
    var seen := Apply(Empty(0), CreateUser(1, publicId, email));
    var create, rest := [CreateUser(1, publicId, email)], [Deactivate(1), LinkIfFirst(7, 1, key)];
    assert Run(Empty(0), create) == Run(seen, create[1..]) == seen;
    var before := Apply(seen, Deactivate(1));
    var after := Apply(before, LinkIfFirst(7, 1, key));
    assert rest[1..] == [LinkIfFirst(7, 1, key)];
    assert Run(seen, rest) == Run(before, rest[1..]) == Run(after, rest[1..][1..]) == after;
    assert after.identities[7] == Identity(1, key, false);
  }

  // ---- admin approval -------------------------------------------------------------------------------

  /** The user is bound, and the only identity of theirs that can be approved is row `rowId` as it is in `approved`. */
  ghost predicate OnlyApproved(a: Accounts, user: int, rowId: int, approved: Identity) {
    && user in a.users && a.users[user].adminBound.Some?
    && forall i :: i in a.identities && a.identities[i].user == user && a.identities[i].adminOk ==>
         i == rowId && a.identities[i] == approved
  }

  lemma BindApprovesNoOther(a: Accounts, user: int, rowId: int, approved: Identity, other: int, row: int)
    requires OnlyApproved(a, user, rowId, approved) && Binds(a, other, row)
    ensures OnlyApproved(Bound(a, other, row), user, rowId, approved)
  {
  }

  lemma OnlyApprovedForAStep(a: Accounts, user: int, rowId: int, approved: Identity, step: Step)
    requires OnlyApproved(a, user, rowId, approved) && !step.BindAdmin?
    ensures OnlyApproved(Apply(a, step), user, rowId, approved)
  {
  }

  lemma {:induction false} OnlyApprovedStays(a: Accounts, user: int, rowId: int, approved: Identity, steps: seq<Step>)
    requires OnlyApproved(a, user, rowId, approved)
    ensures OnlyApproved(Run(a, steps), user, rowId, approved)
    decreases |steps|
  {
    if steps != [] {
      match steps[0] {
        case BindAdmin(u, row) =>
          if Binds(a, u, row) { BindApprovesNoOther(a, user, rowId, approved, u, row); }
        case _ => OnlyApprovedForAStep(a, user, rowId, approved, steps[0]);
      }
      OnlyApprovedStays(Apply(a, steps[0]), user, rowId, approved, steps[1..]);
    }
  }

  /**
    One-time approval: after an approval no later one succeeds for the user, also not once the
    approved identity is unlinked, and no other identity of theirs is ever approved.
  */
  lemma BoundOnce(a: Accounts, user: int, rowId: int, steps: seq<Step>, other: int)
    requires Inv(a) && Binds(a, user, rowId)
    ensures var b := Run(Apply(a, BindAdmin(user, rowId)), steps);
      && !Binds(b, user, other)
      && (other in b.identities && b.identities[other].user == user && b.identities[other].adminOk ==>
            other == rowId && b.identities[other].key == a.identities[rowId].key)
  {
    OnlyApprovedStays(Bound(a, user, rowId), user, rowId, Identity(user, a.identities[rowId].key, true), steps);
  }

  // ---- link invites ---------------------------------------------------------------------------------

  /** What a committed link leaves behind. */
  lemma LinkCommit(a: Accounts, id: int, provider: int, service: ServiceId, rowId: int, key: External)
    requires Inv(a) && LinkFinishes(a, id, provider, service, rowId, key)
    ensures var b := Apply(a, FinishLink(id, provider, service, rowId, key)); var inv := a.invites[id];
      && Owns(b.identities, inv.user, key) && b.users == a.users
      && b.users[inv.user].active && b.users[inv.user].email == inv.email
      && b.invites[id] == inv.(usedAt := Some(a.now))
      && (forall i :: i in a.identities ==> i in b.identities && b.identities[i] == a.identities[i])
      && (forall i :: i in b.identities && i !in a.identities ==> b.identities[i] == Identity(inv.user, key, false))
      && (forall i :: i in a.invites && i != id ==> i in b.invites && b.invites[i] == a.invites[i])
  {
    var b := Apply(a, FinishLink(id, provider, service, rowId, key));
    if !Owned(a.identities, key) {
      assert b.identities[rowId] == Identity(a.invites[id].user, key, false);
    }
  }

  /** An invite is good for one link: once used, in any way, it never validates again. */
  lemma InviteUsedOnce(a: Accounts, id: int, steps: seq<Step>, provider: int, service: ServiceId)
    requires Inv(a) && id in a.invites && a.invites[id].usedAt.Some?
    ensures !InviteValid(Run(a, steps), id, provider, service)
  {
    RunEvolves(a, steps);
  }

  /** After an address change or a deactivation, no invite sent before it can finish a link. */
  lemma OldInvitesDie(a: Accounts, user: int, step: Step, steps: seq<Step>, id: int, provider: int, service: ServiceId,
                      rowId: int, key: External)
    requires Inv(a) && user in a.users && id in a.invites && a.invites[id].user == user
    requires step == Deactivate(user) || (step.ChangeEmail? && step.userId == user && EmailFree(a.users, step.email))
    ensures !LinkFinishes(Run(Apply(a, step), steps), id, provider, service, rowId, key)
  {
    StepKeepsInv(a, step);
    InviteUsedOnce(Apply(a, step), id, steps, provider, service);
  }
}
