/**
  What the account steps do row by row, and how long an approval or an invite lasts: until one of the few
  steps aimed at it comes, or the invite's day is over.
*/
module AccountLifetimes {
  import opened Common
  import opened AccountLedger
  import opened AccountInvariants
  import opened AccountHistory

  // ---- row by row -----------------------------------------------------------------------------------

  /** No row but `id` differs. */
  ghost predicate OnlyRow<T(!new)>(before: map<int, T>, after: map<int, T>, id: int) {
    && (forall i :: i in before && i != id ==> i in after && after[i] == before[i])
    && (forall i :: i in after && i != id ==> i in before)
  }

  /** The user has the approval, the row is approved, and nothing else differs. */
  ghost predicate Approves(a: Accounts, b: Accounts, user: int, rowId: int) {
    && b == a.(users := b.users, identities := b.identities)
    && user in a.users && user in b.users && OnlyRow(a.users, b.users, user)
    && b.users[user] == a.users[user].(adminBound := Some(a.now))
    && rowId in a.identities && rowId in b.identities && OnlyRow(a.identities, b.identities, rowId)
    && a.identities[rowId].user == user && b.identities[rowId] == Identity(user, a.identities[rowId].key, true)
  }

  lemma ApprovalByRow(a: Accounts, user: int, rowId: int)
    requires Binds(a, user, rowId)
    ensures Approves(a, Apply(a, BindAdmin(user, rowId)), user, rowId)
  {
  }

  /** The one row is gone, and nothing else differs. */
  ghost predicate Unlinks(a: Accounts, b: Accounts, rowId: int) {
    && b == a.(identities := b.identities) && rowId !in b.identities && OnlyRow(a.identities, b.identities, rowId)
  }

  lemma UnlinkByRow(a: Accounts, rowId: int, user: int)
    ensures var b := Apply(a, Unlink(rowId, user));
      if rowId in a.identities && a.identities[rowId].user == user then Unlinks(a, b, rowId) else b == a
  {
  }

  /** One new identity, not approved; nothing else differs. */
  ghost predicate Links(a: Accounts, b: Accounts, rowId: int, user: int, key: External) {
    && b == a.(identities := b.identities) && OnlyRow(a.identities, b.identities, rowId)
    && rowId !in a.identities && rowId in b.identities && b.identities[rowId] == Identity(user, key, false)
  }

  lemma LinkByRow(a: Accounts, rowId: int, user: int, key: External)
    requires LinkInserts(a, rowId, user, key)
    ensures Links(a, Apply(a, Link(rowId, user, key)), rowId, user, key)
    ensures !HasIdentity(a.identities, user) ==> Links(a, Apply(a, LinkIfFirst(rowId, user, key)), rowId, user, key)
  {
  }

  /** A new user: active, with this address since now, and not bound; no other user differs. */
  ghost predicate AddsUser(before: Users, after: Users, userId: int, publicId: PublicId, email: Email, now: int) {
    && userId !in before && userId in after && OnlyRow(before, after, userId)
    && after[userId].publicId == publicId && after[userId].email == email && after[userId].active
    && after[userId].created == now && after[userId].emailChanged.None? && after[userId].adminBound.None?
  }

  lemma CreationByRow(a: Accounts, userId: int, publicId: PublicId, email: Email)
    requires UserFits(a.users, userId, publicId, email)
    ensures var b := Apply(a, CreateUser(userId, publicId, email));
      b == a.(users := b.users) && AddsUser(a.users, b.users, userId, publicId, email, a.now)
  {
  }

  lemma RegistrationByRow(a: Accounts, userId: int, publicId: PublicId, email: Email, rowId: int, key: External)
    requires Registers(a, userId, publicId, email, rowId, key)
    ensures var b := Apply(a, Register(userId, publicId, email, rowId, key));
      && b == a.(users := b.users, identities := b.identities)
      && AddsUser(a.users, b.users, userId, publicId, email, a.now)
      && Links(a.(users := b.users), b, rowId, userId, key)
  {
  }

  /** Open invites of this user, and of this provider if one is given. */
  predicate Aimed(row: Invite, user: int, provider: Option<int>) {
    row.user == user && row.usedAt.None? && (provider.Some? ==> row.provider == provider.value)
  }

  /** Exactly the open invites aimed at are used up, at `now`; no row is lost. */
  ghost predicate Burnt(before: Invites, after: Invites, user: int, provider: Option<int>, now: int) {
    && after.Keys == before.Keys
    && (forall i :: i in before && Aimed(before[i], user, provider) ==>
          after[i].usedAt == Some(now) && after[i].(usedAt := None) == before[i])
    && (forall i :: i in before && !Aimed(before[i], user, provider) ==> after[i] == before[i])
  }

  /** The user has the new address since now, their open invites are used up, and nothing else differs. */
  ghost predicate Readdresses(a: Accounts, b: Accounts, user: int, email: Email) {
    && b == a.(users := b.users, invites := b.invites)
    && user in a.users && user in b.users && OnlyRow(a.users, b.users, user)
    && b.users[user] == a.users[user].(email := email, emailChanged := Some(a.now))
    && Burnt(a.invites, b.invites, user, None, a.now)
  }

  lemma ChangeEmailByRow(a: Accounts, user: int, email: Email)
    requires user in a.users && EmailFree(a.users, email)
    ensures Readdresses(a, Apply(a, ChangeEmail(user, email)), user, email)
  {
  }

  /** An address change makes the old address free for others, at once. */
  lemma OldAddressIsFree(a: Accounts, user: int, email: Email)
    requires Inv(a) && user in a.users && EmailFree(a.users, email)
    ensures EmailFree(Apply(a, ChangeEmail(user, email)).users, a.users[user].email)
  {
    ChangeEmailByRow(a, user, email);
  }

  /** The user is inactive, their open invites are used up, and nothing else differs. */
  ghost predicate SwitchesOff(a: Accounts, b: Accounts, user: int) {
    && b == a.(users := b.users, invites := b.invites)
    && user in a.users && user in b.users && OnlyRow(a.users, b.users, user)
    && b.users[user] == a.users[user].(active := false)
    && Burnt(a.invites, b.invites, user, None, a.now)
  }

  lemma DeactivationByRow(a: Accounts, user: int)
    requires user in a.users
    ensures SwitchesOff(a, Apply(a, Deactivate(user)), user)
  {
  }

  /** One new invite, good for a day; of the others, only the open one for the same user and provider is used up. */
  ghost predicate Sends(a: Accounts, b: Accounts, user: int, provider: int, service: ServiceId, email: Email) {
    && b == a.(invites := b.invites, nextInvite := a.nextInvite + 1, archive := b.archive)
    && a.nextInvite in b.invites && a.nextInvite in b.archive && OnlyRow(a.archive, b.archive, a.nextInvite)
    && b.invites[a.nextInvite] == b.archive[a.nextInvite]
         == Invite(user, provider, service, email, a.now, a.now + 24 * 3600, None)
    && Burnt(a.invites - {a.nextInvite}, b.invites - {a.nextInvite}, user, Some(provider), a.now)
  }

  lemma SendByRow(a: Accounts, user: int, provider: int, service: ServiceId, email: Email)
    requires user in a.users && QuotaOpen(a, user)
    ensures Sends(a, Apply(a, SendInvite(user, provider, service, email)), user, provider, service, email)
  {
  }

  /** The invite limit reads as what it is for: five sent to the user within the last hour, cleaned away or not. */
  lemma QuotaExactly(a: Accounts, user: int)
    requires Inv(a)
    ensures QuotaOpen(a, user) <==> |SentWithin(a.archive, user, a.now)| < 5
  {
    var counted, sent := Counted(a.invites, user, a.now - 3600), SentWithin(a.archive, user, a.now);
    forall i | i in counted ensures i in sent { assert SameButUsed(a.invites[i], a.archive[i]); }
    forall i | i in sent ensures i in counted { assert SameButUsed(a.invites[i], a.archive[i]); }
    assert counted == sent;
  }

  lemma RevokeInviteByRow(a: Accounts, id: int, user: int)
    ensures var b := Apply(a, RevokeInvite(id, user));
      && b == a.(invites := b.invites) && OnlyRow(a.invites, b.invites, id)
      && (id in a.invites ==>
            id in b.invites
            && if a.invites[id].user == user && a.invites[id].usedAt.None?
               then b.invites[id] == a.invites[id].(usedAt := Some(a.now)) else b.invites[id] == a.invites[id])
  {
  }

  /** The cleanup deletes invites a week past their expiry, and nothing else. */
  lemma CleanInvitesByRow(a: Accounts, id: int)
    ensures var b := Apply(a, CleanInvites);
      && b == a.(invites := b.invites)
      && (id in b.invites <==> id in a.invites && a.now <= a.invites[id].expires + 7 * 24 * 3600)
      && (id in b.invites ==> b.invites[id] == a.invites[id])
  {
  }

  // ---- how long an approval lasts ---------------------------------------------------------------------

  predicate ApprovedAs(a: Accounts, user: int, rowId: int, key: External) {
    rowId in a.identities && a.identities[rowId] == Identity(user, key, true)
  }

  lemma ApprovalForAStep(a: Accounts, step: Step, user: int, rowId: int, key: External)
    requires ApprovedAs(a, user, rowId, key) && step != Unlink(rowId, user)
    ensures ApprovedAs(Apply(a, step), user, rowId, key)
  {
  }

  /** The user has been bound and no identity of theirs is approved. */
  ghost predicate NoneApproved(a: Accounts, user: int) {
    && user in a.users && a.users[user].adminBound.Some?
    && forall i :: i in a.identities && a.identities[i].user == user ==> !a.identities[i].adminOk
  }

  lemma NoApprovalForAStep(a: Accounts, step: Step, user: int)
    requires NoneApproved(a, user)
    ensures NoneApproved(Apply(a, step), user)
  {
  }

  lemma {:induction false} NoApprovalForGood(a: Accounts, steps: seq<Step>, user: int)
    requires NoneApproved(a, user)
    ensures NoneApproved(Run(a, steps), user)
    decreases |steps|
  {
    if steps != [] {
      NoApprovalForAStep(a, steps[0], user);
      NoApprovalForGood(Apply(a, steps[0]), steps[1..], user);
    }
  }

  lemma {:induction false} ApprovedUntilUnlinked(a: Accounts, steps: seq<Step>, user: int, rowId: int, key: External)
    requires Inv(a) && ApprovedAs(a, user, rowId, key)
    ensures ApprovedAs(Run(a, steps), user, rowId, key) <==> Unlink(rowId, user) !in steps
    decreases |steps|
  {
    if steps != [] {
      if steps[0] == Unlink(rowId, user) {
        NoApprovalForGood(Apply(a, steps[0]), steps[1..], user);
      } else {
        ApprovalForAStep(a, steps[0], user, rowId, key);
        StepKeepsInv(a, steps[0]);
        ApprovedUntilUnlinked(Apply(a, steps[0]), steps[1..], user, rowId, key);
      }
    }
  }

  /** The identity an admin approves is approved from then on, exactly as long as nobody unlinks it. */
  lemma ApprovalLasts(a: Accounts, user: int, rowId: int, steps: seq<Step>)
    requires Inv(a) && Binds(a, user, rowId)
    ensures ApprovedAs(Run(Apply(a, BindAdmin(user, rowId)), steps), user, rowId, a.identities[rowId].key)
            <==> Unlink(rowId, user) !in steps
  {
    ApprovalByRow(a, user, rowId);
    StepKeepsInv(a, BindAdmin(user, rowId));
    ApprovedUntilUnlinked(Apply(a, BindAdmin(user, rowId)), steps, user, rowId, a.identities[rowId].key);
  }

  // ---- how long an invite lasts -----------------------------------------------------------------------

  /** The steps that may use up an invite before its day is over. */
  predicate Ends(step: Step, id: int, user: int, provider: int) {
    || (step.SendInvite? && step.userId == user && step.provider == provider)
    || (step.ChangeEmail? && step.userId == user)
    || step == Deactivate(user)
    || step == RevokeInvite(id, user)
    || (step.FinishLink? && step.inviteId == id)
  }

  predicate NoneEnds(steps: seq<Step>, id: int, user: int, provider: int) {
    forall i :: 0 <= i < |steps| ==> !Ends(steps[i], id, user, provider)
  }

  predicate OpenInvite(a: Accounts, id: int, row: Invite) {
    id < a.nextInvite && id in a.invites && a.invites[id] == row && row.usedAt.None?
  }

  lemma OpenForAStep(a: Accounts, step: Step, id: int, row: Invite)
    requires OpenInvite(a, id, row) && !Ends(step, id, row.user, row.provider) && a.now <= row.expires
    ensures OpenInvite(Apply(a, step), id, row)
  {
  }

  lemma {:induction false} OpenWhileItLasts(a: Accounts, steps: seq<Step>, id: int, row: Invite)
    requires Inv(a) && OpenInvite(a, id, row) && NoneEnds(steps, id, row.user, row.provider)
    requires Run(a, steps).now <= row.expires
    ensures OpenInvite(Run(a, steps), id, row)
    decreases |steps|
  {
    if steps != [] {
      RunEvolves(a, steps);
      OpenForAStep(a, steps[0], id, row);
      StepKeepsInv(a, steps[0]);
      OpenWhileItLasts(Apply(a, steps[0]), steps[1..], id, row);
    }
  }

  /**
    An invite is good for 24 hours at its own service and provider, and nowhere else, unless it is used,
    revoked or replaced, or its user is deactivated or given another address; what other users do never ends it.
  */
  lemma InviteLasts(a: Accounts, user: int, provider: int, service: ServiceId, email: Email, steps: seq<Step>,
                    atProvider: int, atService: ServiceId)
    requires Inv(a) && user in a.users && QuotaOpen(a, user) && NoneEnds(steps, a.nextInvite, user, provider)
    ensures var b := Run(Apply(a, SendInvite(user, provider, service, email)), steps);
      InviteValid(b, a.nextInvite, atProvider, atService)
      <==> atProvider == provider && atService == service && b.now < a.now + 24 * 3600
  {
    var sent := Apply(a, SendInvite(user, provider, service, email));
    SendByRow(a, user, provider, service, email);
    StepKeepsInv(a, SendInvite(user, provider, service, email));
    if Run(sent, steps).now <= a.now + 24 * 3600 {
      OpenWhileItLasts(sent, steps, a.nextInvite, sent.invites[a.nextInvite]);
    } else {
      RunEvolves(sent, steps);
    }
  }

  /** A revoked invite never validates again. */
  lemma RevokedInviteDies(a: Accounts, id: int, user: int, steps: seq<Step>, provider: int, service: ServiceId)
    requires Inv(a) && id in a.invites && a.invites[id].user == user
    ensures !InviteValid(Run(Apply(a, RevokeInvite(id, user)), steps), id, provider, service)
  {
    RevokeInviteByRow(a, id, user);
    StepKeepsInv(a, RevokeInvite(id, user));
    InviteUsedOnce(Apply(a, RevokeInvite(id, user)), id, steps, provider, service);
  }

  /** Sending a new invite takes the earlier one for the same user and provider out of use for good. */
  lemma ReplacedInviteDies(a: Accounts, id: int, service: ServiceId, email: Email, steps: seq<Step>,
                           atProvider: int, atService: ServiceId)
    requires Inv(a) && id in a.invites && a.invites[id].user in a.users && QuotaOpen(a, a.invites[id].user)
    ensures var b := Run(Apply(a, SendInvite(a.invites[id].user, a.invites[id].provider, service, email)), steps);
      !InviteValid(b, id, atProvider, atService)
  {
    var row := a.invites[id];
    var step := SendInvite(row.user, row.provider, service, email);
    SendByRow(a, row.user, row.provider, service, email);
    StepKeepsInv(a, step);
    assert id in a.archive && id != a.nextInvite;
    InviteUsedOnce(Apply(a, step), id, steps, atProvider, atService);
  }
}
