/**
  The admin panel's transactions that reach across tables: sessions, accounts and magic links change
  together or not at all.
*/
module AdminTransactions {
  import opened Common
  import S = SessionLedger
  import SI = SessionInvariants
  import SH = SessionHistory
  import SL = SessionLifetimes
  import A = AccountLedger
  import AI = AccountInvariants
  import AH = AccountHistory
  import AL = AccountLifetimes
  import M = MagicTokens
  import AccountStore
  import SessionStore

  /**
    One database, seen as the three groups of tables; `address` is the normalised address magic links are
    kept under.
  */
  class Database {
    const accounts: AccountStore.Store
    const sessions: SessionStore.Store
    const magic: M.Store
    const address: A.Email -> M.Email

    constructor (accounts: AccountStore.Store, sessions: SessionStore.Store, magic: M.Store,
                 address: A.Email -> M.Email)
      ensures this.accounts == accounts && this.sessions == sessions && this.magic == magic && this.address == address
    {
      this.accounts, this.sessions, this.magic, this.address := accounts, sessions, magic, address;
    }

    method RevokeSessions(user: int, why: string)
      modifies sessions`refresh
      ensures sessions.Model() == S.Apply(old(sessions.Model()), S.RevokeUser(user, why))
      ensures SL.SignedOut(old(sessions.Model()), sessions.Model(), user, why)
    {
      SL.RevokeUserByRow(sessions.Model(), user, why);
      sessions.refresh := S.RevokeUserRows(sessions.refresh, user, why);
    }

    /**
      HandleEmailChange: the revocation comes first and is rolled back with everything else when the
      user is gone, the address is the same, or another user has it.
    */
    method ChangeEmail(user: int, email: A.Email) returns (res: AccountStore.EmailResult)
      requires AI.UsersUnique(accounts.users)
      modifies accounts, sessions`refresh, magic
      ensures res.EmailSet? <==> user in old(accounts.users) && A.EmailFree(old(accounts.users), email)
      ensures accounts.Model() == A.Apply(old(accounts.Model()), A.ChangeEmail(user, email))
      ensures res.EmailSet? ==>
                && AL.Readdresses(old(accounts.Model()), accounts.Model(), user, email)
                && sessions.Model() == S.Apply(old(sessions.Model()), S.RevokeUser(user, "email_changed"))
                && SL.SignedOut(old(sessions.Model()), sessions.Model(), user, "email_changed")
                && magic.Model() == M.Apply(old(magic.Model()),
                                            M.BurnFor(address(old(accounts.users)[user].email), address(email)))
      ensures !res.EmailSet? ==> sessions.Model() == old(sessions.Model()) && magic.Model() == old(magic.Model())
    {
      var saved := sessions.refresh;
      RevokeSessions(user, "email_changed");
      if user !in accounts.users {
        sessions.refresh := saved;
        return AccountStore.NoUser;
      }
      var oldEmail := accounts.users[user].email;
      res := accounts.ChangeEmailTx(user, email);
      if !res.EmailSet? {
        sessions.refresh := saved;
        return;
      }
      magic.BurnTokens(address(oldEmail), address(email));
    }

    /** HandleUnlink: the identity goes and the sessions of its user with it, or nothing happens. */
    method Unlink(rowId: int, user: int) returns (ok: bool)
      modifies accounts, sessions`refresh
      ensures ok <==> rowId in old(accounts.identities) && old(accounts.identities)[rowId].user == user
      ensures accounts.Model() == A.Apply(old(accounts.Model()), A.Unlink(rowId, user))
      ensures sessions.Model() == if ok then S.Apply(old(sessions.Model()), S.RevokeUser(user, "identity_unlinked"))
                                  else old(sessions.Model())
      ensures ok ==> AL.Unlinks(old(accounts.Model()), accounts.Model(), rowId)
                     && SL.SignedOut(old(sessions.Model()), sessions.Model(), user, "identity_unlinked")
    {
      ok := accounts.UnlinkTx(rowId, user);
      if ok {
        RevokeSessions(user, "identity_unlinked");
      }
    }

    /** HandleDeactivate: the sessions are revoked after the transaction, and that may fail on its own. */
    method Deactivate(user: int, revokeOk: bool) returns (ok: bool)
      modifies accounts, sessions`refresh
      ensures ok <==> user in old(accounts.users)
      ensures accounts.Model() == A.Apply(old(accounts.Model()), A.Deactivate(user))
      ensures sessions.Model() ==
                if ok && revokeOk then S.Apply(old(sessions.Model()), S.RevokeUser(user, "user_deactivated"))
                else old(sessions.Model())
      ensures ok ==> AL.SwitchesOff(old(accounts.Model()), accounts.Model(), user)
      ensures ok && revokeOk ==> SL.SignedOut(old(sessions.Model()), sessions.Model(), user, "user_deactivated")
    {
      ok := accounts.DeactivateTx(user);
      if ok && revokeOk {
        RevokeSessions(user, "user_deactivated");
      }
    }
  }

  /** Revoked sessions of a user stay dead, whatever happens next. */
  lemma SessionsStayDead(l: S.Ledger, user: int, why: string, steps: seq<S.Step>, h: S.Hash, child: S.Hash, ok: bool)
    requires SI.Inv(l) && h in l.refresh && l.refresh[h].user == Some(user)
    ensures !S.RotateSucceeds(S.Run(S.Apply(l, S.RevokeUser(user, why)), steps), h, child, ok)
  {
    SI.StepKeepsInv(l, S.RevokeUser(user, why));
    SH.RevocationIsFinal(S.Apply(l, S.RevokeUser(user, why)), steps, h);
  }

  /** Magic links of either address are spent by the change. */
  lemma LinksStaySpent(m: M.State, from: M.Email, to: M.Email, steps: seq<M.Step>, hash: M.Hash, purpose: M.Purpose)
    requires M.Inv(m) && hash in m.archive && (m.archive[hash].email == from || m.archive[hash].email == to)
    ensures !M.Consumes(M.Run(M.Apply(m, M.BurnFor(from, to)), steps), hash, purpose)
  {
    var burned := M.Apply(m, M.BurnFor(from, to));
    assert M.Run(m, [M.BurnFor(from, to)]) == M.Run(burned, []);
    M.RunKeeps(m, [M.BurnFor(from, to)]);
    M.UsedStaysUsed(burned, hash, steps, purpose);
  }

  /**
    A change of address cuts everything that hung on the old one: whatever the three groups of tables
    go through afterwards, no session the user had is refreshed, no invite sent to the user links
    anything, and no magic link mailed to either address logs anybody in.
  */
  lemma AddressChangeCutsOff(l: S.Ledger, a: A.Accounts, m: M.State, user: int, email: A.Email,
                             address: A.Email -> M.Email,
                             after: seq<S.Step>, later: seq<A.Step>, rest: seq<M.Step>)
    requires SI.Inv(l) && AI.Inv(a) && M.Inv(m) && user in a.users && A.EmailFree(a.users, email)
    ensures var l' := S.Run(S.Apply(l, S.RevokeUser(user, "email_changed")), after);
      forall h, child, ok :: h in l.refresh && l.refresh[h].user == Some(user) ==> !S.RotateSucceeds(l', h, child, ok)
    ensures var a' := A.Run(A.Apply(a, A.ChangeEmail(user, email)), later);
      forall id, provider, service, rowId, key :: id in a.invites && a.invites[id].user == user ==>
        !A.LinkFinishes(a', id, provider, service, rowId, key)
    ensures var from, to := address(a.users[user].email), address(email);
      var m' := M.Run(M.Apply(m, M.BurnFor(from, to)), rest);
      forall hash, purpose :: hash in m.archive && (m.archive[hash].email == from || m.archive[hash].email == to) ==>
        !M.Consumes(m', hash, purpose)
  {
    var l' := S.Run(S.Apply(l, S.RevokeUser(user, "email_changed")), after);
    forall h, child, ok | h in l.refresh && l.refresh[h].user == Some(user)
      ensures !S.RotateSucceeds(l', h, child, ok)
    {
      SessionsStayDead(l, user, "email_changed", after, h, child, ok);
    }
    var a' := A.Run(A.Apply(a, A.ChangeEmail(user, email)), later);
    forall id, provider, service, rowId, key | id in a.invites && a.invites[id].user == user
      ensures !A.LinkFinishes(a', id, provider, service, rowId, key)
    {
      AH.OldInvitesDie(a, user, A.ChangeEmail(user, email), later, id, provider, service, rowId, key);
    }
    var from, to := address(a.users[user].email), address(email);
    forall hash, purpose | hash in m.archive && (m.archive[hash].email == from || m.archive[hash].email == to)
      ensures !M.Consumes(M.Run(M.Apply(m, M.BurnFor(from, to)), rest), hash, purpose)
    {
      LinksStaySpent(m, from, to, rest, hash, purpose);
    }
  }
}
