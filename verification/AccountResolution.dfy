/**
  Identity resolution, as a relation between the schedule of the other requests and what one login
  answers and leaves behind. `h.at(j)` is the state at this request's j-th database access as long as
  it has written nothing, so every state mentioned here is one the request really passed.
*/
module AccountResolution {
  import opened Common
  import opened AccountLedger
  import opened AccountInvariants
  import opened AccountHistory

  datatype LinkPolicy = LinkPolicy(autoLink: bool, autoRegister: bool, emailUntrusted: bool)

  /** A verified external identity with the policy of the service it logs in to. */
  datatype Login = Login(key: External, email: Email, pol: LinkPolicy)

  datatype Outcome =
    | Matched(user: int, rowId: int)
    | Linked(user: int, rowId: int)
    | Registered(user: int)
    | NoAccount | LinkDenied | Inactive | Conflict | DbError
    | Retry

  predicate Refusal(o: Outcome) {
    o.NoAccount? || o.LinkDenied? || o.Inactive? || o.Conflict?
  }

  /** What the other requests do before this request's k-th database access, counted from 0. */
  function Slot(sched: seq<seq<Step>>, k: nat): seq<Step> {
    if k < |sched| then sched[k] else []
  }

  /** What the other requests did before its first j accesses were over, in order. */
  function Others(sched: seq<seq<Step>>, j: nat): seq<Step> {
    if j == 0 then [] else Others(sched, j - 1) + Slot(sched, j - 1)
  }

  /** The states at this request's accesses, and what the others do between access j and the next. */
  datatype History = History(at: nat -> Accounts, gap: nat -> seq<Step>)

  ghost function HistoryOf(start: Accounts, sched: seq<seq<Step>>): History {
    History((j: nat) => Run(start, Others(sched, j)), (j: nat) => Slot(sched, j))
  }

  ghost predicate Describes(h: History, sched: seq<seq<Step>>) {
    forall j: nat :: h.gap(j) == Slot(sched, j) && h.at(j + 1) == Run(h.at(j), h.gap(j))
  }

  lemma HistoryDescribes(start: Accounts, sched: seq<seq<Step>>)
    ensures Describes(HistoryOf(start, sched), sched) && HistoryOf(start, sched).at(0) == start
  {
    forall j: nat ensures Run(start, Others(sched, j + 1)) == Run(Run(start, Others(sched, j)), Slot(sched, j)) {
      RunConcat(start, Others(sched, j), Slot(sched, j));
    }
  }

  // ---- what the accesses look for -----------------------------------------------------------------

  ghost predicate ActiveHolder(a: Accounts, user: int, email: Email) {
    user in a.users && a.users[user].active && a.users[user].email == email
  }

  ghost predicate NobodyActive(a: Accounts, email: Email) {
    forall u :: u in a.users && a.users[u].active ==> a.users[u].email != email
  }

  ghost predicate OwnsActive(a: Accounts, user: int, key: External) {
    Owns(a.identities, user, key) && user in a.users && a.users[user].active
  }

  /** The insert of link reports no row: the identity has an owner or, without auto_link, the user an identity. */
  predicate LinkBlocked(a: Accounts, user: int, login: Login) {
    Owned(a.identities, login.key) || (!login.pol.autoLink && HasIdentity(a.identities, user))
  }

  /** A unique index stands in the way: the identity, the address or the public id is taken. */
  predicate RegisterBlocked(a: Accounts, publicId: PublicId, email: Email, key: External) {
    || Owned(a.identities, key) || !EmailFree(a.users, email)
    || exists u :: u in a.users && a.users[u].publicId == publicId
  }

  function LinkStep(rowId: int, user: int, login: Login): Step {
    if login.pol.autoLink then Link(rowId, user, login.key) else LinkIfFirst(rowId, user, login.key)
  }

  // ---- the relation -------------------------------------------------------------------------------

  /** matched: the owner of the row found in `found`, unless deactivated in `read`. */
  ghost predicate AnswersRow(o: Outcome, row: int, found: Accounts, read: Accounts, key: External) {
    && row in found.identities && found.identities[row].key == key
    && var user := found.identities[row].user;
    && user in read.users
    && o == if read.users[user].active then Matched(user, row) else Inactive
  }

  ghost predicate AnswersOwner(o: Outcome, found: Accounts, read: Accounts, key: External) {
    exists row :: AnswersRow(o, row, found, read, key)
  }

  /** link after k accesses, the last of which inserted nothing; n accesses in all. */
  ghost predicate LostLink(o: Outcome, h: History, k: nat, n: nat, login: Login, user: int) {
    var again, last := h.at(k + 1), h.at(k + 2);
    if Owned(again.identities, login.key) && (login.pol.autoLink || Owns(again.identities, user, login.key)) then
      n == k + 2 && AnswersOwner(o, again, last, login.key)
    else if login.pol.autoLink then
      n == k + 1 && o == DbError
    else if Owns(last.identities, user, login.key) then
      n == k + 3 && AnswersOwner(o, last, h.at(k + 3), login.key)
    else
      n == k + 2 && o == LinkDenied
  }

  /** link with a row inserted: `rest` is what the others do before the row is read back. */
  ghost predicate TookLink(o: Outcome, row: int, before: Accounts, rest: seq<Step>, final: Accounts, login: Login,
                           user: int) {
    && LinkInserts(before, row, user, login.key)
    && final == Run(Apply(before, LinkStep(row, user, login)), rest)
    && if Owned(final.identities, login.key) then
         && o.Linked? && o.user == user
         && o.rowId in final.identities && final.identities[o.rowId].key == login.key
       else o == DbError
  }

  ghost predicate Took(o: Outcome, before: Accounts, rest: seq<Step>, final: Accounts, login: Login, user: int) {
    exists row :: TookLink(o, row, before, rest, final, login, user)
  }

  ghost predicate LinkRound(o: Outcome, h: History, k: nat, n: nat, final: Accounts, login: Login,
                            user: int) {
    var before := h.at(k + 1);
    if LinkBlocked(before, user, login) then
      LostLink(o, h, k + 1, n, login, user) && final == h.at(n)
    else
      n == k + 2 && Took(o, before, h.gap(k + 1), final, login, user)
  }

  ghost predicate Created(o: Outcome, row: int, before: Accounts, final: Accounts, login: Login, publicId: PublicId) {
    && o.Registered?
    && Registers(before, o.user, publicId, login.email, row, login.key)
    && final == Apply(before, Register(o.user, publicId, login.email, row, login.key))
  }

  ghost predicate UserCreated(o: Outcome, before: Accounts, final: Accounts, login: Login, publicId: PublicId) {
    exists row :: Created(o, row, before, final, login, publicId)
  }

  ghost predicate RegisterRound(o: Outcome, before: Accounts, final: Accounts, login: Login, publicId: PublicId) {
    if RegisterBlocked(before, publicId, login.email, login.key) then o == Retry && final == before
    else UserCreated(o, before, final, login, publicId)
  }

  /** resolveOnce for a login that has made k accesses; it ends after n of them with the tables `final`. */
  ghost predicate Round(o: Outcome, h: History, k: nat, n: nat, final: Accounts, login: Login,
                        publicId: PublicId) {
    if Owned(h.at(k + 1).identities, login.key) then
      && n == k + 2 && final == h.at(n)
      && AnswersOwner(o, h.at(k + 1), h.at(k + 2), login.key)
    else Unknown(o, h, k + 1, n, final, login, publicId)
  }

  /** The part for an identity nobody owned at access k. */
  ghost predicate Unknown(o: Outcome, h: History, k: nat, n: nat, final: Accounts, login: Login,
                          publicId: PublicId) {
    var seen := h.at(k + 1);
    if login.pol.emailUntrusted then n == k && o == NoAccount && final == h.at(n)
    else if !NobodyActive(seen, login.email) then
      exists user :: ActiveHolder(seen, user, login.email) && LinkRound(o, h, k + 1, n, final, login, user)
    else if !login.pol.autoRegister then n == k + 1 && o == NoAccount && final == seen
    else n == k + 2 && RegisterRound(o, h.at(k + 2), final, login, publicId)
  }

  /** The first round registered, lost against a unique index and left no trace. */
  ghost predicate LostOnce(h: History, login: Login, id1: PublicId) {
    Round(Retry, h, 0, 3, h.at(3), login, id1)
  }

  /** Before each attempt the login has made three accesses per lost attempt, and written nothing. */
  ghost predicate Pending(h: History, attempt: int, n: nat, now: Accounts, login: Login, id1: PublicId) {
    && 0 <= attempt <= 1 && n == 3 * attempt && now == h.at(n)
    && (attempt == 1 ==> LostOnce(h, login, id1))
  }

  /** resolveIdentity: one round, or two when the first one lost against a unique index. */
  ghost predicate Resolved(o: Outcome, h: History, n: nat, final: Accounts, login: Login,
                           id1: PublicId, id2: PublicId) {
    || (!o.Retry? && !o.Conflict? && Round(o, h, 0, n, final, login, id1))
    || (!o.Retry?
        && LostOnce(h, login, id1)
        && Round(if o.Conflict? then Retry else o, h, 3, n, final, login, id2))
  }

  lemma ResolvedInOneRound(o: Outcome, h: History, n: nat, final: Accounts, login: Login, id1: PublicId, id2: PublicId)
    requires !o.Retry? && !o.Conflict? && Round(o, h, 0, n, final, login, id1)
    ensures Resolved(o, h, n, final, login, id1, id2)
  {
  }

  /** The second round's answer is final; another lost registration becomes a conflict. */
  lemma ResolvedInTwoRounds(o: Outcome, h: History, n: nat, final: Accounts, login: Login, id1: PublicId, id2: PublicId)
    requires LostOnce(h, login, id1) && Round(o, h, 3, n, final, login, id2) && !o.Conflict?
    ensures Resolved(if o.Retry? then Conflict else o, h, n, final, login, id1, id2)
  {
  }

  // ---- what a round promises ----------------------------------------------------------------------

  lemma {:induction false} AtKeepsInv(h: History, sched: seq<seq<Step>>, j: nat)
    requires Describes(h, sched) && Inv(h.at(0))
    ensures Inv(h.at(j)) && Evolves(h.at(j), h.at(j + 1))
  {
    if j > 0 {
      AtKeepsInv(h, sched, j - 1);
      assert h.at(j) == Run(h.at(j - 1), h.gap(j - 1));
      RunKeepsInv(h.at(j - 1), h.gap(j - 1));
    }
    RunEvolves(h.at(j), h.gap(j));
  }

  lemma AfterLookup(o: Outcome, h: History, k: nat, n: nat, final: Accounts, login: Login,
                    publicId: PublicId)
    returns (user: int)
    requires Unknown(o, h, k, n, final, login, publicId)
    requires !login.pol.emailUntrusted && !NobodyActive(h.at(k + 1), login.email)
    ensures ActiveHolder(h.at(k + 1), user, login.email)
    ensures LinkRound(o, h, k + 1, n, final, login, user)
  {
    user :| ActiveHolder(h.at(k + 1), user, login.email)
            && LinkRound(o, h, k + 1, n, final, login, user);
  }

  /** The owner a round answers with, or refuses, was found at its last access but one and read at its last. */
  lemma OwnerWasRead(o: Outcome, h: History, k: nat, n: nat, final: Accounts, login: Login,
                     publicId: PublicId)
    requires Round(o, h, k, n, final, login, publicId) && (o.Matched? || o.Inactive?)
    ensures n >= k + 2 && final == h.at(n)
    ensures AnswersOwner(o, h.at(n - 1), h.at(n), login.key)
  {
    if !Owned(h.at(k + 1).identities, login.key) {
      var user := AfterLookup(o, h, k + 1, n, final, login, publicId);
    }
  }

  /** A link, or a database error after it, wrote one row between two accesses. */
  lemma LinkWasTaken(o: Outcome, h: History, k: nat, n: nat, final: Accounts, login: Login,
                     publicId: PublicId)
    returns (user: int, row: int)
    requires Round(o, h, k, n, final, login, publicId) && o.Linked?
    ensures n == k + 4 && !Owned(h.at(k + 1).identities, login.key) && !login.pol.emailUntrusted
    ensures ActiveHolder(h.at(k + 2), user, login.email)
    ensures !LinkBlocked(h.at(k + 3), user, login)
    ensures TookLink(o, row, h.at(k + 3), h.gap(k + 3), final, login, user)
  {
    user := AfterLookup(o, h, k + 1, n, final, login, publicId);
    row :| TookLink(o, row, h.at(k + 3), h.gap(k + 3), final, login, user);
  }

  lemma NewUserWasCreated(o: Outcome, h: History, k: nat, n: nat, final: Accounts, login: Login, publicId: PublicId)
    returns (row: int)
    requires Round(o, h, k, n, final, login, publicId) && o.Registered?
    ensures n == k + 3 && !login.pol.emailUntrusted && login.pol.autoRegister
    ensures !Owned(h.at(k + 1).identities, login.key) && NobodyActive(h.at(k + 2), login.email)
    ensures Created(o, row, h.at(n), final, login, publicId)
  {
    if !Owned(h.at(k + 1).identities, login.key) && !login.pol.emailUntrusted
       && !NobodyActive(h.at(k + 2), login.email) {
      var user := AfterLookup(o, h, k + 1, n, final, login, publicId);
    }
    row :| Created(o, row, h.at(n), final, login, publicId);
  }

  /** Nobody was found for the login: no owner, and no address to go by or nobody active at it. */
  ghost predicate NobodyFound(h: History, k: nat, login: Login) {
    && !Owned(h.at(k + 1).identities, login.key)
    && (login.pol.emailUntrusted || (!login.pol.autoRegister && NobodyActive(h.at(k + 2), login.email)))
  }

  lemma NoAccountMeansNobody(o: Outcome, h: History, k: nat, n: nat, final: Accounts, login: Login, publicId: PublicId)
    requires Round(o, h, k, n, final, login, publicId) && o.NoAccount?
    ensures NobodyFound(h, k, login) && final == h.at(n)
  {
    if !Owned(h.at(k + 1).identities, login.key) && !login.pol.emailUntrusted
       && !NobodyActive(h.at(k + 2), login.email) {
      var user := AfterLookup(o, h, k + 1, n, final, login, publicId);
    }
  }

  /** The user of the address could not be linked, and the identity was not theirs on the last reading either. */
  ghost predicate Denied(h: History, k: nat, n: nat, user: int, login: Login) {
    && !login.pol.autoLink && n == k + 5
    && !Owned(h.at(k + 1).identities, login.key)
    && ActiveHolder(h.at(k + 2), user, login.email)
    && LinkBlocked(h.at(k + 3), user, login)
    && !Owns(h.at(k + 4).identities, user, login.key)
    && !Owns(h.at(k + 5).identities, user, login.key)
  }

  lemma DenialHasItsReason(o: Outcome, h: History, k: nat, n: nat, final: Accounts, login: Login, publicId: PublicId)
    returns (user: int)
    requires Round(o, h, k, n, final, login, publicId) && o.LinkDenied?
    ensures Denied(h, k, n, user, login) && final == h.at(n)
  {
    user := AfterLookup(o, h, k + 1, n, final, login, publicId);
  }

  lemma RetryMeansBlocked(o: Outcome, h: History, k: nat, n: nat, final: Accounts, login: Login, publicId: PublicId)
    requires Round(o, h, k, n, final, login, publicId) && o.Retry?
    ensures login.pol.autoRegister && n == k + 3 && final == h.at(n)
    ensures RegisterBlocked(h.at(n), publicId, login.email, login.key)
  {
    if !Owned(h.at(k + 1).identities, login.key) && !login.pol.emailUntrusted
       && !NobodyActive(h.at(k + 2), login.email) {
      var user := AfterLookup(o, h, k + 1, n, final, login, publicId);
    }
  }

  // ---- what a login promises ----------------------------------------------------------------------

  /** The round that gave the answer, and the public id it was ready to use. */
  lemma LastRound(o: Outcome, h: History, n: nat, final: Accounts, login: Login, id1: PublicId, id2: PublicId)
    returns (k: nat, publicId: PublicId)
    requires Resolved(o, h, n, final, login, id1, id2)
    ensures k == 0 || k == 3
    ensures Round(if o.Conflict? then Retry else o, h, k, n, final, login, publicId)
    ensures publicId == if k == 0 then id1 else id2
  {
    if !o.Conflict? && Round(o, h, 0, n, final, login, id1) {
      return 0, id1;
    }
    return 3, id2;
  }

  /** A refusal, and an answer that needed no write, leave the tables as the other requests alone made them. */
  lemma RefusalWritesNothing(o: Outcome, h: History, n: nat, final: Accounts, login: Login,
                             id1: PublicId, id2: PublicId)
    requires Resolved(o, h, n, final, login, id1, id2) && (Refusal(o) || o.Matched?)
    ensures final == h.at(n)
  {
    var k, publicId := LastRound(o, h, n, final, login, id1, id2);
    match o
    case Matched(_, _) => OwnerWasRead(o, h, k, n, final, login, publicId);
    case Inactive => OwnerWasRead(o, h, k, n, final, login, publicId);
    case NoAccount => NoAccountMeansNobody(o, h, k, n, final, login, publicId);
    case LinkDenied => var _ := DenialHasItsReason(o, h, k, n, final, login, publicId);
    case Conflict => RetryMeansBlocked(Retry, h, k, n, final, login, publicId);
  }

  /** A known user owned the identity, in the row answered with, and was active, in one and the same state. */
  lemma MatchedWasActiveOwner(o: Outcome, h: History, sched: seq<seq<Step>>, n: nat, final: Accounts, login: Login,
                              id1: PublicId, id2: PublicId)
    requires Describes(h, sched) && Inv(h.at(0)) && Resolved(o, h, n, final, login, id1, id2) && o.Matched?
    ensures n >= 2
    ensures OwnsActive(h.at(n - 1), o.user, login.key) && Holds(h.at(n - 1).identities, o.rowId, o.user, login.key)
    ensures o.user in h.at(n).users && h.at(n).users[o.user].active
  {
    var k, publicId := LastRound(o, h, n, final, login, id1, id2);
    OwnerWasRead(o, h, k, n, final, login, publicId);
    AtKeepsInv(h, sched, n - 1);
  }

  /** A refusal as inactive means an owner who was deactivated when read. */
  lemma InactiveWasDeactivated(o: Outcome, h: History, n: nat, final: Accounts, login: Login,
                               id1: PublicId, id2: PublicId)
    requires Resolved(o, h, n, final, login, id1, id2) && o.Inactive?
    ensures n >= 2
    ensures exists user ::
      Owns(h.at(n - 1).identities, user, login.key) && user in h.at(n).users && !h.at(n).users[user].active
  {
    var k, publicId := LastRound(o, h, n, final, login, id1, id2);
    OwnerWasRead(o, h, k, n, final, login, publicId);
    var row :| AnswersRow(o, row, h.at(n - 1), h.at(n), login.key);
    assert Owns(h.at(n - 1).identities, h.at(n - 1).identities[row].user, login.key);
  }

  /** The reasons of the other refusals, each at the accesses of the round that gave it. */
  lemma RefusalHasItsReason(o: Outcome, h: History, n: nat, final: Accounts, login: Login, id1: PublicId, id2: PublicId)
    requires Resolved(o, h, n, final, login, id1, id2)
    ensures o.NoAccount? ==> NobodyFound(h, 0, login) || NobodyFound(h, 3, login)
    ensures o.LinkDenied? ==>
              (exists user :: Denied(h, 0, n, user, login)) || exists user :: Denied(h, 3, n, user, login)
    ensures o.Conflict? ==> login.pol.autoRegister && n == 6 && RegisterBlocked(h.at(3), id1, login.email, login.key)
                            && RegisterBlocked(h.at(6), id2, login.email, login.key)
  {
    var k, publicId := LastRound(o, h, n, final, login, id1, id2);
    if o.NoAccount? {
      NoAccountMeansNobody(o, h, k, n, final, login, publicId);
    } else if o.LinkDenied? {
      var user := DenialHasItsReason(o, h, k, n, final, login, publicId);
    } else if o.Conflict? {
      RetryMeansBlocked(Retry, h, 0, 3, h.at(3), login, id1);
      RetryMeansBlocked(Retry, h, 3, n, final, login, id2);
    }
  }

  /**
    A linked user was active with the login's address when looked up. The insert gave them the identity
    in `took`, and there they are active if and only if nobody deactivated them between lookup and insert.
  */
  lemma LinkedExactly(o: Outcome, h: History, sched: seq<seq<Step>>, n: nat, final: Accounts, login: Login,
                      id1: PublicId, id2: PublicId)
    returns (row: int, took: Accounts)
    requires Describes(h, sched) && Inv(h.at(0)) && Resolved(o, h, n, final, login, id1, id2) && o.Linked?
    ensures n >= 4 && !login.pol.emailUntrusted && ActiveHolder(h.at(n - 2), o.user, login.email)
    ensures h.at(n - 1) == Run(h.at(n - 2), Slot(sched, n - 2))
    ensures LinkInserts(h.at(n - 1), row, o.user, login.key)
    ensures took == WithIdentity(h.at(n - 1), row, o.user, login.key)
    ensures final == Run(took, Slot(sched, n - 1))
    ensures Owns(took.identities, o.user, login.key)
    ensures OwnsActive(took, o.user, login.key) <==> Deactivate(o.user) !in Slot(sched, n - 2)
    ensures o.rowId in final.identities && final.identities[o.rowId].key == login.key
  {
    var k, publicId := LastRound(o, h, n, final, login, id1, id2);
    var user;
    user, row := LinkWasTaken(o, h, k, n, final, login, publicId);
    took := WithIdentity(h.at(n - 1), row, user, login.key);
    assert h.at(n - 1) == Run(h.at(n - 2), h.gap(n - 2)) && h.gap(n - 1) == Slot(sched, n - 1);
    ActiveAtInsert(h.at(n - 2), Slot(sched, n - 2), row, user, login.key);
  }

  /** Whether a user seen active is still active when they get an identity depends on the steps in between only. */
  lemma ActiveAtInsert(seen: Accounts, gap: seq<Step>, row: int, user: int, key: External)
    requires user in seen.users && seen.users[user].active
    ensures var took := WithIdentity(Run(seen, gap), row, user, key);
      && Owns(took.identities, user, key)
      && (OwnsActive(took, user, key) <==> Deactivate(user) !in gap)
  {
    ActiveUntilDeactivated(seen, gap, user);
    assert Holds(WithIdentity(Run(seen, gap), row, user, key).identities, row, user, key);
  }

  /** A registered user is new, as are their address and identity, and is active and owns it. */
  lemma RegisteredIsNew(o: Outcome, h: History, n: nat, final: Accounts, login: Login, id1: PublicId, id2: PublicId)
    requires Resolved(o, h, n, final, login, id1, id2) && o.Registered?
    ensures !login.pol.emailUntrusted && login.pol.autoRegister
    ensures o.user !in h.at(n).users && EmailFree(h.at(n).users, login.email) && !Owned(h.at(n).identities, login.key)
    ensures OwnsActive(final, o.user, login.key) && final.users[o.user].email == login.email
    ensures forall u :: u in h.at(n).users ==> u in final.users && final.users[u] == h.at(n).users[u]
    ensures forall i :: i in h.at(n).identities ==>
              i in final.identities && final.identities[i] == h.at(n).identities[i]
  {
    var k, publicId := LastRound(o, h, n, final, login, id1, id2);
    var row := NewUserWasCreated(o, h, k, n, final, login, publicId);
    assert Holds(final.identities, row, o.user, login.key);
  }

  /** The login's one write in link: a row for the user, before the others' steps that follow. */
  ghost predicate Inserted(before: Accounts, rest: seq<Step>, final: Accounts, user: int, row: int, login: Login) {
    && !LinkBlocked(before, user, login) && LinkInserts(before, row, user, login.key)
    && final == Run(WithIdentity(before, row, user, login.key), rest)
  }

  ghost predicate LinkWritten(before: Accounts, rest: seq<Step>, final: Accounts, login: Login) {
    exists user, row :: Inserted(before, rest, final, user, row, login)
  }

  /** A link that ended in the user or in an error wrote one row, or lost against an owner and wrote nothing. */
  lemma LinkWritesOnce(o: Outcome, h: History, k: nat, n: nat, final: Accounts, login: Login, publicId: PublicId)
    requires Round(o, h, k, n, final, login, publicId) && (o.Linked? || o.DbError?)
    ensures n == k + 4
    ensures || LinkWritten(h.at(n - 1), h.gap(n - 1), final, login)
            || (o.DbError? && final == h.at(n) && login.pol.autoLink && Owned(h.at(n - 1).identities, login.key))
    ensures o.DbError? ==> !Owned(final.identities, login.key)
  {
    var user := AfterLookup(o, h, k + 1, n, final, login, publicId);
    if !LinkBlocked(h.at(k + 3), user, login) {
      var row :| TookLink(o, row, h.at(k + 3), h.gap(k + 3), final, login, user);
      assert Inserted(h.at(k + 3), h.gap(k + 3), final, user, row, login);
    }
  }

  /** A database error means that an identity this login saw owned, or inserted itself, is gone when read back. */
  lemma ErrorMeansVanished(o: Outcome, h: History, n: nat, final: Accounts, login: Login, id1: PublicId, id2: PublicId)
    requires Resolved(o, h, n, final, login, id1, id2) && o.DbError?
    ensures n >= 4 && !Owned(final.identities, login.key)
    ensures || LinkWritten(h.at(n - 1), h.gap(n - 1), final, login)
            || (final == h.at(n) && login.pol.autoLink && Owned(h.at(n - 1).identities, login.key))
  {
    var k, publicId := LastRound(o, h, n, final, login, id1, id2);
    LinkWritesOnce(o, h, k, n, final, login, publicId);
  }

  /**
    Whatever the outcome, a login at a service with auto_link off writes nothing, creates a new user, or adds
    the identity to a user who, at that very moment, has none.
  */
  lemma WithoutAutoLinkOnlyFirst(o: Outcome, h: History, n: nat, final: Accounts, login: Login,
                                 id1: PublicId, id2: PublicId)
    requires Resolved(o, h, n, final, login, id1, id2) && !login.pol.autoLink
    ensures || final == h.at(n)
            || (o.Registered? && UserCreated(o, h.at(n), final, login, if n == 3 then id1 else id2))
            || (n >= 4 && FirstLinkWritten(h.at(n - 1), h.gap(n - 1), final, login))
  {
    var k, publicId := LastRound(o, h, n, final, login, id1, id2);
    if Refusal(o) || o.Matched? {
      RefusalWritesNothing(o, h, n, final, login, id1, id2);
    } else if o.Registered? {
      var row := NewUserWasCreated(o, h, k, n, final, login, publicId);
      assert UserCreated(o, h.at(n), final, login, publicId);
    } else {
      LinkWritesOnce(o, h, k, n, final, login, publicId);
      var user, row :| Inserted(h.at(n - 1), h.gap(n - 1), final, user, row, login);
      assert FirstInserted(h.at(n - 1), h.gap(n - 1), final, user, row, login);
    }
  }

  ghost predicate FirstInserted(before: Accounts, rest: seq<Step>, final: Accounts, user: int, row: int, login: Login) {
    Inserted(before, rest, final, user, row, login) && !HasIdentity(before.identities, user)
  }

  ghost predicate FirstLinkWritten(before: Accounts, rest: seq<Step>, final: Accounts, login: Login) {
    exists user, row :: FirstInserted(before, rest, final, user, row, login)
  }

  // ---- ownership and activity need not coincide ---------------------------------------------------

  lemma RunOfOne(a: Accounts, step: Step)
    ensures Run(a, [step]) == Apply(a, step) && Run(a, []) == a
  {
    assert Run(Apply(a, step), []) == Apply(a, step);
  }

  /**
    A login whose user is deactivated between lookup and insert: it is answered with that user, who owns
    the identity from then on and is not active at any time they own it.
  */
  lemma LinkedWhileInactive(publicId: PublicId, email: Email, key: External, id1: PublicId, id2: PublicId)
    ensures var sched := [[CreateUser(1, publicId, email)], [], [Deactivate(1)]];
      var login := Login(key, email, LinkPolicy(false, false, false));
      var h := HistoryOf(Empty(0), sched);
      var final := WithIdentity(h.at(3), 7, 1, key);
      && Resolved(Linked(1, 7), h, 4, final, login, id1, id2)
      && Owns(final.identities, 1, key) && 1 in final.users && !final.users[1].active
  {
    var sched := [[CreateUser(1, publicId, email)], [], [Deactivate(1)]];
    var login := Login(key, email, LinkPolicy(false, false, false));
    var h := HistoryOf(Empty(0), sched);
    HistoryDescribes(Empty(0), sched);
    var a1 := Apply(Empty(0), CreateUser(1, publicId, email));
    var a3 := Apply(a1, Deactivate(1));
    assert h.at(0 + 1) == Run(h.at(0), h.gap(0)) == a1 by { RunOfOne(Empty(0), CreateUser(1, publicId, email)); }
    assert h.at(1 + 1) == Run(h.at(1), h.gap(1)) == a1 by { RunOfOne(a1, Deactivate(1)); }
    assert h.at(2 + 1) == Run(h.at(2), h.gap(2)) == a3 by { RunOfOne(a1, Deactivate(1)); }
    var final := WithIdentity(a3, 7, 1, key);
    assert h.gap(3) == [];
    assert ActiveHolder(a1, 1, email);
    assert final.identities[7] == Identity(1, key, false);
    assert TookLink(Linked(1, 7), 7, a3, [], final, login, 1);
    assert LinkRound(Linked(1, 7), h, 2, 4, final, login, 1);
  }
}
