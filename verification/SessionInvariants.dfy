/** The shape every reachable ledger has: what a refresh family looks like. */
module SessionInvariants {
  import opened Common
  import opened SessionLedger

  /** What all rows of a family have in common. */
  datatype Shared = Shared(user: Option<int>, service: Option<string>, email: string, ends: Option<int>, revoked: bool)

  function SharedOf(row: RefreshRow): Shared {
    Shared(row.user, row.service, row.email, row.familyExpires, row.revoked)
  }

  ghost predicate FamiliesAgree(rows: RefreshTable) {
    forall h, k :: h in rows && k in rows && rows[h].family == rows[k].family ==> SharedOf(rows[h]) == SharedOf(rows[k])
  }

  ghost predicate OneUnused(rows: RefreshTable) {
    forall h, k :: h in rows && k in rows && rows[h].family == rows[k].family && !rows[h].used && !rows[k].used ==>
      h == k
  }

  ghost predicate ChildOf(rows: RefreshTable, k: Hash, h: Hash) {
    k in rows && rows[k].parent == Some(h)
  }

  /** A parent pointer names a used row of the same family that expires no later than the child. */
  ghost predicate ParentsStored(rows: RefreshTable) {
    forall k, h :: ChildOf(rows, k, h) ==>
      && h in rows
      && rows[h].used
      && rows[h].family == rows[k].family
      && rows[h].expires <= rows[k].expires
  }

  ghost predicate OneChild(rows: RefreshTable) {
    forall j, k, h :: ChildOf(rows, j, h) && ChildOf(rows, k, h) ==> j == k
  }

  ghost predicate HasChild(rows: RefreshTable, h: Hash) {
    exists k :: ChildOf(rows, k, h)
  }

  ghost predicate UsedHaveChildren(rows: RefreshTable) {
    forall h {:trigger HasChild(rows, h)} :: h in rows && rows[h].used ==> HasChild(rows, h)
  }

  ghost predicate Timely(rows: RefreshTable, now: int) {
    forall h :: h in rows ==>
      && rows[h].created <= now
      && rows[h].expires == ComputeExpires(rows[h].created, rows[h].familyExpires)
      && (rows[h].revoked <==> rows[h].reason.Some?)
  }

  ghost predicate RowsDrawn(l: Ledger) {
    forall h :: h in l.refresh ==> h in l.drawnTokens && l.refresh[h].family in l.drawnFamilies
  }

  ghost predicate CodesShaped(l: Ledger) {
    && (forall c :: c in l.codes ==>
      && c in l.drawnCodes
      && (l.codes[c].used <==> l.codes[c].family.Some?)
      && (l.codes[c].used ==> l.codes[c].family.value in l.drawnFamilies))
    && (forall c, d :: c in l.codes && d in l.codes && l.codes[c].used && l.codes[c].family == l.codes[d].family ==>
          c == d)
  }

  ghost predicate Shape(rows: RefreshTable) {
    FamiliesAgree(rows) && OneUnused(rows) && ParentsStored(rows) && OneChild(rows) && UsedHaveChildren(rows)
  }

  ghost predicate Inv(l: Ledger) {
    Shape(l.refresh) && Timely(l.refresh, l.now) && RowsDrawn(l) && CodesShaped(l)
  }

  // ---- every step keeps the invariant -------------------------------------------------------

  /** `rows'` is `rows` plus an unused row `h`, whose parent, if it has one, becomes used. */
  ghost predicate Extends(rows: RefreshTable, rows': RefreshTable, h: Hash) {
    && h !in rows && rows'.Keys == rows.Keys + {h} && !rows'[h].used && !rows'[h].revoked
    && (forall k :: k in rows ==>
          && rows'[k] == rows[k].(used := rows'[k].used)
          && (rows'[k].used <==> rows[k].used || rows'[h].parent == Some(k)))
    && match rows'[h].parent
       case None => forall k :: k in rows ==> rows[k].family != rows'[h].family
       case Some(p) =>
         && p in rows && !rows[p].used && !rows[p].revoked && rows[p].expires <= rows'[h].expires
         && rows'[h].family == rows[p].family && SharedOf(rows'[h]) == SharedOf(rows[p])
  }

  lemma ChainsAfterInsert(rows: RefreshTable, rows': RefreshTable, h: Hash)
    requires ParentsStored(rows) && OneChild(rows) && UsedHaveChildren(rows) && Extends(rows, rows', h)
    ensures ParentsStored(rows') && OneChild(rows') && UsedHaveChildren(rows')
  {
    forall k, p | ChildOf(rows', k, p) ensures k == h || ChildOf(rows, k, p) {}
    forall k | k in rows' && rows'[k].used ensures HasChild(rows', k) {
      if rows'[h].parent == Some(k) {
        assert ChildOf(rows', h, k);
      } else {
        assert HasChild(rows, k);
        var c :| ChildOf(rows, c, k);
        assert ChildOf(rows', c, k);
      }
    }
  }

  lemma AgreementAfterInsert(rows: RefreshTable, rows': RefreshTable, h: Hash)
    requires FamiliesAgree(rows) && OneUnused(rows) && Extends(rows, rows', h)
    ensures FamiliesAgree(rows') && OneUnused(rows')
  {
  }

  lemma IssueKeeps(l: Ledger, root: NewRoot)
    requires Inv(l) && RootOk(l, root)
    ensures Inv(Issued(l, root))
  {
    ChainsAfterInsert(l.refresh, Issued(l, root).refresh, root.hash);
    AgreementAfterInsert(l.refresh, Issued(l, root).refresh, root.hash);
  }

  lemma RedeemKeeps(l: Ledger, code: Hash, root: NewRoot)
    requires Inv(l) && RootOk(l, root) && code in l.codes
    ensures Inv(Redeemed(l, code, root))
  {
    IssueKeeps(l, root);
  }

  lemma RotateKeeps(l: Ledger, hash: Hash, child: Hash)
    requires Inv(l) && RotateSucceeds(l, hash, child, true)
    ensures Inv(Rotated(l, hash, child))
  {
    var rows, rows' := l.refresh, Rotated(l, hash, child).refresh;
    assert rows[hash].expires <= rows'[child].expires;
    ChainsAfterInsert(rows, rows', child);
    AgreementAfterInsert(rows, rows', child);
  }

  /** Only `revoked` and `reason` change, and alike within each family. */
  ghost predicate Revokes(rows: RefreshTable, rows': RefreshTable) {
    && rows'.Keys == rows.Keys
    && (forall h :: h in rows ==>
          rows'[h] == rows[h].(revoked := rows'[h].revoked, reason := rows'[h].reason)
          && (rows'[h].revoked <==> rows'[h].reason.Some?))
    && (forall h, k :: h in rows && k in rows && rows[h].family == rows[k].family ==>
          rows'[h].revoked == rows'[k].revoked)
  }

  lemma RevokingKeeps(rows: RefreshTable, rows': RefreshTable, now: int)
    requires Shape(rows) && Timely(rows, now) && Revokes(rows, rows')
    ensures Shape(rows') && Timely(rows', now)
  {
    ChainsAfterRevoking(rows, rows');
  }

  lemma RevokeFamilyKeeps(rows: RefreshTable, family: FamilyId, why: string, now: int)
    requires Shape(rows) && Timely(rows, now)
    ensures Shape(RevokeFamilyRows(rows, family, why)) && Timely(RevokeFamilyRows(rows, family, why), now)
  {
    RevokingKeeps(rows, RevokeFamilyRows(rows, family, why), now);
  }

  lemma RevokeUserKeeps(rows: RefreshTable, user: int, why: string, now: int)
    requires Shape(rows) && Timely(rows, now)
    ensures Shape(RevokeUserRows(rows, user, why)) && Timely(RevokeUserRows(rows, user, why), now)
  {
    RevokingKeeps(rows, RevokeUserRows(rows, user, why), now);
  }

  lemma ChainsAfterRevoking(rows: RefreshTable, rows': RefreshTable)
    requires ParentsStored(rows) && OneChild(rows) && UsedHaveChildren(rows) && Revokes(rows, rows')
    ensures ParentsStored(rows') && OneChild(rows') && UsedHaveChildren(rows')
  {
    forall k, h ensures ChildOf(rows', k, h) <==> ChildOf(rows, k, h) {}
    forall h | h in rows' && rows'[h].used ensures HasChild(rows', h) {
      assert HasChild(rows, h);
      var k :| ChildOf(rows, k, h);
      assert ChildOf(rows', k, h);
    }
  }

  /** A child outlives its parent, so deleting it takes the parent along. */
  lemma ChainsAfterDeleting(rows: RefreshTable, now: int)
    requires ParentsStored(rows) && OneChild(rows) && UsedHaveChildren(rows)
    requires forall h, k :: ChildOf(rows, k, h) ==> rows[h].familyExpires == rows[k].familyExpires
    ensures var rows' := DeleteExpired(rows, now); ParentsStored(rows') && OneChild(rows') && UsedHaveChildren(rows')
  {
    var rows' := DeleteExpired(rows, now);
    forall k, h | ChildOf(rows', k, h) ensures ChildOf(rows, k, h) && h in rows' {}
    forall h | h in rows' && rows'[h].used ensures HasChild(rows', h) {
      assert HasChild(rows, h);
      var k :| ChildOf(rows, k, h);
      assert ChildOf(rows', k, h);
    }
  }

  lemma AgreementAfterDeleting(rows: RefreshTable, now: int)
    requires FamiliesAgree(rows) && OneUnused(rows) && Timely(rows, now)
    ensures var rows' := DeleteExpired(rows, now); FamiliesAgree(rows') && OneUnused(rows') && Timely(rows', now)
  {
    var rows' := DeleteExpired(rows, now);
    forall h | h in rows' ensures SharedOf(rows'[h]) == SharedOf(rows[h]) && rows'[h].family == rows[h].family {
    }
  }

  lemma DeletingKeeps(rows: RefreshTable, now: int)
    requires Shape(rows) && Timely(rows, now)
    ensures Shape(DeleteExpired(rows, now)) && Timely(DeleteExpired(rows, now), now)
  {
    forall h, k | ChildOf(rows, k, h) ensures rows[h].familyExpires == rows[k].familyExpires {
      assert SharedOf(rows[h]) == SharedOf(rows[k]);
    }
    ChainsAfterDeleting(rows, now);
    AgreementAfterDeleting(rows, now);
  }

  lemma CleanRefreshKeeps(l: Ledger)
    requires Inv(l)
    ensures Inv(Apply(l, CleanRefresh))
  {
    DeletingKeeps(l.refresh, l.now);
  }

  lemma CodeStepKeeps(l: Ledger, step: Step)
    requires Inv(l) && (step.CreateCode? || step.CleanCodes?)
    ensures Inv(Apply(l, step))
  {
  }

  lemma StepKeepsInv(l: Ledger, step: Step)
    requires Inv(l)
    ensures Inv(Apply(l, step))
  {
    match step
    case Issue(root) =>
      if RootOk(l, root) { IssueKeeps(l, root); }
    case Redeem(claim, root, insertOk) =>
      if RedeemSucceeds(l, claim, root, insertOk) { RedeemKeeps(l, claim.code, root); }
    case Rotate(hash, child, insertOk) =>
      if RotateSucceeds(l, hash, child, insertOk) { RotateKeeps(l, hash, child); }
    case RevokeFamily(family, why) =>
      RevokeFamilyKeeps(l.refresh, family, why, l.now);
    case RevokeUser(user, why) =>
      RevokeUserKeeps(l.refresh, user, why, l.now);
    case CleanRefresh =>
      CleanRefreshKeeps(l);
    case CreateCode(_) | CleanCodes =>
      CodeStepKeeps(l, step);
    case Tick(_) | SaveUser(_, _) =>
  }

  lemma {:induction false} RunKeepsInv(l: Ledger, steps: seq<Step>)
    requires Inv(l)
    ensures Inv(Run(l, steps))
    decreases |steps|
  {
    if steps != [] {
      StepKeepsInv(l, steps[0]);
      RunKeepsInv(Apply(l, steps[0]), steps[1..]);
    }
  }

  /**
    Family shape, over every run from empty tables: rows of a family agree on everything but
    their place in the chain, a row is used exactly when its one child is stored, and at most
    one row of a family can be consumed, within 30 days of its issue and before the family ends.
  */
  lemma FamilyShape(start: int, steps: seq<Step>)
    ensures var l := Run(Empty(start), steps); var rows := l.refresh;
      && (forall h, k :: h in rows && k in rows && rows[h].family == rows[k].family ==>
            && rows[h].user == rows[k].user && rows[h].service == rows[k].service && rows[h].email == rows[k].email
            && rows[h].familyExpires == rows[k].familyExpires && rows[h].revoked == rows[k].revoked
            && (Consumable(rows[h], l.now) && Consumable(rows[k], l.now) ==> h == k))
      && (forall h :: h in rows ==> (rows[h].used <==> exists k :: ChildOf(rows, k, h)))
      && (forall j, k, h :: ChildOf(rows, j, h) && ChildOf(rows, k, h) ==> j == k)
      && (forall h :: h in rows && Consumable(rows[h], l.now) ==>
            l.now < rows[h].created + 30 * 24 * 3600
            && (rows[h].familyExpires.Some? ==> l.now < rows[h].familyExpires.value))
  {
    RunKeepsInv(Empty(start), steps);
    var rows := Run(Empty(start), steps).refresh;
    forall h, k | h in rows && k in rows && rows[h].family == rows[k].family
      ensures SharedOf(rows[h]) == SharedOf(rows[k])
    {
    }
    forall h | h in rows ensures rows[h].used <==> exists k :: ChildOf(rows, k, h) {
      if rows[h].used { assert HasChild(rows, h); }
    }
  }
}
