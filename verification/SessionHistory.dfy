/** What can never be undone: facts about a ledger that hold in every continuation. */
module SessionHistory {
  import opened Common
  import opened SessionLedger
  import opened SessionInvariants

  /** `b` is the row `a` at a later time. */
  ghost predicate RowLater(a: RefreshRow, b: RefreshRow) {
    && b == a.(used := b.used, revoked := b.revoked, reason := b.reason, parent := b.parent)
    && (a.used ==> b.used)
    && (a.revoked ==> b.revoked && b.reason == a.reason)
    && (b.parent == a.parent || b.parent.None?)
  }

  ghost predicate CodeLater(a: CodeRow, b: CodeRow) {
    b == a.(used := b.used, family := b.family) && (a.used ==> b == a)
  }

  /** Some row of the family can still be rotated, now or after a clock correction. */
  ghost predicate Live(rows: RefreshTable, family: FamilyId) {
    exists h :: h in rows && rows[h].family == family && !rows[h].used && !rows[h].revoked
  }

  /** The family has been handed out, and every stored row of it is revoked. */
  ghost predicate Dead(l: Ledger, family: FamilyId) {
    && family in l.drawnFamilies
    && forall h :: h in l.refresh && l.refresh[h].family == family ==> l.refresh[h].revoked
  }

  ghost predicate RowsEvolve(l: Ledger, l': Ledger) {
    && (forall h :: h in l'.refresh && h in l.drawnTokens ==>
          h in l.refresh && RowLater(l.refresh[h], l'.refresh[h]))
    && (forall h :: h in l'.refresh && h !in l.drawnTokens && l'.refresh[h].family in l.drawnFamilies ==>
          Live(l.refresh, l'.refresh[h].family))
  }

  ghost predicate CodesEvolve(l: Ledger, l': Ledger) {
    forall c :: c in l'.codes && c in l.drawnCodes ==> c in l.codes && CodeLater(l.codes[c], l'.codes[c])
  }

  ghost predicate Evolves(l: Ledger, l': Ledger) {
    && l.now <= l'.now
    && l.drawnTokens <= l'.drawnTokens && l.drawnFamilies <= l'.drawnFamilies && l.drawnCodes <= l'.drawnCodes
    && RowsEvolve(l, l')
    && CodesEvolve(l, l')
  }

  lemma RotateEvolves(l: Ledger, hash: Hash, child: Hash)
    requires RowsDrawn(l) && RotateSucceeds(l, hash, child, true)
    ensures RowsEvolve(l, Rotated(l, hash, child))
  {
    assert Live(l.refresh, l.refresh[hash].family);
  }

  lemma RevokeFamilyEvolves(l: Ledger, family: FamilyId, why: string)
    requires RowsDrawn(l)
    ensures RowsEvolve(l, Apply(l, RevokeFamily(family, why)))
  {
  }

  lemma RevokeUserEvolves(l: Ledger, user: int, why: string)
    requires RowsDrawn(l)
    ensures RowsEvolve(l, Apply(l, RevokeUser(user, why)))
  {
  }

  lemma CleanEvolves(l: Ledger)
    requires RowsDrawn(l)
    ensures RowsEvolve(l, Apply(l, CleanRefresh))
  {
  }

  lemma IssueEvolves(l: Ledger, root: NewRoot)
    requires RowsDrawn(l) && RootOk(l, root)
    ensures RowsEvolve(l, Issued(l, root))
  {
  }

  lemma StepRowsEvolve(l: Ledger, step: Step)
    requires RowsDrawn(l)
    ensures RowsEvolve(l, Apply(l, step))
  {
    match step
    case Issue(root) => if RootOk(l, root) { IssueEvolves(l, root); }
    case Redeem(_, root, _) => if RootOk(l, root) { IssueEvolves(l, root); }
    case Rotate(hash, child, insertOk) =>
      if RotateSucceeds(l, hash, child, insertOk) { RotateEvolves(l, hash, child); }
    case RevokeFamily(family, why) => RevokeFamilyEvolves(l, family, why);
    case RevokeUser(user, why) => RevokeUserEvolves(l, user, why);
    case CleanRefresh => CleanEvolves(l);
    case _ =>
  }

  lemma StepCodesEvolve(l: Ledger, step: Step)
    requires CodesShaped(l)
    ensures CodesEvolve(l, Apply(l, step))
  {
  }

  lemma StepEvolves(l: Ledger, step: Step)
    requires RowsDrawn(l) && CodesShaped(l)
    ensures Evolves(l, Apply(l, step))
  {
    StepRowsEvolve(l, step);
    StepCodesEvolve(l, step);
  }

  lemma RowsEvolveTransitive(a: Ledger, b: Ledger, c: Ledger)
    requires Inv(b) && Inv(c) && RowsEvolve(a, b) && RowsEvolve(b, c)
    requires a.drawnTokens <= b.drawnTokens && a.drawnFamilies <= b.drawnFamilies
    ensures RowsEvolve(a, c)
  {
    forall h | h in c.refresh && h !in a.drawnTokens && c.refresh[h].family in a.drawnFamilies
      ensures Live(a.refresh, c.refresh[h].family)
    {
      if h !in b.drawnTokens {
        var k :| k in b.refresh && b.refresh[k].family == c.refresh[h].family
                 && !b.refresh[k].used && !b.refresh[k].revoked;
        if k in a.drawnTokens {
          assert RowLater(a.refresh[k], b.refresh[k]);
        }
      }
    }
  }

  lemma {:induction false} RunEvolves(l: Ledger, steps: seq<Step>)
    requires Inv(l)
    ensures Evolves(l, Run(l, steps)) && Inv(Run(l, steps))
    decreases |steps|
  {
    RunKeepsInv(l, steps);
    if steps != [] {
      StepEvolves(l, steps[0]);
      StepKeepsInv(l, steps[0]);
      RunEvolves(Apply(l, steps[0]), steps[1..]);
      RowsEvolveTransitive(l, Apply(l, steps[0]), Run(l, steps));
    }
  }

  // ---- refresh families ---------------------------------------------------------------------

  /** A family whose stored rows are all revoked never has a usable row again. */
  lemma DeadForever(l: Ledger, family: FamilyId, steps: seq<Step>)
    requires Inv(l) && Dead(l, family)
    ensures var l' := Run(l, steps);
      && Dead(l', family)
      && forall h, child, ok :: h in l'.refresh && l'.refresh[h].family == family ==> !RotateSucceeds(l', h, child, ok)
  {
    RunEvolves(l, steps);
  }

  /** revoked never goes back to 0, and the first reason stays. */
  lemma RevocationIsFinal(l: Ledger, steps: seq<Step>, h: Hash)
    requires Inv(l) && h in l.refresh && l.refresh[h].revoked
    ensures var l' := Run(l, steps);
      h in l'.refresh ==> l'.refresh[h].revoked && l'.refresh[h].reason == l.refresh[h].reason
  {
    RunEvolves(l, steps);
  }

  /** The revoke statement reaches every row of the family, also a child committed just before it. */
  lemma RevokeKills(l: Ledger, family: FamilyId, why: string)
    requires family in l.drawnFamilies
    ensures Dead(Apply(l, RevokeFamily(family, why)), family)
  {
  }

  // ---- authorization codes ------------------------------------------------------------------

  /** The step at position i of the run redeems the code. */
  ghost predicate Wins(l: Ledger, steps: seq<Step>, i: nat, code: Hash) {
    && i < |steps| && steps[i].Redeem? && steps[i].claim.code == code
    && RedeemSucceeds(Run(l, steps[..i]), steps[i].claim, steps[i].root, steps[i].insertOk)
  }

  /** In every continuation a redeemed code is either cleaned away for good or still used, naming the same family. */
  lemma RedeemedCodeStays(l: Ledger, claim: Redemption, root: NewRoot, steps: seq<Step>)
    requires Inv(l) && RedeemSucceeds(l, claim, root, true)
    ensures var l' := Run(Apply(l, Redeem(claim, root, true)), steps);
      && (forall again: Redemption :: again.code == claim.code ==> !Redeemable(l'.codes, again, l'.now))
      && (claim.code in l'.codes ==> l'.codes[claim.code].used && l'.codes[claim.code].family == Some(root.family))
  {
    StepKeepsInv(l, Redeem(claim, root, true));
    RunEvolves(Apply(l, Redeem(claim, root, true)), steps);
  }

  /** Exactly-once redemption: over any run, at most one redemption of a code succeeds. */
  lemma AtMostOneWinner(start: int, steps: seq<Step>, i: nat, j: nat, code: Hash)
    requires Wins(Empty(start), steps, i, code) && Wins(Empty(start), steps, j, code)
    ensures i == j
  {
    if i < j {
      NoSecondWinner(start, steps, i, j, code);
    } else if j < i {
      NoSecondWinner(start, steps, j, i, code);
    }
  }

  lemma NoSecondWinner(start: int, steps: seq<Step>, i: nat, j: nat, code: Hash)
    requires Wins(Empty(start), steps, i, code) && i < j < |steps|
    ensures !Wins(Empty(start), steps, j, code)
  {
    var before := Run(Empty(start), steps[..i]);
    RunKeepsInv(Empty(start), steps[..i]);
    RedeemedCodeStays(before, steps[i].claim, steps[i].root, steps[i + 1..j]);
    assert steps[i].insertOk && steps[i] == Redeem(steps[i].claim, steps[i].root, true);
    SplitAt(Empty(start), steps, i, j);
  }

  lemma SplitAt(l: Ledger, steps: seq<Step>, i: nat, j: nat)
    requires i < j <= |steps|
    ensures Run(l, steps[..j]) == Run(Apply(Run(l, steps[..i]), steps[i]), steps[i + 1..j])
  {
    assert steps[..j] == steps[..i] + steps[i..j];
    RunConcat(l, steps[..i], steps[i..j]);
    assert steps[i..j][0] == steps[i] && steps[i..j][1..] == steps[i + 1..j];
  }

  /**
    The winner's code row names a family holding exactly the root row inserted with it; every
    other root ever inserted, before or after, belongs to another family.
  */
  lemma RedemptionNamesItsRoot(l: Ledger, claim: Redemption, root: NewRoot, steps: seq<Step>, other: NewRoot)
    requires Inv(l) && RedeemSucceeds(l, claim, root, true)
    ensures var l' := Apply(l, Redeem(claim, root, true));
      && l'.codes[claim.code].used && l'.codes[claim.code].family == Some(root.family)
      && (forall h :: h in l'.refresh && l'.refresh[h].family == root.family <==> h == root.hash)
      && l'.refresh[root.hash].parent.None? && l'.refresh[root.hash].user == Some(root.user)
      && (RootOk(Run(l', steps), other) ==> other.family != root.family)
  {
    StepKeepsInv(l, Redeem(claim, root, true));
    RunEvolves(Apply(l, Redeem(claim, root, true)), steps);
  }

  /**
    A redemption that does not succeed leaves every table as it was; in particular a failed insert leaves the
    code unused.
  */
  lemma FailedRedemptionChangesNothing(l: Ledger, claim: Redemption, root: NewRoot, insertOk: bool)
    requires claim.code in l.codes
    requires var row := l.codes[claim.code];
      || row.service != claim.service || row.redirectUri != claim.redirectUri || row.challenge != claim.challenge
      || row.challengeMethod != "S256" || row.used || row.expires <= l.now || !insertOk
    ensures Apply(l, Redeem(claim, root, insertOk)) == l
  {
  }
}
