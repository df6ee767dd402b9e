/**
  What the steps on sessions and codes do row by row, and how long a session or a code lasts: exactly as
  long as its times say, unless one of the few steps aimed at it comes first.
*/
module SessionLifetimes {
  import opened Common
  import opened SessionLedger
  import opened SessionInvariants
  import opened SessionHistory

  // ---- row by row -----------------------------------------------------------------------------------

  /** Only rows of the family differ. */
  ghost predicate Spares(before: RefreshTable, after: RefreshTable, family: FamilyId) {
    && after.Keys == before.Keys
    && forall h :: h in before && before[h].family != family ==> after[h] == before[h]
  }

  /** The row after somebody revoked it: a revoked one is left alone, another gets the flag and the reason only. */
  predicate RevokedOnce(before: RefreshRow, after: RefreshRow, why: string) {
    && after.email == before.email && after.user == before.user && after.service == before.service
    && after.family == before.family && after.parent == before.parent && after.created == before.created
    && after.expires == before.expires && after.familyExpires == before.familyExpires && after.used == before.used
    && after.revoked && after.reason == if before.revoked then before.reason else Some(why)
  }

  /** Every row of the family is revoked, and nothing else is different. */
  ghost predicate TakenDown(l: Ledger, l': Ledger, family: FamilyId, why: string) {
    && l' == l.(refresh := l'.refresh)
    && Spares(l.refresh, l'.refresh, family)
    && forall h :: h in l.refresh && l.refresh[h].family == family ==> RevokedOnce(l.refresh[h], l'.refresh[h], why)
  }

  lemma RevokeFamilyByRow(l: Ledger, family: FamilyId, why: string)
    ensures TakenDown(l, Apply(l, RevokeFamily(family, why)), family, why)
  {
  }

  /** What taking one family down costs the others: nothing. */
  lemma RevocationSparesOthers(l: Ledger, l': Ledger, family: FamilyId, why: string, h: Hash, child: Hash, ok: bool)
    requires TakenDown(l, l', family, why) && h in l.refresh && l.refresh[h].family != family
    ensures RotateSucceeds(l', h, child, ok) <==> RotateSucceeds(l, h, child, ok)
  {
  }

  /** Every session of the user is revoked, and nothing else is different. */
  ghost predicate SignedOut(l: Ledger, l': Ledger, user: int, why: string) {
    && l' == l.(refresh := l'.refresh) && l'.refresh.Keys == l.refresh.Keys
    && forall h :: h in l.refresh ==>
         if l.refresh[h].user == Some(user) then RevokedOnce(l.refresh[h], l'.refresh[h], why)
         else l'.refresh[h] == l.refresh[h]
  }

  lemma RevokeUserByRow(l: Ledger, user: int, why: string)
    ensures SignedOut(l, Apply(l, RevokeUser(user, why)), user, why)
  {
  }

  /** The cleanup deletes exactly the rows past their own expiry and, if it has one, their family's. */
  lemma CleanRefreshByRow(l: Ledger, h: Hash)
    ensures var rows := Apply(l, CleanRefresh).refresh;
      && (h in rows <==>
            && h in l.refresh
            && (l.refresh[h].expires >= l.now
                || (l.refresh[h].familyExpires.Some? && l.refresh[h].familyExpires.value >= l.now)))
      && (h in rows ==> rows[h] == l.refresh[h].(parent := rows[h].parent))
  {
  }

  lemma CleanCodesByRow(l: Ledger, c: Hash)
    ensures var codes := Apply(l, CleanCodes).codes;
      && (c in codes <==> c in l.codes && l.codes[c].expires >= l.now)
      && (c in codes ==> codes[c] == l.codes[c])
  {
  }

  /** The code is used for this family, and no other code differs. */
  ghost predicate SpendsCode(l: Ledger, l': Ledger, code: Hash, family: FamilyId) {
    && code in l.codes && !l.codes[code].used && l'.codes.Keys == l.codes.Keys
    && l'.codes[code] == l.codes[code].(used := true, family := Some(family))
    && forall c :: c in l.codes && c != code ==> l'.codes[c] == l.codes[c]
  }

  lemma RedemptionByRow(l: Ledger, claim: Redemption, root: NewRoot)
    requires RedeemSucceeds(l, claim, root, true)
    ensures SpendsCode(l, Apply(l, Redeem(claim, root, true)), claim.code, root.family)
  {
  }

  /** A rotation marks the parent and adds the child, which belongs to whom the parent belongs to. */
  lemma RotationByRow(l: Ledger, hash: Hash, child: Hash)
    requires Inv(l) && RotateSucceeds(l, hash, child, true)
    ensures var parent, rows := l.refresh[hash], Apply(l, Rotate(hash, child, true)).refresh;
      && child !in l.refresh && rows.Keys == l.refresh.Keys + {child}
      && rows[hash] == parent.(used := true)
      && (forall h :: h in l.refresh && h != hash ==> rows[h] == l.refresh[h])
      && rows[child].email == parent.email && rows[child].user == parent.user && rows[child].service == parent.service
      && rows[child].family == parent.family && rows[child].parent == Some(hash) && rows[child].created == l.now
      && rows[child].familyExpires == parent.familyExpires
      && !rows[child].used && !rows[child].revoked && rows[child].reason.None?
  {
  }

  // ---- how long a session lasts ---------------------------------------------------------------------

  /** The steps that may end a session: rotating its token, revoking its family, revoking its user. */
  predicate AimsAt(step: Step, h: Hash, row: RefreshRow) {
    || (step.Rotate? && step.hash == h)
    || (step.RevokeFamily? && step.family == row.family)
    || (step.RevokeUser? && row.user == Some(step.user_))
  }

  predicate NoneAimsAt(steps: seq<Step>, h: Hash, row: RefreshRow) {
    forall i :: 0 <= i < |steps| ==> !AimsAt(steps[i], h, row)
  }

  predicate Stored(l: Ledger, h: Hash, row: RefreshRow) {
    h in l.refresh && l.refresh[h] == row.(parent := l.refresh[h].parent)
  }

  lemma {:induction false} TimeGoesOn(l: Ledger, steps: seq<Step>)
    ensures l.now <= Run(l, steps).now
    decreases |steps|
  {
    if steps != [] { TimeGoesOn(Apply(l, steps[0]), steps[1..]); }
  }

  lemma StoredForAStep(l: Ledger, step: Step, h: Hash, row: RefreshRow)
    requires RowsDrawn(l) && Stored(l, h, row) && !AimsAt(step, h, row) && l.now <= row.expires
    ensures Stored(Apply(l, step), h, row)
  {
    match step
    case RevokeFamily(family, why) => RevokeFamilyByRow(l, family, why);
    case RevokeUser(user, why) => RevokeUserByRow(l, user, why);
    case CleanRefresh => CleanRefreshByRow(l, h);
    case _ =>
  }

  lemma {:induction false} StoredWhileItLasts(l: Ledger, steps: seq<Step>, h: Hash, row: RefreshRow)
    requires Inv(l) && Stored(l, h, row) && NoneAimsAt(steps, h, row) && Run(l, steps).now <= row.expires
    ensures Stored(Run(l, steps), h, row)
    decreases |steps|
  {
    if steps != [] {
      TimeGoesOn(l, steps);
      StoredForAStep(l, steps[0], h, row);
      StepKeepsInv(l, steps[0]);
      StoredWhileItLasts(Apply(l, steps[0]), steps[1..], h, row);
    }
  }

  /**
    An unused, unrevoked token rotates, in every continuation in which nobody rotates it and nobody revokes
    its family or its user, exactly until its expiry: other sessions and the cleanup never cost it.
  */
  lemma SessionLasts(l: Ledger, steps: seq<Step>, h: Hash, child: Hash, ok: bool)
    requires Inv(l) && h in l.refresh && !l.refresh[h].used && !l.refresh[h].revoked
    requires NoneAimsAt(steps, h, l.refresh[h])
    ensures var l' := Run(l, steps);
      RotateSucceeds(l', h, child, ok) <==> l'.now < l.refresh[h].expires && child !in l'.drawnTokens && ok
  {
    var l' := Run(l, steps);
    if l'.now <= l.refresh[h].expires {
      StoredWhileItLasts(l, steps, h, l.refresh[h]);
    } else {
      RunEvolves(l, steps);
    }
  }

  /** The step commits this new root, by a direct issue or by redeeming a code. */
  predicate Commits(l: Ledger, step: Step, root: NewRoot) {
    || (step == Issue(root) && RootOk(l, root))
    || (step.Redeem? && step.root == root && RedeemSucceeds(l, step.claim, root, step.insertOk))
  }

  /** One new row, the first of its family, with the user, address, service and limit given; no other row differs. */
  ghost predicate OpensFamily(l: Ledger, l': Ledger, user: int, email: string, service: string, maxAge: Option<nat>,
                              hash: Hash, family: FamilyId) {
    && hash !in l.refresh && l'.refresh.Keys == l.refresh.Keys + {hash}
    && (forall h :: h in l.refresh ==> l'.refresh[h] == l.refresh[h] && l.refresh[h].family != family)
    && var row := l'.refresh[hash];
    && row.email == email && row.user == Some(user) && row.service == Some(service) && row.family == family
    && row.parent.None? && row.created == l.now && !row.used && !row.revoked && row.reason.None?
    && row.familyExpires == if maxAge.Some? then Some(l.now + maxAge.value) else None
  }

  lemma RootByRow(l: Ledger, step: Step, root: NewRoot)
    requires Inv(l) && Commits(l, step, root)
    ensures OpensFamily(l, Apply(l, step), root.user, root.email, root.service, root.maxAge, root.hash, root.family)
  {
  }

  /** A new session lasts 30 days, or the service's limit if that is shorter, and not a second more or less. */
  lemma RootLasts(l: Ledger, step: Step, root: NewRoot, steps: seq<Step>, child: Hash, ok: bool)
    requires Inv(l) && Commits(l, step, root) && root.hash in Apply(l, step).refresh
    requires NoneAimsAt(steps, root.hash, Apply(l, step).refresh[root.hash])
    ensures var l' := Run(Apply(l, step), steps);
      RotateSucceeds(l', root.hash, child, ok)
      <==> && l'.now < l.now + 30 * 24 * 3600 && (root.maxAge.Some? ==> l'.now < l.now + root.maxAge.value)
           && child !in l'.drawnTokens && ok
  {
    StepKeepsInv(l, step);
    RootByRow(l, step, root);
    SessionLasts(Apply(l, step), steps, root.hash, child, ok);
  }

  /** A rotated session lasts 30 days from its rotation, or until the family ends if that is sooner. */
  lemma ChildLasts(l: Ledger, hash: Hash, child: Hash, steps: seq<Step>, next: Hash, ok: bool)
    requires Inv(l) && RotateSucceeds(l, hash, child, true) && child in Apply(l, Rotate(hash, child, true)).refresh
    requires NoneAimsAt(steps, child, Apply(l, Rotate(hash, child, true)).refresh[child])
    ensures var l' := Run(Apply(l, Rotate(hash, child, true)), steps);
      var end := l.refresh[hash].familyExpires;
      RotateSucceeds(l', child, next, ok)
      <==> && l'.now < l.now + 30 * 24 * 3600 && (end.Some? ==> l'.now < end.value)
           && next !in l'.drawnTokens && ok
  {
    StepKeepsInv(l, Rotate(hash, child, true));
    SessionLasts(Apply(l, Rotate(hash, child, true)), steps, child, next, ok);
  }

  // ---- when a family ends ---------------------------------------------------------------------------

  ghost predicate EndsAt(l: Ledger, family: FamilyId, end: Option<int>) {
    && family in l.drawnFamilies
    && forall h :: h in l.refresh && l.refresh[h].family == family ==> l.refresh[h].familyExpires == end
  }

  lemma EndsAtForAStep(l: Ledger, step: Step, family: FamilyId, end: Option<int>)
    requires EndsAt(l, family, end)
    ensures EndsAt(Apply(l, step), family, end)
  {
    match step
    case RevokeFamily(f, why) => RevokeFamilyByRow(l, f, why);
    case RevokeUser(user, why) => RevokeUserByRow(l, user, why);
    case _ =>
  }

  lemma {:induction false} EndsAtForGood(l: Ledger, steps: seq<Step>, family: FamilyId, end: Option<int>)
    requires EndsAt(l, family, end)
    ensures EndsAt(Run(l, steps), family, end)
    decreases |steps|
  {
    if steps != [] {
      EndsAtForAStep(l, steps[0], family, end);
      EndsAtForGood(Apply(l, steps[0]), steps[1..], family, end);
    }
  }

  /**
    The service's limit holds for the whole family: whatever is rotated in between, no row of it rotates at or
    after the limit. Without a limit no row of the family ever has an end.
  */
  lemma FamilyEnds(l: Ledger, step: Step, root: NewRoot, steps: seq<Step>, h: Hash, child: Hash, ok: bool)
    requires Inv(l) && Commits(l, step, root)
    requires h in Run(Apply(l, step), steps).refresh && Run(Apply(l, step), steps).refresh[h].family == root.family
    ensures var l' := Run(Apply(l, step), steps);
      && (root.maxAge.Some? && l'.now >= l.now + root.maxAge.value ==> !RotateSucceeds(l', h, child, ok))
      && l'.refresh[h].familyExpires == (if root.maxAge.Some? then Some(l.now + root.maxAge.value) else None)
  {
    StepKeepsInv(l, step);
    RootByRow(l, step, root);
    var end := if root.maxAge.Some? then Some(l.now + root.maxAge.value) else None;
    EndsAtForGood(Apply(l, step), steps, root.family, end);
    RunKeepsInv(Apply(l, step), steps);
  }

  // ---- how long a code lasts ------------------------------------------------------------------------

  /** A redemption that presents the code as it was made out. */
  predicate Presents(claim: Redemption, c: NewCode) {
    && claim.code == c.code && claim.service == c.service && claim.redirectUri == c.redirectUri
    && claim.challenge == c.challenge
  }

  predicate NobodyPresents(steps: seq<Step>, c: NewCode) {
    forall i :: 0 <= i < |steps| ==> !(steps[i].Redeem? && Presents(steps[i].claim, c))
  }

  /** The code as it was made out at time t, unused. */
  predicate Pristine(l: Ledger, c: NewCode, t: int) {
    && c.code in l.codes && c.code in l.drawnCodes
    && var row := l.codes[c.code];
    && row.service == c.service && row.email == c.email && row.user == Some(c.user) && row.redirectUri == c.redirectUri
    && row.challenge == c.challenge && row.challengeMethod == c.challengeMethod
    && !row.used && row.family.None? && row.expires == t + 60
  }

  lemma PristineForAStep(l: Ledger, step: Step, c: NewCode, t: int)
    requires Pristine(l, c, t) && !(step.Redeem? && Presents(step.claim, c)) && l.now <= t + 60
    ensures Pristine(Apply(l, step), c, t)
  {
  }

  lemma {:induction false} PristineWhileItLasts(l: Ledger, steps: seq<Step>, c: NewCode, t: int)
    requires Pristine(l, c, t) && NobodyPresents(steps, c) && Run(l, steps).now <= t + 60
    ensures Pristine(Run(l, steps), c, t)
    decreases |steps|
  {
    if steps != [] {
      TimeGoesOn(l, steps);
      PristineForAStep(l, steps[0], c, t);
      PristineWhileItLasts(Apply(l, steps[0]), steps[1..], c, t);
    }
  }

  /**
    A code can be redeemed for 60 seconds, by exactly the client, redirect URI and challenge it was made out
    for; attempts with anything else, whoever makes them, take nothing away.
  */
  lemma CodeLasts(l: Ledger, c: NewCode, steps: seq<Step>, claim: Redemption)
    requires Inv(l) && c.code !in l.drawnCodes && NobodyPresents(steps, c) && claim.code == c.code
    ensures var l' := Run(Apply(l, CreateCode(c)), steps);
      Redeemable(l'.codes, claim, l'.now)
      <==> Presents(claim, c) && c.challengeMethod == "S256" && l'.now < l.now + 60
  {
    var l1 := Apply(l, CreateCode(c));
    var l' := Run(l1, steps);
    if l'.now <= l.now + 60 {
      PristineWhileItLasts(l1, steps, c, l.now);
    } else {
      StepKeepsInv(l, CreateCode(c));
      RunEvolves(l1, steps);
    }
  }
}
