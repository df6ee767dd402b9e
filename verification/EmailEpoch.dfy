/**
  Access and admin tokens name their user by e-mail address. Addresses move between users; the
  e-mail epoch decides whether a token still speaks for the address's present owner.
*/
module EmailEpoch {
  import opened Common
  import opened AccountLedger
  import opened AccountInvariants
  import opened AccountHistory

  /** `sub` is the address or, for services with sub_format id, the permanent public id. */
  datatype SubjectClaim = ByEmail(email: Email) | ById(publicId: PublicId)

  /** The signed claims that matter here; `holder` is the user the token was issued to. */
  datatype Token = Token(email: Email, subject: SubjectClaim, iat: Option<int>, holder: int)

  datatype World = World(accounts: Accounts, tokens: set<Token>)

  datatype WorldStep = AccountStep(step: Step) | IssueToken(user: int, byId: bool)

  datatype Verdict = Accept(user: int) | NoActiveUser | SubMismatch | IatMissing | EmailReassigned

  /** The time the present address became the user's. */
  function Epoch(u: User): int {
    if u.emailChanged.Some? then u.emailChanged.value else u.created
  }

  predicate IssuedAfterEpoch(tok: Token, u: User) {
    tok.iat.Some? && tok.iat.value >= Epoch(u)
  }

  ghost predicate ActiveHolder(a: Accounts, user: int, email: Email) {
    user in a.users && a.users[user].active && a.users[user].email == email
  }

  /** What GetActiveUserByEmail finds. */
  ghost predicate FindsByEmail(a: Accounts, email: Email, found: Option<int>) {
    if found.Some? then ActiveHolder(a, found.value, email) else forall u :: !ActiveHolder(a, u, email)
  }

  ghost predicate FindsById(a: Accounts, publicId: PublicId, found: Option<int>) {
    if found.Some? then
      found.value in a.users && a.users[found.value].active && a.users[found.value].publicId == publicId
    else forall u :: u in a.users && a.users[u].active ==> a.users[u].publicId != publicId
  }

  /** The database part of AdminAuthMiddleware, after signature, purpose and role were checked. */
  function AdminVerdict(a: Accounts, tok: Token, found: Option<int>): Verdict
    requires found.Some? ==> found.value in a.users
  {
    if found.None? then NoActiveUser
    else if !IssuedAfterEpoch(tok, a.users[found.value]) then EmailReassigned
    else Accept(found.value)
  }

  /** forwardRejectReason, levels 1 to 5 of dispatch, when the lookup does not fail. */
  function ForwardVerdict(a: Accounts, tok: Token, found: Option<int>): Verdict
    requires found.Some? ==> found.value in a.users
  {
    if found.None? then NoActiveUser
    else
      var u := a.users[found.value];
      if tok.subject != ByEmail(u.email) && tok.subject != ById(u.publicId) then SubMismatch
      else if tok.iat.None? then IatMissing
      else if !IssuedAfterEpoch(tok, u) then EmailReassigned
      else Accept(found.value)
  }

  /** Level 0 for a service with sub_format email. */
  function CodeVerdictByEmail(a: Accounts, tok: Token, found: Option<int>): Verdict
    requires found.Some? ==> found.value in a.users
  {
    if found.None? then NoActiveUser
    else if tok.subject != ByEmail(a.users[found.value].email) then SubMismatch
    else if !IssuedAfterEpoch(tok, a.users[found.value]) then EmailReassigned
    else Accept(found.value)
  }

  /** Level 0 for a service with sub_format id: the user comes from sub, and the address must be theirs. */
  function CodeVerdictById(a: Accounts, tok: Token, found: Option<int>): Verdict
    requires found.Some? ==> found.value in a.users
  {
    if found.None? then NoActiveUser
    else if tok.email != a.users[found.value].email then SubMismatch
    else if !IssuedAfterEpoch(tok, a.users[found.value]) then EmailReassigned
    else Accept(found.value)
  }

  function ApplyWorld(w: World, step: WorldStep): World {
    match step
    case AccountStep(s) => w.(accounts := Apply(w.accounts, s))
    case IssueToken(user, byId) =>
      if user in w.accounts.users then
        var u := w.accounts.users[user];
        var subject := if byId then ById(u.publicId) else ByEmail(u.email);
        w.(tokens := w.tokens + {Token(u.email, subject, Some(w.accounts.now), user)})
      else w
  }

  function RunWorld(w: World, steps: seq<WorldStep>): World
    decreases |steps|
  {
    if steps == [] then w else RunWorld(ApplyWorld(w, steps[0]), steps[1..])
  }

  /** Whoever else has the address now got it no earlier than the token was issued. */
  ghost predicate TokenSound(a: Accounts, tok: Token) {
    && tok.iat.Some? && tok.iat.value <= a.now
    && tok.holder in a.users
    && (tok.subject.ById? ==> tok.subject.publicId == a.users[tok.holder].publicId)
    && forall v :: v in a.users && v != tok.holder && a.users[v].email == tok.email ==>
         Epoch(a.users[v]) >= tok.iat.value
  }

  ghost predicate WorldInv(w: World) {
    Inv(w.accounts) && forall tok :: tok in w.tokens ==> TokenSound(w.accounts, tok)
  }

  lemma TokenStaysSound(a: Accounts, b: Accounts, tok: Token)
    requires TokenSound(a, tok) && Evolves(a, b)
    ensures TokenSound(b, tok)
  {
  }

  lemma WorldStepKeeps(w: World, step: WorldStep)
    requires WorldInv(w)
    ensures WorldInv(ApplyWorld(w, step))
  {
    match step
    case AccountStep(s) =>
      StepKeepsInv(w.accounts, s);
      StepEvolves(w.accounts, s);
      forall tok | tok in w.tokens ensures TokenSound(Apply(w.accounts, s), tok) {
        TokenStaysSound(w.accounts, Apply(w.accounts, s), tok);
      }
    case IssueToken(user, byId) =>
  }

  lemma {:induction false} RunWorldKeeps(w: World, steps: seq<WorldStep>)
    requires WorldInv(w)
    ensures WorldInv(RunWorld(w, steps))
    decreases |steps|
  {
    if steps != [] {
      WorldStepKeeps(w, steps[0]);
      RunWorldKeeps(ApplyWorld(w, steps[0]), steps[1..]);
    }
  }

  ghost predicate Accepted(a: Accounts, tok: Token, v: int) {
    || (exists found :: FindsByEmail(a, tok.email, found) && AdminVerdict(a, tok, found) == Accept(v))
    || (exists found :: FindsByEmail(a, tok.email, found) && ForwardVerdict(a, tok, found) == Accept(v))
    || (exists found :: FindsByEmail(a, tok.email, found) && CodeVerdictByEmail(a, tok, found) == Accept(v))
    || (tok.subject.ById?
        && exists found :: FindsById(a, tok.subject.publicId, found) && CodeVerdictById(a, tok, found) == Accept(v))
  }

  /** v is active, has the token's address, and had it since the token was issued or longer. */
  predicate SpeaksFor(a: Accounts, tok: Token, v: int) {
    && v in a.users && a.users[v].active && a.users[v].email == tok.email && tok.iat.Some?
    && tok.iat.value >= a.users[v].created
    && (a.users[v].emailChanged.Some? ==> tok.iat.value >= a.users[v].emailChanged.value)
  }

  /** What each of the four checks asks for, and no more: they differ only in the subject they want. */
  lemma EachCheckExactly(a: Accounts, tok: Token, found: Option<int>, v: int)
    requires Inv(a)
    ensures FindsByEmail(a, tok.email, found) ==>
              && (AdminVerdict(a, tok, found) == Accept(v) <==> SpeaksFor(a, tok, v))
              && (ForwardVerdict(a, tok, found) == Accept(v) <==>
                    SpeaksFor(a, tok, v) && tok.subject in {ByEmail(tok.email), ById(a.users[v].publicId)})
              && (CodeVerdictByEmail(a, tok, found) == Accept(v) <==>
                    SpeaksFor(a, tok, v) && tok.subject == ByEmail(tok.email))
    ensures tok.subject.ById? && FindsById(a, tok.subject.publicId, found) ==>
              (CodeVerdictById(a, tok, found) == Accept(v) <==>
                 SpeaksFor(a, tok, v) && a.users[v].publicId == tok.subject.publicId)
  {
    if SpeaksFor(a, tok, v) {
      assert ActiveHolder(a, v, tok.email);
    }
  }

  lemma AcceptedExactly(a: Accounts, tok: Token, v: int)
    requires Inv(a)
    ensures Accepted(a, tok, v) <==> SpeaksFor(a, tok, v)
  {
    if SpeaksFor(a, tok, v) {
      assert FindsByEmail(a, tok.email, Some(v)) && AdminVerdict(a, tok, Some(v)) == Accept(v);
    }
  }

  /**
    Email reassignment: in every run, a token the admin middleware or dispatch accepts for user v
    was issued to v, unless it was issued in the very second in which v got the address.
  */
  lemma AcceptedTokenIsTheirs(start: int, steps: seq<WorldStep>, tok: Token, v: int)
    requires var w := RunWorld(World(Empty(start), {}), steps); tok in w.tokens && Accepted(w.accounts, tok, v)
    ensures var w := RunWorld(World(Empty(start), {}), steps);
      && v in w.accounts.users
      && var u := w.accounts.users[v];
      && u.active && u.email == tok.email
      && (v == tok.holder || tok.iat == if u.emailChanged.Some? then u.emailChanged else Some(u.created))
  {
    RunWorldKeeps(World(Empty(start), {}), steps);
    var w := RunWorld(World(Empty(start), {}), steps);
    assert TokenSound(w.accounts, tok);
    AcceptedExactly(w.accounts, tok, v);
  }

  /**
    The exception, exactly: in every run, somebody else's token is accepted for v if and only if v is active,
    has the token's address, and got it in the very second in which the token was issued. Dispatch asks in
    addition that the token names its user by address.
  */
  lemma ForeignTokenExactly(start: int, steps: seq<WorldStep>, tok: Token, v: int)
    requires var w := RunWorld(World(Empty(start), {}), steps); tok in w.tokens && v != tok.holder
    ensures var a := RunWorld(World(Empty(start), {}), steps).accounts;
      Accepted(a, tok, v) <==> ActiveHolder(a, v, tok.email) && tok.iat == Some(Epoch(a.users[v]))
    ensures var a := RunWorld(World(Empty(start), {}), steps).accounts;
      forall found :: FindsByEmail(a, tok.email, found) ==>
        (ForwardVerdict(a, tok, found) == Accept(v)
         <==> ActiveHolder(a, v, tok.email) && tok.iat == Some(Epoch(a.users[v])) && tok.subject == ByEmail(tok.email))
  {
    RunWorldKeeps(World(Empty(start), {}), steps);
    var w := RunWorld(World(Empty(start), {}), steps);
    assert TokenSound(w.accounts, tok);
    AcceptedExactly(w.accounts, tok, v);
    assert Inv(w.accounts);
  }

  /** A token that names its user by public id is forwarded, or exchanged at level 0, for that user only. */
  lemma IdTokenNeverMoves(start: int, steps: seq<WorldStep>, tok: Token, found: Option<int>, v: int)
    requires var w := RunWorld(World(Empty(start), {}), steps);
      && tok in w.tokens && tok.subject.ById?
      && ((FindsByEmail(w.accounts, tok.email, found) && ForwardVerdict(w.accounts, tok, found) == Accept(v))
          || (FindsById(w.accounts, tok.subject.publicId, found)
              && CodeVerdictById(w.accounts, tok, found) == Accept(v)))
    ensures v == tok.holder
  {
    RunWorldKeeps(World(Empty(start), {}), steps);
    var w := RunWorld(World(Empty(start), {}), steps);
    assert TokenSound(w.accounts, tok);
  }

  predicate Touches(step: WorldStep, user: int) {
    && step.AccountStep?
    && ((step.step.ChangeEmail? && step.step.userId == user) || step.step == Deactivate(user))
  }

  /** Nobody changes the user's address or deactivates them. */
  predicate LeavesAlone(steps: seq<WorldStep>, user: int) {
    forall i :: 0 <= i < |steps| ==> !Touches(steps[i], user)
  }

  lemma {:induction false} LeftAlone(w: World, steps: seq<WorldStep>, user: int)
    requires user in w.accounts.users && w.accounts.users[user].active && LeavesAlone(steps, user)
    ensures var u, v := w.accounts.users, RunWorld(w, steps).accounts.users;
      && user in v && v[user].active && v[user].email == u[user].email && v[user].publicId == u[user].publicId
      && Epoch(v[user]) == Epoch(u[user])
    decreases |steps|
  {
    if steps != [] {
      var w' := ApplyWorld(w, steps[0]);
      assert LeavesAlone([steps[0]], user);
      LeftAloneForAStep(w, steps[0], user);
      LeftAlone(w', steps[1..], user);
    }
  }

  lemma UserLeftAlone(a: Accounts, step: Step, user: int)
    requires user in a.users && a.users[user].active
    requires !(step.ChangeEmail? && step.userId == user) && step != Deactivate(user)
    ensures var v := Apply(a, step).users;
      && user in v && v[user].active && v[user].email == a.users[user].email
      && v[user].publicId == a.users[user].publicId
      && v[user].created == a.users[user].created && v[user].emailChanged == a.users[user].emailChanged
  {
  }

  lemma LeftAloneForAStep(w: World, step: WorldStep, user: int)
    requires user in w.accounts.users && w.accounts.users[user].active
    requires !Touches(step, user)
    ensures var u, v := w.accounts.users, ApplyWorld(w, step).accounts.users;
      && user in v && v[user].active && v[user].email == u[user].email && v[user].publicId == u[user].publicId
      && Epoch(v[user]) == Epoch(u[user])
  {
    if step.AccountStep? { UserLeftAlone(w.accounts, step.step, user); }
  }

  /**
    The check is no stricter than it must be: a token keeps working for its user, in every run, as long
    as their address does not change and they are not deactivated.
  */
  lemma HolderKeepsAccess(start: int, before: seq<WorldStep>, user: int, byId: bool, after: seq<WorldStep>)
    requires var w := RunWorld(World(Empty(start), {}), before);
      user in w.accounts.users && w.accounts.users[user].active
    requires LeavesAlone(after, user)
    ensures var w := RunWorld(World(Empty(start), {}), before);
      var u := w.accounts.users[user];
      var tok := Token(u.email, if byId then ById(u.publicId) else ByEmail(u.email), Some(w.accounts.now), user);
      var a := RunWorld(ApplyWorld(w, IssueToken(user, byId)), after).accounts;
      && tok in ApplyWorld(w, IssueToken(user, byId)).tokens
      && FindsByEmail(a, tok.email, Some(user))
      && AdminVerdict(a, tok, Some(user)) == Accept(user) && ForwardVerdict(a, tok, Some(user)) == Accept(user)
      && (if byId then CodeVerdictById(a, tok, Some(user)) else CodeVerdictByEmail(a, tok, Some(user))) == Accept(user)
  {
    var w := RunWorld(World(Empty(start), {}), before);
    RunWorldKeeps(World(Empty(start), {}), before);
    LeftAlone(ApplyWorld(w, IssueToken(user, byId)), after, user);
  }

  lemma {:induction false} DeactivatedInWorld(w: World, steps: seq<WorldStep>, user: int)
    requires user in w.accounts.users && !w.accounts.users[user].active
    ensures user in RunWorld(w, steps).accounts.users && !RunWorld(w, steps).accounts.users[user].active
    decreases |steps|
  {
    if steps != [] {
      if steps[0].AccountStep? { InactiveForAStep(w.accounts, steps[0].step, user); }
      DeactivatedInWorld(ApplyWorld(w, steps[0]), steps[1..], user);
    }
  }

  /** Once a user is deactivated, no token is accepted for them in any continuation, by any of the checks. */
  lemma DeactivationLocksOut(start: int, before: seq<WorldStep>, user: int, after: seq<WorldStep>, tok: Token)
    requires user in RunWorld(World(Empty(start), {}), before).accounts.users
    ensures var w := RunWorld(World(Empty(start), {}), before);
      !Accepted(RunWorld(ApplyWorld(w, AccountStep(Deactivate(user))), after).accounts, tok, user)
  {
    var w := RunWorld(World(Empty(start), {}), before);
    var off := ApplyWorld(w, AccountStep(Deactivate(user)));
    RunWorldKeeps(World(Empty(start), {}), before);
    WorldStepKeeps(w, AccountStep(Deactivate(user)));
    RunWorldKeeps(off, after);
    DeactivatedInWorld(off, after, user);
    AcceptedExactly(RunWorld(off, after).accounts, tok, user);
  }

  /** The exception is real: address and token change hands within one second. */
  lemma SameSecondHandover(p: PublicId, q: PublicId, e: Email, f: Email)
    requires p != q && e != f
    ensures var steps := [AccountStep(CreateUser(1, p, e)), IssueToken(1, false), AccountStep(ChangeEmail(1, f)),
                          AccountStep(CreateUser(2, q, e))];
            var w := RunWorld(World(Empty(0), {}), steps);
            exists tok :: tok in w.tokens && tok.holder == 1 && Accepted(w.accounts, tok, 2)
  {
    var steps := [AccountStep(CreateUser(1, p, e)), IssueToken(1, false), AccountStep(ChangeEmail(1, f)),
                  AccountStep(CreateUser(2, q, e))];
    var w0 := World(Empty(0), {});
    var w1 := ApplyWorld(w0, steps[0]);
    var w2 := ApplyWorld(w1, steps[1]);
    var w3 := ApplyWorld(w2, steps[2]);
    var w4 := ApplyWorld(w3, steps[3]);
    assert steps[1..][0] == steps[1] && steps[1..][1..] == steps[2..];
    assert steps[2..][0] == steps[2] && steps[2..][1..] == steps[3..];
    assert steps[3..][0] == steps[3] && steps[3..][1..] == [];
    assert RunWorld(w0, steps) == RunWorld(w1, steps[1..]) == RunWorld(w2, steps[2..]);
    assert RunWorld(w2, steps[2..]) == RunWorld(w3, steps[3..]) == w4;
    var tok := Token(e, ByEmail(e), Some(0), 1);
    assert tok in w2.tokens && w4.accounts.users[2] == NewUser(q, e, 0);
    assert FindsByEmail(w4.accounts, e, Some(2)) && AdminVerdict(w4.accounts, tok, Some(2)) == Accept(2);
  }
}
