/**
  The token endpoint over the stored tables. Every method that models a request runs the steps
  of its schedule, which stand for whatever other requests and the cleanup job do meanwhile,
  before each of its own database accesses; its contract holds for all schedules.
*/
module SessionStore {
  import opened Common
  import opened SessionLedger
  import opened SessionInvariants
  import opened SessionHistory
  import opened SessionLifetimes
  import opened Policy

  /** Which of a request's own database or signing calls succeed. */
  datatype Fate = Fate(insertOk: bool, readOk: bool, rereadOk: bool, revokeOk: bool, userReadOk: bool, issueOk: bool)

  datatype TxResult<+T> = Committed(value: T) | NoRow | Failed

  datatype RotateOutcome = RotatedTo(row: RefreshRow) | ReuseDetected | TokenRevoked | RotateError

  datatype Answer = Granted | InvalidRequest | InvalidClient | InvalidGrant | TokenReused | TokenInvalid | ServerError

  datatype CodeRequest = CodeRequest(code: Option<Hash>, redirectUri: string, clientId: string, verifier: string)

  /** VerifyPKCE: an empty verifier or challenge, or another method than S256, never matches. */
  predicate VerifyPkce(s256: string -> string, verifier: string, challenge: string, challengeMethod: string) {
    verifier != "" && challenge != "" && challengeMethod == "S256" && s256(verifier) == challenge
  }

  /** The caller shows that it knows the code all the way: client, redirect URI and verifier. */
  predicate Proves(s256: string -> string, req: CodeRequest, row: CodeRow) {
    && row.service == req.clientId && row.redirectUri == req.redirectUri
    && VerifyPkce(s256, req.verifier, row.challenge, row.challengeMethod)
  }

  ghost predicate MayUse(l: Ledger, user: Option<int>, svc: Service) {
    && user.Some? && user.value in l.users && l.users[user.value].active
    && PolicyHolds(l.users[user.value].roles, l.users[user.value].orgs, svc)
  }

  /** The family the used code names is dead, and nothing else is different. */
  ghost predicate KilledBy(l: Ledger, l': Ledger, row: CodeRow) {
    && row.family.Some? && Dead(l', row.family.value)
    && TakenDown(l, l', row.family.value, "authorization_code_reuse")
  }

  /** The revoke statement, when it goes through. */
  function AfterRevoke(l: Ledger, family: FamilyId, why: string, revokeOk: bool): Ledger {
    if revokeOk then Apply(l, RevokeFamily(family, why)) else l
  }

  /** What follows a rejected token read back as `row`: only a used or revoked one costs its family. */
  function AfterClassification(l: Ledger, row: RefreshRow, s2: seq<Step>, revokeOk: bool): Ledger {
    if row.used then AfterRevoke(Run(l, s2), row.family, "reuse_detected", revokeOk)
    else if row.revoked then AfterRevoke(Run(l, s2), row.family, "revoked_token_presented", revokeOk)
    else l
  }

  /**
    The same by row: a used or revoked token's family is dead, every other row is what it was just before, and
    a merely expired token changes nothing.
  */
  ghost predicate ClassifiedBy(l: Ledger, s2: seq<Step>, l': Ledger, row: RefreshRow, revokeOk: bool) {
    && (!row.used && !row.revoked ==> l' == l)
    && ((row.used || row.revoked) && !revokeOk ==> l' == Run(l, s2))
    && ((row.used || row.revoked) && revokeOk ==>
          && Dead(l', row.family)
          && TakenDown(Run(l, s2), l', row.family, if row.used then "reuse_detected" else "revoked_token_presented"))
  }

  /** What rejectCode leaves behind: only a used code whose caller proves it costs the winner's family. */
  function AfterRejection(l: Ledger, s256: string -> string, req: CodeRequest, row: CodeRow, s: seq<Step>,
                          revokeOk: bool): Ledger {
    if row.used && Proves(s256, req, row) && row.family.Some? then
      AfterRevoke(Run(l, s), row.family.value, "authorization_code_reuse", revokeOk)
    else l
  }

  /** A code, and a verifier of the length that section 4.1 of RFC 7636 allows. */
  predicate WellFormed(req: CodeRequest) {
    req.code.Some? && 43 <= |req.verifier| <= 128
  }

  /** The root of the new family: the user's present address and the service's limit. */
  function RootFor(l: Ledger, row: CodeRow, services: map<string, Service>, hash: Hash, family: FamilyId): NewRoot
    requires row.service in services && row.user.Some? && row.user.value in l.users
  {
    NewRoot(hash, family, row.user.value, l.users[row.user.value].email, row.service, services[row.service].maxAge)
  }

  /**
    The code is used for a new family, whose one row belongs to the code's user, who was active in `seen`, under
    the address they had there.
  */
  ghost predicate StartsSession(seen: Ledger, l: Ledger, l': Ledger, req: CodeRequest, code: CodeRow,
                                maxAge: Option<nat>, hash: Hash, family: FamilyId) {
    && code.user.Some? && code.user.value in seen.users && seen.users[code.user.value].active
    && OpensFamily(l, l', code.user.value, seen.users[code.user.value].email, code.service, maxAge, hash, family)
    && req.code.Some? && SpendsCode(l, l', req.code.value, family)
  }

  /** The UPDATE of the redeeming transaction matched no row: somebody else was faster, or the code ran out. */
  predicate LosesRace(l: Ledger, s256: string -> string, req: CodeRequest, root: NewRoot)
    requires req.code.Some?
  {
    root.user != 0 && root.family !in l.drawnFamilies && !Redeemable(l.codes, ClaimOf(s256, req), l.now)
  }

  function SecondReading(at: Ledger, s256: string -> string, req: CodeRequest, root: NewRoot, s3: seq<Step>,
                         fate: Fate): Option<CodeRow>
    requires req.code.Some?
  {
    if LosesRace(at, s256, req, root) && fate.rereadOk && req.code.value in Run(at, s3).codes
    then Some(Run(at, s3).codes[req.code.value]) else None
  }

  /** How a redemption tried in `at` ends: one committed step, an untouched ledger, or a classified loser. */
  function RedemptionEnds(at: Ledger, s256: string -> string, req: CodeRequest, root: NewRoot, s3: seq<Step>,
                          s4: seq<Step>, fate: Fate): (Answer, Ledger)
    requires req.code.Some?
  {
    if RedeemSucceeds(at, ClaimOf(s256, req), root, fate.insertOk) then (Granted, Redeemed(at, req.code.value, root))
    else if !LosesRace(at, s256, req, root) then (ServerError, at)
    else
      var again := SecondReading(at, s256, req, root, s3, fate);
      if again.Some? then (InvalidGrant, AfterRejection(Run(at, s3), s256, req, again.value, s4, fate.revokeOk))
      else (if fate.rereadOk then InvalidGrant else ServerError, Run(at, s3))
  }

  predicate Rejects(l: Ledger, s256: string -> string, req: CodeRequest, row: CodeRow) {
    row.used || row.expires <= l.now || !Proves(s256, req, row)
  }

  /** An unused, unexpired code, proven by its caller. */
  predicate Passes(l: Ledger, s256: string -> string, req: CodeRequest, row: CodeRow) {
    !Rejects(l, s256, req, row)
  }

  /** ConsumeRefreshToken finds no row. */
  predicate Misses(l: Ledger, hash: Hash) {
    !(hash in l.refresh && Consumable(l.refresh[hash], l.now))
  }

  /** The row read back for a token that could not be consumed in `at`. */
  function ReadBack(at: Ledger, hash: Hash, s1: seq<Step>, fate: Fate): Option<RefreshRow> {
    if Misses(at, hash) && fate.readOk && hash in Run(at, s1).refresh then Some(Run(at, s1).refresh[hash]) else None
  }

  /**
    The tables after a rotation that did not commit: a used or revoked token takes its family down, nothing
    else writes.
  */
  function NotRotated(at: Ledger, hash: Hash, s1: seq<Step>, s2: seq<Step>, fate: Fate): Ledger {
    if !Misses(at, hash) then at
    else
      match ReadBack(at, hash, s1, fate)
      case None => Run(at, s1)
      case Some(row) => AfterClassification(Run(at, s1), row, s2, fate.revokeOk)
  }

  /** Why a rotated token is refused after all, if it is, and the reason its family is revoked for. */
  ghost function Verdict(l: Ledger, row: RefreshRow, services: map<string, Service>, issueOk: bool):
      (v: (Answer, string))
    ensures v.0.Granted? <==> row.service.Some? && row.service.value in services
                              && MayUse(l, row.user, services[row.service.value]) && issueOk
  {
    if row.user.None? || row.user.value !in l.users || !l.users[row.user.value].active then
      (TokenInvalid, "user_inactive")
    else if row.service.None? || row.service.value !in services then (InvalidGrant, "service_invalid")
    else if !MayUse(l, row.user, services[row.service.value]) then (InvalidGrant, "policy_denied")
    else if !issueOk then (ServerError, "issue_failed")
    else (Granted, "")
  }

  /** Where no two verifiers have the same digest, only the verifier the challenge was made from matches it. */
  lemma PkceExactly(s256: string -> string, verifier: string, original: string, challengeMethod: string)
    requires forall v, w :: s256(v) == s256(w) ==> v == w
    ensures VerifyPkce(s256, verifier, s256(original), challengeMethod)
            <==> verifier == original && verifier != "" && s256(original) != "" && challengeMethod == "S256"
  {
  }

  /** The checks before the redemption and the conditions of its UPDATE agree. */
  lemma PassesExactlyRedeemable(l: Ledger, s256: string -> string, req: CodeRequest)
    requires WellFormed(req) && s256(req.verifier) != "" && req.code.value in l.codes
    ensures Passes(l, s256, req, l.codes[req.code.value]) <==> Redeemable(l.codes, ClaimOf(s256, req), l.now)
  {
  }

  function ClaimOf(s256: string -> string, req: CodeRequest): Redemption
    requires req.code.Some?
  {
    Redemption(req.code.value, req.clientId, req.redirectUri, s256(req.verifier))
  }

  class Store {
    var refresh: RefreshTable
    var codes: CodeTable
    var users: map<int, User>
    var clock: int
    var drawnTokens: set<Hash>
    var drawnFamilies: set<FamilyId>
    var drawnCodes: set<Hash>

    ghost function Model(): Ledger
      reads this
    {
      Ledger(refresh, codes, users, clock, drawnTokens, drawnFamilies, drawnCodes)
    }

    constructor (start: int)
      ensures Model() == Empty(start)
    {
      refresh, codes, users, clock := map[], map[], map[], start;
      drawnTokens, drawnFamilies, drawnCodes := {}, {}, {};
    }

    // ---- statements -----------------------------------------------------------------------

    method ConsumeRefreshToken(hash: Hash) returns (row: Option<RefreshRow>)
      modifies this`refresh
      ensures row.Some? <==> hash in old(refresh) && Consumable(old(refresh)[hash], clock)
      ensures row.Some? ==> row.value == old(refresh)[hash].(used := true) && refresh == old(refresh)[hash := row.value]
      ensures row.None? ==> refresh == old(refresh)
    {
      if hash !in refresh || !Consumable(refresh[hash], clock) {
        return None;
      }
      refresh := refresh[hash := refresh[hash].(used := true)];
      return Some(refresh[hash]);
    }

    /** Fails when the generator repeats itself (the UNIQUE constraint) or the database does. */
    method InsertRefreshToken(hash: Hash, row: RefreshRow, insertOk: bool) returns (ok: bool)
      modifies this`refresh, this`drawnTokens
      ensures ok <==> insertOk && hash !in old(drawnTokens)
      ensures ok ==> refresh == old(refresh)[hash := row] && drawnTokens == old(drawnTokens) + {hash}
      ensures !ok ==> refresh == old(refresh) && drawnTokens == old(drawnTokens)
    {
      ok := insertOk && hash !in drawnTokens;
      if ok {
        refresh, drawnTokens := refresh[hash := row], drawnTokens + {hash};
      }
    }

    method RevokeFamilyTokens(family: FamilyId, why: string)
      modifies this`refresh
      ensures Model() == Apply(old(Model()), RevokeFamily(family, why))
      ensures TakenDown(old(Model()), Model(), family, why)
    {
      RevokeFamilyByRow(Model(), family, why);
      refresh := map h | h in refresh ::
        if refresh[h].family == family && !refresh[h].revoked
        then refresh[h].(revoked := true, reason := Some(why)) else refresh[h];
      assert refresh == RevokeFamilyRows(old(refresh), family, why);
    }

    method ConsumeAuthorizationCodeChecked(claim: Redemption, family: FamilyId) returns (hit: bool)
      modifies this`codes
      ensures hit <==> Redeemable(old(codes), claim, clock)
      ensures hit ==> codes == old(codes)[claim.code := old(codes)[claim.code].(used := true, family := Some(family))]
      ensures !hit ==> codes == old(codes)
    {
      if claim.code !in codes {
        return false;
      }
      var row := codes[claim.code];
      if row.service != claim.service || row.redirectUri != claim.redirectUri {
        return false;
      }
      if row.challenge != claim.challenge || row.challengeMethod != "S256" {
        return false;
      }
      if row.used || row.expires <= clock {
        return false;
      }
      codes := codes[claim.code := row.(used := true, family := Some(family))];
      return true;
    }

    // ---- transactions: all statements or none -----------------------------------------------

    method RotateTx(hash: Hash, child: Hash, insertOk: bool) returns (res: TxResult<RefreshRow>)
      modifies this
      ensures Model() == Apply(old(Model()), Rotate(hash, child, insertOk))
      ensures res.Committed? <==> RotateSucceeds(old(Model()), hash, child, insertOk)
      ensures res.NoRow? <==> !(hash in old(refresh) && Consumable(old(refresh)[hash], old(clock)))
      ensures res.Committed? ==> res.value == old(refresh)[hash].(used := true)
    {
      var saved := refresh;
      var consumed := ConsumeRefreshToken(hash);
      if consumed.None? {
        return NoRow;
      }
      var parent := consumed.value;
      var row := RefreshRow(parent.email, parent.user, parent.service, parent.family, Some(hash), clock,
                            ComputeExpires(clock, parent.familyExpires), parent.familyExpires, false, false, None);
      var ok := InsertRefreshToken(child, row, insertOk);
      if !ok {
        refresh := saved;
        return Failed;
      }
      return Committed(parent);
    }

    method RedeemTx(claim: Redemption, root: NewRoot, insertOk: bool) returns (res: TxResult<()>)
      modifies this
      ensures Model() == Apply(old(Model()), Redeem(claim, root, insertOk))
      ensures res.Committed? <==> RedeemSucceeds(old(Model()), claim, root, insertOk)
      ensures res.NoRow? <==> root.user != 0 && root.family !in old(drawnFamilies)
                              && !Redeemable(old(codes), claim, old(clock))
    {
      if root.user == 0 || root.family in drawnFamilies {
        return Failed;
      }
      var saved := codes;
      var hit := ConsumeAuthorizationCodeChecked(claim, root.family);
      if !hit {
        return NoRow;
      }
      var ok := InsertRefreshToken(root.hash, RootRow(root, clock), insertOk);
      if !ok {
        codes := saved;
        return Failed;
      }
      drawnFamilies := drawnFamilies + {root.family};
      return Committed(());
    }

    /** One step of somebody else. */
    method Do(step: Step)
      modifies this
      ensures Model() == Apply(old(Model()), step)
    {
      match step
      case Tick(seconds) => clock := clock + seconds;
      case SaveUser(id, user) => users := users[id := user];
      case CreateCode(c) =>
        if c.code !in drawnCodes {
          codes := codes[c.code := CodeRow(c.service, c.email, Some(c.user), c.redirectUri, c.challenge,
                                           c.challengeMethod, clock + CODE_TTL, false, None)];
          drawnCodes := drawnCodes + {c.code};
        }
      case Issue(root) =>
        if root.user != 0 && root.family !in drawnFamilies {
          var ok := InsertRefreshToken(root.hash, RootRow(root, clock), true);
          if ok { drawnFamilies := drawnFamilies + {root.family}; }
        }
      case Redeem(claim, root, insertOk) => var _ := RedeemTx(claim, root, insertOk);
      case Rotate(hash, child, insertOk) => var _ := RotateTx(hash, child, insertOk);
      case RevokeFamily(family, why) => RevokeFamilyTokens(family, why);
      case RevokeUser(user, why) => refresh := RevokeUserRows(refresh, user, why);
      case CleanRefresh => refresh := DeleteExpired(refresh, clock);
      case CleanCodes => codes := map c | c in codes && !(codes[c].expires < clock) :: codes[c];
        assert codes == LiveCodes(old(codes), clock);
    }

    method Interfere(steps: seq<Step>)
      requires Inv(Model())
      modifies this
      ensures Model() == Run(old(Model()), steps)
      ensures Inv(Model()) && Evolves(old(Model()), Model())
    {
      ghost var start := Model();
      assert steps[..0] == [];
      for i := 0 to |steps|
        invariant Model() == Run(start, steps[..i])
      {
        assert steps[..i + 1] == steps[..i] + [steps[i]];
        RunConcat(start, steps[..i], [steps[i]]);
        assert Run(Run(start, steps[..i]), [steps[i]]) == Apply(Run(start, steps[..i]), steps[i]);
        Do(steps[i]);
      }
      assert steps[..|steps|] == steps;
      RunEvolves(start, steps);
    }

    // ---- refresh.go: Rotate with classifyRejected and handleReuse ------------------------------

    /**
      `at` is the ledger the consuming transaction saw, and `read` the row classification
      re-read. A presented token that is stored as used or revoked takes its whole family down;
      an unused, unrevoked one that is merely expired changes nothing.
    */
    method RotateToken(hash: Hash, child: Hash, s0: seq<Step>, s1: seq<Step>, s2: seq<Step>, fate: Fate)
      returns (r: RotateOutcome, ghost at: Ledger, ghost read: Option<RefreshRow>)
      requires Inv(Model())
      modifies this
      ensures Inv(Model())
      ensures at == Run(old(Model()), s0) && Inv(at)
      ensures r.RotatedTo? <==> RotateSucceeds(at, hash, child, fate.insertOk)
      ensures r.RotatedTo? ==> Model() == Rotated(at, hash, child) && r.row == at.refresh[hash].(used := true)
      ensures read == ReadBack(at, hash, s1, fate)
      ensures read.Some? ==> r == if read.value.used then ReuseDetected else TokenRevoked
      ensures read.None? && !r.RotatedTo? ==> r == if Misses(at, hash) && fate.readOk then TokenRevoked else RotateError
      ensures !r.RotatedTo? ==> Model() == NotRotated(at, hash, s1, s2, fate)
      ensures read.Some? ==> ClassifiedBy(Run(at, s1), s2, Model(), read.value, fate.revokeOk)
    {
      read := None;
      Interfere(s0);
      at := Model();
      var tx := RotateTx(hash, child, fate.insertOk);
      StepKeepsInv(at, Rotate(hash, child, fate.insertOk));
      if tx.Committed? {
        return RotatedTo(tx.value), at, read;
      }
      if tx.Failed? {
        return RotateError, at, read;
      }
      assert Model() == at;
      r, read := ClassifyRejected(hash, s1, s2, fate);
    }

    /** classifyRejected with handleReuse, after a rotation that found no row to consume. */
    method ClassifyRejected(hash: Hash, s1: seq<Step>, s2: seq<Step>, fate: Fate)
      returns (r: RotateOutcome, ghost read: Option<RefreshRow>)
      requires Inv(Model())
      modifies this
      ensures Inv(Model())
      ensures read == if fate.readOk && hash in Run(old(Model()), s1).refresh
                      then Some(Run(old(Model()), s1).refresh[hash]) else None
      ensures r == if !fate.readOk then RotateError
                   else if read.Some? && read.value.used then ReuseDetected else TokenRevoked
      ensures read.None? ==> Model() == Run(old(Model()), s1)
      ensures read.Some? ==> Model() == AfterClassification(Run(old(Model()), s1), read.value, s2, fate.revokeOk)
      ensures read.Some? ==> ClassifiedBy(Run(old(Model()), s1), s2, Model(), read.value, fate.revokeOk)
    {
      read := None;
      Interfere(s1);
      if !fate.readOk {
        return RotateError, read;
      }
      if hash !in refresh {
        return TokenRevoked, read;
      }
      var existing := refresh[hash];
      read := Some(existing);
      r := if existing.used then ReuseDetected else TokenRevoked;
      if existing.used || existing.revoked {
        Interfere(s2);
        if fate.revokeOk {
          KillFamily(existing.family, if existing.used then "reuse_detected" else "revoked_token_presented");
        }
      }
    }

    method KillFamily(family: FamilyId, why: string)
      requires Inv(Model()) && family in drawnFamilies
      modifies this
      ensures Inv(Model()) && Dead(Model(), family)
      ensures Model() == Apply(old(Model()), RevokeFamily(family, why)) && TakenDown(old(Model()), Model(), family, why)
    {
      RevokeKills(Model(), family, why);
      StepKeepsInv(Model(), RevokeFamily(family, why));
      RevokeFamilyTokens(family, why);
    }

    /**
      RevokeFamilyOfToken, the logout: `read` is the row as it was looked up. A stored token takes its
      family down, also one that was revoked before, for which the answer is false; an unknown token
      writes nothing.
    */
    method RevokeFamilyOfToken(hash: Hash, why: string, s0: seq<Step>, s1: seq<Step>, fate: Fate)
      returns (ok: bool, ghost read: Option<RefreshRow>)
      requires Inv(Model())
      modifies this
      ensures Inv(Model())
      ensures read == if fate.readOk && hash in Run(old(Model()), s0).refresh
                      then Some(Run(old(Model()), s0).refresh[hash]) else None
      ensures ok <==> read.Some? && fate.revokeOk && !read.value.revoked
      ensures read.Some? && fate.revokeOk ==>
                && TakenDown(Run(Run(old(Model()), s0), s1), Model(), read.value.family, why)
                && Dead(Model(), read.value.family)
      ensures read.Some? && !fate.revokeOk ==> Model() == Run(Run(old(Model()), s0), s1)
      ensures read.None? ==> Model() == Run(old(Model()), s0)
    {
      Interfere(s0);
      if !fate.readOk || hash !in refresh {
        return false, None;
      }
      var row := refresh[hash];
      Interfere(s1);
      if fate.revokeOk { KillFamily(row.family, why); }
      return fate.revokeOk && !row.revoked, Some(row);
    }

    // ---- token_endpoint.go ----------------------------------------------------------------------

    /**
      The refresh grant. `at` is the ledger the rotation saw, `row` the rotated row, and `seen`
      the ledger at the user lookup. Success means the stored user was active and allowed at
      that moment; every failure after a rotation kills the family, except a database error
      during the lookup. Deactivation alone suffices: nothing here asks that the sessions of a
      deactivated user were revoked.
    */
    method RefreshGrant(presented: Option<Hash>, child: Hash, services: map<string, Service>,
                        s0: seq<Step>, s1: seq<Step>, s2: seq<Step>, fate: Fate)
      returns (answer: Answer, ghost at: Ledger, ghost read: Option<RefreshRow>, ghost row: Option<RefreshRow>,
               ghost seen: Ledger)
      requires Inv(Model())
      modifies this
      ensures Inv(Model())
      ensures presented.None? ==> answer.InvalidRequest? && Model() == old(Model()) && row.None? && read.None?
      ensures presented.Some? ==> at == Run(old(Model()), s0)
      ensures row.Some? <==> presented.Some? && RotateSucceeds(at, presented.value, child, fate.insertOk)
      // No rotation: the answer tells reuse from the rest, and only a used or revoked token's family is touched.
      ensures presented.Some? && row.None? ==>
                && read == ReadBack(at, presented.value, s1, fate)
                && answer == (if read.Some? && read.value.used then TokenReused
                              else if Misses(at, presented.value) && fate.readOk then TokenInvalid else ServerError)
                && Model() == NotRotated(at, presented.value, s1, s2, fate)
      ensures read.Some? ==> ClassifiedBy(Run(at, s1), s2, Model(), read.value, fate.revokeOk)
      // After a rotation the verdict decides, and every refusal takes the family down.
      ensures row.Some? ==> row.value == at.refresh[presented.value].(used := true)
                            && seen == Run(Rotated(at, presented.value, child), s1)
      ensures row.Some? ==> read.None?
      ensures row.Some? && fate.userReadOk ==>
                && answer == Verdict(seen, row.value, services, fate.issueOk).0
                && (answer.Granted? <==> row.value.service.Some? && row.value.service.value in services
                                         && MayUse(seen, row.value.user, services[row.value.service.value])
                                         && fate.issueOk)
      ensures row.Some? && fate.userReadOk ==>
                Model() == if answer.Granted? then seen
                           else AfterRevoke(Run(seen, s2), row.value.family,
                                            Verdict(seen, row.value, services, fate.issueOk).1, fate.revokeOk)
      ensures answer.Granted? ==> row.Some? && fate.userReadOk
      ensures answer.Granted? ==> row.value.user.Some? && row.value.user.value in seen.users
                                  && seen.users[row.value.user.value].active
      ensures row.Some? && !answer.Granted? && fate.userReadOk && fate.revokeOk ==>
                && Dead(Model(), row.value.family)
                && TakenDown(Run(seen, s2), Model(), row.value.family,
                             Verdict(seen, row.value, services, fate.issueOk).1)
      ensures row.Some? && !fate.userReadOk ==> answer.TokenInvalid? && Model() == seen
    {
      at, read, row, seen := Model(), None, None, Model();
      if presented.None? {
        return InvalidRequest, at, read, row, seen;
      }
      var outcome;
      outcome, at, read := RotateToken(presented.value, child, s0, s1, s2, fate);
      match outcome
      case RotateError => return ServerError, at, read, row, seen;
      case ReuseDetected => return TokenReused, at, read, row, seen;
      case TokenRevoked => return TokenInvalid, at, read, row, seen;
      case RotatedTo(rotated) =>
        row := Some(rotated);
        assert rotated.family in drawnFamilies;
        Interfere(s1);
        seen := Model();
        if !fate.userReadOk {
          return TokenInvalid, at, read, row, seen;
        }
        answer := CheckRotated(rotated, services, s2, fate);
        return answer, at, read, row, seen;
    }

    /** The checks after a rotation, in the order of the code; the first that fails costs the family. */
    method CheckRotated(row: RefreshRow, services: map<string, Service>, s2: seq<Step>, fate: Fate)
      returns (answer: Answer)
      requires Inv(Model()) && row.family in drawnFamilies
      modifies this
      ensures Inv(Model())
      ensures answer == Verdict(old(Model()), row, services, fate.issueOk).0
      ensures Model() == if answer.Granted? then old(Model())
                         else AfterRevoke(Run(old(Model()), s2), row.family,
                                          Verdict(old(Model()), row, services, fate.issueOk).1, fate.revokeOk)
      ensures !answer.Granted? && fate.revokeOk ==>
                && Dead(Model(), row.family)
                && TakenDown(Run(old(Model()), s2), Model(), row.family,
                             Verdict(old(Model()), row, services, fate.issueOk).1)
      ensures answer.Granted? ==> row.user.Some? && row.user.value in users && users[row.user.value].active
    {
      if row.user.None? || row.user.value !in users || !users[row.user.value].active {
        RejectRotated(row.family, "user_inactive", s2, fate);
        return TokenInvalid;
      }
      var user := users[row.user.value];
      if row.service.None? || row.service.value !in services {
        RejectRotated(row.family, "service_invalid", s2, fate);
        return InvalidGrant;
      }
      var allowed := CheckPolicy(user.roles, user.orgs, services[row.service.value]);
      if !allowed {
        RejectRotated(row.family, "policy_denied", s2, fate);
        return InvalidGrant;
      }
      if !fate.issueOk {
        RejectRotated(row.family, "issue_failed", s2, fate);
        return ServerError;
      }
      return Granted;
    }

    method RejectRotated(family: FamilyId, why: string, s2: seq<Step>, fate: Fate)
      requires Inv(Model()) && family in drawnFamilies
      modifies this
      ensures Inv(Model())
      ensures fate.revokeOk ==> Dead(Model(), family) && TakenDown(Run(old(Model()), s2), Model(), family, why)
      ensures Model() == AfterRevoke(Run(old(Model()), s2), family, why, fate.revokeOk)
    {
      Interfere(s2);
      if fate.revokeOk { KillFamily(family, why); }
    }

    /**
      rejectCode: true when the row cannot be redeemed by this caller. Only a used code whose
      caller proves the code leads to a write, and that write kills the winner's family.
    */
    method RejectCode(s256: string -> string, req: CodeRequest, row: CodeRow, s: seq<Step>, fate: Fate)
      returns (rejected: bool)
      requires Inv(Model())
      requires row.used ==> row.family.Some? && row.family.value in drawnFamilies
      modifies this
      ensures Inv(Model())
      ensures rejected <==> Rejects(old(Model()), s256, req, row)
      ensures rejected <==> || row.used || row.expires <= old(clock)
                            || row.service != req.clientId || row.redirectUri != req.redirectUri
                            || !VerifyPkce(s256, req.verifier, row.challenge, row.challengeMethod)
      ensures Model() == AfterRejection(old(Model()), s256, req, row, s, fate.revokeOk)
      ensures row.used && Proves(s256, req, row) && fate.revokeOk ==> KilledBy(Run(old(Model()), s), Model(), row)
      ensures !(row.used && Proves(s256, req, row)) ==> Model() == old(Model())
    {
      if row.used {
        if row.service != req.clientId || row.redirectUri != req.redirectUri
           || !VerifyPkce(s256, req.verifier, row.challenge, row.challengeMethod) {
          return true;
        }
        if row.family.Some? {
          Interfere(s);
          if fate.revokeOk { KillFamily(row.family.value, "authorization_code_reuse"); }
        }
        return true;
      }
      if row.expires <= clock { return true; }
      if row.service != req.clientId { return true; }
      if row.redirectUri != req.redirectUri { return true; }
      return !VerifyPkce(s256, req.verifier, row.challenge, row.challengeMethod);
    }

    /**
      The authorization code grant. `first` is the code row as read before the consume, `second`
      as re-read after a lost race, and `at` the ledger the redeeming transaction saw.
    */
    method CodeGrant(s256: string -> string, req: CodeRequest, hash: Hash, family: FamilyId,
                     services: map<string, Service>,
                     s0: seq<Step>, s1: seq<Step>, s2: seq<Step>, s3: seq<Step>, s4: seq<Step>, fate: Fate)
      returns (answer: Answer, ghost first: Option<CodeRow>, ghost second: Option<CodeRow>, ghost at: Option<Ledger>)
      requires Inv(Model())
      modifies this
      ensures Inv(Model())
      // The request as such.
      ensures req.code.None? ==> answer.InvalidRequest?
      ensures req.code.Some? && !(43 <= |req.verifier| <= 128) ==> answer.InvalidGrant?
      ensures !WellFormed(req) ==> Model() == old(Model()) && first.None? && at.None?
      // The first reading.
      ensures WellFormed(req) ==>
                first == if fate.readOk && req.code.value in Run(old(Model()), s0).codes
                         then Some(Run(old(Model()), s0).codes[req.code.value]) else None
      ensures WellFormed(req) && first.None? ==>
                && at.None? && Model() == Run(old(Model()), s0)
                && answer == if fate.readOk then InvalidGrant else ServerError
      // Used, expired or not proven: no write, except that a caller who proves a used code kills the winner's family.
      ensures first.Some? && Rejects(Run(old(Model()), s0), s256, req, first.value) ==>
                && at.None? && answer.InvalidGrant?
                && Model() == AfterRejection(Run(old(Model()), s0), s256, req, first.value, s1, fate.revokeOk)
      ensures first.Some? && first.value.used && Proves(s256, req, first.value) && fate.revokeOk ==>
                KilledBy(Run(Run(old(Model()), s0), s1), Model(), first.value)
      ensures first.Some? && first.value.used && !Proves(s256, req, first.value) ==> Model() == Run(old(Model()), s0)
      // A refusal by service, user, policy or signing writes nothing.
      ensures first.Some? && Passes(Run(old(Model()), s0), s256, req, first.value)
              && first.value.service !in services ==>
                at.None? && answer.InvalidClient? && Model() == Run(old(Model()), s0)
      ensures first.Some? && Passes(Run(old(Model()), s0), s256, req, first.value)
              && first.value.service in services ==>
                var l1 := Run(Run(old(Model()), s0), s1);
                var allowed := MayUse(l1, first.value.user, services[first.value.service]);
                && (at.Some? <==> fate.userReadOk && allowed && fate.issueOk)
                && (at.None? ==>
                      Model() == l1 && answer == if fate.userReadOk && !allowed then InvalidGrant else ServerError)
                // Else the redemption decides, and the loser of a race is classified on a second reading.
                && (at.Some? ==>
                      && at.value == Run(l1, s2)
                      && var root := RootFor(l1, first.value, services, hash, family);
                      && second == SecondReading(at.value, s256, req, root, s3, fate)
                      && (answer, Model()) == RedemptionEnds(at.value, s256, req, root, s3, s4, fate))
      ensures second.Some? && second.value.used && Proves(s256, req, second.value) && fate.revokeOk ==>
                at.Some? && KilledBy(Run(Run(at.value, s3), s4), Model(), second.value)
      ensures second.Some? && !(second.value.used && Proves(s256, req, second.value)) ==>
                at.Some? && Model() == Run(at.value, s3)
      // What a grant leaves behind.
      ensures answer.Granted? ==> at.Some? && first.Some? && first.value.service in services
      ensures answer.Granted? ==> StartsSession(Run(Run(old(Model()), s0), s1), at.value, Model(), req, first.value,
                                                services[first.value.service].maxAge, hash, family)
    {
      first, second, at := None, None, None;
      if req.code.None? {
        return InvalidRequest, first, second, at;
      }
      if |req.verifier| < 43 || |req.verifier| > 128 {
        return InvalidGrant, first, second, at;
      }
      Interfere(s0);
      if !fate.readOk {
        return ServerError, first, second, at;
      }
      if req.code.value !in codes {
        return InvalidGrant, first, second, at;
      }
      var row := codes[req.code.value];
      first := Some(row);
      var rejected := RejectCode(s256, req, row, s1, fate);
      if rejected {
        return InvalidGrant, first, second, at;
      }
      if row.service !in services {
        return InvalidClient, first, second, at;
      }
      Interfere(s1);
      answer, second, at := GrantProven(s256, req, row, hash, family, services, s2, s3, s4, fate);
    }

    /** The grant for a live code its caller has proven, from the user lookup on. */
    method GrantProven(s256: string -> string, req: CodeRequest, row: CodeRow, hash: Hash, family: FamilyId,
                       services: map<string, Service>, s2: seq<Step>, s3: seq<Step>, s4: seq<Step>, fate: Fate)
      returns (answer: Answer, ghost second: Option<CodeRow>, ghost at: Option<Ledger>)
      requires Inv(Model()) && req.code.Some? && row.service in services
      modifies this
      ensures Inv(Model())
      ensures at.Some? <==> fate.userReadOk && MayUse(old(Model()), row.user, services[row.service]) && fate.issueOk
      ensures at.None? ==> second.None? && Model() == old(Model())
      ensures at.None? ==>
                answer == if fate.userReadOk && !MayUse(old(Model()), row.user, services[row.service]) then InvalidGrant
                          else ServerError
      ensures at.Some? ==>
                && at.value == Run(old(Model()), s2)
                && var root := RootFor(old(Model()), row, services, hash, family);
                && second == SecondReading(at.value, s256, req, root, s3, fate)
                && (answer, Model()) == RedemptionEnds(at.value, s256, req, root, s3, s4, fate)
      ensures second.Some? && second.value.used && Proves(s256, req, second.value) && fate.revokeOk ==>
                at.Some? && KilledBy(Run(Run(at.value, s3), s4), Model(), second.value)
      ensures second.Some? && !(second.value.used && Proves(s256, req, second.value)) ==>
                at.Some? && Model() == Run(at.value, s3)
      ensures answer.Granted? ==> at.Some? && StartsSession(old(Model()), at.value, Model(), req, row,
                                                            services[row.service].maxAge, hash, family)
    {
      second, at := None, None;
      if !fate.userReadOk {
        return ServerError, second, at;
      }
      if row.user.None? || row.user.value !in users || !users[row.user.value].active {
        return InvalidGrant, second, at;
      }
      var user, svc := users[row.user.value], services[row.service];
      var allowed := CheckPolicy(user.roles, user.orgs, svc);
      if !allowed {
        return InvalidGrant, second, at;
      }
      if !fate.issueOk {
        return ServerError, second, at;
      }
      var root := NewRoot(hash, family, row.user.value, user.email, row.service, svc.maxAge);
      ghost var before;
      answer, second, before := RedeemOrClassify(s256, req, root, s2, s3, s4, fate);
      at := Some(before);
    }

    /** RedeemAuthorizationCode, and on a lost race the second reading with its classification. */
    method RedeemOrClassify(s256: string -> string, req: CodeRequest, root: NewRoot,
                            s2: seq<Step>, s3: seq<Step>, s4: seq<Step>, fate: Fate)
      returns (answer: Answer, ghost second: Option<CodeRow>, ghost at: Ledger)
      requires Inv(Model()) && req.code.Some?
      modifies this
      ensures Inv(Model())
      ensures at == Run(old(Model()), s2)
      ensures second == SecondReading(at, s256, req, root, s3, fate)
      ensures (answer, Model()) == RedemptionEnds(at, s256, req, root, s3, s4, fate)
      ensures second.Some? && second.value.used && Proves(s256, req, second.value) && fate.revokeOk ==>
                KilledBy(Run(Run(at, s3), s4), Model(), second.value)
      ensures second.Some? && !(second.value.used && Proves(s256, req, second.value)) ==> Model() == Run(at, s3)
      ensures answer.Granted? ==>
                && OpensFamily(at, Model(), root.user, root.email, root.service, root.maxAge, root.hash, root.family)
                && SpendsCode(at, Model(), req.code.value, root.family)
    {
      second := None;
      Interfere(s2);
      at := Model();
      var claim := ClaimOf(s256, req);
      StepKeepsInv(at, Redeem(claim, root, fate.insertOk));
      var tx := RedeemTx(claim, root, fate.insertOk);
      if tx.Committed? {
        RootByRow(at, Redeem(claim, root, true), root);
        RedemptionByRow(at, claim, root);
        return Granted, second, at;
      }
      if tx.Failed? {
        return ServerError, second, at;
      }
      assert Model() == at;
      Interfere(s3);
      if !fate.rereadOk {
        return ServerError, second, at;
      }
      if req.code.value !in codes {
        return InvalidGrant, second, at;
      }
      var again := codes[req.code.value];
      second := Some(again);
      var _ := RejectCode(s256, req, again, s4, fate);
      return InvalidGrant, second, at;
    }
  }
}
