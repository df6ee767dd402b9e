/**
  The tables behind the token endpoint and the atomic steps that change them.

  A `Ledger` holds the refresh_tokens and authorization_codes tables, the users the endpoint
  looks up, and the clock. `Apply` gives the effect of one SQL statement or one committed
  transaction; a run is a sequence of steps. Rows are keyed by the UNIQUE hash of the secret.
  The `drawn...` sets record every value the random generator has produced: a step that names a
  value drawn before has no effect, which is how "random values never repeat" enters the model.
*/
module SessionLedger {
  import opened Common

  /** SHA-256 digests of random secrets, and random family ids: only equality matters. */
  type Hash(==, !new)
  type FamilyId(==, !new)

  const THIRTY_DAYS := 30 * 24 * 60 * 60
  const CODE_TTL := 60

  datatype RefreshRow = RefreshRow(
    email: string, user: Option<int>, service: Option<string>, family: FamilyId, parent: Option<Hash>,
    created: int, expires: int, familyExpires: Option<int>,
    used: bool, revoked: bool, reason: Option<string>)

  datatype CodeRow = CodeRow(
    service: string, email: string, user: Option<int>, redirectUri: string,
    challenge: string, challengeMethod: string, expires: int, used: bool, family: Option<FamilyId>)

  datatype User = User(email: string, roles: string, orgs: string, active: bool)

  type RefreshTable = map<Hash, RefreshRow>
  type CodeTable = map<Hash, CodeRow>

  datatype Ledger = Ledger(
    refresh: RefreshTable, codes: CodeTable, users: map<int, User>, now: int,
    drawnTokens: set<Hash>, drawnFamilies: set<FamilyId>, drawnCodes: set<Hash>)

  function Empty(now: int): Ledger {
    Ledger(map[], map[], map[], now, {}, {}, {})
  }

  /** What newRootToken is given: two fresh random values, the user, and the service's family limit. */
  datatype NewRoot = NewRoot(
    hash: Hash, family: FamilyId, user: int, email: string, service: string, maxAge: Option<nat>)

  /** The predicates RedeemAuthorizationCode puts in its UPDATE; `challenge` is S256(verifier). */
  datatype Redemption = Redemption(code: Hash, service: string, redirectUri: string, challenge: string)

  datatype NewCode = NewCode(code: Hash, service: string, email: string, user: int, redirectUri: string,
                             challenge: string, challengeMethod: string)

  datatype Step =
    | Tick(seconds: nat)
    | SaveUser(id: int, user: User)
    | CreateCode(newCode: NewCode)
    | Issue(root: NewRoot)
    | Redeem(claim: Redemption, root: NewRoot, insertOk: bool)
    | Rotate(hash: Hash, child: Hash, insertOk: bool)
    | RevokeFamily(family: FamilyId, why: string)
    | RevokeUser(user_: int, why: string)
    | CleanRefresh
    | CleanCodes

  // ---- statements -------------------------------------------------------------------------

  /** min(now + 30 days, end of family). */
  function ComputeExpires(now: int, familyExpires: Option<int>): int {
    match familyExpires
    case None => now + THIRTY_DAYS
    case Some(t) => Min(t, now + THIRTY_DAYS)
  }

  function RootRow(root: NewRoot, now: int): RefreshRow {
    var familyExpires := if root.maxAge.Some? then Some(now + root.maxAge.value) else None;
    RefreshRow(root.email, Some(root.user), Some(root.service), root.family, None,
               now, ComputeExpires(now, familyExpires), familyExpires, false, false, None)
  }

  function ChildRow(parent: RefreshRow, parentHash: Hash, now: int): RefreshRow {
    RefreshRow(parent.email, parent.user, parent.service, parent.family, Some(parentHash),
               now, ComputeExpires(now, parent.familyExpires), parent.familyExpires, false, false, None)
  }

  /** The WHERE clause of ConsumeRefreshToken. */
  predicate Consumable(row: RefreshRow, now: int) {
    !row.used && !row.revoked && row.expires > now
  }

  function Revoke(row: RefreshRow, why: string): RefreshRow {
    if row.revoked then row else row.(revoked := true, reason := Some(why))
  }

  function RevokeFamilyRows(rows: RefreshTable, family: FamilyId, why: string): RefreshTable {
    map h | h in rows :: if rows[h].family == family then Revoke(rows[h], why) else rows[h]
  }

  function RevokeUserRows(rows: RefreshTable, user: int, why: string): RefreshTable {
    map h | h in rows :: if rows[h].user == Some(user) then Revoke(rows[h], why) else rows[h]
  }

  /** The WHERE clause of DeleteExpiredRefreshTokens. */
  predicate Deletable(row: RefreshRow, now: int) {
    row.expires < now && (row.familyExpires.None? || row.familyExpires.value < now)
  }

  /** The DELETE together with the foreign key's ON DELETE SET NULL on parent_id. */
  function DeleteExpired(rows: RefreshTable, now: int): RefreshTable {
    map h | h in rows && !Deletable(rows[h], now) ::
      if rows[h].parent.Some? && rows[h].parent.value in rows && Deletable(rows[rows[h].parent.value], now)
      then rows[h].(parent := None)
      else rows[h]
  }

  /** The WHERE clause of ConsumeAuthorizationCodeChecked. */
  predicate Redeemable(codes: CodeTable, claim: Redemption, now: int) {
    && claim.code in codes
    && var row := codes[claim.code];
    && row.service == claim.service
    && row.redirectUri == claim.redirectUri
    && row.challenge == claim.challenge
    && row.challengeMethod == "S256"
    && !row.used
    && row.expires > now
  }

  /** generateFamilyID, generatePlainToken and the user.ID check all pass. */
  predicate RootOk(l: Ledger, root: NewRoot) {
    root.user != 0 && root.hash !in l.drawnTokens && root.family !in l.drawnFamilies
  }

  // ---- steps ------------------------------------------------------------------------------

  predicate RotateSucceeds(l: Ledger, hash: Hash, child: Hash, insertOk: bool) {
    hash in l.refresh && Consumable(l.refresh[hash], l.now) && child !in l.drawnTokens && insertOk
  }

  predicate RedeemSucceeds(l: Ledger, claim: Redemption, root: NewRoot, insertOk: bool) {
    RootOk(l, root) && Redeemable(l.codes, claim, l.now) && insertOk
  }

  function Created(l: Ledger, c: NewCode): Ledger {
    l.(codes := l.codes[c.code := CodeRow(c.service, c.email, Some(c.user), c.redirectUri, c.challenge,
                                          c.challengeMethod, l.now + CODE_TTL, false, None)],
       drawnCodes := l.drawnCodes + {c.code})
  }

  function Issued(l: Ledger, root: NewRoot): Ledger {
    l.(refresh := l.refresh[root.hash := RootRow(root, l.now)],
       drawnTokens := l.drawnTokens + {root.hash},
       drawnFamilies := l.drawnFamilies + {root.family})
  }

  function Redeemed(l: Ledger, code: Hash, root: NewRoot): Ledger
    requires code in l.codes
  {
    Issued(l, root).(codes := l.codes[code := l.codes[code].(used := true, family := Some(root.family))])
  }

  function RotatedRows(rows: RefreshTable, hash: Hash, child: Hash, now: int): RefreshTable
    requires hash in rows
  {
    rows[hash := rows[hash].(used := true)][child := ChildRow(rows[hash], hash, now)]
  }

  function Rotated(l: Ledger, hash: Hash, child: Hash): Ledger
    requires hash in l.refresh
  {
    l.(refresh := RotatedRows(l.refresh, hash, child, l.now), drawnTokens := l.drawnTokens + {child})
  }

  function LiveCodes(codes: CodeTable, now: int): CodeTable {
    map c | c in codes && codes[c].expires >= now :: codes[c]
  }

  /** One atomic step. A step whose WHERE clause matches no row, or whose transaction fails, changes nothing. */
  function Apply(l: Ledger, step: Step): Ledger {
    match step
    case Tick(seconds) => l.(now := l.now + seconds)
    case SaveUser(id, user) => l.(users := l.users[id := user])
    case CreateCode(c) => if c.code in l.drawnCodes then l else Created(l, c)
    case Issue(root) => if RootOk(l, root) then Issued(l, root) else l
    case Redeem(claim, root, insertOk) =>
      if RedeemSucceeds(l, claim, root, insertOk) then Redeemed(l, claim.code, root) else l
    case Rotate(hash, child, insertOk) =>
      if RotateSucceeds(l, hash, child, insertOk) then Rotated(l, hash, child) else l
    case RevokeFamily(family, why) => l.(refresh := RevokeFamilyRows(l.refresh, family, why))
    case RevokeUser(user, why) => l.(refresh := RevokeUserRows(l.refresh, user, why))
    case CleanRefresh => l.(refresh := DeleteExpired(l.refresh, l.now))
    case CleanCodes => l.(codes := LiveCodes(l.codes, l.now))
  }

  function Run(l: Ledger, steps: seq<Step>): Ledger
    decreases |steps|
  {
    if steps == [] then l else Run(Apply(l, steps[0]), steps[1..])
  }

  lemma {:induction false} RunConcat(l: Ledger, a: seq<Step>, b: seq<Step>)
    ensures Run(l, a + b) == Run(Run(l, a), b)
    decreases |a|
  {
    if a == [] {
      assert a + b == b;
    } else {
      RunConcat(Apply(l, a[0]), a[1..], b);
      assert (a + b)[1..] == a[1..] + b;
    }
  }
}
