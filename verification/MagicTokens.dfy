/** Magic-link tokens: a quota counted in the table itself, while rows are burned, consumed and cleaned away. */
module MagicTokens {
  import opened Common

  type Hash(==, !new)
  type Email(==, !new)

  datatype Purpose = ServiceLogin | AdminLogin

  const TTL := 15 * 60
  const WINDOW := 15 * 60
  const MAX := 3
  const GRACE := 24 * 60 * 60

  datatype Row = Row(email: Email, purpose: Purpose, created: int, expires: int, used: bool)

  type Table = map<Hash, Row>

  /** `archive` remembers every row ever inserted, as inserted; no statement reads it. */
  datatype State = State(rows: Table, now: int, archive: Table)

  datatype Step =
    | Tick(seconds: nat)
    | Insert(hash: Hash, email: Email, purpose: Purpose)
    | Consume(hash: Hash, purpose: Purpose)
    | BurnFor(oldEmail: Email, newEmail: Email)
    | Clean

  function Empty(now: int): State {
    State(map[], now, map[])
  }

  function Counted(rows: Table, email: Email, purpose: Purpose, after: int): set<Hash> {
    set h | h in rows && rows[h].email == email && rows[h].purpose == purpose && rows[h].created > after
  }

  /** The random hash is new and fewer than three counted rows lie in the window. */
  predicate Inserts(s: State, hash: Hash, email: Email, purpose: Purpose) {
    hash !in s.archive && |Counted(s.rows, email, purpose, s.now - WINDOW)| < MAX
  }

  predicate Consumes(s: State, hash: Hash, purpose: Purpose) {
    hash in s.rows && s.rows[hash].purpose == purpose && !s.rows[hash].used && s.rows[hash].expires > s.now
  }

  /** The WHERE clause of DeleteExpiredMagicTokens. */
  predicate Deletable(row: Row, now: int) {
    (row.used && row.expires < now) || row.expires < now - GRACE
  }

  function Burned(rows: Table, a: Email, b: Email, now: int): Table {
    map h | h in rows ::
      if (rows[h].email == a || rows[h].email == b) && rows[h].expires > now then rows[h].(used := true) else rows[h]
  }

  function Apply(s: State, step: Step): State {
    match step
    case Tick(seconds) => s.(now := s.now + seconds)
    case Insert(h, email, purpose) =>
      if Inserts(s, h, email, purpose) then
        var row := Row(email, purpose, s.now, s.now + TTL, false);
        s.(rows := s.rows[h := row], archive := s.archive[h := row])
      else s
    case Consume(h, purpose) =>
      if Consumes(s, h, purpose) then s.(rows := s.rows[h := s.rows[h].(used := true)]) else s
    case BurnFor(a, b) => s.(rows := Burned(s.rows, a, b, s.now))
    case Clean => s.(rows := map h | h in s.rows && !Deletable(s.rows[h], s.now) :: s.rows[h])
  }

  function Run(s: State, steps: seq<Step>): State
    decreases |steps|
  {
    if steps == [] then s else Run(Apply(s, steps[0]), steps[1..])
  }

  // ---- the quota -----------------------------------------------------------------------------------

  /** Links issued for the address and purpose in the window (t - 15 min, t]. */
  function IssuedWithin(archive: Table, email: Email, purpose: Purpose, t: int): set<Hash> {
    set h | h in archive && archive[h].email == email && archive[h].purpose == purpose
            && t - 15 * 60 < archive[h].created <= t
  }

  ghost predicate Inv(s: State) {
    && (forall h :: h in s.rows ==> h in s.archive && s.rows[h] == s.archive[h].(used := s.rows[h].used))
    && (forall h :: h in s.archive ==>
          && s.archive[h].created <= s.now && s.archive[h].expires == s.archive[h].created + TTL
          && (s.archive[h].created >= s.now - WINDOW ==> h in s.rows))
    && (forall email, purpose, t :: |IssuedWithin(s.archive, email, purpose, t)| <= MAX)
  }

  lemma InsertKeeps(s: State, hash: Hash, email: Email, purpose: Purpose)
    requires Inv(s) && Inserts(s, hash, email, purpose)
    ensures Inv(Apply(s, Insert(hash, email, purpose)))
  {
    var archive := Apply(s, Insert(hash, email, purpose)).archive;
    forall e, p, t ensures |IssuedWithin(archive, e, p, t)| <= MAX {
      var w := IssuedWithin(archive, e, p, t);
      if hash in w {
        var counted := Counted(s.rows, email, purpose, s.now - WINDOW);
        assert w <= counted + {hash};
        SubsetCardinality(w, counted + {hash});
      } else {
        assert w == IssuedWithin(s.archive, e, p, t);
      }
    }
  }

  /** A stored row is used once it was, and a deleted row does not come back. */
  ghost predicate Evolves(a: State, b: State) {
    && a.now <= b.now
    && (forall h :: h in a.archive ==> h in b.archive && b.archive[h] == a.archive[h])
    && forall h :: h in b.rows && h in a.archive ==> h in a.rows && (a.rows[h].used ==> b.rows[h].used)
  }

  lemma StepEvolves(s: State, step: Step)
    requires Inv(s)
    ensures Evolves(s, Apply(s, step))
  {
  }

  lemma StepKeeps(s: State, step: Step)
    requires Inv(s)
    ensures Inv(Apply(s, step))
  {
    match step
    case Insert(h, email, purpose) => if Inserts(s, h, email, purpose) { InsertKeeps(s, h, email, purpose); }
    case _ =>
  }

  lemma {:induction false} RunKeeps(s: State, steps: seq<Step>)
    requires Inv(s)
    ensures Inv(Run(s, steps)) && Evolves(s, Run(s, steps))
    decreases |steps|
  {
    if steps != [] {
      StepKeeps(s, steps[0]);
      StepEvolves(s, steps[0]);
      RunKeeps(Apply(s, steps[0]), steps[1..]);
    }
  }

  /** Over every run, no 15-minute window holds more than three links for one address and purpose. */
  lemma SlidingQuota(start: int, steps: seq<Step>, email: Email, purpose: Purpose, t: int)
    ensures |IssuedWithin(Run(Empty(start), steps).archive, email, purpose, t)| <= 3
  {
    RunKeeps(Empty(start), steps);
  }

  /** A new link is refused for this reason only: three were issued in the last 15 minutes, still stored or not. */
  lemma InsertsExactly(s: State, hash: Hash, email: Email, purpose: Purpose)
    requires Inv(s)
    ensures Inserts(s, hash, email, purpose)
            <==> hash !in s.archive && |IssuedWithin(s.archive, email, purpose, s.now)| < 3
  {
    assert Counted(s.rows, email, purpose, s.now - WINDOW) == IssuedWithin(s.archive, email, purpose, s.now);
  }

  /** The deletion only touches rows the quota has stopped counting. */
  lemma CleaningNeverReopens(s: State, email: Email, purpose: Purpose)
    requires Inv(s)
    ensures Counted(Apply(s, Clean).rows, email, purpose, s.now - WINDOW)
            == Counted(s.rows, email, purpose, s.now - WINDOW)
  {
  }

  /** A link logs in at most once, and never after it was burned or has expired. */
  lemma UsedStaysUsed(s: State, hash: Hash, steps: seq<Step>, purpose: Purpose)
    requires Inv(s) && hash in s.archive && (hash in s.rows ==> s.rows[hash].used || s.rows[hash].expires <= s.now)
    ensures !Consumes(Run(s, steps), hash, purpose)
  {
    RunKeeps(s, steps);
  }

  // ---- one link, one login ---------------------------------------------------------------------------

  lemma {:induction false} RunConcat(s: State, a: seq<Step>, b: seq<Step>)
    ensures Run(s, a + b) == Run(Run(s, a), b)
    decreases |a|
  {
    if a == [] {
      assert a + b == b;
    } else {
      RunConcat(Apply(s, a[0]), a[1..], b);
      assert (a + b)[1..] == a[1..] + b;
    }
  }

  /** After a login with a link, no login with it succeeds in any continuation. */
  lemma ConsumedForGood(s: State, hash: Hash, purpose: Purpose, steps: seq<Step>, again: Purpose)
    requires Inv(s) && Consumes(s, hash, purpose)
    ensures !Consumes(Run(Apply(s, Consume(hash, purpose)), steps), hash, again)
  {
    StepKeeps(s, Consume(hash, purpose));
    UsedStaysUsed(Apply(s, Consume(hash, purpose)), hash, steps, again);
  }

  /** The step at position i of the run logs in with the link. */
  ghost predicate LogsIn(s: State, steps: seq<Step>, i: nat, hash: Hash) {
    && i < |steps| && steps[i].Consume? && steps[i].hash == hash
    && Consumes(Run(s, steps[..i]), hash, steps[i].purpose)
  }

  lemma NoSecondLogin(start: int, steps: seq<Step>, i: nat, j: nat, hash: Hash)
    requires LogsIn(Empty(start), steps, i, hash) && i < j < |steps|
    ensures !LogsIn(Empty(start), steps, j, hash)
  {
    var before := Run(Empty(start), steps[..i]);
    RunKeeps(Empty(start), steps[..i]);
    assert steps[..j] == steps[..i] + steps[i..j];
    RunConcat(Empty(start), steps[..i], steps[i..j]);
    assert steps[i..j][0] == steps[i] == Consume(hash, steps[i].purpose) && steps[i..j][1..] == steps[i + 1..j];
    if steps[j].Consume? {
      ConsumedForGood(before, hash, steps[i].purpose, steps[i + 1..j], steps[j].purpose);
    }
  }

  /** Over every run, at most one login with a link succeeds. */
  lemma AtMostOneLogin(start: int, steps: seq<Step>, i: nat, j: nat, hash: Hash)
    requires LogsIn(Empty(start), steps, i, hash) && LogsIn(Empty(start), steps, j, hash)
    ensures i == j
  {
    if i < j {
      NoSecondLogin(start, steps, i, j, hash);
    } else if j < i {
      NoSecondLogin(start, steps, j, i, hash);
    }
  }

  /** A login with this link and purpose, or an address change from or to its address. */
  predicate Spends(step: Step, hash: Hash, email: Email, purpose: Purpose) {
    || step == Consume(hash, purpose)
    || (step.BurnFor? && (step.oldEmail == email || step.newEmail == email))
  }

  predicate NoneSpends(steps: seq<Step>, hash: Hash, email: Email, purpose: Purpose) {
    forall i :: 0 <= i < |steps| ==> !Spends(steps[i], hash, email, purpose)
  }

  predicate Open(s: State, hash: Hash, email: Email, purpose: Purpose, expires: int) {
    && hash in s.rows && hash in s.archive
    && s.rows[hash].email == email && s.rows[hash].purpose == purpose && s.rows[hash].expires == expires
    && !s.rows[hash].used
  }

  lemma OpenForAStep(s: State, step: Step, hash: Hash, email: Email, purpose: Purpose, expires: int)
    requires Open(s, hash, email, purpose, expires) && !Spends(step, hash, email, purpose) && s.now <= expires
    ensures Open(Apply(s, step), hash, email, purpose, expires)
  {
  }

  lemma {:induction false} OpenWhileItLasts(s: State, steps: seq<Step>, hash: Hash, email: Email, purpose: Purpose,
                                            expires: int)
    requires Inv(s) && Open(s, hash, email, purpose, expires) && NoneSpends(steps, hash, email, purpose)
    requires Run(s, steps).now <= expires
    ensures Open(Run(s, steps), hash, email, purpose, expires)
    decreases |steps|
  {
    if steps != [] {
      RunKeeps(s, steps);
      OpenForAStep(s, steps[0], hash, email, purpose, expires);
      StepKeeps(s, steps[0]);
      OpenWhileItLasts(Apply(s, steps[0]), steps[1..], hash, email, purpose, expires);
    }
  }

  /**
    A new link logs in for 15 minutes, for its own purpose only, unless it is used before or its address is
    changed; other links, other addresses and the cleanup never cost it.
  */
  lemma LinkLasts(s: State, hash: Hash, email: Email, purpose: Purpose, steps: seq<Step>, claimed: Purpose)
    requires Inv(s) && Inserts(s, hash, email, purpose) && NoneSpends(steps, hash, email, purpose)
    ensures var s' := Run(Apply(s, Insert(hash, email, purpose)), steps);
      Consumes(s', hash, claimed) <==> claimed == purpose && s'.now < s.now + 15 * 60
  {
    var s1 := Apply(s, Insert(hash, email, purpose));
    var s' := Run(s1, steps);
    StepKeeps(s, Insert(hash, email, purpose));
    if s'.now <= s.now + 15 * 60 {
      OpenWhileItLasts(s1, steps, hash, email, purpose, s.now + 15 * 60);
    } else {
      RunKeeps(s1, steps);
    }
  }

  /** The row is stored unused for fifteen minutes, and no other row differs. */
  ghost predicate Adds(before: Table, after: Table, hash: Hash, email: Email, now: int) {
    && after.Keys == before.Keys + {hash}
    && after[hash] == Row(email, ServiceLogin, now, now + 15 * 60, false)
    && forall h :: h in before && h != hash ==> after[h] == before[h]
  }

  // ---- the table as the handlers change it -----------------------------------------------------------

  class Store {
    var rows: Table
    var clock: int
    var archive: Table

    ghost function Model(): State
      reads this
    {
      State(rows, clock, archive)
    }

    constructor (start: int)
      ensures Model() == Empty(start)
    {
      rows, clock, archive := map[], start, map[];
    }

    /**
      storeToken: true exactly when a row was inserted, so exactly then a mail goes out. `dbOk` is false when
      the insert itself fails.
    */
    method StoreToken(hash: Hash, email: Email, emailValid: bool, methodOn: bool, dbOk: bool) returns (stored: bool)
      modifies this
      ensures stored <==> emailValid && methodOn && dbOk && Inserts(old(Model()), hash, email, ServiceLogin)
      ensures Model() == if emailValid && methodOn && dbOk then Apply(old(Model()), Insert(hash, email, ServiceLogin))
                         else old(Model())
      ensures if stored then Adds(old(rows), rows, hash, email, clock) else rows == old(rows)
    {
      if !methodOn || !emailValid || !dbOk {
        return false;
      }
      if hash in archive || |Counted(rows, email, ServiceLogin, clock - WINDOW)| >= MAX {
        return false;
      }
      var row := Row(email, ServiceLogin, clock, clock + TTL, false);
      rows, archive := rows[hash := row], archive[hash := row];
      return true;
    }

    /** ConsumeMagicToken. */
    method ConsumeToken(hash: Hash, purpose: Purpose) returns (row: Option<Row>)
      modifies this
      ensures Model() == Apply(old(Model()), Consume(hash, purpose))
      ensures row.Some? <==> Consumes(old(Model()), hash, purpose)
      ensures row.Some? ==> rows.Keys == old(rows).Keys && row.value == rows[hash] == old(rows)[hash].(used := true)
      ensures row.Some? ==> forall h :: h in rows && h != hash ==> rows[h] == old(rows)[h]
      ensures row.None? ==> rows == old(rows)
    {
      if hash !in rows || rows[hash].purpose != purpose || rows[hash].used || rows[hash].expires <= clock {
        return None;
      }
      rows := rows[hash := rows[hash].(used := true)];
      return Some(rows[hash]);
    }

    /** BurnMagicTokensForEmails, part of every address change. */
    method BurnTokens(oldEmail: Email, newEmail: Email)
      modifies this
      ensures Model() == Apply(old(Model()), BurnFor(oldEmail, newEmail))
      ensures forall h, purpose :: h in rows && (rows[h].email == oldEmail || rows[h].email == newEmail) ==>
                !Consumes(Model(), h, purpose)
      ensures rows.Keys == old(rows).Keys
      ensures forall h :: h in rows && rows[h].email != oldEmail && rows[h].email != newEmail ==>
                rows[h] == old(rows)[h]
    {
      rows := map h | h in rows ::
        if (rows[h].email == oldEmail || rows[h].email == newEmail) && !rows[h].used && rows[h].expires > clock
        then rows[h].(used := true) else rows[h];
      assert rows == Burned(old(rows), oldEmail, newEmail, clock);
    }

    /** cleanMagicTokens. */
    method CleanTokens()
      modifies this
      ensures Model() == Apply(old(Model()), Clean)
      ensures forall h :: h in rows ==> h in old(rows) && rows[h] == old(rows)[h]
      ensures forall h :: h in old(rows) && old(rows)[h].expires >= clock ==> h in rows
    {
      rows := map h | h in rows && !((rows[h].used && rows[h].expires < clock) || rows[h].expires < clock - GRACE)
        :: rows[h];
      assert rows == Apply(old(Model()), Clean).rows;
    }
  }
}
