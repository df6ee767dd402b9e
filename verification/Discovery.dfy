/**
  The discovery cache of one provider: single flight, stale while revalidate, back-off after a
  failure. Callers and the background fetch interleave at the granularity of their critical
  sections; `log` records what happened and is never read by a step.
*/
module Discovery {
  import opened Common

  type Doc(==, !new)
  type Fault(==, !new)

  const TTL := 24 * 60 * 60
  const MAX_AGE := 7 * 24 * 60 * 60
  const NEG_TTL := 60

  /** What a Go caller gets: value and error, either of which may be nil as far as the type goes. */
  datatype Reply = Reply(d: Option<Doc>, err: Option<Fault>)

  /** discoverFn, with panics turned into errors. */
  datatype Fetched = Found(doc: Doc) | Broken(fault: Fault)

  datatype Flight = Fetching | Settled(reply: Reply) | Published(reply: Reply)

  datatype Event =
    | Started(at: int, flight: int)
    | Succeeded(at: int, doc: Doc)
    | FailedAt(at: int, fault: Fault)
    | Returned(at: int, caller: int, reply: Reply, waited: bool)

  datatype Cache = Cache(
    d: Option<Doc>, fetchedAt: int, lastErr: Option<Fault>, retryAfter: Option<int>, inflight: Option<int>,
    flights: map<int, Flight>, nextFlight: int, waiting: map<int, int>, now: int, log: seq<Event>)

  datatype Step =
    | Tick(seconds: nat)
    | Call(caller: int)
    | Settle(flight: int, result: Fetched)
    | Publish(flight: int)
    | Wake(caller: int)
    | Cancel(caller: int, fault: Fault)

  function Empty(now: int): Cache {
    Cache(None, 0, None, None, None, map[], 0, map[], now, [])
  }

  /** now is before retryAfter; the zero time is before everything. */
  predicate BackingOff(c: Cache) {
    c.retryAfter.Some? && c.now < c.retryAfter.value
  }

  predicate Younger(c: Cache, age: int) {
    c.d.Some? && c.now - c.fetchedAt < age
  }

  /** startLocked. */
  function Start(c: Cache): Cache {
    c.(inflight := Some(c.nextFlight), flights := c.flights[c.nextFlight := Fetching], nextFlight := c.nextFlight + 1,
       log := c.log + [Started(c.now, c.nextFlight)])
  }

  /** Start a fetch unless one runs or the back-off holds. */
  function Renew(c: Cache): Cache {
    if c.inflight.None? && !BackingOff(c) then Start(c) else c
  }

  function Return(c: Cache, caller: int, reply: Reply, waited: bool): Cache {
    c.(log := c.log + [Returned(c.now, caller, reply, waited)])
  }

  /** The critical section of Discover: the reply, or None when the caller has to wait for the flight. */
  function Discover(c: Cache, caller: int): Cache {
    if Younger(c, TTL) then Return(c, caller, Reply(c.d, None), false)
    else if Younger(c, MAX_AGE) then
      Return(Renew(c), caller, Reply(c.d, None), false)
    else if c.inflight.None? && BackingOff(c) then Return(c, caller, Reply(None, c.lastErr), false)
    else
      var c' := Renew(c);
      c'.(waiting := c'.waiting[caller := c'.inflight.value])
  }

  /** The critical section at the end of fetch. */
  function FinishFetch(c: Cache, flight: int, result: Fetched): Cache {
    match result
    case Found(doc) =>
      c.(d := Some(doc), fetchedAt := c.now, lastErr := None, retryAfter := None, inflight := None,
         flights := c.flights[flight := Settled(Reply(Some(doc), None))], log := c.log + [Succeeded(c.now, doc)])
    case Broken(fault) =>
      c.(lastErr := Some(fault), retryAfter := Some(c.now + NEG_TTL), inflight := None,
         flights := c.flights[flight := Settled(Reply(None, Some(fault)))], log := c.log + [FailedAt(c.now, fault)])
  }

  function Apply(c: Cache, step: Step): Cache {
    match step
    case Tick(seconds) => c.(now := c.now + seconds)
    case Call(caller) => if caller in c.waiting then c else Discover(c, caller)
    case Settle(f, result) => if f in c.flights && c.flights[f].Fetching? then FinishFetch(c, f, result) else c
    case Publish(f) =>
      if f in c.flights && c.flights[f].Settled? then c.(flights := c.flights[f := Published(c.flights[f].reply)])
      else c
    case Wake(caller) =>
      if caller in c.waiting && c.waiting[caller] in c.flights && c.flights[c.waiting[caller]].Published? then
        Return(c, caller, c.flights[c.waiting[caller]].reply, true).(waiting := c.waiting - {caller})
      else c
    case Cancel(caller, fault) =>
      if caller in c.waiting then
        Return(c, caller, Reply(None, Some(fault)), true).(waiting := c.waiting - {caller})
      else c
  }

  function Run(c: Cache, steps: seq<Step>): Cache
    decreases |steps|
  {
    if steps == [] then c else Run(Apply(c, steps[0]), steps[1..])
  }

  // ---- what the log says ------------------------------------------------------------------------

  datatype Success = Success(at: int, doc: Doc)

  /** The last successful fetch on record. */
  function LastSuccess(log: seq<Event>): Option<Success> {
    if log == [] then None
    else
      match log[|log| - 1]
      case Succeeded(at, doc) => Some(Success(at, doc))
      case _ => LastSuccess(log[..|log| - 1])
  }

  /** A fetch may start at this time: 60 seconds after every failure, 24 hours after every success. */
  ghost predicate QuietBefore(log: seq<Event>, at: int) {
    forall i :: 0 <= i < |log| ==>
      && (log[i].FailedAt? ==> log[i].at + 60 <= at)
      && (log[i].Succeeded? ==> log[i].at + 24 * 3600 <= at)
  }

  /** Every fetch on record kept its distance from the completions before it. */
  ghost predicate Spaced(log: seq<Event>) {
    forall j :: 0 <= j < |log| && log[j].Started? ==> QuietBefore(log[..j], log[j].at)
  }

  /** One of value and error, never both and never neither. */
  predicate ExactlyOne(reply: Reply) {
    reply.d.Some? <==> reply.err.None?
  }

  /** A value may be returned without waiting: it is the last success and under seven days old. */
  predicate Usable(log: seq<Event>, at: int, doc: Doc) {
    var last := LastSuccess(log);
    last.Some? && last.value.doc == doc && at - last.value.at < 7 * 24 * 3600
  }

  /** The last fetch on record to end, with success or without. */
  function LastCompletion(log: seq<Event>): Option<Event> {
    if log == [] then None
    else if log[|log| - 1].Succeeded? || log[|log| - 1].FailedAt? then Some(log[|log| - 1])
    else LastCompletion(log[..|log| - 1])
  }

  /** An error may be returned without waiting: the last fetch to end failed with it, less than a minute ago. */
  predicate JustFailed(log: seq<Event>, at: int, fault: Fault) {
    var last := LastCompletion(log);
    last.Some? && last.value.FailedAt? && last.value.fault == fault && at - last.value.at < 60
  }

  predicate ReplySound(log: seq<Event>, e: Event) {
    e.Returned? ==>
      && ExactlyOne(e.reply)
      && (!e.waited && e.reply.d.Some? ==> Usable(log, e.at, e.reply.d.value))
      && (!e.waited && e.reply.err.Some? ==> JustFailed(log, e.at, e.reply.err.value))
  }

  ghost predicate RepliesSound(log: seq<Event>) {
    forall j :: 0 <= j < |log| ==> ReplySound(log[..j], log[j])
  }

  lemma AppendKeepsLog(log: seq<Event>, e: Event)
    requires Spaced(log) && RepliesSound(log)
    requires e.Started? ==> QuietBefore(log, e.at)
    requires ReplySound(log, e)
    ensures Spaced(log + [e]) && RepliesSound(log + [e])
  {
    var more := log + [e];
    forall j | 0 <= j < |more|
      ensures ReplySound(more[..j], more[j]) && (more[j].Started? ==> QuietBefore(more[..j], more[j].at))
    {
      assert more[..j] == log[..j];
      if j == |log| {
        assert log[..j] == log;
      } else {
        assert more[j] == log[j];
      }
    }
  }

  lemma AppendAndLastCompletion(log: seq<Event>, e: Event)
    ensures LastCompletion(log + [e]) == if e.Succeeded? || e.FailedAt? then Some(e) else LastCompletion(log)
  {
    assert (log + [e])[..|log|] == log;
  }

  lemma AppendAndLastSuccess(log: seq<Event>, e: Event)
    ensures LastSuccess(log + [e]) == if e.Succeeded? then Some(Success(e.at, e.doc)) else LastSuccess(log)
  {
    assert (log + [e])[..|log|] == log;
  }

  // ---- the invariant ----------------------------------------------------------------------------

  ghost predicate FlightsShaped(c: Cache) {
    && (forall f :: f in c.flights ==>
          f < c.nextFlight && (c.flights[f].Fetching? <==> c.inflight.Some? && c.inflight.value == f))
    && (c.inflight.Some? ==> c.inflight.value in c.flights)
    && (forall f :: f in c.flights && (c.flights[f].Settled? || c.flights[f].Published?) ==>
          ExactlyOne(c.flights[f].reply))
    && (forall k :: k in c.waiting ==> c.waiting[k] in c.flights)
  }

  predicate ValueIsLastSuccess(c: Cache) {
    match LastSuccess(c.log)
    case None => c.d.None?
    case Some(s) => c.d == Some(s.doc) && c.fetchedAt == s.at && s.at <= c.now
  }

  /** A fetch starting now is quiet, except for what the back-off and the age of the value hold back. */
  ghost predicate CompletionsPast(c: Cache) {
    forall i :: 0 <= i < |c.log| ==>
      && (c.log[i].Succeeded? ==> c.d.Some? && c.log[i].at <= c.fetchedAt)
      && (c.log[i].FailedAt? ==>
            || c.log[i].at + NEG_TTL <= c.now
            || (c.inflight.None? && c.retryAfter.Some? && c.log[i].at + NEG_TTL <= c.retryAfter.value))
  }

  /** The back-off stands exactly when the last fetch to end failed, with that error and for a minute. */
  predicate BackOffIsReal(c: Cache) {
    var last := LastCompletion(c.log);
    if last.Some? && last.value.FailedAt?
    then c.retryAfter == Some(last.value.at + 60) && c.lastErr == Some(last.value.fault)
    else c.retryAfter.None? && c.lastErr.None?
  }

  ghost predicate Inv(c: Cache) {
    && FlightsShaped(c)
    && ValueIsLastSuccess(c)
    && CompletionsPast(c)
    && BackOffIsReal(c)
    && Spaced(c.log)
    && RepliesSound(c.log)
  }

  lemma StartIsQuiet(c: Cache)
    requires CompletionsPast(c) && c.inflight.None? && !BackingOff(c) && !Younger(c, TTL)
    ensures QuietBefore(c.log, c.now)
  {
  }

  lemma StartKeepsCompletions(c: Cache)
    requires CompletionsPast(c) && c.inflight.None? && !BackingOff(c)
    ensures CompletionsPast(Start(c))
  {
  }

  lemma StartKeepsInv(c: Cache)
    requires Inv(c) && c.inflight.None? && !BackingOff(c) && !Younger(c, TTL)
    ensures Inv(Start(c))
  {
    StartIsQuiet(c);
    StartKeepsCompletions(c);
    AppendKeepsLog(c.log, Started(c.now, c.nextFlight));
    AppendAndLastSuccess(c.log, Started(c.now, c.nextFlight));
    AppendAndLastCompletion(c.log, Started(c.now, c.nextFlight));
  }

  lemma ReturnKeepsInv(c: Cache, caller: int, reply: Reply, waited: bool)
    requires Inv(c) && ReplySound(c.log, Returned(c.now, caller, reply, waited))
    ensures Inv(Return(c, caller, reply, waited))
  {
    var e := Returned(c.now, caller, reply, waited);
    AppendKeepsLog(c.log, e);
    AppendAndLastSuccess(c.log, e);
    AppendAndLastCompletion(c.log, e);
  }

  /** Serving the stored value is sound while it is under seven days old. */
  lemma ServingIsSound(c: Cache, caller: int)
    requires Inv(c) && Younger(c, MAX_AGE)
    ensures ReplySound(c.log, Returned(c.now, caller, Reply(c.d, None), false))
  {
  }

  lemma RenewKeepsInv(c: Cache)
    requires Inv(c) && !Younger(c, TTL)
    ensures Inv(Renew(c))
    ensures Renew(c).d == c.d && Renew(c).fetchedAt == c.fetchedAt && Renew(c).now == c.now
  {
    if c.inflight.None? && !BackingOff(c) { StartKeepsInv(c); }
  }

  lemma WaitingKeepsInv(c: Cache, caller: int)
    requires Inv(c) && c.inflight.Some?
    ensures Inv(c.(waiting := c.waiting[caller := c.inflight.value]))
  {
  }

  lemma DiscoverKeepsInv(c: Cache, caller: int)
    requires Inv(c)
    ensures Inv(Discover(c, caller))
  {
    if Younger(c, TTL) {
      ServingIsSound(c, caller);
      ReturnKeepsInv(c, caller, Reply(c.d, None), false);
    } else if Younger(c, MAX_AGE) {
      RenewKeepsInv(c);
      ServingIsSound(Renew(c), caller);
      ReturnKeepsInv(Renew(c), caller, Reply(c.d, None), false);
    } else if c.inflight.None? && BackingOff(c) {
      ReturnKeepsInv(c, caller, Reply(None, c.lastErr), false);
    } else {
      RenewKeepsInv(c);
      WaitingKeepsInv(Renew(c), caller);
    }
  }

  lemma SuccessKeepsInv(c: Cache, flight: int, doc: Doc)
    requires Inv(c) && flight in c.flights && c.flights[flight].Fetching?
    ensures Inv(FinishFetch(c, flight, Found(doc)))
  {
    var e := Succeeded(c.now, doc);
    AppendKeepsLog(c.log, e);
    AppendAndLastSuccess(c.log, e);
    AppendAndLastCompletion(c.log, e);
  }

  lemma FailureKeepsInv(c: Cache, flight: int, fault: Fault)
    requires Inv(c) && flight in c.flights && c.flights[flight].Fetching?
    ensures Inv(FinishFetch(c, flight, Broken(fault)))
  {
    var e := FailedAt(c.now, fault);
    AppendKeepsLog(c.log, e);
    AppendAndLastSuccess(c.log, e);
    AppendAndLastCompletion(c.log, e);
  }

  lemma FinishKeepsInv(c: Cache, flight: int, result: Fetched)
    requires Inv(c) && flight in c.flights && c.flights[flight].Fetching?
    ensures Inv(FinishFetch(c, flight, result))
  {
    match result
    case Found(doc) => SuccessKeepsInv(c, flight, doc);
    case Broken(fault) => FailureKeepsInv(c, flight, fault);
  }

  lemma LeaveKeepsInv(c: Cache, caller: int, reply: Reply)
    requires Inv(c) && ExactlyOne(reply)
    ensures Inv(Return(c, caller, reply, true).(waiting := c.waiting - {caller}))
  {
    ReturnKeepsInv(c, caller, reply, true);
  }

  lemma PublishKeepsInv(c: Cache, f: int)
    requires Inv(c) && f in c.flights && c.flights[f].Settled?
    ensures Inv(c.(flights := c.flights[f := Published(c.flights[f].reply)]))
  {
  }

  lemma StepKeepsInv(c: Cache, step: Step)
    requires Inv(c)
    ensures Inv(Apply(c, step))
  {
    match step
    case Tick(_) =>
    case Call(caller) => DiscoverKeepsInv(c, caller);
    case Settle(f, result) => if f in c.flights && c.flights[f].Fetching? { FinishKeepsInv(c, f, result); }
    case Publish(f) => if f in c.flights && c.flights[f].Settled? { PublishKeepsInv(c, f); }
    case Wake(caller) =>
      if caller in c.waiting && c.flights[c.waiting[caller]].Published? {
        var f := c.waiting[caller];
        assert c.flights[f].Published?;
        LeaveKeepsInv(c, caller, c.flights[f].reply);
      }
    case Cancel(caller, fault) =>
      if caller in c.waiting { LeaveKeepsInv(c, caller, Reply(None, Some(fault))); }
  }

  lemma {:induction false} RunKeepsInv(c: Cache, steps: seq<Step>)
    requires Inv(c)
    ensures Inv(Run(c, steps))
    decreases |steps|
  {
    if steps != [] {
      StepKeepsInv(c, steps[0]);
      RunKeepsInv(Apply(c, steps[0]), steps[1..]);
    }
  }

  // ---- over every run from an empty cache -------------------------------------------------------

  lemma EmptyInv(now: int)
    ensures Inv(Empty(now))
  {
  }

  lemma SuccessIsRecorded(log: seq<Event>)
    requires LastSuccess(log).Some?
    ensures exists i :: 0 <= i < |log| && log[i] == Succeeded(LastSuccess(log).value.at, LastSuccess(log).value.doc)
  {
    if !log[|log| - 1].Succeeded? {
      var rest := log[..|log| - 1];
      SuccessIsRecorded(rest);
      var i :| 0 <= i < |rest| && rest[i] == Succeeded(LastSuccess(rest).value.at, LastSuccess(rest).value.doc);
      assert log[i] == rest[i];
    } else {
      assert log[|log| - 1] == Succeeded(LastSuccess(log).value.at, LastSuccess(log).value.doc);
    }
  }

  lemma CompletionIsRecorded(log: seq<Event>)
    requires LastCompletion(log).Some?
    ensures exists i :: 0 <= i < |log| && log[i] == LastCompletion(log).value
  {
    if !(log[|log| - 1].Succeeded? || log[|log| - 1].FailedAt?) {
      var rest := log[..|log| - 1];
      CompletionIsRecorded(rest);
      var i :| 0 <= i < |rest| && rest[i] == LastCompletion(rest).value;
      assert log[i] == rest[i];
    } else {
      assert log[|log| - 1] == LastCompletion(log).value;
    }
  }

  /**
    At most one fetch runs; none started within 60 seconds of a failure or 24 hours of a success; every
    caller gets a value or an error and never both; a value served without waiting is the last success
    and under seven days old, and an error is that of the last fetch to end, less than a minute ago.
  */
  lemma CacheIsSafe(start: int, steps: seq<Step>)
    ensures var c := Run(Empty(start), steps);
      && (forall f, g :: f in c.flights && g in c.flights && c.flights[f].Fetching? && c.flights[g].Fetching? ==>
            f == g)
      && (forall i, j :: 0 <= i < j < |c.log| && c.log[j].Started? ==>
            && (c.log[i].FailedAt? ==> c.log[j].at - c.log[i].at >= 60)
            && (c.log[i].Succeeded? ==> c.log[j].at - c.log[i].at >= 24 * 3600))
      && (forall j :: 0 <= j < |c.log| && c.log[j].Returned? ==>
            && (c.log[j].reply.d.Some? <==> c.log[j].reply.err.None?)
            && (!c.log[j].waited && c.log[j].reply.d.Some? ==> Usable(c.log[..j], c.log[j].at, c.log[j].reply.d.value))
            && (!c.log[j].waited && c.log[j].reply.err.Some? ==>
                  JustFailed(c.log[..j], c.log[j].at, c.log[j].reply.err.value)))
  {
    var c := Run(Empty(start), steps);
    EmptyInv(start);
    RunKeepsInv(Empty(start), steps);
    forall i, j | 0 <= i < j < |c.log| && c.log[j].Started?
      ensures c.log[i].FailedAt? ==> c.log[j].at - c.log[i].at >= 60
      ensures c.log[i].Succeeded? ==> c.log[j].at - c.log[i].at >= 24 * 3600
    {
      assert QuietBefore(c.log[..j], c.log[j].at);
      assert c.log[..j][i] == c.log[i];
    }
  }

  /**
    A caller is served at once exactly while the last success is under seven days old, however many
    renewals have failed since, and what it gets is that success.
  */
  lemma ServedExactlyWhileUsable(start: int, steps: seq<Step>, caller: int)
    requires caller !in Run(Empty(start), steps).waiting
    ensures var c := Run(Empty(start), steps);
      var served := Apply(c, Call(caller)).log;
      (exists doc :: Usable(c.log, c.now, doc))
        <==> (|served| > |c.log| && served[|served| - 1].Returned? && served[|served| - 1].reply.d.Some?)
    ensures var c := Run(Empty(start), steps);
      var served := Apply(c, Call(caller)).log;
      forall doc :: Usable(c.log, c.now, doc) ==>
        |served| > 0 && served[|served| - 1] == Returned(c.now, caller, Reply(Some(doc), None), false)
  {
    EmptyInv(start);
    RunKeepsInv(Empty(start), steps);
    var c := Run(Empty(start), steps);
    if Younger(c, MAX_AGE) {
      assert Usable(c.log, c.now, c.d.value);
    }
  }

  /** A caller is refused at once exactly when it could not be served, no fetch runs, and one has just failed. */
  lemma RefusedExactlyInBackOff(start: int, steps: seq<Step>, caller: int, fault: Fault)
    requires caller !in Run(Empty(start), steps).waiting
    ensures var c := Run(Empty(start), steps);
      (Apply(c, Call(caller)).log == c.log + [Returned(c.now, caller, Reply(None, Some(fault)), false)]
       <==> (forall doc :: !Usable(c.log, c.now, doc))
            && (forall f :: f in c.flights ==> !c.flights[f].Fetching?)
            && JustFailed(c.log, c.now, fault))
  {
    EmptyInv(start);
    RunKeepsInv(Empty(start), steps);
    var c := Run(Empty(start), steps);
    if Younger(c, MAX_AGE) {
      assert Usable(c.log, c.now, c.d.value);
    }
    if c.inflight.Some? {
      var f := c.inflight.value;
      assert f in c.flights && c.flights[f].Fetching?;
    }
    RefusedInBackOff(c, caller, fault);
  }

  lemma RefusedInBackOff(c: Cache, caller: int, fault: Fault)
    requires Inv(c) && caller !in c.waiting
    ensures Apply(c, Call(caller)).log == c.log + [Returned(c.now, caller, Reply(None, Some(fault)), false)]
            <==> !Younger(c, MAX_AGE) && c.inflight.None? && JustFailed(c.log, c.now, fault)
  {
    var served := Apply(c, Call(caller)).log;
    if served == c.log + [Returned(c.now, caller, Reply(None, Some(fault)), false)] {
      assert served[|served| - 1] == Returned(c.now, caller, Reply(None, Some(fault)), false);
    }
  }

  lemma QuietMeansMayStart(c: Cache)
    requires Inv(c) && c.inflight.None?
    ensures !BackingOff(c) && !Younger(c, TTL) <==> QuietBefore(c.log, c.now)
  {
    if c.d.Some? {
      SuccessIsRecorded(c.log);
    }
    if BackingOff(c) {
      CompletionIsRecorded(c.log);
    }
  }

  /** A call starts a fetch exactly when none runs and every earlier completion is far enough back. */
  lemma FetchStartsExactlyWhenQuiet(start: int, steps: seq<Step>, caller: int)
    requires caller !in Run(Empty(start), steps).waiting
    ensures var c := Run(Empty(start), steps);
      (Apply(c, Call(caller)).nextFlight == c.nextFlight + 1
       <==> (forall f :: f in c.flights ==> !c.flights[f].Fetching?) && QuietBefore(c.log, c.now))
  {
    EmptyInv(start);
    RunKeepsInv(Empty(start), steps);
    var c := Run(Empty(start), steps);
    if c.inflight.None? {
      QuietMeansMayStart(c);
    } else {
      var f := c.inflight.value;
      assert f in c.flights && c.flights[f].Fetching?;
    }
    assert Renew(c).nextFlight == c.nextFlight + (if c.inflight.None? && !BackingOff(c) then 1 else 0);
  }

  // ---- waiters ----------------------------------------------------------------------------------

  /** A schedule in which the caller itself neither wakes nor gives up. */
  predicate LeavesWaiting(steps: seq<Step>, caller: int) {
    forall i :: 0 <= i < |steps| ==> steps[i] != Wake(caller) && (steps[i].Cancel? ==> steps[i].caller != caller)
  }

  /** The caller waits for flight f, and what f has settled on, if it has, is final. */
  predicate StillWaits(c: Cache, c': Cache, caller: int, f: int) {
    && caller in c'.waiting && c'.waiting[caller] == f && f in c'.flights
    && (f in c.flights && !c.flights[f].Fetching? ==>
          !c'.flights[f].Fetching? && c'.flights[f].reply == c.flights[f].reply)
    && (f in c.flights && c.flights[f].Published? ==> c'.flights[f].Published?)
  }

  lemma CallLeavesWaiting(c: Cache, other: int, caller: int)
    requires Inv(c) && caller in c.waiting && other != caller
    ensures StillWaits(c, Discover(c, other), caller, c.waiting[caller])
  {
    assert c.waiting[caller] < c.nextFlight;
  }

  lemma StepLeavesWaiting(c: Cache, step: Step, caller: int)
    requires Inv(c) && caller in c.waiting
    requires step != Wake(caller) && (step.Cancel? ==> step.caller != caller)
    ensures StillWaits(c, Apply(c, step), caller, c.waiting[caller])
  {
    match step
    case Call(other) => if other !in c.waiting { CallLeavesWaiting(c, other, caller); }
    case Tick(_) | Settle(_, _) | Publish(_) | Wake(_) | Cancel(_, _) =>
  }

  /**
    Whatever the others do, during the fetch and after it, a waiting caller keeps waiting for the same flight,
    and what that flight has settled on never changes.
  */
  lemma {:induction false} WaiterKeepsItsFlight(c: Cache, steps: seq<Step>, caller: int)
    requires Inv(c) && caller in c.waiting && LeavesWaiting(steps, caller)
    ensures StillWaits(c, Run(c, steps), caller, c.waiting[caller]) && Inv(Run(c, steps))
    decreases |steps|
  {
    if steps != [] {
      StepKeepsInv(c, steps[0]);
      StepLeavesWaiting(c, steps[0], caller);
      WaiterKeepsItsFlight(Apply(c, steps[0]), steps[1..], caller);
    }
  }

  function ReplyOf(result: Fetched): Reply {
    if result.Found? then Reply(Some(result.doc), None) else Reply(None, Some(result.fault))
  }

  lemma SettleSettles(c: Cache, f: int, result: Fetched)
    requires Inv(c) && f in c.flights
    ensures var c' := Apply(c, Settle(f, result));
      && Inv(c') && f in c'.flights && !c'.flights[f].Fetching? && c'.waiting == c.waiting
      && c'.flights[f].reply == if c.flights[f].Fetching? then ReplyOf(result) else c.flights[f].reply
  {
    StepKeepsInv(c, Settle(f, result));
  }

  lemma PublishPublishes(c: Cache, f: int)
    requires Inv(c) && f in c.flights && !c.flights[f].Fetching?
    ensures var c' := Apply(c, Publish(f));
      && Inv(c') && f in c'.flights && c'.flights[f] == Published(c.flights[f].reply) && c'.waiting == c.waiting
  {
    StepKeepsInv(c, Publish(f));
  }

  /**
    No caller waits for ever: with anything at all happening before and between the end of its fetch, the
    closing of the channel and its waking, it is woken with the result of that fetch.
  */
  lemma WaiterIsReleased(c: Cache, s0: seq<Step>, result: Fetched, s1: seq<Step>, s2: seq<Step>, caller: int)
    returns (fetched: Cache, woken: Cache)
    requires Inv(c) && caller in c.waiting
    requires LeavesWaiting(s0, caller) && LeavesWaiting(s1, caller) && LeavesWaiting(s2, caller)
    ensures var f := c.waiting[caller];
      && fetched == Run(c, s0) && f in fetched.flights
      && woken == Run(Apply(Run(Apply(fetched, Settle(f, result)), s1), Publish(f)), s2)
      && f in woken.flights && woken.flights[f].Published?
      && woken.flights[f].reply == (if fetched.flights[f].Fetching? then ReplyOf(result) else fetched.flights[f].reply)
      && var last := Apply(woken, Wake(caller));
      && caller !in last.waiting
      && last.log == woken.log + [Returned(woken.now, caller, woken.flights[f].reply, true)]
  {
    var f := c.waiting[caller];
    WaiterKeepsItsFlight(c, s0, caller);
    fetched := Run(c, s0);
    SettleSettles(fetched, f, result);
    var settled := Apply(fetched, Settle(f, result));
    WaiterKeepsItsFlight(settled, s1, caller);
    PublishPublishes(Run(settled, s1), f);
    var published := Apply(Run(settled, s1), Publish(f));
    WaiterKeepsItsFlight(published, s2, caller);
    woken := Run(published, s2);
  }

  // ---- the entry as the code updates it ---------------------------------------------------------

  /** One entry of the registry, together with the flights it has started and who waits for them. */
  class Entry {
    var d: Option<Doc>
    var fetchedAt: int
    var lastErr: Option<Fault>
    var retryAfter: Option<int>
    var inflight: Option<int>
    var flights: map<int, Flight>
    var nextFlight: int
    var waiting: map<int, int>
    var now: int
    ghost var log: seq<Event>

    ghost function Model(): Cache
      reads this
    {
      Cache(d, fetchedAt, lastErr, retryAfter, inflight, flights, nextFlight, waiting, now, log)
    }

    constructor (now: int)
      ensures Model() == Empty(now)
    {
      d, fetchedAt, lastErr, retryAfter, inflight := None, 0, None, None, None;
      flights, nextFlight, waiting, this.now, log := map[], 0, map[], now, [];
    }

    method StartLocked()
      modifies this
      ensures Model() == Start(old(Model()))
    {
      log := log + [Started(now, nextFlight)];
      inflight := Some(nextFlight);
      flights := flights[nextFlight := Fetching];
      nextFlight := nextFlight + 1;
    }

    /** The locked part of Discover; None means that the caller goes on to wait for the flight. */
    method Discover(caller: int) returns (answer: Option<Reply>)
      requires Inv(Model()) && caller !in waiting
      modifies this
      ensures Inv(Model())
      ensures Model() == Apply(old(Model()), Call(caller))
      ensures answer.None? <==> caller in waiting
      ensures answer.Some? ==> log != [] && log[|log| - 1] == Returned(now, caller, answer.value, false)
    {
      StepKeepsInv(Model(), Call(caller));
      answer := Serve(caller);
    }

    method Serve(caller: int) returns (answer: Option<Reply>)
      requires caller !in waiting
      modifies this
      ensures Model() == Apply(old(Model()), Call(caller))
      ensures answer.None? <==> caller in waiting
      ensures answer.Some? ==> log != [] && log[|log| - 1] == Returned(now, caller, answer.value, false)
    {
      var age := now - fetchedAt;
      if d.Some? && age < TTL {
        answer := Some(Reply(d, None));
        log := log + [Returned(now, caller, answer.value, false)];
        return;
      }
      if d.Some? && age < MAX_AGE {
        answer := Some(Reply(d, None));
        if inflight.None? && !(retryAfter.Some? && now < retryAfter.value) {
          StartLocked();
        }
        log := log + [Returned(now, caller, answer.value, false)];
        return;
      }
      if inflight.None? {
        if retryAfter.Some? && now < retryAfter.value {
          answer := Some(Reply(None, lastErr));
          log := log + [Returned(now, caller, answer.value, false)];
          return;
        }
        StartLocked();
      }
      waiting := waiting[caller := inflight.value];
      answer := None;
    }

    /** The locked part of fetch, with the result of the guarded discovery call. */
    method Finish(flight: int, result: Fetched)
      requires Inv(Model()) && flight in flights && flights[flight].Fetching?
      modifies this
      ensures Inv(Model())
      ensures Model() == Apply(old(Model()), Settle(flight, result))
    {
      StepKeepsInv(Model(), Settle(flight, result));
      Record(flight, result);
    }

    method Record(flight: int, result: Fetched)
      requires flight in flights && flights[flight].Fetching?
      modifies this
      ensures Model() == Apply(old(Model()), Settle(flight, result))
    {
      if result.Found? {
        d, fetchedAt, lastErr, retryAfter := Some(result.doc), now, None, None;
        log := log + [Succeeded(now, result.doc)];
      } else {
        lastErr, retryAfter := Some(result.fault), Some(now + NEG_TTL);
        log := log + [FailedAt(now, result.fault)];
      }
      inflight, flights := None, flights[flight := Settled(ReplyOf(result))];
    }

    /** Closing done hands the flight's result to everyone who waits for it. */
    method CloseDone(flight: int)
      requires Inv(Model()) && flight in flights && flights[flight].Settled?
      modifies this
      ensures Inv(Model())
      ensures Model() == Apply(old(Model()), Publish(flight))
    {
      StepKeepsInv(Model(), Publish(flight));
      flights := flights[flight := Published(flights[flight].reply)];
    }

    /** The end of the wait: the flight's result, or the context's error when the caller gave up first. */
    method Await(caller: int, cancelled: Option<Fault>) returns (reply: Reply)
      requires Inv(Model()) && caller in waiting
      requires cancelled.None? ==> flights[waiting[caller]].Published?
      modifies this
      ensures Inv(Model()) && ExactlyOne(reply)
      ensures Model() == Apply(old(Model()), if cancelled.Some? then Cancel(caller, cancelled.value) else Wake(caller))
      ensures reply == if cancelled.Some? then Reply(None, cancelled) else old(flights[waiting[caller]].reply)
    {
      StepKeepsInv(Model(), if cancelled.Some? then Cancel(caller, cancelled.value) else Wake(caller));
      var flight := waiting[caller];
      reply := if cancelled.Some? then Reply(None, cancelled) else flights[flight].reply;
      log := log + [Returned(now, caller, reply, true)];
      waiting := waiting - {caller};
    }
  }
}
