/**
  The audit queue: a bounded channel, one writer goroutine, any number of Log and Close calls. A step
  is one lock operation, channel operation or field update of one goroutine; every interleaving of
  such steps is a run. An event is named by the Log call that brings it.
*/
module AuditQueue {
  import opened Common

  /** Where a Log call is. From Reading to Refused it holds the read lock. */
  datatype LogPhase = Reading | Sending | Sent | Refused | Dropping | Finished(accepted: bool)

  /** Where a Close call is. From Locked to Sealed it holds the write lock. */
  datatype ClosePhase = Locked | Marked(first: bool) | Sealed | Draining | ReturnedNil | GaveUp

  /** Where the writer is; Exited is the closed done channel. */
  datatype Writer = Idle | Holding(event: int) | Writing(event: int) | Exited

  datatype Queue = Queue(
    capacity: nat, readers: set<int>, holder: Option<int>, closed: bool, ch: seq<int>, chClosed: bool,
    logs: map<int, LogPhase>, closes: map<int, ClosePhase>, writer: Writer, stop: bool,
    dropped: nat, written: nat, base: nat, panicked: bool,
    accepted: seq<int>, handed: seq<int>, discarded: seq<int>)

  datatype Step =
    | RLock(k: int)
    | CheckClosed(k: int)
    | TrySend(k: int)
    | RUnlock(k: int)
    | Drop(k: int)
    | Lock(k: int)
    | Mark(k: int)
    | CloseChannel(k: int)
    | Unlock(k: int)
    | SeeDone(k: int)
    | GiveUp(k: int)
    | Receive
    | CheckStop
    | WriteReturns

  function Empty(capacity: nat): Queue {
    Queue(capacity, {}, None, false, [], false, map[], map[], Idle, false, 0, 0, 0, false, [], [], [])
  }

  predicate LogAt(logs: map<int, LogPhase>, k: int, phase: LogPhase) {
    k in logs && logs[k] == phase
  }

  predicate CloseAt(closes: map<int, ClosePhase>, k: int, phase: ClosePhase) {
    k in closes && closes[k] == phase
  }

  function MoveLog(q: Queue, k: int, phase: LogPhase): Queue {
    q.(logs := q.logs[k := phase])
  }

  function MoveClose(q: Queue, k: int, phase: ClosePhase): Queue {
    q.(closes := q.closes[k := phase])
  }

  /** The non-blocking send of Log. Sending on a closed channel panics. */
  function Send(q: Queue, k: int): (q': Queue)
    ensures q'.capacity == q.capacity
    ensures q'.closes == q.closes && q'.writer == q.writer && q'.handed == q.handed && q'.discarded == q.discarded
  {
    if q.chClosed then q.(panicked := true)
    else if |q.ch| < q.capacity then MoveLog(q, k, Sent).(ch := q.ch + [k], accepted := q.accepted + [k])
    else MoveLog(q, k, Refused)
  }

  function ApplyLog(q: Queue, step: Step): (q': Queue)
    ensures q'.capacity == q.capacity
    ensures q'.closes == q.closes && q'.writer == q.writer && q'.handed == q.handed && q'.discarded == q.discarded
  {
    match step
    case RLock(k) => if k !in q.logs && q.holder.None? then MoveLog(q, k, Reading).(readers := q.readers + {k}) else q
    case CheckClosed(k) => if LogAt(q.logs, k, Reading) then MoveLog(q, k, if q.closed then Refused else Sending) else q
    case TrySend(k) => if LogAt(q.logs, k, Sending) then Send(q, k) else q
    case RUnlock(k) =>
      if LogAt(q.logs, k, Sent) then MoveLog(q, k, Finished(true)).(readers := q.readers - {k})
      else if LogAt(q.logs, k, Refused) then MoveLog(q, k, Dropping).(readers := q.readers - {k})
      else q
    case Drop(k) => if LogAt(q.logs, k, Dropping) then MoveLog(q, k, Finished(false)).(dropped := q.dropped + 1) else q
    case _ => q
  }

  function ApplyClose(q: Queue, step: Step): (q': Queue)
    ensures q'.capacity == q.capacity
    ensures q'.logs == q.logs && q'.writer == q.writer && q'.handed == q.handed && q'.discarded == q.discarded
  {
    match step
    case Lock(k) =>
      if k !in q.closes && q.holder.None? && q.readers == {} then MoveClose(q, k, Locked).(holder := Some(k)) else q
    case Mark(k) =>
      if !CloseAt(q.closes, k, Locked) then q
      else if q.closed then MoveClose(q, k, Marked(false))
      else MoveClose(q, k, Marked(true)).(closed := true, base := q.written)
    case CloseChannel(k) =>
      if CloseAt(q.closes, k, Marked(true)) then
        if q.chClosed then q.(panicked := true) else MoveClose(q, k, Sealed).(chClosed := true)
      else if CloseAt(q.closes, k, Marked(false)) then MoveClose(q, k, Sealed)
      else q
    case Unlock(k) => if CloseAt(q.closes, k, Sealed) then MoveClose(q, k, Draining).(holder := None) else q
    case SeeDone(k) => if CloseAt(q.closes, k, Draining) && q.writer.Exited? then MoveClose(q, k, ReturnedNil) else q
    case GiveUp(k) => if CloseAt(q.closes, k, Draining) then MoveClose(q, k, GaveUp).(stop := true) else q
    case _ => q
  }

  function ApplyWriter(q: Queue, step: Step): (q': Queue)
    ensures q'.capacity == q.capacity
    ensures q'.logs == q.logs && q'.closes == q.closes
  {
    match step
    case Receive =>
      if !q.writer.Idle? then q
      else if q.ch != [] then q.(writer := Holding(q.ch[0]), ch := q.ch[1..])
      else if q.chClosed then q.(writer := Exited)
      else q
    case CheckStop =>
      if !q.writer.Holding? then q
      else if q.stop then q.(writer := Idle, discarded := q.discarded + [q.writer.event])
      else q.(writer := Writing(q.writer.event), handed := q.handed + [q.writer.event])
    case WriteReturns => if q.writer.Writing? then q.(writer := Idle, written := q.written + 1) else q
    case _ => q
  }

  function Apply(q: Queue, step: Step): (q': Queue)
    ensures q'.capacity == q.capacity
  {
    if step.RLock? || step.CheckClosed? || step.TrySend? || step.RUnlock? || step.Drop? then ApplyLog(q, step)
    else if step.Receive? || step.CheckStop? || step.WriteReturns? then ApplyWriter(q, step)
    else ApplyClose(q, step)
  }

  function Run(q: Queue, steps: seq<Step>): Queue
    decreases |steps|
  {
    if steps == [] then q else Run(Apply(q, steps[0]), steps[1..])
  }

  // ---- the invariant ----------------------------------------------------------------------------

  predicate HoldsRead(phase: LogPhase) {
    phase.Reading? || phase.Sending? || phase.Sent? || phase.Refused?
  }

  predicate HoldsWrite(phase: ClosePhase) {
    phase.Locked? || phase.Marked? || phase.Sealed?
  }

  ghost predicate ReadersShape(readers: set<int>, logs: map<int, LogPhase>) {
    forall k :: k in readers <==> k in logs && HoldsRead(logs[k])
  }

  ghost predicate HolderShape(holder: Option<int>, closes: map<int, ClosePhase>) {
    forall k :: k in closes && HoldsWrite(closes[k]) <==> holder.Some? && holder.value == k
  }

  /** A Log between its check and its send has seen the queue open, and it still is. */
  ghost predicate SendersSeeOpen(logs: map<int, LogPhase>, closed: bool) {
    forall k :: k in logs && logs[k].Sending? ==> !closed
  }

  /** The channel closes once: one Close has marked it and has it still to close. */
  ghost predicate ClosingShape(closes: map<int, ClosePhase>, closed: bool, chClosed: bool, holder: Option<int>) {
    && (chClosed ==> closed)
    && (closed && !chClosed ==> holder.Some? && CloseAt(closes, holder.value, Marked(true)))
    && (forall k :: k in closes && closes[k] == Marked(true) ==> closed && !chClosed)
    && (forall k :: k in closes && !closes[k].Locked? && closes[k] != Marked(true) ==> chClosed)
  }

  ghost predicate EndingShape(closes: map<int, ClosePhase>, exited: bool, stop: bool) {
    && (forall k :: CloseAt(closes, k, ReturnedNil) ==> exited)
    && (stop <==> exists k :: CloseAt(closes, k, GaveUp))
  }

  predicate WasAccepted(logs: map<int, LogPhase>, k: int) {
    LogAt(logs, k, Sent) || LogAt(logs, k, Finished(true))
  }

  ghost predicate NoRepeats(s: seq<int>) {
    forall i, j :: 0 <= i < j < |s| ==> s[i] != s[j]
  }

  ghost predicate AcceptedShape(accepted: seq<int>, logs: map<int, LogPhase>) {
    && (forall k :: k in accepted <==> WasAccepted(logs, k))
    && NoRepeats(accepted)
  }

  function Refusals(logs: map<int, LogPhase>): set<int> {
    set k | k in logs && logs[k] == Finished(false)
  }

  ghost predicate CallsShape(q: Queue) {
    && (q.holder.Some? ==> q.readers == {})
    && ReadersShape(q.readers, q.logs)
    && SendersSeeOpen(q.logs, q.closed)
    && AcceptedShape(q.accepted, q.logs)
    && q.dropped == |Refusals(q.logs)|
    && HolderShape(q.holder, q.closes)
    && ClosingShape(q.closes, q.closed, q.chClosed, q.holder)
    && EndingShape(q.closes, q.writer.Exited?, q.stop)
    && !q.panicked
  }

  function Held(w: Writer): seq<int> {
    if w.Holding? then [w.event] else []
  }

  /** First in, first out, each event once: what was accepted is where it should be. */
  predicate FlowShape(q: Queue) {
    && q.accepted == q.handed + (q.discarded + (Held(q.writer) + q.ch))
    && |q.ch| <= q.capacity
    && (q.discarded != [] ==> q.stop)
    && (q.writer.Exited? ==> q.ch == [] && q.chClosed)
    && (q.writer.Writing? ==> q.handed != [] && q.handed[|q.handed| - 1] == q.writer.event)
    && q.written == |q.handed| - (if q.writer.Writing? then 1 else 0)
    && q.base <= q.written
  }

  ghost predicate Inv(q: Queue) {
    CallsShape(q) && FlowShape(q)
  }

  lemma MoveLogKeepsReaders(readers: set<int>, logs: map<int, LogPhase>, k: int, phase: LogPhase)
    requires ReadersShape(readers, logs)
    ensures HoldsRead(phase) ==> ReadersShape(readers + {k}, logs[k := phase])
    ensures HoldsRead(phase) && k in readers ==> ReadersShape(readers, logs[k := phase])
    ensures !HoldsRead(phase) ==> ReadersShape(readers - {k}, logs[k := phase])
  {
    if k in readers { assert readers + {k} == readers; }
  }

  lemma MoveLogKeepsRefusals(logs: map<int, LogPhase>, k: int, phase: LogPhase)
    requires !LogAt(logs, k, Finished(false))
    ensures |Refusals(logs[k := phase])| == |Refusals(logs)| + (if phase == Finished(false) then 1 else 0)
  {
    if phase == Finished(false) {
      assert Refusals(logs[k := phase]) == Refusals(logs) + {k};
    } else {
      assert Refusals(logs[k := phase]) == Refusals(logs);
    }
  }

  lemma MoveLogKeepsAccepted(accepted: seq<int>, logs: map<int, LogPhase>, k: int, phase: LogPhase)
    requires AcceptedShape(accepted, logs)
    requires WasAccepted(logs, k) <==> phase.Sent? || phase == Finished(true)
    ensures AcceptedShape(accepted, logs[k := phase])
  {
    var moved := logs[k := phase];
    forall j ensures WasAccepted(moved, j) == WasAccepted(logs, j) {
    }
  }

  lemma SendKeepsAccepted(accepted: seq<int>, logs: map<int, LogPhase>, k: int)
    requires AcceptedShape(accepted, logs) && !WasAccepted(logs, k)
    ensures AcceptedShape(accepted + [k], logs[k := Sent])
  {
    var moved := logs[k := Sent];
    forall j ensures WasAccepted(moved, j) == (WasAccepted(logs, j) || j == k) {
    }
    assert k !in accepted;
  }

  /** A Log moves on to a phase that does not change whether its event was accepted. */
  lemma MoveLogKeepsCalls(q: Queue, k: int, phase: LogPhase, readers: set<int>, dropped: nat)
    requires CallsShape(q) && !LogAt(q.logs, k, Finished(false)) && (phase == Sending ==> !q.closed)
    requires WasAccepted(q.logs, k) <==> phase.Sent? || phase == Finished(true)
    requires readers == if HoldsRead(phase) then q.readers + {k} else q.readers - {k}
    requires readers != {} ==> q.holder.None?
    requires dropped == q.dropped + (if phase == Finished(false) then 1 else 0)
    ensures CallsShape(MoveLog(q, k, phase).(readers := readers, dropped := dropped))
  {
    MoveLogKeepsReaders(q.readers, q.logs, k, phase);
    MoveLogKeepsRefusals(q.logs, k, phase);
    MoveLogKeepsAccepted(q.accepted, q.logs, k, phase);
  }

  lemma LogMoveKeepsCalls(q: Queue, step: Step)
    requires CallsShape(q) && !step.TrySend?
    ensures CallsShape(ApplyLog(q, step))
  {
    if ApplyLog(q, step) != q {
      match step
      case RLock(k) => MoveLogKeepsCalls(q, k, Reading, q.readers + {k}, q.dropped);
      case CheckClosed(k) =>
        assert q.readers + {k} == q.readers;
        MoveLogKeepsCalls(q, k, if q.closed then Refused else Sending, q.readers, q.dropped);
      case RUnlock(k) =>
        MoveLogKeepsCalls(q, k, if q.logs[k].Sent? then Finished(true) else Dropping, q.readers - {k}, q.dropped);
      case Drop(k) =>
        assert q.readers - {k} == q.readers;
        MoveLogKeepsCalls(q, k, Finished(false), q.readers, q.dropped + 1);
      case _ =>
    }
  }

  lemma SendKeepsCalls(q: Queue, k: int)
    requires CallsShape(q) && LogAt(q.logs, k, Sending)
    ensures CallsShape(Send(q, k))
  {
    assert q.readers + {k} == q.readers && !q.chClosed;
    if |q.ch| < q.capacity {
      MoveLogKeepsReaders(q.readers, q.logs, k, Sent);
      MoveLogKeepsRefusals(q.logs, k, Sent);
      SendKeepsAccepted(q.accepted, q.logs, k);
    } else {
      MoveLogKeepsCalls(q, k, Refused, q.readers, q.dropped);
    }
  }

  lemma MoveCloseKeepsEnding(
      closes: map<int, ClosePhase>, exited: bool, stop: bool, k: int, phase: ClosePhase, stop': bool)
    requires EndingShape(closes, exited, stop) && !CloseAt(closes, k, GaveUp)
    requires (phase == ReturnedNil ==> exited) && stop' == (stop || phase == GaveUp)
    ensures EndingShape(closes[k := phase], exited, stop')
  {
    var moved := closes[k := phase];
    if stop {
      var j :| CloseAt(closes, j, GaveUp);
      assert CloseAt(moved, j, GaveUp);
    } else if stop' {
      assert CloseAt(moved, k, GaveUp);
    }
    forall j | CloseAt(moved, j, GaveUp) ensures stop' {
      assert j == k || CloseAt(closes, j, GaveUp);
    }
    forall j | CloseAt(moved, j, ReturnedNil) ensures exited {
      assert j == k || CloseAt(closes, j, ReturnedNil);
    }
  }

  lemma CloseKeepsCalls(q: Queue, step: Step)
    requires CallsShape(q)
    ensures CallsShape(ApplyClose(q, step))
  {
    var q' := ApplyClose(q, step);
    if q' != q && !q'.panicked {
      MoveCloseKeepsEnding(q.closes, q.writer.Exited?, q.stop, step.k, q'.closes[step.k], q'.stop);
    }
  }

  lemma SendKeepsFlow(q: Queue, k: int)
    requires FlowShape(q) && !q.chClosed
    ensures FlowShape(Send(q, k))
  {
    if |q.ch| < q.capacity {
      assert q.accepted + [k] == q.handed + (q.discarded + (Held(q.writer) + (q.ch + [k])));
    }
  }

  lemma ReceiveKeepsFlow(q: Queue)
    requires FlowShape(q)
    ensures FlowShape(ApplyWriter(q, Receive))
  {
    if q.writer.Idle? && q.ch != [] {
      assert q.ch == [q.ch[0]] + q.ch[1..];
    }
  }

  lemma HandOver(handed: seq<int>, discarded: seq<int>, e: int, ch: seq<int>)
    ensures discarded + ([e] + ch) == (discarded + [e]) + ([] + ch)
    ensures handed + ([] + ([e] + ch)) == (handed + [e]) + ([] + ([] + ch))
  {
  }

  lemma CheckStopKeepsFlow(q: Queue)
    requires FlowShape(q) && q.writer.Holding?
    ensures FlowShape(ApplyWriter(q, CheckStop))
  {
    HandOver(q.handed, q.discarded, q.writer.event, q.ch);
  }

  lemma LogKeepsInv(q: Queue, step: Step)
    requires Inv(q)
    ensures Inv(ApplyLog(q, step))
  {
    if step.TrySend? {
      if LogAt(q.logs, step.k, Sending) {
        SendKeepsFlow(q, step.k);
        SendKeepsCalls(q, step.k);
      }
    } else {
      LogMoveKeepsCalls(q, step);
    }
  }

  lemma WriterKeepsInv(q: Queue, step: Step)
    requires Inv(q)
    ensures Inv(ApplyWriter(q, step))
  {
    if step.Receive? {
      ReceiveKeepsFlow(q);
    } else if step.CheckStop? && q.writer.Holding? {
      CheckStopKeepsFlow(q);
    }
  }

  lemma CloseKeepsInv(q: Queue, step: Step)
    requires Inv(q)
    ensures Inv(ApplyClose(q, step))
  {
    CloseKeepsCalls(q, step);
  }

  lemma StepKeepsInv(q: Queue, step: Step)
    requires Inv(q)
    ensures Inv(Apply(q, step))
  {
    LogKeepsInv(q, step);
    WriterKeepsInv(q, step);
    CloseKeepsInv(q, step);
  }

  lemma {:induction false} RunKeepsInv(q: Queue, steps: seq<Step>)
    requires Inv(q)
    ensures Inv(Run(q, steps))
    decreases |steps|
  {
    if steps != [] {
      StepKeepsInv(q, steps[0]);
      RunKeepsInv(Apply(q, steps[0]), steps[1..]);
    }
  }

  // ---- over every run from an empty queue -------------------------------------------------------

  lemma EmptyInv(capacity: nat)
    ensures Inv(Empty(capacity))
  {
  }

  /** All places an accepted event can be in, in the order of acceptance. */
  function Places(q: Queue): seq<int> {
    q.handed + q.discarded + Held(q.writer) + q.ch
  }

  lemma PlacesAreAccepted(q: Queue)
    requires Inv(q)
    ensures Places(q) == q.accepted
  {
    assert Places(q) == q.handed + (q.discarded + (Held(q.writer) + q.ch));
  }

  /** The logs that are over, against the events that were accepted. */
  ghost predicate Accounted(logs: map<int, LogPhase>, places: seq<int>) {
    forall k :: k in logs && logs[k].Finished? ==> (logs[k].accepted <==> k in places)
  }

  lemma FinishedIsAccounted(accepted: seq<int>, logs: map<int, LogPhase>)
    requires AcceptedShape(accepted, logs)
    ensures Accounted(logs, accepted)
  {
    forall k | k in logs && logs[k].Finished? ensures logs[k].accepted <==> k in accepted {
      assert WasAccepted(logs, k) <==> logs[k].accepted;
    }
  }

  /**
    Whatever the interleaving: the channel is never sent on or closed after it was closed, holds at
    most its capacity, and every finished Log is in exactly one place or counted as dropped.
  */
  lemma EveryEventIsInOnePlace(capacity: nat, steps: seq<Step>)
    ensures var q := Run(Empty(capacity), steps);
      && !q.panicked
      && |q.ch| <= capacity
      && Places(q) == q.accepted && NoRepeats(Places(q))
      && Accounted(q.logs, Places(q))
      && q.dropped == |Refusals(q.logs)|
      && q.written <= |q.handed| <= q.written + 1
  {
    var q := Run(Empty(capacity), steps);
    EmptyInv(capacity);
    RunKeepsInv(Empty(capacity), steps);
    RunKeepsCapacity(Empty(capacity), steps);
    PlacesAreAccepted(q);
    FinishedIsAccounted(q.accepted, q.logs);
  }

  lemma {:induction false} RunKeepsCapacity(q: Queue, steps: seq<Step>)
    ensures Run(q, steps).capacity == q.capacity
    decreases |steps|
  {
    if steps != [] {
      RunKeepsCapacity(Apply(q, steps[0]), steps[1..]);
    }
  }

  /** If no Close gave up, a Close that returns nil leaves every accepted event handed to write. */
  lemma NilMeansDrained(capacity: nat, steps: seq<Step>, k: int)
    requires CloseAt(Run(Empty(capacity), steps).closes, k, ReturnedNil)
    ensures var q := Run(Empty(capacity), steps);
      && q.writer.Exited? && q.ch == []
      && q.accepted == q.handed + q.discarded
      && ((forall j :: !CloseAt(q.closes, j, GaveUp)) ==>
            q.discarded == [] && q.accepted == q.handed && q.written == |q.handed|)
  {
    EmptyInv(capacity);
    RunKeepsInv(Empty(capacity), steps);
  }

  predicate Prefix(s: seq<int>, t: seq<int>) {
    |s| <= |t| && s == t[..|s|]
  }

  ghost predicate Evolves(q: Queue, q': Queue) {
    && (q.closed ==> q'.closed && q'.accepted == q.accepted && q'.base == q.base)
    && q.written <= q'.written && (!q.closed && q'.closed ==> q.written <= q'.base <= q'.written)
    && (q.stop ==> q'.stop && |q'.handed| == |q.handed|)
    && Prefix(q.handed, q'.handed)
    && Prefix(q.accepted, q'.accepted)
    && (forall k :: k in q.logs && q.logs[k].Finished? ==> k in q'.logs && q'.logs[k] == q.logs[k])
  }

  lemma SendEvolves(q: Queue, k: int)
    requires Inv(q) && LogAt(q.logs, k, Sending)
    ensures Evolves(q, Send(q, k))
  {
  }

  lemma MoveLogEvolves(q: Queue, k: int, phase: LogPhase, readers: set<int>, dropped: nat)
    requires !(k in q.logs && q.logs[k].Finished?)
    ensures Evolves(q, MoveLog(q, k, phase).(readers := readers, dropped := dropped))
  {
  }

  lemma LogEvolves(q: Queue, step: Step)
    requires Inv(q)
    ensures Evolves(q, ApplyLog(q, step))
  {
    if ApplyLog(q, step) == q {
      return;
    }
    match step
    case TrySend(k) => SendEvolves(q, k);
    case RLock(k) => MoveLogEvolves(q, k, Reading, q.readers + {k}, q.dropped);
    case CheckClosed(k) => MoveLogEvolves(q, k, if q.closed then Refused else Sending, q.readers, q.dropped);
    case RUnlock(k) =>
      MoveLogEvolves(q, k, if q.logs[k].Sent? then Finished(true) else Dropping, q.readers - {k}, q.dropped);
    case Drop(k) => MoveLogEvolves(q, k, Finished(false), q.readers, q.dropped + 1);
    case _ =>
  }

  lemma WriterEvolves(q: Queue, step: Step)
    ensures Evolves(q, ApplyWriter(q, step))
  {
  }

  lemma CloseEvolves(q: Queue, step: Step)
    ensures Evolves(q, ApplyClose(q, step))
  {
  }

  lemma EvolvesTransitive(q: Queue, q1: Queue, q2: Queue)
    requires Evolves(q, q1) && Evolves(q1, q2)
    ensures Evolves(q, q2)
  {
  }

  lemma StepEvolves(q: Queue, step: Step)
    requires Inv(q)
    ensures Evolves(q, Apply(q, step))
  {
    LogEvolves(q, step);
    WriterEvolves(q, step);
    CloseEvolves(q, step);
  }

  /**
    Events reach write in the order of acceptance and stay there; a closed queue accepts nothing more
    and remembers how much had been written when it was closed,
    nothing is handed to write once a Close gave up, and what became of a Log is settled for good.
  */
  lemma {:induction false} RunEvolves(q: Queue, steps: seq<Step>)
    requires Inv(q)
    ensures Evolves(q, Run(q, steps))
    decreases |steps|
  {
    if steps != [] {
      var q' := Apply(q, steps[0]);
      StepEvolves(q, steps[0]);
      StepKeepsInv(q, steps[0]);
      RunEvolves(q', steps[1..]);
      EvolvesTransitive(q, q', Run(q', steps[1..]));
    }
  }

  /** Enough turns of the writer alone to work off what it holds and n queued events. */
  function WriterTurns(n: nat): seq<Step> {
    [CheckStop, WriteReturns, Receive] + if n == 0 then [] else WriterTurns(n - 1)
  }

  lemma RunConcat(q: Queue, first: seq<Step>, second: seq<Step>)
    ensures Run(q, first + second) == Run(Run(q, first), second)
    decreases |first|
  {
    if first == [] {
      assert first + second == second;
    } else {
      assert (first + second)[1..] == first[1..] + second;
      RunConcat(Apply(q, first[0]), first[1..], second);
    }
  }

  lemma RunOfOne(q: Queue, step: Step)
    ensures Run(q, [step]) == Apply(q, step)
  {
    assert Run(Apply(q, step), []) == Apply(q, step);
  }

  lemma RunOfThree(q: Queue, s0: Step, s1: Step, s2: Step)
    ensures Run(q, [s0, s1, s2]) == Apply(Apply(Apply(q, s0), s1), s2)
  {
    assert [s0, s1, s2][1..] == [s1, s2] && [s1, s2][1..] == [s2];
    RunOfOne(Apply(Apply(q, s0), s1), s2);
    assert Run(Apply(q, s0), [s1, s2]) == Run(Apply(Apply(q, s0), s1), [s2]);
  }

  /** The writer is done with what it held and looks at the channel again. */
  lemma EventFinished(q: Queue)
    ensures var q' := ApplyWriter(ApplyWriter(q, CheckStop), WriteReturns);
      && q'.ch == q.ch && q'.chClosed == q.chClosed && q'.closes == q.closes && q'.stop == q.stop
      && (q'.writer.Idle? || (q.writer.Exited? && q'.writer.Exited?))
  {
    var q1 := ApplyWriter(q, CheckStop);
    assert !q1.writer.Holding?;
    assert q1.ch == q.ch && q1.chClosed == q.chClosed && q1.closes == q.closes && q1.stop == q.stop;
  }

  lemma OneTurn(q: Queue)
    requires Inv(q) && q.chClosed
    ensures var q' := Run(q, [CheckStop, WriteReturns, Receive]);
      && q'.chClosed && q'.closes == q.closes && q'.stop == q.stop
      && (q.ch == [] ==> q'.writer.Exited?)
      && (q.ch != [] ==> |q'.ch| == |q.ch| - 1)
  {
    EventFinished(q);
    RunOfThree(q, CheckStop, WriteReturns, Receive);
    var idle := Apply(Apply(q, CheckStop), WriteReturns);
    assert Apply(idle, Receive) == ApplyWriter(idle, Receive);
  }

  /** A closed channel drains: the writer alone gets to its end in as many turns as events are queued. */
  lemma {:induction false} ClosedQueueDrains(q: Queue)
    requires Inv(q) && q.chClosed
    ensures var q' := Run(q, WriterTurns(|q.ch|));
      && Inv(q') && q'.writer.Exited? && q'.closes == q.closes
      && (!q.stop ==> q'.handed == q.accepted)
    decreases |q.ch|
  {
    var turn := [CheckStop, WriteReturns, Receive];
    var q1 := Run(q, turn);
    OneTurn(q);
    RunKeepsInv(q, turn);
    RunEvolves(q, turn);
    if q.ch == [] {
      assert WriterTurns(0) == turn;
    } else {
      RunConcat(q, turn, WriterTurns(|q.ch| - 1));
      ClosedQueueDrains(q1);
    }
  }

  lemma SeeDoneReturns(q: Queue, k: int)
    requires q.writer.Exited? && CloseAt(q.closes, k, Draining)
    ensures CloseAt(Run(q, [SeeDone(k)]).closes, k, ReturnedNil)
  {
    RunOfOne(q, SeeDone(k));
  }

  /** So a Close that waits returns nil once the writer has had its turns, unless it gives up first. */
  lemma CloseReturns(q: Queue, k: int)
    requires Inv(q) && CloseAt(q.closes, k, Draining)
    ensures CloseAt(Run(q, WriterTurns(|q.ch|) + [SeeDone(k)]).closes, k, ReturnedNil)
  {
    ClosedQueueDrains(q);
    RunConcat(q, WriterTurns(|q.ch|), [SeeDone(k)]);
    SeeDoneReturns(Run(q, WriterTurns(|q.ch|)), k);
  }
}
