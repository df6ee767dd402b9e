/**
  The audit service as its goroutines run it. Each method that models a call runs the steps of its
  schedule, which stand for what the other goroutines do meanwhile, between its own operations.
*/
module AuditService {
  import opened Common
  import opened AuditQueue

  predicate IsLogStep(step: Step) {
    step.RLock? || step.CheckClosed? || step.TrySend? || step.RUnlock? || step.Drop?
  }

  predicate IsWriterStep(step: Step) {
    step.Receive? || step.CheckStop? || step.WriteReturns?
  }

  /** A schedule without steps of the Log call k. */
  predicate LogFree(steps: seq<Step>, k: int) {
    forall i :: 0 <= i < |steps| ==> !(IsLogStep(steps[i]) && steps[i].k == k)
  }

  predicate CloseFree(steps: seq<Step>, k: int) {
    forall i :: 0 <= i < |steps| ==> IsLogStep(steps[i]) || IsWriterStep(steps[i]) || steps[i].k != k
  }

  predicate WriterFree(steps: seq<Step>) {
    forall i :: 0 <= i < |steps| ==> !IsWriterStep(steps[i])
  }

  predicate SameLog(q: Queue, q': Queue, k: int) {
    (k in q'.logs <==> k in q.logs) && (k in q.logs ==> q'.logs[k] == q.logs[k])
  }

  predicate SameClose(q: Queue, q': Queue, k: int) {
    (k in q'.closes <==> k in q.closes) && (k in q.closes ==> q'.closes[k] == q.closes[k])
  }

  predicate SameWriter(q: Queue, q': Queue) {
    q'.writer == q.writer && q'.handed == q.handed && q'.discarded == q.discarded
  }

  /** What the others do, then one step of one's own. */
  function Next(q: Queue, others: seq<Step>, step: Step): Queue {
    Apply(Run(q, others), step)
  }

  /** A Log call's way out, its event accepted or not. */
  function LogEnds(q: Queue, k: int, accepted: bool, s3: seq<Step>, s4: seq<Step>): Queue {
    if accepted then Next(q, s3, RUnlock(k)) else Next(Next(q, s3, RUnlock(k)), s4, Drop(k))
  }

  /** A Close call from its lock to the wait for the writer. */
  function CloseSealed(q: Queue, k: int, s1: seq<Step>, s2: seq<Step>, s3: seq<Step>): Queue {
    Next(Next(Next(Apply(q, Lock(k)), s1, Mark(k)), s2, CloseChannel(k)), s3, Unlock(k))
  }

  /** The select of Close in the queue it meets: `done` decides when both cases are ready. */
  function Verdict(q: Queue, cancelled: bool, done: bool): Option<bool> {
    if q.writer.Exited? && (done || !cancelled) then Some(true) else if cancelled then Some(false) else None
  }

  function CloseEnds(q: Queue, k: int, ended: Option<bool>): Queue {
    match ended
    case None => q
    case Some(nil) => Apply(q, if nil then SeeDone(k) else GiveUp(k))
  }

  lemma MoveLogLeaves(q: Queue, other: int, phase: LogPhase, k: int)
    requires other != k
    ensures SameLog(q, MoveLog(q, other, phase), k)
  {
  }

  lemma OtherLogStep(q: Queue, step: Step, k: int)
    requires IsLogStep(step) ==> step.k != k
    ensures SameLog(q, ApplyLog(q, step), k)
  {
    match step
    case RLock(j) => MoveLogLeaves(q, j, Reading, k);
    case CheckClosed(j) => MoveLogLeaves(q, j, if q.closed then Refused else Sending, k);
    case TrySend(j) =>
      MoveLogLeaves(q, j, Sent, k);
      MoveLogLeaves(q, j, Refused, k);
    case RUnlock(j) =>
      MoveLogLeaves(q, j, Finished(true), k);
      MoveLogLeaves(q, j, Dropping, k);
    case Drop(j) => MoveLogLeaves(q, j, Finished(false), k);
    case _ =>
  }

  lemma OtherCloseStep(q: Queue, step: Step, k: int)
    requires IsLogStep(step) || IsWriterStep(step) || step.k != k
    ensures SameClose(q, ApplyClose(q, step), k)
  {
  }

  lemma {:induction false} OthersLeaveLog(q: Queue, steps: seq<Step>, k: int)
    requires LogFree(steps, k)
    ensures SameLog(q, Run(q, steps), k)
    decreases |steps|
  {
    if steps != [] {
      OtherLogStep(q, steps[0], k);
      OthersLeaveLog(Apply(q, steps[0]), steps[1..], k);
    }
  }

  lemma {:induction false} OthersLeaveClose(q: Queue, steps: seq<Step>, k: int)
    requires CloseFree(steps, k)
    ensures SameClose(q, Run(q, steps), k)
    decreases |steps|
  {
    if steps != [] {
      OtherCloseStep(q, steps[0], k);
      OthersLeaveClose(Apply(q, steps[0]), steps[1..], k);
    }
  }

  lemma {:induction false} OthersLeaveWriter(q: Queue, steps: seq<Step>)
    requires WriterFree(steps)
    ensures SameWriter(q, Run(q, steps))
    decreases |steps|
  {
    if steps != [] {
      OthersLeaveWriter(Apply(q, steps[0]), steps[1..]);
    }
  }

  /** What a Close past its lock can rely on. */
  lemma PastTheLock(q: Queue, k: int)
    requires Inv(q) && k in q.closes && !HoldsWrite(q.closes[k])
    ensures q.closed && q.chClosed
    ensures q.writer.Exited? ==> q.ch == [] && q.accepted == q.handed + q.discarded
    ensures q.writer.Exited? && !q.stop ==> q.accepted == q.handed && q.written == |q.handed|
  {
  }

  class Service {
    const capacity: nat
    var readers: set<int>
    var holder: Option<int>
    var closed: bool
    var ch: seq<int>
    var chClosed: bool
    var logs: map<int, LogPhase>
    var closes: map<int, ClosePhase>
    var writer: Writer
    var stop: bool
    var dropped: nat
    var written: nat
    var base: nat
    ghost var accepted: seq<int>
    ghost var handed: seq<int>
    ghost var discarded: seq<int>

    ghost function Model(): Queue
      reads this
    {
      Queue(capacity, readers, holder, closed, ch, chClosed, logs, closes, writer, stop,
            dropped, written, base, false, accepted, handed, discarded)
    }

    constructor (capacity: nat)
      ensures Model() == Empty(capacity)
    {
      this.capacity := capacity;
      readers, holder, closed, ch, chClosed := {}, None, false, [], false;
      logs, closes, writer, stop := map[], map[], Idle, false;
      dropped, written, base := 0, 0, 0;
      accepted, handed, discarded := [], [], [];
    }

    // ---- the operations of one goroutine ----------------------------------------------------

    method AcquireRead(k: int)
      requires k !in logs && holder.None?
      requires Inv(Model())
      modifies this
      ensures Inv(Model())
      ensures Model() == Apply(old(Model()), RLock(k))
    {
      StepKeepsInv(Model(), RLock(k));
      readers, logs := readers + {k}, logs[k := Reading];
    }

    /** The closed flag under the read lock. */
    method ReadClosed(k: int) returns (isClosed: bool)
      requires LogAt(logs, k, Reading)
      requires Inv(Model())
      modifies this
      ensures Inv(Model())
      ensures Model() == Apply(old(Model()), CheckClosed(k))
      ensures isClosed == closed
    {
      StepKeepsInv(Model(), CheckClosed(k));
      isClosed := closed;
      logs := logs[k := if closed then Refused else Sending];
    }

    /** The select with a default: it never waits, and it never meets a closed channel. */
    method Select(k: int) returns (sent: bool)
      requires LogAt(logs, k, Sending)
      requires Inv(Model())
      modifies this
      ensures Inv(Model())
      ensures Model() == Apply(old(Model()), TrySend(k))
      ensures !chClosed && (sent <==> |old(ch)| < capacity)
    {
      StepKeepsInv(Model(), TrySend(k));
      assert !chClosed;
      sent := |ch| < capacity;
      if sent {
        ch, accepted := ch + [k], accepted + [k];
        logs := logs[k := Sent];
      } else {
        logs := logs[k := Refused];
      }
    }

    method ReleaseRead(k: int)
      requires LogAt(logs, k, Sent) || LogAt(logs, k, Refused)
      requires Inv(Model())
      modifies this
      ensures Inv(Model())
      ensures Model() == Apply(old(Model()), RUnlock(k))
    {
      StepKeepsInv(Model(), RUnlock(k));
      readers, logs := readers - {k}, logs[k := if logs[k].Sent? then Finished(true) else Dropping];
    }

    method CountDrop(k: int)
      requires LogAt(logs, k, Dropping)
      requires Inv(Model())
      modifies this
      ensures Inv(Model())
      ensures Model() == Apply(old(Model()), Drop(k))
    {
      StepKeepsInv(Model(), Drop(k));
      dropped, logs := dropped + 1, logs[k := Finished(false)];
    }

    method AcquireWrite(k: int)
      requires k !in closes && holder.None? && readers == {}
      requires Inv(Model())
      modifies this
      ensures Inv(Model())
      ensures Model() == Apply(old(Model()), Lock(k))
    {
      StepKeepsInv(Model(), Lock(k));
      holder, closes := Some(k), closes[k := Locked];
    }

    method MarkClosed(k: int) returns (first: bool)
      requires CloseAt(closes, k, Locked)
      requires Inv(Model())
      modifies this
      ensures Inv(Model())
      ensures Model() == Apply(old(Model()), Mark(k))
      ensures first == !old(closed)
    {
      StepKeepsInv(Model(), Mark(k));
      first := !closed;
      if first {
        closed, base := true, written;
      }
      closes := closes[k := Marked(first)];
    }

    /** The first Close finds the channel open; the others leave it alone. */
    method CloseCh(k: int)
      requires k in closes && closes[k].Marked?
      requires Inv(Model())
      modifies this
      ensures Inv(Model())
      ensures Model() == Apply(old(Model()), CloseChannel(k))
    {
      StepKeepsInv(Model(), CloseChannel(k));
      if closes[k].first {
        assert !chClosed;
        chClosed := true;
      }
      closes := closes[k := Sealed];
    }

    method ReleaseWrite(k: int)
      requires CloseAt(closes, k, Sealed)
      requires Inv(Model())
      modifies this
      ensures Inv(Model())
      ensures Model() == Apply(old(Model()), Unlock(k))
    {
      StepKeepsInv(Model(), Unlock(k));
      holder, closes := None, closes[k := Draining];
    }

    /** The select of Close: done, or the context, whichever is ready. */
    method Settle(k: int, done: bool)
      requires CloseAt(closes, k, Draining) && (done ==> writer.Exited?)
      requires Inv(Model())
      modifies this
      ensures Inv(Model())
      ensures Model() == Apply(old(Model()), if done then SeeDone(k) else GiveUp(k))
      ensures CloseAt(closes, k, if done then ReturnedNil else GaveUp)
      ensures writer == old(writer) && (!done ==> stop)
    {
      StepKeepsInv(Model(), if done then SeeDone(k) else GiveUp(k));
      if done {
        closes := closes[k := ReturnedNil];
      } else {
        stop, closes := true, closes[k := GaveUp];
      }
    }

    /** The writer takes the next event, or leaves when the closed channel is empty. */
    method Take()
      requires writer.Idle?
      requires Inv(Model())
      modifies this
      ensures Inv(Model())
      ensures Model() == Apply(old(Model()), Receive)
    {
      StepKeepsInv(Model(), Receive);
      if ch != [] {
        writer, ch := Holding(ch[0]), ch[1..];
      } else if chClosed {
        writer := Exited;
      }
    }

    method ReadStop() returns (discard: bool)
      requires writer.Holding?
      requires Inv(Model())
      modifies this
      ensures Inv(Model())
      ensures Model() == Apply(old(Model()), CheckStop)
      ensures discard == stop && (discard <==> writer.Idle?) && (!discard <==> writer.Writing?)
    {
      StepKeepsInv(Model(), CheckStop);
      discard := stop;
      if discard {
        discarded := discarded + [writer.event];
        writer := Idle;
      } else {
        handed := handed + [writer.event];
        writer := Writing(writer.event);
      }
    }

    method FinishWrite()
      requires writer.Writing?
      requires Inv(Model())
      modifies this
      ensures Inv(Model())
      ensures Model() == Apply(old(Model()), WriteReturns)
    {
      StepKeepsInv(Model(), WriteReturns);
      written, writer := written + 1, Idle;
    }

    // ---- the other goroutines ---------------------------------------------------------------

    method DoLog(step: Step)
      requires Inv(Model()) && IsLogStep(step)
      modifies this
      ensures Inv(Model()) && Model() == Apply(old(Model()), step)
    {
      match step
      case RLock(k) => if k !in logs && holder.None? { AcquireRead(k); }
      case CheckClosed(k) => if LogAt(logs, k, Reading) { var _ := ReadClosed(k); }
      case TrySend(k) => if LogAt(logs, k, Sending) { var _ := Select(k); }
      case RUnlock(k) => if LogAt(logs, k, Sent) || LogAt(logs, k, Refused) { ReleaseRead(k); }
      case Drop(k) => if LogAt(logs, k, Dropping) { CountDrop(k); }
    }

    method DoClose(step: Step)
      requires Inv(Model()) && !IsLogStep(step) && !IsWriterStep(step)
      modifies this
      ensures Inv(Model()) && Model() == Apply(old(Model()), step)
    {
      match step
      case Lock(k) => if k !in closes && holder.None? && readers == {} { AcquireWrite(k); }
      case Mark(k) => if CloseAt(closes, k, Locked) { var _ := MarkClosed(k); }
      case CloseChannel(k) => if k in closes && closes[k].Marked? { CloseCh(k); }
      case Unlock(k) => if CloseAt(closes, k, Sealed) { ReleaseWrite(k); }
      case SeeDone(k) => if CloseAt(closes, k, Draining) && writer.Exited? { Settle(k, true); }
      case GiveUp(k) => if CloseAt(closes, k, Draining) { Settle(k, false); }
    }

    method DoWriter(step: Step)
      requires Inv(Model()) && IsWriterStep(step)
      modifies this
      ensures Inv(Model()) && Model() == Apply(old(Model()), step)
    {
      match step
      case Receive => if writer.Idle? { Take(); }
      case CheckStop => if writer.Holding? { var _ := ReadStop(); }
      case WriteReturns => if writer.Writing? { FinishWrite(); }
    }

    method Interfere(steps: seq<Step>)
      requires Inv(Model())
      modifies this
      ensures Model() == Run(old(Model()), steps) && Inv(Model())
    {
      ghost var start := Model();
      for i := 0 to |steps|
        invariant Model() == Run(start, steps[..i]) && Inv(Model())
      {
        assert steps[..i + 1] == steps[..i] + [steps[i]];
        RunConcat(start, steps[..i], [steps[i]]);
        RunOfOne(Run(start, steps[..i]), steps[i]);
        if IsWriterStep(steps[i]) {
          DoWriter(steps[i]);
        } else if IsLogStep(steps[i]) {
          DoLog(steps[i]);
        } else {
          DoClose(steps[i]);
        }
      }
      assert steps[..|steps|] == steps;
    }

    // ---- Log ------------------------------------------------------------------------------------

    /** Under the lock: what the others do, then the closed flag. */
    method Check(k: int, s: seq<Step>) returns (isClosed: bool)
      requires Inv(Model()) && LogFree(s, k) && LogAt(logs, k, Reading)
      modifies this
      ensures Inv(Model()) && Model() == Apply(Run(old(Model()), s), CheckClosed(k))
      ensures isClosed == Run(old(Model()), s).closed
      ensures LogAt(logs, k, if isClosed then Refused else Sending)
    {
      OthersLeaveLog(Model(), s, k);
      Interfere(s);
      isClosed := ReadClosed(k);
    }

    method Enqueue(k: int, s: seq<Step>) returns (sent: bool)
      requires Inv(Model()) && LogFree(s, k) && LogAt(logs, k, Sending)
      modifies this
      ensures Inv(Model()) && Model() == Apply(Run(old(Model()), s), TrySend(k))
      ensures sent <==> |Run(old(Model()), s).ch| < capacity
      ensures LogAt(logs, k, if sent then Sent else Refused)
    {
      OthersLeaveLog(Model(), s, k);
      Interfere(s);
      sent := Select(k);
    }

    method UnlockNext(k: int, s: seq<Step>)
      requires Inv(Model()) && LogFree(s, k) && (LogAt(logs, k, Sent) || LogAt(logs, k, Refused))
      modifies this
      ensures Inv(Model()) && Model() == Next(old(Model()), s, RUnlock(k))
      ensures LogAt(logs, k, if LogAt(old(logs), k, Sent) then Finished(true) else Dropping)
    {
      OthersLeaveLog(Model(), s, k);
      Interfere(s);
      ReleaseRead(k);
    }

    method DropNext(k: int, s: seq<Step>)
      requires Inv(Model()) && LogFree(s, k) && LogAt(logs, k, Dropping)
      modifies this
      ensures Inv(Model()) && Model() == Next(old(Model()), s, Drop(k)) && LogAt(logs, k, Finished(false))
    {
      OthersLeaveLog(Model(), s, k);
      Interfere(s);
      CountDrop(k);
    }

    /** Back out of the lock and, with the event refused, count the drop. */
    method Leave(k: int, s0: seq<Step>, s1: seq<Step>)
      requires Inv(Model()) && LogFree(s0, k) && LogFree(s1, k) && (LogAt(logs, k, Sent) || LogAt(logs, k, Refused))
      modifies this
      ensures Inv(Model()) && LogAt(logs, k, Finished(LogAt(old(logs), k, Sent)))
      ensures Model() == LogEnds(old(Model()), k, LogAt(old(logs), k, Sent), s0, s1)
    {
      UnlockNext(k, s0);
      if !logs[k].Finished? {
        DropNext(k, s1);
      }
    }

    /**
      Log: true when the event was queued, false when it was dropped, None while the lock is still
      held by a Close. `check` and `send` are the queue at the two moments that decide.
    */
    method Log(k: int, s0: seq<Step>, s1: seq<Step>, s2: seq<Step>, s3: seq<Step>, s4: seq<Step>)
      returns (queued: Option<bool>, ghost check: Queue, ghost send: Queue)
      requires Inv(Model()) && k !in logs
      requires LogFree(s0, k) && LogFree(s1, k) && LogFree(s2, k) && LogFree(s3, k) && LogFree(s4, k)
      modifies this
      ensures Inv(Model())
      ensures queued.None? <==> Run(old(Model()), s0).holder.Some?
      ensures queued.Some? ==> check == Run(Apply(Run(old(Model()), s0), RLock(k)), s1)
      ensures queued.Some? && !check.closed ==> send == Run(Apply(check, CheckClosed(k)), s2)
      ensures queued.Some? ==> (queued.value <==> !check.closed && |send.ch| < capacity)
      ensures queued.Some? ==> LogAt(logs, k, Finished(queued.value)) && (queued.value <==> k in Places(Model()))
      // Apart from what the others did, the call has made its own steps and no more.
      ensures queued.None? ==> Model() == Run(old(Model()), s0)
      ensures queued.Some? ==>
                var decided := if check.closed then Apply(check, CheckClosed(k)) else Apply(send, TrySend(k));
                Model() == LogEnds(decided, k, queued.value, s3, s4)
    {
      OthersLeaveLog(Model(), s0, k);
      Interfere(s0);
      check, send := Model(), Model();
      if holder.Some? {
        return None, check, send;
      }
      AcquireRead(k);
      check := Run(Model(), s1);
      var isClosed := Check(k, s1);
      var sent := false;
      if !isClosed {
        send := Run(Model(), s2);
        sent := Enqueue(k, s2);
      }
      Leave(k, s3, s4);
      FinishedIsAccounted(accepted, logs);
      PlacesAreAccepted(Model());
      return Some(sent), check, send;
    }

    // ---- Close and the writer loop --------------------------------------------------------------

    /** Under the write lock, three times: what the others do, then an operation. */
    method MarkNext(k: int, s: seq<Step>)
      requires Inv(Model()) && CloseFree(s, k) && CloseAt(closes, k, Locked)
      modifies this
      ensures Inv(Model()) && k in closes && closes[k].Marked? && Model() == Next(old(Model()), s, Mark(k))
    {
      OthersLeaveClose(Model(), s, k);
      Interfere(s);
      var _ := MarkClosed(k);
    }

    method CloseNext(k: int, s: seq<Step>)
      requires Inv(Model()) && CloseFree(s, k) && k in closes && closes[k].Marked?
      modifies this
      ensures Inv(Model()) && CloseAt(closes, k, Sealed) && Model() == Next(old(Model()), s, CloseChannel(k))
    {
      OthersLeaveClose(Model(), s, k);
      Interfere(s);
      CloseCh(k);
    }

    method ReleaseNext(k: int, s: seq<Step>)
      requires Inv(Model()) && CloseFree(s, k) && CloseAt(closes, k, Sealed)
      modifies this
      ensures Inv(Model()) && CloseAt(closes, k, Draining) && Model() == Next(old(Model()), s, Unlock(k))
    {
      OthersLeaveClose(Model(), s, k);
      Interfere(s);
      ReleaseWrite(k);
    }

    /** The part of Close under the write lock. */
    method Seal(k: int, s1: seq<Step>, s2: seq<Step>, s3: seq<Step>)
      requires Inv(Model()) && CloseFree(s1, k) && CloseFree(s2, k) && CloseFree(s3, k)
      requires k !in closes && holder.None? && readers == {}
      modifies this
      ensures Inv(Model()) && CloseAt(closes, k, Draining) && Model() == CloseSealed(old(Model()), k, s1, s2, s3)
    {
      AcquireWrite(k);
      MarkNext(k, s1);
      CloseNext(k, s2);
      ReleaseNext(k, s3);
    }

    /** The wait of Close, with the verdict as Close returns it. */
    method AwaitWriter(k: int, s: seq<Step>, cancelled: bool, done: bool) returns (ended: Option<bool>)
      requires Inv(Model()) && CloseFree(s, k) && CloseAt(closes, k, Draining)
      modifies this
      ensures Inv(Model()) && k in closes && !HoldsWrite(closes[k])
      ensures ended == Some(true) ==> writer.Exited?
      ensures ended == Some(false) ==> cancelled && stop
      ensures ended == Verdict(Run(old(Model()), s), cancelled, done)
      ensures Model() == CloseEnds(Run(old(Model()), s), k, ended)
    {
      OthersLeaveClose(Model(), s, k);
      Interfere(s);
      var finished := writer.Exited? && (done || !cancelled);
      if !finished && !cancelled {
        return None;
      }
      Settle(k, finished);
      return Some(finished);
    }

    /**
      Close: true for nil, false for the context's error, None while it still waits for the lock or
      for the writer. `cancelled` says whether the context is over by the time of the select, and
      `done` which case a select with both ready takes.
    */
    method Close(k: int, s0: seq<Step>, s1: seq<Step>, s2: seq<Step>, s3: seq<Step>, s4: seq<Step>,
                 cancelled: bool, done: bool)
      returns (ended: Option<bool>)
      requires Inv(Model()) && k !in closes
      requires CloseFree(s0, k) && CloseFree(s1, k) && CloseFree(s2, k) && CloseFree(s3, k) && CloseFree(s4, k)
      modifies this
      ensures Inv(Model())
      ensures ended.Some? ==> closed && chClosed
      ensures ended == Some(true) ==> writer.Exited? && ch == [] && accepted == handed + discarded
      ensures ended == Some(true) && !stop ==> accepted == handed && written == |handed|
      ensures ended == Some(false) ==> cancelled && stop
      // Blocked by the lock, or else its own steps and no more than those.
      ensures var q := Run(old(Model()), s0);
        if q.holder.Some? || q.readers != {} then ended.None? && Model() == q
        else
          var waited := Run(CloseSealed(q, k, s1, s2, s3), s4);
          ended == Verdict(waited, cancelled, done) && Model() == CloseEnds(waited, k, ended)
    {
      OthersLeaveClose(Model(), s0, k);
      Interfere(s0);
      if holder.Some? || readers != {} {
        return None;
      }
      Seal(k, s1, s2, s3);
      ended := AwaitWriter(k, s4, cancelled, done);
      PastTheLock(Model(), k);
    }

    /** What becomes of the event the writer holds. */
    method Decide(s: seq<Step>) returns (discard: bool)
      requires Inv(Model()) && WriterFree(s) && writer.Holding?
      modifies this
      ensures Inv(Model()) && discard == Run(old(Model()), s).stop && Model() == Next(old(Model()), s, CheckStop)
      ensures if discard then writer.Idle? else writer == Writing(old(writer).event)
      ensures handed == old(handed) + (if discard then [] else [old(writer).event])
      ensures discarded == old(discarded) + (if discard then [old(writer).event] else [])
    {
      OthersLeaveWriter(Model(), s);
      Interfere(s);
      discard := ReadStop();
    }

    method Write(s: seq<Step>)
      requires Inv(Model()) && WriterFree(s) && writer.Writing?
      modifies this
      ensures Inv(Model()) && writer.Idle? && handed == old(handed) && discarded == old(discarded)
      ensures Model() == Next(old(Model()), s, WriteReturns)
    {
      OthersLeaveWriter(Model(), s);
      Interfere(s);
      FinishWrite();
    }

    /** One turn of the writer's loop: false when it has left the loop. */
    method Serve(s0: seq<Step>, s1: seq<Step>) returns (more: bool)
      requires Inv(Model()) && writer.Idle? && (ch != [] || chClosed)
      requires WriterFree(s0) && WriterFree(s1)
      modifies this
      ensures Inv(Model())
      ensures more <==> old(ch) != []
      ensures if more then writer.Idle? else writer.Exited?
      ensures more ==> (handed == old(handed) + [old(ch)[0]] && discarded == old(discarded))
                       || (handed == old(handed) && discarded == old(discarded) + [old(ch)[0]] && stop)
      ensures var took := Apply(old(Model()), Receive);
        Model() == if !more then took
                   else if Run(took, s0).stop then Next(took, s0, CheckStop)
                   else Next(Next(took, s0, CheckStop), s1, WriteReturns)
    {
      Take();
      if writer.Exited? {
        return false;
      }
      var discard := Decide(s0);
      if !discard {
        Write(s1);
      }
      return true;
    }
  }
}
