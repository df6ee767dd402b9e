/**
  The body reader that stops at one MiB. The wrapped reader may hand over any number of bytes per call
  and may fail at any time, but it reports the end of the stream only at the end.
*/
module LimitedBody {
  import opened Common

  newtype byte = x: int | 0 <= x < 256

  const LIMIT: int := 0x10_0000

  datatype Error = NoError | Eof | Broken | TooLarge

  /** One Read: the size of the caller's buffer, and what the wrapped reader would give. */
  datatype Call = Call(size: nat, chunk: nat, err: Error)

  datatype Body = Body(source: seq<byte>, pos: int, left: int, delivered: seq<byte>)

  datatype Reply = Reply(body: Body, n: int, err: Error)

  function Start(source: seq<byte>): Body {
    Body(source, 0, LIMIT, [])
  }

  predicate Valid(b: Body) {
    && 0 <= b.pos <= |b.source| && b.left == LIMIT - b.pos && -1 <= b.left
    && b.delivered == b.source[..Min(b.pos, LIMIT)]
  }

  /** What the wrapped reader hands over and reports, given room for so many bytes. */
  function Taken(b: Body, call: Call, room: int): int {
    Min(call.chunk, Min(room, |b.source| - b.pos))
  }

  function Reported(err: Error, atEnd: bool): Error {
    if err.TooLarge? || (err.Eof? && !atEnd) then NoError else err
  }

  function ReadStep(b: Body, call: Call): (r: Reply)
    requires Valid(b)
    ensures Valid(r.body) && r.body.source == b.source
  {
    if b.left < 0 then Reply(b, 0, TooLarge)
    else
      var n := Taken(b, call, if call.size > b.left + 1 then b.left + 1 else call.size);
      var left := b.left - n;
      var given := if left < 0 then n - 1 else n;
      Reply(Body(b.source, b.pos + n, left, b.delivered + b.source[b.pos..b.pos + given]), given,
            if left < 0 then TooLarge else Reported(call.err, b.pos + n == |b.source|))
  }

  /** The step in terms of the bytes that have come into the buffer. */
  lemma ReadStepFills(b: Body, call: Call, got: int, buffer: seq<byte>)
    requires Valid(b) && b.left >= 0 && got == Taken(b, call, Min(call.size, b.left + 1))
    requires buffer == b.source[b.pos..b.pos + got]
    ensures var left := b.left - got;
      var n := if left < 0 then got - 1 else got;
      var err := if left < 0 then TooLarge else Reported(call.err, b.pos + got == |b.source|);
      && 0 <= n <= got
      && ReadStep(b, call) == Reply(Body(b.source, b.pos + got, left, b.delivered + buffer[..n]), n, err)
  {
  }

  /** The replies to a sequence of reads. */
  function Replies(b: Body, calls: seq<Call>): (rs: seq<Reply>)
    requires Valid(b)
    ensures |rs| == |calls|
    decreases |calls|
  {
    if calls == [] then [] else [ReadStep(b, calls[0])] + Replies(ReadStep(b, calls[0]).body, calls[1..])
  }

  function Final(b: Body, calls: seq<Call>): (c: Body)
    requires Valid(b)
    ensures Valid(c) && c.source == b.source
    decreases |calls|
  {
    if calls == [] then b else Final(ReadStep(b, calls[0]).body, calls[1..])
  }

  /** What one Read returned, in a body that has the given source. */
  predicate ReplySound(r: Reply, source: seq<byte>) {
    && Valid(r.body) && r.body.source == source
    // What the caller has is a prefix of the source of at most one MiB.
    && r.body.delivered <= source && |r.body.delivered| <= 1_048_576
    // The end is only ever reported after the whole source.
    && (r.err.Eof? ==> r.body.delivered == source)
    // Too large is reported exactly when more than one MiB has come in, and then all of one MiB was delivered.
    && (r.err.TooLarge? <==> r.body.pos > 1_048_576)
    && (r.err.TooLarge? ==> |source| > 1_048_576 && r.body.delivered == source[..1_048_576])
  }

  lemma ReadIsSound(b: Body, call: Call)
    requires Valid(b)
    ensures ReplySound(ReadStep(b, call), b.source)
  {
  }

  /** For every sequence of buffers and chunks: prefix, bound, honest end, and the verdict on the size. */
  lemma {:induction false} EveryReadIsSound(b: Body, calls: seq<Call>)
    requires Valid(b)
    ensures forall i :: 0 <= i < |calls| ==> ReplySound(Replies(b, calls)[i], b.source)
    decreases |calls|
  {
    if calls != [] {
      ReadIsSound(b, calls[0]);
      EveryReadIsSound(ReadStep(b, calls[0]).body, calls[1..]);
    }
  }

  /** A body of at most one MiB never fails for its size. */
  lemma SmallBodyPasses(source: seq<byte>, calls: seq<Call>)
    requires |source| <= 1_048_576
    ensures forall i :: 0 <= i < |calls| ==> !Replies(Start(source), calls)[i].err.TooLarge?
  {
    EveryReadIsSound(Start(source), calls);
    forall i | 0 <= i < |calls| ensures !Replies(Start(source), calls)[i].err.TooLarge? {
      assert ReplySound(Replies(Start(source), calls)[i], source);
    }
  }

  /** Once too large, every further Read fails the same way and gives nothing. */
  lemma {:induction false} TooLargeForGood(b: Body, calls: seq<Call>)
    requires Valid(b) && b.pos > LIMIT
    ensures forall i :: 0 <= i < |calls| ==> Replies(b, calls)[i] == Reply(b, 0, TooLarge)
    ensures Final(b, calls) == b
    decreases |calls|
  {
    if calls != [] { TooLargeForGood(b, calls[1..]); }
  }

  /** How many bytes the reads have room for and the wrapped reader would give. */
  function Offered(calls: seq<Call>): nat {
    if calls == [] then 0 else Min(calls[0].size, calls[0].chunk) + Offered(calls[1..])
  }

  /** Exactly so many bytes come in: what was offered, up to the end of the source and one byte past the limit. */
  lemma {:induction false} BytesTaken(b: Body, calls: seq<Call>)
    requires Valid(b)
    ensures Final(b, calls).pos == Min(b.pos + Offered(calls), Min(|b.source|, LIMIT + 1))
    decreases |calls|
  {
    if calls != [] {
      BytesTaken(ReadStep(b, calls[0]).body, calls[1..]);
    }
  }

  /** However the reads cut it, the caller has what was offered, up to the end of the source and one MiB. */
  lemma DeliveredExactly(source: seq<byte>, calls: seq<Call>)
    ensures Final(Start(source), calls).delivered == source[..Min(Offered(calls), Min(|source|, 1_048_576))]
  {
    BytesTaken(Start(source), calls);
  }

  /**
    A larger body delivers exactly one MiB and from then on fails on every Read, exactly once the reads have
    asked for more than one MiB.
  */
  lemma LargeBodyFails(source: seq<byte>, calls: seq<Call>, more: seq<Call>)
    requires |source| > 1_048_576
    ensures var b := Final(Start(source), calls);
      && (Offered(calls) > 1_048_576 <==> b.pos > 1_048_576)
      && (Offered(calls) > 1_048_576 ==>
            && b.delivered == source[..1_048_576]
            && forall i :: 0 <= i < |more| ==> Replies(b, more)[i] == Reply(b, 0, TooLarge))
  {
    BytesTaken(Start(source), calls);
    if Offered(calls) > LIMIT { TooLargeForGood(Final(Start(source), calls), more); }
  }

  /** And a body that fits is delivered whole as soon as the reads have asked for all of it. */
  lemma SmallBodyArrives(source: seq<byte>, calls: seq<Call>)
    requires |source| <= 1_048_576
    ensures Final(Start(source), calls).delivered == source <==> Offered(calls) >= |source|
  {
    BytesTaken(Start(source), calls);
  }

  // ---- the reader as the code updates it ----------------------------------------------------------

  /** The wrapped reader. */
  class Source {
    const bytes: seq<byte>
    var pos: nat

    constructor (bytes: seq<byte>)
      ensures this.bytes == bytes && pos == 0
    {
      this.bytes, pos := bytes, 0;
    }

    method Read(p: array<byte>, room: nat, call: Call) returns (n: nat, err: Error)
      requires room <= p.Length && pos <= |bytes|
      modifies this`pos, p
      ensures n == Min(call.chunk, Min(room, |bytes| - old(pos))) && pos == old(pos) + n <= |bytes|
      ensures err == Reported(call.err, pos == |bytes|)
      ensures p[..n] == bytes[old(pos)..pos]
    {
      n := Min(call.chunk, Min(room, |bytes| - pos));
      forall i | 0 <= i < n {
        p[i] := bytes[pos + i];
      }
      pos := pos + n;
      err := Reported(call.err, pos == |bytes|);
    }
  }

  class LimitedReader {
    const rc: Source
    var left: int
    ghost var delivered: seq<byte>

    ghost function Model(): Body
      reads this, rc
    {
      Body(rc.bytes, rc.pos, left, delivered)
    }

    constructor (rc: Source)
      requires rc.pos == 0
      ensures Model() == Start(rc.bytes) && this.rc == rc
    {
      this.rc, left, delivered := rc, LIMIT, [];
    }

    /** Fills the front of p; the bytes p[..n] are what the caller gets. */
    method Read(p: array<byte>, chunk: nat, err: Error) returns (n: int, e: Error)
      requires Valid(Model())
      modifies this`left, this`delivered, rc`pos, p
      ensures Reply(Model(), n, e) == ReadStep(old(Model()), Call(p.Length, chunk, err))
      ensures Valid(Model()) && 0 <= n <= p.Length && delivered == old(delivered) + p[..n]
    {
      if left < 0 {
        return 0, TooLarge;
      }
      n, e := ReadMore(p, chunk, err);
    }

    method ReadMore(p: array<byte>, chunk: nat, err: Error) returns (n: int, e: Error)
      requires Valid(Model()) && left >= 0
      modifies this`left, this`delivered, rc`pos, p
      ensures Reply(Model(), n, e) == ReadStep(old(Model()), Call(p.Length, chunk, err))
      ensures 0 <= n <= p.Length && delivered == old(delivered) + p[..n]
    {
      var room := p.Length;
      if room > left + 1 {
        room := left + 1;
      }
      ghost var before := Model();
      var got;
      got, e := rc.Read(p, room, Call(p.Length, chunk, err));
      left := left - got;
      n := got;
      if left < 0 {
        n, e := got - 1, TooLarge;
      }
      ReadStepFills(before, Call(p.Length, chunk, err), got, p[..got]);
      assert p[..got][..n] == p[..n];
      delivered := delivered + p[..n];
    }
  }
}
