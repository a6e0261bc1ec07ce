/** The serializer's contract and the composed write operations, as functions. */
module WriteSteps {
  import opened Codes

  /** What the serializer may answer when asked for output: some number of the remaining
      bytes, or an error. */
  datatype Answer = Offer(wanted: nat) | Refuse(number: int)

  datatype SerializerCall = Started | Prepared | Consumed(n: nat)

  datatype Prepared = Buffers(run: seq<byte>) | NoBuffers(ec: Code)

  /** A started message: its serialized bytes and how many are consumed. How much each
      `prepare` offers, and whether it fails instead, is up to an arbitrary oracle. */
  datatype SerializerState = SerializerState(
    bytes: seq<byte>,
    cursor: nat,
    oracle: nat -> Answer,
    calls: seq<SerializerCall>)
  {
    predicate Valid() {
      cursor <= |bytes|
    }

    function Remaining(): seq<byte>
      requires Valid()
    {
      bytes[cursor..]
    }

    function IsDone(): bool {
      cursor >= |bytes|
    }

    /** Discards the old message, finished or not. */
    function Start(message: seq<byte>): (s: SerializerState)
      ensures s.Valid()
    {
      SerializerState(message, 0, oracle, calls + [Started])
    }

    /** A non-empty run at the cursor, or an error; nothing can be offered once done. */
    function Offered(): (p: Prepared)
      requires Valid()
      ensures p.Buffers? ==> p.run != [] && p.run <= Remaining()
      ensures p.NoBuffers? ==> p.ec.Source?
    {
      match oracle(|calls|)
      case Refuse(k) => NoBuffers(Source(k))
      case Offer(n) =>
        if IsDone() then NoBuffers(Source(0))
        else
          var room := |bytes| - cursor;
          Buffers(bytes[cursor..cursor + (if n == 0 then 1 else if n > room then room else n)])
    }

    function Prepare(): SerializerState {
      this.(calls := calls + [SerializerCall.Prepared])
    }

    function Consume(n: nat): SerializerState {
      this.(cursor := cursor + n, calls := calls + [Consumed(n)])
    }
  }

  /** Where `write_some_op` resumes; `Sending` remembers what was offered to the stream. */
  datatype SomePc = Entry | Posted | Sending(run: seq<byte>) | Finished

  datatype Effect = Post(ec: Code) | WriteSome(run: seq<byte>) | Done(ec: Code, n: nat)

  datatype SomeStep = SomeStep(pc: SomePc, sr: SerializerState, effect: Effect)

  /** What the stream may answer to a write: it accepts a prefix of what was offered, at
      least one byte on success, and may accept bytes even when it fails. */
  predicate Accepts(run: seq<byte>, a: Arrival) {
    && (a.ec.Ok? || a.ec.Aborted? || a.ec.Eof? || a.ec.Io?)
    && a.data <= run
    && (a.ec.Ok? ==> a.data != [])
  }

  /** One resumption of `write_some_op`. `doPost` is set only by the call that starts it. */
  function SomeResume(pc: SomePc, sr: SerializerState, a: Arrival, doPost: bool): SomeStep
    requires pc != Finished && sr.Valid()
  {
    match pc
    case Entry =>
      (match sr.Offered()
       case NoBuffers(ec) =>
         if doPost then SomeStep(Posted, sr.Prepare(), Post(ec))
         else SomeStep(Finished, sr.Prepare(), Done(ec, |a.data|))
       case Buffers(run) => SomeStep(Sending(run), sr.Prepare(), WriteSome(run)))
    case Posted => SomeStep(Finished, sr, Done(a.ec, |a.data|))
    case Sending(_) => SomeStep(Finished, sr.Consume(|a.data|), Done(a.ec, |a.data|))
  }

  /** The saved part of `write_op` together with the `write_some_op` it waits for. */
  datatype WriteOp = WriteOp(n: nat, inner: SomePc)

  datatype Step = Step(op: WriteOp, sr: SerializerState, effect: Effect)

  /** The top of the do-while loop: start a `write_some_op`. */
  function WriteAgain(n: nat, sr: SerializerState): Step
    requires sr.Valid()
  {
    var s := SomeResume(Entry, sr, Plain(Ok), true);
    Step(WriteOp(n, s.pc), s.sr, s.effect)
  }

  predicate Waiting(op: WriteOp) {
    op.inner.Posted? || op.inner.Sending?
  }

  /** What the completion `a` may be, given what the operation waits for. */
  predicate Expects(op: WriteOp, sr: SerializerState, a: Arrival) {
    && sr.Valid()
    && match op.inner
       case Posted => a.ec.Source? && a.data == []
       case Sending(run) => run <= sr.Remaining() && Accepts(run, a)
       case _ => false
  }

  /** The inner operation completes, which resumes `write_op`. */
  function WriteResume(op: WriteOp, sr: SerializerState, a: Arrival): Step
    requires Expects(op, sr, a)
  {
    var s := SomeResume(op.inner, sr, a, false);
    var n := op.n + s.effect.n;
    if s.effect.ec.Failed() || s.sr.IsDone() then Step(WriteOp(n, Finished), s.sr, Done(s.effect.ec, n))
    else WriteAgain(n, s.sr)
  }
}
