/** The write operations as plain loops, and what holds of them. */
module WriteLoops {
  import opened Codes
  import opened WriteSteps

  /** What the destination will answer to one write: how many bytes, and with which code. */
  datatype Ack = Ack(ec: Code, wanted: nat)
  {
    predicate Valid() {
      ec.Ok? || ec.Aborted? || ec.Eof? || ec.Io?
    }

    /** The answer to an offer: at most the offer, at least a byte on success. */
    function Answer(run: seq<byte>): (a: Arrival)
      requires run != []
      ensures Valid() ==> Accepts(run, a)
    {
      var n := if wanted > |run| then |run| else wanted;
      Arrival(ec, run[..if ec.Ok? && n == 0 then 1 else n])
    }
  }

  datatype Outcome = Blocked | Completed(ec: Code, total: nat)

  /** How a write ends: the serializer, the bytes the destination has taken, the answers left. */
  datatype Run = Run(sr: SerializerState, out: Outcome, sent: seq<byte>, rest: seq<Ack>)

  ghost predicate ValidScript(script: seq<Ack>) {
    forall i :: 0 <= i < |script| ==> script[i].Valid()
  }

  /** `async_write_some` */
  function WriteSome(sr: SerializerState, script: seq<Ack>): Run
    requires sr.Valid()
  {
    match sr.Offered()
    case NoBuffers(ec) => Run(sr.Prepare(), Completed(ec, 0), [], script)
    case Buffers(run) =>
      if script == [] then Run(sr.Prepare(), Blocked, [], [])
      else
        var a := script[0].Answer(run);
        Run(sr.Prepare().Consume(|a.data|), Completed(a.ec, |a.data|), a.data, script[1..])
  }

  /** `async_write`: the do-while loop, from a count already reached. */
  function WriteLoop(sr: SerializerState, n: nat, script: seq<Ack>): Run
    requires sr.Valid()
    decreases |script|
  {
    var r := WriteSome(sr, script);
    if r.out.Blocked? then r
    else
      var total := n + r.out.total;
      if r.out.ec.Failed() || r.sr.IsDone() then r.(out := Completed(r.out.ec, total))
      else
        var more := WriteLoop(r.sr, total, r.rest);
        more.(sent := r.sent + more.sent)
  }

  function Write(sr: SerializerState, script: seq<Ack>): Run
    requires sr.Valid()
  {
    WriteLoop(sr, 0, script)
  }

  /** The destination has taken exactly the bytes between the two cursors, and their number
      was reported. */
  ghost predicate Conserved(sr: SerializerState, n: nat, r: Run) {
    && r.sr.Valid() && r.sr.bytes == sr.bytes && sr.cursor <= r.sr.cursor
    && r.sent == sr.bytes[sr.cursor..r.sr.cursor]
    && (r.out.Completed? ==> r.out.total == n + |r.sent|)
  }

  lemma WriteSomeConserves(sr: SerializerState, script: seq<Ack>)
    requires sr.Valid()
    ensures Conserved(sr, 0, WriteSome(sr, script))
  {
  }

  /** Two conserving runs in a row are one. */
  lemma ConservedThen(sr: SerializerState, n: nat, r: Run, m: nat, more: Run)
    requires Conserved(sr, n, r) && Conserved(r.sr, m, more)
    requires r.out.Completed? && m == r.out.total
    ensures Conserved(sr, n, more.(sent := r.sent + more.sent))
  {
  }

  lemma {:induction false} WriteLoopConserves(sr: SerializerState, n: nat, script: seq<Ack>)
    requires sr.Valid()
    ensures Conserved(sr, n, WriteLoop(sr, n, script))
    decreases |script|
  {
    var r := WriteSome(sr, script);
    WriteSomeConserves(sr, script);
    if r.out.Completed? && !r.out.ec.Failed() && !r.sr.IsDone() {
      WriteLoopConserves(r.sr, n + r.out.total, r.rest);
      ConservedThen(sr, n, r.(out := Completed(r.out.ec, n + r.out.total)), n + r.out.total,
                    WriteLoop(r.sr, n + r.out.total, r.rest));
    }
  }

  /** The last call on the serializer was a `prepare` that it refused with this code. */
  ghost predicate EndsRefused(sr: SerializerState, ec: Code) {
    && sr.calls != [] && sr.calls[|sr.calls| - 1] == SerializerCall.Prepared
    && var before := sr.(calls := sr.calls[..|sr.calls| - 1]);
       before.Valid() && before.Offered() == NoBuffers(ec)
  }

  /** Of the calls on the serializer since `from`, one that was refused is the last, and the write
      completes with its code. */
  ghost predicate RefusalsEnd(from: nat, r: Run) {
    forall j :: from <= j < |r.sr.calls| && r.sr.calls[j] == SerializerCall.Prepared && r.sr.oracle(j).Refuse? ==>
      j == |r.sr.calls| - 1 && r.out.Completed? && r.out.ec == Source(r.sr.oracle(j).number)
  }

  lemma RefusalIsLast(sr: SerializerState)
    requires sr.Valid() && sr.Offered().NoBuffers?
    ensures EndsRefused(sr.Prepare(), sr.Offered().ec)
  {
    assert sr.Prepare().(calls := sr.Prepare().calls[..|sr.calls|]) == sr;
  }

  /** How a write of one or more rounds treats the serializer's errors. */
  ghost predicate RefusalsHonoured(sr: SerializerState, r: Run) {
    && sr.calls <= r.sr.calls && r.sr.oracle == sr.oracle
    && (r.out.Completed? ==> (r.out.ec.Source? <==> EndsRefused(r.sr, r.out.ec)))
    && RefusalsEnd(|sr.calls|, r)
  }

  lemma RoundHonoursRefusal(sr: SerializerState, script: seq<Ack>)
    requires sr.Valid() && ValidScript(script)
    ensures RefusalsHonoured(sr, WriteSome(sr, script))
  {
    if sr.Offered().NoBuffers? {
      RefusalIsLast(sr);
    }
  }

  /** Over a whole `async_write`: it completes with an error of the serializer exactly when the
      serializer refused its last `prepare` with that error. No refusal is passed over, none is
      followed by another call, and none adds to the count: what was written before it is
      written and reported. */
  lemma {:induction false} PrepareErrorEndsWrite(sr: SerializerState, n: nat, script: seq<Ack>)
    requires sr.Valid() && ValidScript(script)
    ensures var r := WriteLoop(sr, n, script);
            RefusalsHonoured(sr, r) && (r.out.Completed? ==> r.out.total == n + |r.sent|)
    decreases |script|
  {
    var r := WriteSome(sr, script);
    WriteSomeConserves(sr, script);
    WriteLoopConserves(sr, n, script);
    RoundHonoursRefusal(sr, script);
    if r.out.Completed? && !r.out.ec.Failed() && !r.sr.IsDone() {
      var total := n + r.out.total;
      PrepareErrorEndsWrite(r.sr, total, r.rest);
      RefusalsCompose(sr, r, WriteLoop(r.sr, total, r.rest));
    }
  }

  /** A round without refusal, followed by a write. */
  lemma RefusalsCompose(sr: SerializerState, r: Run, more: Run)
    requires RefusalsHonoured(sr, r) && r.out.Completed? && r.out.ec == Ok && RefusalsHonoured(r.sr, more)
    ensures RefusalsHonoured(sr, more.(sent := r.sent + more.sent))
  {
    forall j | |sr.calls| <= j < |r.sr.calls| && more.sr.calls[j] == SerializerCall.Prepared
      ensures !more.sr.oracle(j).Refuse?
    {
      assert r.sr.calls[j] == more.sr.calls[j];
    }
  }

  /** The failure is that of the last round: the serializer refused, or the destination failed. */
  ghost predicate FailsLast(script: seq<Ack>, r: Run)
    requires r.out.Completed?
  {
    || EndsRefused(r.sr, r.out.ec)
    || (|r.rest| < |script| && r.out.ec == script[|script| - |r.rest| - 1].ec)
  }

  /** An answer of the destination that fails ends the write, with its code. */
  ghost predicate FailureEnds(script: seq<Ack>, r: Run)
    requires |r.rest| <= |script|
  {
    forall j :: 0 <= j < |script| - |r.rest| && script[j].ec.Failed() ==>
      j == |script| - |r.rest| - 1 && r.out.Completed? && r.out.ec == script[j].ec
  }

  /** One round: at most one answer is taken, and its code reported; none is taken if the
      serializer refuses. */
  lemma WriteSomeIsOneRound(sr: SerializerState, script: seq<Ack>)
    requires sr.Valid()
    ensures var r := WriteSome(sr, script);
            && (sr.Offered().NoBuffers? ==> r.rest == script && r.out == Completed(sr.Offered().ec, 0) && r.sent == [])
            && (sr.Offered().Buffers? && script == [] ==> r.out.Blocked? && r.sent == [])
            && (r.rest == script ==> r.sr.calls == sr.calls + [SerializerCall.Prepared])
            && (sr.Offered().Buffers? && script != [] ==>
                  && r.rest == script[1..] && r.out == Completed(script[0].ec, |r.sent|)
                  && r.sr.calls == sr.calls + [SerializerCall.Prepared, Consumed(|r.sent|)]
                  && r.sent <= sr.Offered().run && (script[0].ec == Ok ==> r.sent != []))
  {
  }

  /** An `async_write` never goes on after a write that failed. */
  lemma {:induction false} FailureEndsWrite(sr: SerializerState, n: nat, script: seq<Ack>)
    requires sr.Valid()
    ensures |WriteLoop(sr, n, script).rest| <= |script| && FailureEnds(script, WriteLoop(sr, n, script))
    decreases |script|
  {
    var r := WriteSome(sr, script);
    WriteSomeConserves(sr, script);
    WriteSomeIsOneRound(sr, script);
    if r.out.Completed? && !r.out.ec.Failed() && !r.sr.IsDone() {
      FailureEndsWrite(r.sr, n + r.out.total, r.rest);
      var more := WriteLoop(r.sr, n + r.out.total, r.rest);
      assert script[0].ec == Ok && script[1..] == r.rest;
      forall j | 0 < j < |script| - |more.rest| && script[j].ec.Failed()
        ensures j == |script| - |more.rest| - 1 && more.out.Completed? && more.out.ec == script[j].ec
      {
        assert r.rest[j - 1] == script[j];
      }
    }
  }

  /** A successful `async_write` has written everything; a failed one reports the failure of
      its last round. It begins at least one round, and the destination answers at most one for
      each byte that was left. */
  lemma {:induction false} WriteLoopEnds(sr: SerializerState, n: nat, script: seq<Ack>)
    requires sr.Valid()
    ensures var r := WriteLoop(sr, n, script);
            && |r.rest| <= |script| && r.rest == script[|script| - |r.rest|..]
            && |sr.calls| < |r.sr.calls|
            && |script| - |r.rest| <= |sr.bytes| - sr.cursor
            && (|script| >= |sr.bytes| - sr.cursor ==> r.out.Completed?)
            && (r.out.Completed? && r.out.ec == Ok ==> r.sr.IsDone())
            && (r.out.Completed? && r.out.ec.Failed() ==> FailsLast(script, r))
    decreases |script|
  {
    var r := WriteSome(sr, script);
    WriteSomeConserves(sr, script);
    if sr.Offered().NoBuffers? {
      RefusalIsLast(sr);
    }
    hide EndsRefused;
    if r.out.Completed? && !r.out.ec.Failed() && !r.sr.IsDone() {
      WriteLoopEnds(r.sr, n + r.out.total, r.rest);
    }
  }

  /** One round of it: the refusal is delivered unchanged, with no bytes, by way of a post. Until
      then the operation waits for a post or a write, so the exit that does not post is never taken. */
  lemma RefusalIsPosted(sr: SerializerState, n: nat)
    requires sr.Valid()
    ensures var s := WriteAgain(n, sr);
            && (s.effect.Post? || s.effect.WriteSome?) && Waiting(s.op)
            && (s.effect.Post? <==> sr.Offered().NoBuffers?)
            && (s.effect.Post? ==>
                  && s.effect.ec == sr.Offered().ec && s.effect.ec.Failed()
                  && var t := WriteResume(s.op, s.sr, Plain(s.effect.ec));
                     t.effect == Done(s.effect.ec, n) && t.sr.cursor == sr.cursor && t.sr.bytes == sr.bytes)
  {
  }

  // ---------- sequences of calls ----------

  datatype Op = Some | All

  function Call(op: Op, sr: SerializerState, script: seq<Ack>): Run
    requires sr.Valid()
  {
    if op == Some then WriteSome(sr, script) else Write(sr, script)
  }

  lemma CallConserves(op: Op, sr: SerializerState, script: seq<Ack>)
    requires sr.Valid()
    ensures Conserved(sr, 0, Call(op, sr, script))
  {
    WriteSomeConserves(sr, script);
    WriteLoopConserves(sr, 0, script);
  }

  lemma {:induction false} WriteLoopRest(sr: SerializerState, n: nat, script: seq<Ack>)
    requires sr.Valid() && ValidScript(script)
    ensures ValidScript(WriteLoop(sr, n, script).rest)
    decreases |script|
  {
    var r := WriteSome(sr, script);
    WriteSomeConserves(sr, script);
    if r.out.Completed? && !r.out.ec.Failed() && !r.sr.IsDone() {
      WriteLoopRest(r.sr, n + r.out.total, r.rest);
    }
  }

  /** Any sequence of calls on one started message, each begun when the one before has
      completed, whether or not it failed. The count is the sum of the reported ones. */
  function Calls(ops: seq<Op>, sr: SerializerState, n: nat, script: seq<Ack>): Run
    requires sr.Valid()
    decreases |ops|
  {
    if ops == [] then Run(sr, Completed(Ok, n), [], script)
    else
      CallConserves(ops[0], sr, script);
      var r := Call(ops[0], sr, script);
      if r.out.Blocked? then r
      else
        var more := Calls(ops[1..], r.sr, n + r.out.total, r.rest);
        more.(sent := r.sent + more.sent)
  }

  lemma {:induction false} CallsConserve(ops: seq<Op>, sr: SerializerState, n: nat, script: seq<Ack>)
    requires sr.Valid()
    ensures Conserved(sr, n, Calls(ops, sr, n, script))
    decreases |ops|
  {
    if ops != [] {
      var r := Call(ops[0], sr, script);
      CallConserves(ops[0], sr, script);
      hide Call;
      if r.out.Completed? {
        CallsConserve(ops[1..], r.sr, n + r.out.total, r.rest);
        ConservedThen(sr, n, r.(out := Completed(r.out.ec, n + r.out.total)), n + r.out.total,
                      Calls(ops[1..], r.sr, n + r.out.total, r.rest));
      }
    }
  }

  /** Over any sequence of `async_write` and `async_write_some` calls on a message, with
      partial writes, errors that still moved bytes and prepare errors followed by another
      call, the destination holds exactly the first k serialized bytes, k being the sum of
      the reported counts. */
  lemma DestinationHoldsPrefix(message: seq<byte>, ops: seq<Op>, sr: SerializerState, script: seq<Ack>)
    ensures var r := Calls(ops, sr.Start(message), 0, script);
            && r.sent <= message && r.sr.cursor == |r.sent|
            && (r.out.Completed? ==> r.out.total == |r.sent|)
            && (r.sr.IsDone() <==> r.sent == message)
  {
    CallsConserve(ops, sr.Start(message), 0, script);
  }
}
