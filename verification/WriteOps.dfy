/** The write operations as the objects the library resumes, and the loop that drives them. */
module WriteOps {
  import opened Codes
  import opened WriteSteps
  import opened WriteLoops

  /** The serializer object, updated in place by whichever operation holds a reference to it. */
  class Serializer {
    var st: SerializerState

    constructor (oracle: nat -> Answer)
      ensures st == SerializerState([], 0, oracle, [])
    {
      st := SerializerState([], 0, oracle, []);
    }

    function IsDone(): bool
      reads this
    {
      st.IsDone()
    }

    method Start(message: seq<byte>)
      modifies this
      ensures st == old(st).Start(message)
    {
      st := st.Start(message);
    }

    method Prepare() returns (p: WriteSteps.Prepared)
      requires st.Valid()
      modifies this
      ensures p == old(st).Offered() && st == old(st).Prepare()
    {
      p := st.Offered();
      st := st.Prepare();
    }

    method Consume(n: nat)
      modifies this
      ensures st == old(st).Consume(n)
    {
      st := st.Consume(n);
    }
  }

  /** The coroutine behind `async_write_some`. */
  class WriteSomeOp {
    const sr: Serializer
    var pc: SomePc

    constructor (sr: Serializer)
      ensures this.sr == sr && pc == Entry
    {
      this.sr := sr;
      pc := Entry;
    }

    method Resume(a: Arrival, doPost: bool) returns (effect: Effect)
      requires pc != Finished && sr.st.Valid()
      modifies this, sr
      ensures SomeStep(pc, sr.st, effect) == SomeResume(old(pc), old(sr.st), a, doPost)
    {
      var ec := a.ec;
      match pc {
        case Entry =>
          var rv := sr.Prepare();
          match rv {
            case NoBuffers(error) =>
              ec := error;
              if doPost {
                pc := Posted;
                return Post(ec);
              }
            case Buffers(run) =>
              pc := Sending(run);
              return WriteSome(run);
          }
        case Posted =>
        case Sending(_) =>
          sr.Consume(|a.data|);
      }
      pc := Finished;
      effect := Done(ec, |a.data|);
    }
  }

  /** Initiate `async_write_some`. It never completes inside the call: a prepare error is posted. */
  method AsyncWriteSome(sr: Serializer) returns (op: WriteSomeOp, effect: Effect)
    requires sr.st.Valid()
    modifies sr
    ensures fresh(op) && op.sr == sr && !effect.Done?
    ensures SomeStep(op.pc, sr.st, effect) == SomeResume(Entry, old(sr.st), Plain(Ok), true)
  {
    op := new WriteSomeOp(sr);
    effect := op.Resume(Plain(Ok), true);
  }

  /** The coroutine behind `async_write`, with the inner operation it waits for. */
  class WriteAllOp {
    const sr: Serializer
    var n: nat
    var inner: WriteSomeOp

    ghost function View(): WriteOp
      reads this, inner
    {
      WriteOp(n, inner.pc)
    }

    ghost predicate Valid()
      reads this, inner
    {
      inner.sr == sr
    }

    constructor (sr: Serializer)
      ensures this.sr == sr && n == 0 && fresh(inner) && Valid()
    {
      this.sr := sr;
      n := 0;
      inner := new WriteSomeOp(sr);
    }

    /** The top of the loop. */
    method Again() returns (effect: Effect)
      requires sr.st.Valid()
      modifies this, sr
      ensures Valid() && fresh(inner)
      ensures Step(View(), sr.st, effect) == WriteAgain(old(n), old(sr.st))
    {
      inner, effect := AsyncWriteSome(sr);
    }

    /** The inner operation completes with `a`, and its completion resumes this one. */
    method Resume(a: Arrival) returns (effect: Effect)
      requires Valid() && Expects(View(), sr.st, a)
      modifies this, sr, inner
      ensures Valid() && (inner == old(inner) || fresh(inner))
      ensures Step(View(), sr.st, effect) == WriteResume(old(View()), old(sr.st), a)
    {
      effect := inner.Resume(a, false);
      n := n + effect.n;
      if !effect.ec.Failed() && !sr.IsDone() {
        effect := Again();
      } else {
        effect := Done(effect.ec, n);
      }
    }
  }

  /** Initiate `async_write`. */
  method AsyncWrite(sr: Serializer) returns (op: WriteAllOp, effect: Effect)
    requires sr.st.Valid()
    modifies sr
    ensures fresh(op) && fresh(op.inner) && op.sr == sr && op.Valid() && !effect.Done?
    ensures Step(op.View(), sr.st, effect) == WriteAgain(0, old(sr.st))
  {
    op := new WriteAllOp(sr);
    effect := op.Again();
  }

  /** A destination that records what it accepts, answering from a script. */
  class WriteStream {
    var script: seq<Ack>
    var sent: seq<byte>

    constructor (script: seq<Ack>)
      ensures this.script == script && sent == []
    {
      this.script := script;
      sent := [];
    }

    method Take(run: seq<byte>) returns (a: Arrival)
      requires script != [] && run != []
      modifies this
      ensures a == old(script)[0].Answer(run)
      ensures script == old(script)[1..] && sent == old(sent) + a.data
    {
      a := script[0].Answer(run);
      script := script[1..];
      sent := sent + a.data;
    }
  }

  /** Resume an `async_write_some` from its saved point, as above but for a single round. */
  method DriveWriteSome(sr: Serializer, dest: WriteStream) returns (out: Outcome)
    requires sr.st.Valid()
    modifies sr, dest
    ensures var w := WriteLoops.WriteSome(old(sr.st), old(dest.script));
            && sr.st == w.sr && out == w.out && dest.script == w.rest
            && dest.sent == old(dest.sent) + w.sent
  {
    var op, effect := AsyncWriteSome(sr);
    if effect.Post? {
      effect := op.Resume(Plain(effect.ec), false);
    } else if dest.script == [] {
      return Blocked;
    } else {
      var a := dest.Take(effect.run);
      effect := op.Resume(a, false);
    }
    out := Completed(effect.ec, effect.n);
  }

  /** The nested machines stand where the plain loop stands before its next round, and what
      was sent together with what that loop will still send is `all`. */
  ghost predicate Underway(s: Step, sent: seq<byte>, top: SerializerState, script: seq<Ack>,
                           goal: Run, all: seq<byte>)
  {
    && top.Valid() && ValidScript(script) && s == WriteAgain(s.op.n, top)
    && var more := WriteLoop(top, s.op.n, script);
       goal == more.(sent := goal.sent) && sent + more.sent == all
  }

  ghost predicate Over(s: Step, sent: seq<byte>, script: seq<Ack>, goal: Run, all: seq<byte>) {
    s.effect.Done? && sent == all && goal == Run(s.sr, Completed(s.effect.ec, s.effect.n), goal.sent, script)
  }

  /** Resuming after a posted prepare error ends both machines and loop. */
  lemma PostEnds(s: Step, sent: seq<byte>, top: SerializerState, script: seq<Ack>, goal: Run, all: seq<byte>)
    requires Underway(s, sent, top, script, goal, all) && s.effect.Post?
    ensures Expects(s.op, s.sr, Plain(s.effect.ec))
    ensures Over(WriteResume(s.op, s.sr, Plain(s.effect.ec)), sent, script, goal, all)
  {
    RefusalIsPosted(top, s.op.n);
  }

  /** Resuming with the destination's answer is one round of the loop. */
  lemma AnswerIsRound(s: Step, sent: seq<byte>, top: SerializerState, script: seq<Ack>, goal: Run, all: seq<byte>)
    requires Underway(s, sent, top, script, goal, all) && s.effect.WriteSome? && script != []
    ensures s.effect.run != []
    ensures var a := script[0].Answer(s.effect.run);
            && Expects(s.op, s.sr, a)
            && var t := WriteResume(s.op, s.sr, a);
               if t.effect.Done? then Over(t, sent + a.data, script[1..], goal, all)
               else Underway(t, sent + a.data, WriteLoops.WriteSome(top, script).sr, script[1..], goal, all)
  {
    WriteSomeConserves(top, script);
    assert s.sr.Remaining() == top.Remaining();
    var a := script[0].Answer(s.effect.run);
    var t := WriteResume(s.op, s.sr, a);
    if !t.effect.Done? {
      var more := WriteLoop(WriteLoops.WriteSome(top, script).sr, t.op.n, script[1..]).sent;
      assert (sent + a.data) + more == sent + (a.data + more);
    }
  }

  /** Resume an `async_write` from its saved points with whatever the destination answers. The
      nested objects give the same serializer calls, code, count and bytes as the plain loop. */
  method DriveWrite(sr: Serializer, dest: WriteStream) returns (out: Outcome)
    requires sr.st.Valid() && ValidScript(dest.script)
    modifies sr, dest
    ensures var w := Write(old(sr.st), old(dest.script));
            && sr.st == w.sr && out == w.out && dest.script == w.rest
            && dest.sent == old(dest.sent) + w.sent
  {
    ghost var goal, top := Write(sr.st, dest.script), sr.st;
    ghost var all := dest.sent + goal.sent;
    var op, effect := AsyncWrite(sr);
    while !effect.Done?
      invariant fresh(op) && fresh(op.inner) && op.Valid() && op.sr == sr
      invariant if effect.Done?
        then Over(Step(op.View(), sr.st, effect), dest.sent, dest.script, goal, all)
        else Underway(Step(op.View(), sr.st, effect), dest.sent, top, dest.script, goal, all)
      decreases |dest.script|, !effect.Done?
    {
      ghost var s := Step(op.View(), sr.st, effect);
      if effect.Post? {
        PostEnds(s, dest.sent, top, dest.script, goal, all);
        effect := op.Resume(Plain(effect.ec));
      } else if dest.script == [] {
        return Blocked;
      } else {
        AnswerIsRound(s, dest.sent, top, dest.script, goal, all);
        top := WriteLoops.WriteSome(top, dest.script).sr;
        var a := dest.Take(effect.run);
        effect := op.Resume(a);
      }
    }
    out := Completed(effect.ec, effect.n);
  }

  /** Either call, to its completion. */
  method DriveCall(op: Op, sr: Serializer, dest: WriteStream) returns (out: Outcome)
    requires sr.st.Valid() && ValidScript(dest.script)
    modifies sr, dest
    ensures var w := Call(op, old(sr.st), old(dest.script));
            && sr.st == w.sr && out == w.out && dest.script == w.rest
            && dest.sent == old(dest.sent) + w.sent
    ensures sr.st.Valid() && ValidScript(dest.script)
  {
    WriteSomeConserves(sr.st, dest.script);
    WriteLoopConserves(sr.st, 0, dest.script);
    WriteLoopRest(sr.st, 0, dest.script);
    hide WriteLoop;
    if op == Some {
      out := DriveWriteSome(sr, dest);
    } else {
      out := DriveWrite(sr, dest);
    }
  }

  /** The calls still to be made, after which the destination will hold `all`. */
  ghost predicate Ahead(ops: seq<Op>, sr: SerializerState, n: nat, script: seq<Ack>, sent: seq<byte>,
                        goal: Run, all: seq<byte>)
    requires sr.Valid()
  {
    var more := Calls(ops, sr, n, script);
    goal == more.(sent := goal.sent) && sent + more.sent == all
  }

  lemma OneCallLess(ops: seq<Op>, sr: SerializerState, n: nat, script: seq<Ack>, sent: seq<byte>,
                    goal: Run, all: seq<byte>)
    requires sr.Valid() && ops != [] && Ahead(ops, sr, n, script, sent, goal, all)
    ensures var r := Call(ops[0], sr, script);
            && r.sr.Valid()
            && (if r.out.Blocked? then goal == r.(sent := goal.sent) && sent + r.sent == all
                else Ahead(ops[1..], r.sr, n + r.out.total, r.rest, sent + r.sent, goal, all))
  {
    var r := Call(ops[0], sr, script);
    CallConserves(ops[0], sr, script);
    hide Call;
    if r.out.Completed? {
      var more := Calls(ops[1..], r.sr, n + r.out.total, r.rest);
      assert sent + (r.sent + more.sent) == (sent + r.sent) + more.sent;
    }
  }

  /** Send a message by any sequence of calls, each begun when the one before has completed,
      whether or not it failed. The destination has received exactly the first bytes of the
      message, as many as the calls reported together. */
  method DriveCalls(message: seq<byte>, ops: seq<Op>, sr: Serializer, dest: WriteStream) returns (out: Outcome)
    requires ValidScript(dest.script)
    modifies sr, dest
    ensures sr.st.bytes == message && sr.st.cursor <= |message|
    ensures dest.sent == old(dest.sent) + message[..sr.st.cursor]
    ensures out.Completed? ==> out.total == sr.st.cursor
    ensures var w := Calls(ops, old(sr.st).Start(message), 0, old(dest.script));
            sr.st == w.sr && out == w.out && dest.script == w.rest
  {
    ghost var goal := Calls(ops, sr.st.Start(message), 0, dest.script);
    ghost var all := dest.sent + goal.sent;
    CallsConserve(ops, sr.st.Start(message), 0, dest.script);
    hide Calls, Call;
    sr.Start(message);
    var total: nat := 0;
    assert ops[0..] == ops;
    for i := 0 to |ops|
      invariant sr.st.Valid() && ValidScript(dest.script)
      invariant Ahead(ops[i..], sr.st, total, dest.script, dest.sent, goal, all)
    {
      assert ops[i..][0] == ops[i] && ops[i..][1..] == ops[i + 1..];
      OneCallLess(ops[i..], sr.st, total, dest.script, dest.sent, goal, all);
      out := DriveCall(ops[i], sr, dest);
      if out.Blocked? {
        return;
      }
      total := total + out.total;
    }
    assert ops[|ops|..] == [];
    out := Completed(Ok, total);
  }
}
