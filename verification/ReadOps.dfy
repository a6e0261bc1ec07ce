/** The read operations as the objects the library resumes, and the loop that drives them. */
module ReadOps {
  import opened Codes
  import opened Parsing
  import opened ReadSteps
  import opened ReadLoops

  /** A stream that answers each read with the next arrival of a script. */
  class ReadStream {
    var script: seq<Arrival>

    constructor (script: seq<Arrival>)
      ensures this.script == script
    {
      this.script := script;
    }

    method Next() returns (a: Arrival)
      requires script != []
      modifies this
      ensures a == old(script)[0] && script == old(script)[1..]
    {
      a, script := script[0], script[1..];
    }
  }

  /** The coroutine behind `async_read_header`. */
  class ReadHeaderOp {
    const pr: Parser
    var pc: Pc
    var total: nat

    constructor (pr: Parser)
      ensures this.pr == pr && View() == START
    {
      this.pr := pr;
      pc, total := Entry, 0;
    }

    ghost function View(): ReadOp
      reads this
    {
      ReadOp(pc, total)
    }

    /** Run from the saved point to the next suspension, or to completion. */
    method Resume(a: Arrival) returns (effect: Effect)
      requires pc != Finished
      modifies this, pr
      ensures Step(View(), pr.st, effect) == HeaderResume(old(View()), old(pr.st), a)
      ensures old(pc) == Entry ==> !effect.Done?
      ensures effect.Done? <==> pc == Finished
    {
      var ec := a.ec;
      match pc {
        case Entry =>
          if pr.GotHeader() {
            pc := Posted;
            return Post(ec);
          }
          pr.Prepare();
          pc := Reading;
          return ReadSome;
        case Posted =>
        case Reading =>
          pr.Commit(a.data);
          total := total + |a.data|;
          var failed := false;
          if ec == Eof {
            pr.CommitEof();
          } else if ec.Failed() {
            failed := true;
          }
          if !failed {
            ec := pr.Parse();
            if ec == NeedMoreInput {
              if pr.GotHeader() {
                ec := Ok; // override need_more_input
              } else {
                pr.Prepare();
                return ReadSome;
              }
            }
          }
      }
      pc := Finished;
      effect := Done(ec, total);
    }
  }

  /** The coroutine behind `async_read_some` and `async_read`. */
  class ReadBodyOp {
    const pr: Parser
    const some: bool
    var pc: Pc
    var total: nat

    constructor (pr: Parser, some: bool)
      ensures this.pr == pr && this.some == some && View() == START
    {
      this.pr, this.some := pr, some;
      pc, total := Entry, 0;
    }

    ghost function View(): ReadOp
      reads this
    {
      ReadOp(pc, total)
    }

    method Resume(a: Arrival) returns (effect: Effect)
      requires pc != Finished
      modifies this, pr
      ensures Step(View(), pr.st, effect) == BodyResume(old(View()), some, old(pr.st), a)
      ensures old(pc) == Entry ==> !effect.Done?
      ensures effect.Done? <==> pc == Finished
    {
      var ec := a.ec;
      match pc {
        case Entry =>
          if pr.IsComplete() {
            pc := Posted;
            return Post(ec);
          }
          pr.Prepare();
          pc := Reading;
          return ReadSome;
        case Posted =>
          ec := pr.Parse();
        case Reading =>
          pr.Commit(a.data);
          total := total + |a.data|;
          var failed := false;
          if ec == Eof {
            pr.CommitEof();
          } else if ec.Failed() {
            failed := true;
          }
          if !failed {
            ec := pr.Parse();
            if ec == NeedMoreInput {
              if some {
                ec := Ok;
              } else {
                pr.Prepare();
                return ReadSome;
              }
            }
          }
      }
      pc := Finished;
      effect := Done(ec, total);
    }
  }

  /** Initiate `async_read_header`: run the operation to its first suspension. */
  method AsyncReadHeader(pr: Parser) returns (op: ReadHeaderOp, effect: Effect)
    modifies pr
    ensures fresh(op) && op.pr == pr && !effect.Done?
    ensures Step(op.View(), pr.st, effect) == HeaderResume(START, old(pr.st), Plain(Ok))
  {
    op := new ReadHeaderOp(pr);
    effect := op.Resume(Plain(Ok));
  }

  /** Initiate `async_read_some` or `async_read`. Null stands for the logic error thrown when
      the header was not read first; nothing has happened then. */
  method AsyncReadBody(pr: Parser, some: bool) returns (op: ReadBodyOp?, effect: Effect)
    modifies pr
    ensures op == null <==> !old(pr.GotHeader())
    ensures op == null ==> pr.st == old(pr.st)
    ensures op != null ==>
      && fresh(op) && op.pr == pr && op.some == some && !effect.Done?
      && Step(op.View(), pr.st, effect) == BodyResume(START, some, old(pr.st), Plain(Ok))
  {
    if !pr.GotHeader() {
      return null, Done(Ok, 0);
    }
    op := new ReadBodyOp(pr, some);
    effect := op.Resume(Plain(Ok));
  }

  /** Resume a header read from its saved point with whatever the stream answers. The event-driven
      object gives the same calls on the parser, the same code and the same count as the plain loop. */
  method DriveHeader(pr: Parser, stream: ReadStream) returns (out: Outcome)
    modifies pr, stream
    ensures Run(pr.st, out, stream.script) == ReadHeader(old(pr.st), old(stream.script))
  {
    var op, effect := AsyncReadHeader(pr);
    if effect.Post? {
      effect := op.Resume(Plain(effect.ec));
    }
    while effect.ReadSome?
      invariant fresh(op) && op.pr == pr
      invariant !effect.Post? && (effect.Done? <==> op.pc == Finished)
      invariant effect.ReadSome? ==>
        && op.pc == Reading && !old(pr.GotHeader())
        && exists p: ParserState :: pr.st == p.Prepare() &&
             ReadLoop(Header, p, op.total, stream.script) == ReadLoop(Header, old(pr.st), 0, old(stream.script))
      invariant effect.Done? ==>
        Run(pr.st, Completed(effect.ec, effect.total), stream.script) == ReadHeader(old(pr.st), old(stream.script))
      decreases |stream.script|, effect.ReadSome?
    {
      if stream.script == [] {
        return Blocked;
      }
      var a := stream.Next();
      effect := op.Resume(a);
    }
    out := Completed(effect.ec, effect.total);
  }

  /** The same for a body read, which may only be initiated once the header was read. */
  method DriveBody(pr: Parser, some: bool, stream: ReadStream) returns (out: Outcome)
    requires pr.GotHeader()
    modifies pr, stream
    ensures Run(pr.st, out, stream.script) == ReadBody(some, old(pr.st), old(stream.script))
  {
    var op, effect := AsyncReadBody(pr, some);
    if effect.Post? {
      effect := op.Resume(Plain(effect.ec));
    }
    ghost var until := if some then Progress else Message;
    while effect.ReadSome?
      invariant fresh(op) && op.pr == pr && op.some == some
      invariant !effect.Post? && (effect.Done? <==> op.pc == Finished)
      invariant effect.ReadSome? ==>
        && op.pc == Reading && !old(pr.IsComplete())
        && exists p: ParserState :: pr.st == p.Prepare() &&
             ReadLoop(until, p, op.total, stream.script) == ReadLoop(until, old(pr.st), 0, old(stream.script))
      invariant effect.Done? ==>
        Run(pr.st, Completed(effect.ec, effect.total), stream.script) == ReadBody(some, old(pr.st), old(stream.script))
      decreases |stream.script|, effect.ReadSome?
    {
      if stream.script == [] {
        return Blocked;
      }
      var a := stream.Next();
      effect := op.Resume(a);
    }
    out := Completed(effect.ec, effect.total);
  }
}
