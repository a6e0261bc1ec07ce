/** The composed read operations: what one resumption does, as functions. */
module ReadSteps {
  import opened Codes
  import opened Parsing

  /** Where a coroutine resumes. */
  datatype Pc = Entry | Posted | Reading | Finished

  /** The saved part of `read_header_op` and `read_body_op`. */
  datatype ReadOp = ReadOp(pc: Pc, total: nat)

  const START := ReadOp(Entry, 0)

  /** What a resumption leaves behind: a posted continuation, an outstanding read, or completion. */
  datatype Effect = Post(ec: Code) | ReadSome | Done(ec: Code, total: nat)

  datatype Step = Step(op: ReadOp, pr: ParserState, effect: Effect)

  /** What a loop waits for when the parser still needs input: the header
      (`async_read_header`), any progress (`async_read_some`), or the message (`async_read`). */
  datatype Until = Header | Progress | Message
  {
    predicate Satisfied(pr: ParserState) {
      match this
      case Header => pr.GotHeader()
      case Progress => true
      case Message => false
    }
  }

  /** Commit what a read brought, the end of the stream included. */
  function Absorb(pr: ParserState, a: Arrival): ParserState {
    if a.ec == Eof then pr.Commit(a.data).CommitEof() else pr.Commit(a.data)
  }

  /** A failure other than the end of the stream. */
  predicate Broken(a: Arrival) {
    a.ec.Failed() && a.ec != Eof
  }

  function Await(total: nat, pr: ParserState): Step {
    Step(ReadOp(Reading, total), pr.Prepare(), ReadSome)
  }

  function Finish(ec: Code, total: nat, pr: ParserState): Step {
    Step(ReadOp(Finished, total), pr, Done(ec, total))
  }

  /** What one pass through a loop decides: to leave it, or to read again. */
  datatype Turn = Leave(ec: Code, pr: ParserState) | Again(pr: ParserState)

  /** The body of both loops, after the read at the top has returned. */
  function TurnOf(until: Until, pr: ParserState, a: Arrival): Turn {
    var p := Absorb(pr, a);
    if Broken(a) then Leave(a.ec, p)
    else if p.ParseCode() != NeedMoreInput then Leave(p.ParseCode(), p.Parse())
    else if until.Satisfied(p.Parse()) then Leave(Ok, p.Parse())
    else Again(p.Parse())
  }

  function Arrived(until: Until, total: nat, pr: ParserState, a: Arrival): Step {
    match TurnOf(until, pr, a)
    case Leave(ec, p) => Finish(ec, total + |a.data|, p)
    case Again(p) => Await(total + |a.data|, p)
  }

  function HeaderResume(op: ReadOp, pr: ParserState, a: Arrival): Step
    requires op.pc != Finished
  {
    match op.pc
    case Entry =>
      if pr.GotHeader() then Step(op.(pc := Posted), pr, Post(a.ec)) else Await(op.total, pr)
    case Posted =>
      Finish(a.ec, op.total, pr)
    case Reading =>
      Arrived(Header, op.total, pr, a)
  }

  function BodyResume(op: ReadOp, some: bool, pr: ParserState, a: Arrival): Step
    requires op.pc != Finished
  {
    match op.pc
    case Entry =>
      if pr.IsComplete() then Step(op.(pc := Posted), pr, Post(a.ec)) else Await(op.total, pr)
    case Posted =>
      Finish(pr.ParseCode(), op.total, pr.Parse())
    case Reading =>
      Arrived(if some then Progress else Message, op.total, pr, a)
  }
}
