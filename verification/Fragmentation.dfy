/** The outcome of reading a message does not depend on how its bytes arrive. */
module Fragmentation {
  import opened Codes
  import opened Parsing
  import opened ReadSteps
  import opened ReadLoops

  /** What becomes of a message, said without any operation. */
  datatype Fate =
    | Undecided
    | Whole(bytes: seq<byte>)
    | Rejected(number: int)
    | Lost(ec: Code)

  function Judge(g: Grammar, b: seq<byte>, eof: bool): Fate {
    match g.verdict(b, eof)
    case NeedMore => Undecided
    case Complete(n) => if n <= |b| then Whole(b[..n]) else Undecided
    case Malformed(k) => Rejected(k)
  }

  /** The fate of the message of which `b` is already buffered: decided by the first arrival
      that either fails or lets the bytes so far be judged. The message's header plays no part. */
  function FateOf(g: Grammar, b: seq<byte>, script: seq<Arrival>): Fate
    decreases |script|
  {
    if script == [] then Undecided
    else if Broken(script[0]) then Lost(script[0].ec)
    else
      var b' := b + script[0].data;
      if script[0].ec == Eof then Judge(g, b', true)
      else if g.verdict(b', false) != NeedMore then Judge(g, b', false)
      else FateOf(g, b', script[1..])
  }

  /** A run delivers exactly a fate. */
  ghost predicate Delivers(r: Run, fate: Fate) {
    match fate
    case Undecided => r.out.Blocked?
    case Whole(m) => r.Succeeded() && r.pr.IsComplete() && r.pr.Verdict().length <= |r.pr.input| && r.pr.Message() == m
    case Rejected(k) => r.out.Completed? && r.out.ec == Syntax(k)
    case Lost(ec) => r.out.Completed? && r.out.ec == ec && ec.Failed()
  }

  /** The header loop stopped with the header known and the message unfinished. */
  ghost predicate HalfWay(r: Run) {
    && r.Succeeded() && r.pr.Valid() && !r.pr.eof
    && r.pr.GotHeader() && !r.pr.IsComplete()
  }

  /** Whether a loop may end in this way, as far as the fate of the message goes. */
  ghost predicate EndsWell(until: Until, r: Run, fate: Fate) {
    Delivers(r, fate) || (until == Header && HalfWay(r) && fate == FateOf(r.pr.g, r.pr.input, r.rest))
  }

  /** One turn of a loop either meets the fate or leaves it as it was. */
  lemma TurnMeetsFate(until: Until, pr: ParserState, total: nat, script: seq<Arrival>)
    requires until != Progress && script != []
    requires pr.Valid() && !pr.eof && script[0].FromStream()
    ensures var t, fate := TurnOf(until, pr.Prepare(), script[0]), FateOf(pr.g, pr.input, script);
            && t.pr.Valid()
            && (t.Leave? ==> EndsWell(until, ReadLoop(until, pr, total, script), fate))
            && (t.Again? ==> !t.pr.eof && fate == FateOf(t.pr.g, t.pr.input, script[1..]))
  {
    AbsorbValid(pr.Prepare(), script[0]);
  }

  lemma {:induction false} LoopFate(until: Until, pr: ParserState, total: nat, script: seq<Arrival>)
    requires until != Progress
    requires pr.Valid() && !pr.eof && FromStream(script)
    ensures EndsWell(until, ReadLoop(until, pr, total, script), FateOf(pr.g, pr.input, script))
    decreases |script|
  {
    if script != [] {
      var t := TurnOf(until, pr.Prepare(), script[0]);
      TurnMeetsFate(until, pr, total, script);
      if t.Again? {
        LoopFate(until, t.pr, total + |script[0].data|, script[1..]);
      }
    }
  }

  lemma {:induction false} LoopRest(until: Until, pr: ParserState, total: nat, script: seq<Arrival>)
    requires FromStream(script)
    ensures FromStream(ReadLoop(until, pr, total, script).rest)
    decreases |script|
  {
    if script != [] {
      var t := TurnOf(until, pr.Prepare(), script[0]);
      LoopRest(until, t.pr, total + |script[0].data|, script[1..]);
    }
  }

  /** After a successful header read the body read finishes what was begun. */
  lemma BodyCompletesFate(r: Run, fate: Fate)
    requires r.Succeeded() && r.pr.Valid() && FromStream(r.rest)
    requires Delivers(r, fate) || (HalfWay(r) && fate == FateOf(r.pr.g, r.pr.input, r.rest))
    ensures Delivers(ReadBody(false, r.pr, r.rest), fate)
  {
    if r.pr.IsComplete() {
      CompleteStays(r.pr);
    } else {
      LoopFate(Message, r.pr, 0, r.rest);
    }
  }

  /** Reading a header and then the body meets exactly the fate of the message. */
  lemma ReadMessageMeetsFate(pr: ParserState, script: seq<Arrival>)
    requires pr.Valid() && !pr.eof && !pr.GotHeader() && FromStream(script)
    ensures Delivers(ReadMessage(pr, script), FateOf(pr.g, pr.input, script))
  {
    LoopFate(Header, pr, 0, script);
    LoopRest(Header, pr, 0, script);
    if ReadHeader(pr, script).Succeeded() {
      HeaderExits(pr, script);
      BodyCompletesFate(ReadHeader(pr, script), FateOf(pr.g, pr.input, script));
    }
  }

  // ---------- streams that end ----------

  /** Successful reads followed by the end of the stream. */
  ghost predicate EndsInEof(script: seq<Arrival>) {
    script != [] && (script[0].ec == Eof || (script[0].ec == Ok && EndsInEof(script[1..])))
  }

  /** The bytes a stream delivers before its end. */
  function Delivered(script: seq<Arrival>): seq<byte> {
    if script == [] then []
    else if script[0].ec == Eof then script[0].data
    else script[0].data + Delivered(script[1..])
  }

  /** Over a stream that ends, the fate is the verdict on all bytes together. */
  lemma {:induction false} FateAtEof(g: Grammar, b: seq<byte>, script: seq<Arrival>)
    requires g.Lawful() && EndsInEof(script)
    ensures FateOf(g, b, script) == Judge(g, b + Delivered(script), true)
    decreases |script|
  {
    var b' := b + script[0].data;
    var all := b + Delivered(script);
    if script[0].ec == Ok {
      assert all == b' + Delivered(script[1..]);
      g.Stable(b', all, true);
      FateAtEof(g, b', script[1..]);
    }
  }

  /** Header, then body, over any fragmentation: for a stream that ends, the outcome is the
      verdict on all its bytes, so two ways of splitting the same bytes into reads end with
      the same first error, or both with the same message. */
  lemma FragmentationIndependence(pr: ParserState, script: seq<Arrival>, script': seq<Arrival>)
    requires pr.Valid() && !pr.eof && !pr.GotHeader()
    requires FromStream(script) && EndsInEof(script)
    requires FromStream(script') && EndsInEof(script')
    requires Delivered(script) == Delivered(script')
    ensures var r, r' := ReadMessage(pr, script), ReadMessage(pr, script');
            var fate := Judge(pr.g, pr.input + Delivered(script), true);
            && fate != Undecided && Delivers(r, fate) && Delivers(r', fate)
            && r.out.Completed? && r'.out.Completed? && r.out.ec == r'.out.ec
            && (r.Succeeded() ==> r.pr.IsComplete() && r'.pr.IsComplete() && r.pr.Message() == r'.pr.Message())
  {
    ReadMessageMeetsFate(pr, script);
    ReadMessageMeetsFate(pr, script');
    FateAtEof(pr.g, pr.input, script);
    FateAtEof(pr.g, pr.input, script');
  }

  // ---------- reading in steps ----------

  /** Call `async_read_some` until the message is complete or an error occurs, adding up the counts. */
  function ReadInSteps(pr: ParserState, total: nat, script: seq<Arrival>): Run
    requires pr.Valid() && (!pr.eof || pr.IsComplete()) && FromStream(script)
    decreases |script|
  {
    BodyExits(true, pr, script);
    SomeAdvances(pr, script);
    var r := ReadBody(true, pr, script);
    if r.out.Blocked? then r
    else if r.out.ec != Ok || r.pr.IsComplete() then r.(out := Completed(r.out.ec, total + r.out.total))
    else ReadInSteps(r.pr, total + r.out.total, r.rest)
  }

  lemma SomeAdvances(pr: ParserState, script: seq<Arrival>)
    requires pr.Valid() && (!pr.eof || pr.IsComplete()) && FromStream(script)
    ensures var r := ReadBody(true, pr, script);
            FromStream(r.rest) && (r.Succeeded() && !r.pr.IsComplete() ==> |r.rest| < |script| && !r.pr.eof)
  {
  }

  /** `async_read_some` leaves where `async_read` would read again. */
  lemma ProgressTurn(pr: ParserState, a: Arrival)
    requires pr.Valid() && !pr.eof
    ensures var t, one := TurnOf(Message, pr, a), TurnOf(Progress, pr, a);
            && one == Leave(if t.Leave? then t.ec else Ok, t.pr)
            && (t.Again? ==> !t.pr.IsComplete())
            && (t.Leave? && t.ec == Ok ==> t.pr.IsComplete())
  {
  }

  /** One turn of the repeated calls. */
  lemma StepsTurn(pr: ParserState, total: nat, script: seq<Arrival>)
    requires pr.Valid() && !pr.eof && !pr.IsComplete() && FromStream(script) && script != []
    ensures var t, n := TurnOf(Message, pr.Prepare(), script[0]), total + |script[0].data|;
            && t.pr.Valid()
            && (t.Leave? ==> ReadInSteps(pr, total, script) == Run(t.pr, Completed(t.ec, n), script[1..]))
            && (t.Again? ==>
                  && !t.pr.eof && !t.pr.IsComplete()
                  && ReadInSteps(pr, total, script) == ReadInSteps(t.pr, n, script[1..]))
  {
    TurnIsClean(Message, pr.Prepare(), script[0]);
    ProgressTurn(pr.Prepare(), script[0]);
  }

  lemma {:induction false} StepsAreOneLoop(pr: ParserState, total: nat, script: seq<Arrival>)
    requires pr.Valid() && !pr.eof && !pr.IsComplete() && FromStream(script)
    ensures ReadInSteps(pr, total, script) == ReadLoop(Message, pr, total, script)
    decreases |script|
  {
    if script != [] {
      var t := TurnOf(Message, pr.Prepare(), script[0]);
      StepsTurn(pr, total, script);
      if t.Again? {
        StepsAreOneLoop(t.pr, total + |script[0].data|, script[1..]);
      }
    }
  }

  /** Repeated `async_read_some` equals one `async_read`, for every script: same final parser
      and calls on it, same final error, same summed count. */
  lemma ReadSomeUntilDoneIsRead(pr: ParserState, script: seq<Arrival>)
    requires pr.Valid() && (!pr.eof || pr.IsComplete()) && FromStream(script)
    ensures ReadInSteps(pr, 0, script) == ReadBody(false, pr, script)
  {
    if pr.IsComplete() {
      CompleteStays(pr);
    } else {
      StepsAreOneLoop(pr, 0, script);
    }
  }
}
