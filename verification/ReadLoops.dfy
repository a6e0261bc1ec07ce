/** The composed read operations as plain loops over the results the stream gives. */
module ReadLoops {
  import opened Codes
  import opened Parsing
  import opened ReadSteps

  /** `Blocked` when the results run out before the operation completes. */
  datatype Outcome = Blocked | Completed(ec: Code, total: nat)

  datatype Run = Run(pr: ParserState, out: Outcome, rest: seq<Arrival>)
  {
    predicate Succeeded() {
      out.Completed? && out.ec == Ok
    }
  }

  function ReadLoop(until: Until, pr: ParserState, total: nat, script: seq<Arrival>): Run
    decreases |script|
  {
    if script == [] then Run(pr.Prepare(), Blocked, [])
    else
      var n := total + |script[0].data|;
      match TurnOf(until, pr.Prepare(), script[0])
      case Leave(ec, p) => Run(p, Completed(ec, n), script[1..])
      case Again(p) => ReadLoop(until, p, n, script[1..])
  }

  /** `async_read_header` */
  function ReadHeader(pr: ParserState, script: seq<Arrival>): Run {
    if pr.GotHeader() then Run(pr, Completed(Ok, 0), script)
    else ReadLoop(Header, pr, 0, script)
  }

  /** `async_read_some` and `async_read` */
  function ReadBody(some: bool, pr: ParserState, script: seq<Arrival>): Run {
    if pr.IsComplete() then Run(pr.Parse(), Completed(pr.ParseCode(), 0), script)
    else ReadLoop(if some then Progress else Message, pr, 0, script)
  }

  /** Header, then body, as the server's worker runs them. */
  function ReadMessage(pr: ParserState, script: seq<Arrival>): Run {
    var r := ReadHeader(pr, script);
    if r.Succeeded() then ReadBody(false, r.pr, r.rest) else r
  }

  /** Bytes are conserved between the stream, the parser and the reported count. */
  ghost predicate Balanced(pr: ParserState, total: nat, script: seq<Arrival>, r: Run) {
    && |r.rest| <= |script|
    && r.pr.input + Bytes(r.rest) == pr.input + Bytes(script)
    && |r.pr.input| >= |pr.input|
    && (r.out.Completed? ==> r.out.total - total == |r.pr.input| - |pr.input|)
  }

  lemma {:induction false} LoopBalanced(until: Until, pr: ParserState, total: nat, script: seq<Arrival>)
    ensures Balanced(pr, total, script, ReadLoop(until, pr, total, script))
    decreases |script|
  {
    if script != [] {
      var p := TurnOf(until, pr.Prepare(), script[0]).pr;
      assert p.input == pr.input + script[0].data;
      assert pr.input + Bytes(script) == p.input + Bytes(script[1..]);
      LoopBalanced(until, p, total + |script[0].data|, script[1..]);
    }
  }

  /** On every exit, a stream error that came with bytes included, the count a read reports
      is the number of bytes it committed, and those are the next bytes of the stream. */
  lemma ReportedIsCommitted(some: bool, pr: ParserState, script: seq<Arrival>)
    ensures Balanced(pr, 0, script, ReadHeader(pr, script))
    ensures Balanced(pr, 0, script, ReadBody(some, pr, script))
  {
    LoopBalanced(Header, pr, 0, script);
    LoopBalanced(if some then Progress else Message, pr, 0, script);
  }

  /** Only a successful read that brought bytes keeps a loop going. */
  lemma AgainBringsBytes(until: Until, pr: ParserState, a: Arrival)
    requires pr.g.Lawful() && a.FromStream() && TurnOf(until, pr, a).Again?
    ensures a.ec == Ok && |a.data| > 0
  {
  }

  lemma {:induction false} LoopBound(until: Until, pr: ParserState, total: nat, script: seq<Arrival>)
    requires pr.g.Lawful() && FromStream(script)
    ensures var r := ReadLoop(until, pr, total, script);
            && (r.out.Blocked? ==> r.rest == [])
            && |script| - |r.rest| <= |r.pr.input| - |pr.input| + (if r.out.Completed? then 1 else 0)
    decreases |script|
  {
    if script != [] {
      var t := TurnOf(until, pr.Prepare(), script[0]);
      assert |t.pr.input| == |pr.input| + |script[0].data| && t.pr.g == pr.g;
      if t.Again? {
        AgainBringsBytes(until, pr.Prepare(), script[0]);
        LoopBound(until, t.pr, total + |script[0].data|, script[1..]);
      }
    }
  }

  /** A read resumes at most once more than the bytes it takes, so over a stream of finitely
      many bytes it completes as soon as the stream has answered that often. */
  lemma ReadsTerminate(some: bool, pr: ParserState, script: seq<Arrival>)
    requires pr.g.Lawful() && FromStream(script)
    ensures forall r :: r == ReadHeader(pr, script) || r == ReadBody(some, pr, script) ==>
              && |script| - |r.rest| <= |r.pr.input| - |pr.input| + 1
              && (|script| > |Bytes(script)| ==> r.out.Completed?)
  {
    ReportedIsCommitted(some, pr, script);
    LoopBound(Header, pr, 0, script);
    LoopBound(if some then Progress else Message, pr, 0, script);
    assert forall r: Run :: r == ReadHeader(pr, script) || r == ReadBody(some, pr, script) ==>
      |r.pr.input| + |Bytes(r.rest)| == |r.pr.input + Bytes(r.rest)| == |pr.input| + |Bytes(script)|;
  }

  // ---------- where a loop stops, and what it has called ----------

  /** What is committed once the first `j` arrivals have been. */
  function Upto(pr: ParserState, script: seq<Arrival>, j: nat): seq<byte>
    requires j <= |script|
  {
    pr.input + Bytes(script[..j])
  }

  /** Arrival `j` neither fails nor settles anything that the operation waits for. */
  ghost predicate GoesOn(until: Until, pr: ParserState, script: seq<Arrival>, j: nat)
    requires j < |script|
  {
    var b := Upto(pr, script, j + 1);
    && script[j].ec == Ok && pr.g.verdict(b, false) == NeedMore && until != Progress
    && (until == Header ==> !pr.g.header(b, false))
  }

  /** The code with which arrival `j` ends the operation: its own, if it fails, and then nothing of
      it was parsed; else the verdict on all bytes, where still needing more is no error. */
  ghost predicate EndsWith(pr: ParserState, script: seq<Arrival>, j: nat, ec: Code, seen: seq<byte>)
    requires j < |script|
  {
    if script[j].ec.Failed() && script[j].ec != Eof then
      ec == script[j].ec && seen == if j == 0 then pr.seen else Upto(pr, script, j)
    else
      var b := Upto(pr, script, j + 1);
      && seen == b
      && match pr.g.verdict(b, script[j].ec == Eof)
         case Malformed(k) => ec == Syntax(k)
         case _ => ec == Ok
  }

  /** The calls on the parser for these arrivals: room is prepared before each, what came is
      committed, and parsed unless the read failed. */
  function TraceOf(script: seq<Arrival>): seq<Call> {
    if script == [] then []
    else
      var a := script[0];
      [Prepared, Committed(|a.data|)] + (if a.ec == Eof then [CommittedEof] else [])
      + (if a.ec == Ok || a.ec == Eof then [Parsed] else []) + TraceOf(script[1..])
  }

  /** A loop stops at the first arrival that does not let it go on, with that arrival's code. */
  ghost predicate StopsRight(until: Until, pr: ParserState, script: seq<Arrival>, r: Run) {
    var used := |script| - |r.rest|;
    && 0 <= used && r.rest == script[used..]
    && match r.out
       case Blocked =>
         && used == |script| && r.pr.calls == pr.calls + TraceOf(script) + [Prepared]
         && forall j :: 0 <= j < used ==> GoesOn(until, pr, script, j)
       case Completed(ec, _) =>
         && 0 < used && r.pr.calls == pr.calls + TraceOf(script[..used])
         && (forall j :: 0 <= j < used - 1 ==> GoesOn(until, pr, script, j))
         && !GoesOn(until, pr, script, used - 1) && EndsWith(pr, script, used - 1, ec, r.pr.seen)
  }

  lemma LaterByOne(until: Until, pr: ParserState, p: ParserState, script: seq<Arrival>, j: nat)
    requires script != [] && p.g == pr.g && p.input == pr.input + script[0].data && j < |script| - 1
    ensures GoesOn(until, pr, script, j + 1) <==> GoesOn(until, p, script[1..], j)
    ensures Upto(pr, script, j + 1) == Upto(p, script[1..], j)
    ensures Upto(pr, script, j + 2) == Upto(p, script[1..], j + 1)
  {
    assert script[..j + 1][1..] == script[1..][..j] && script[..j + 2][1..] == script[1..][..j + 1];
    assert Upto(pr, script, j + 2) == Upto(p, script[1..], j + 1);
    assert script[1..][j] == script[j + 1];
  }

  /** The first arrival decides, or the loop goes on as it would from the second. */
  lemma FirstTurn(until: Until, pr: ParserState, script: seq<Arrival>)
    requires pr.g.Lawful() && !pr.eof && script != []
    ensures Upto(pr, script, 1) == pr.input + script[0].data && Upto(pr, script, 0) == pr.input
    ensures var t := TurnOf(until, pr.Prepare(), script[0]);
            && t.pr.g == pr.g && t.pr.input == pr.input + script[0].data
            && t.pr.calls == pr.calls + TraceOf([script[0]])
            && (t.Again? <==> GoesOn(until, pr, script, 0))
            && (t.Again? ==> !t.pr.eof && t.pr.seen == t.pr.input)
            && (t.Leave? ==> EndsWith(pr, script, 0, t.ec, t.pr.seen))
  {
    assert script[..1][1..] == [] && script[..1][0] == script[0];
    assert pr.input + Bytes([]) == pr.input;
    assert TraceOf([script[0]][1..]) == [];
  }

  lemma LaterEnds(pr: ParserState, p: ParserState, script: seq<Arrival>, j: nat, ec: Code, seen: seq<byte>)
    requires script != [] && p.g == pr.g && p.input == pr.input + script[0].data && j < |script| - 1
    requires p.seen == p.input
    ensures EndsWith(pr, script, j + 1, ec, seen) <==> EndsWith(p, script[1..], j, ec, seen)
  {
    LaterByOne(Message, pr, p, script, j);
    assert script[1..][j] == script[j + 1];
    assert script[1..][..0] == [] && p.input + Bytes([]) == p.input;
  }

  lemma TraceOfMore(a: Arrival, rest: seq<Arrival>)
    ensures TraceOf([a] + rest) == TraceOf([a]) + TraceOf(rest)
  {
    assert ([a] + rest)[1..] == rest && [a][1..] == [];
  }

  /** What holds of a loop from the second arrival on, seen from the first. */
  lemma StopsRightFromSecond(until: Until, pr: ParserState, p: ParserState, script: seq<Arrival>, r: Run)
    requires script != [] && p.g == pr.g && p.input == pr.input + script[0].data && p.seen == p.input
    requires p.calls == pr.calls + TraceOf([script[0]]) && GoesOn(until, pr, script, 0)
    requires StopsRight(until, p, script[1..], r)
    ensures StopsRight(until, pr, script, r)
  {
    hide GoesOn, EndsWith, TraceOf;
    var used := |script[1..]| - |r.rest|;
    assert script[1..][used..] == script[used + 1..];
    assert forall j :: 0 <= j < used ==> script[1..][j] == script[j + 1];
    forall j | 0 < j < |script|
      ensures GoesOn(until, pr, script, j) <==> GoesOn(until, p, script[1..], j - 1)
    {
      LaterByOne(until, pr, p, script, j - 1);
    }
    if r.out.Completed? {
      LaterEnds(pr, p, script, used - 1, r.out.ec, r.pr.seen);
      assert script[..used + 1] == [script[0]] + script[1..][..used];
      TraceOfMore(script[0], script[1..][..used]);
    } else {
      assert script == [script[0]] + script[1..];
      TraceOfMore(script[0], script[1..]);
    }
  }

  lemma {:induction false} LoopStopsRight(until: Until, pr: ParserState, total: nat, script: seq<Arrival>)
    requires pr.g.Lawful() && !pr.eof
    ensures StopsRight(until, pr, script, ReadLoop(until, pr, total, script))
    decreases |script|
  {
    hide GoesOn, EndsWith, TurnOf, Upto, Grammar.Lawful;
    if script == [] {
      assert TraceOf([]) == [];
    } else {
      FirstTurn(until, pr, script);
      var t := TurnOf(until, pr.Prepare(), script[0]);
      if t.Again? {
        LoopStopsRight(until, t.pr, total + |script[0].data|, script[1..]);
        StopsRightFromSecond(until, pr, t.pr, script, ReadLoop(until, t.pr, total + |script[0].data|, script[1..]));
      } else {
        assert script[..1] == [script[0]];
      }
    }
  }

  /** A header read of a header that is known takes nothing and touches nothing. Otherwise it, and
      every body read of an incomplete message, stops at the first arrival that settles what it
      waits for: the header for `async_read_header`, anything for `async_read_some`, the message
      for `async_read`. Its code is that arrival's, and a read that fails is not parsed. */
  lemma ReadsStopRight(some: bool, pr: ParserState, script: seq<Arrival>)
    requires pr.Valid()
    ensures pr.GotHeader() ==> ReadHeader(pr, script) == Run(pr, Completed(Ok, 0), script)
    ensures !pr.eof && !pr.GotHeader() ==> StopsRight(Header, pr, script, ReadHeader(pr, script))
    ensures pr.IsComplete() ==> ReadBody(some, pr, script) == Run(pr.Parse(), Completed(Ok, 0), script)
    ensures !pr.eof && !pr.IsComplete() ==>
              StopsRight(if some then Progress else Message, pr, script, ReadBody(some, pr, script))
  {
    if pr.IsComplete() {
      CompleteStays(pr);
    }
    if !pr.eof {
      LoopStopsRight(Header, pr, 0, script);
      LoopStopsRight(if some then Progress else Message, pr, 0, script);
    }
  }

  // ---------- what can escape ----------

  lemma AbsorbValid(p: ParserState, a: Arrival)
    requires p.Valid() && !p.eof
    ensures Absorb(p, a).Valid() && Absorb(p, a).Parse().Valid()
    ensures Absorb(p, a).input == p.input + a.data && Absorb(p, a).eof == a.ec.Eof?
    ensures p.GotHeader() ==> Absorb(p, a).GotHeader() && Absorb(p, a).Parse().GotHeader()
  {
  }

  /** How a read may exit: `NeedMoreInput` and `Eof` are turned into something else, success
      means what the operation promises, and a known header stays known. */
  ghost predicate CleanExit(until: Until, pr: ParserState, r: Run) {
    && r.pr.Valid()
    && (pr.GotHeader() ==> r.pr.GotHeader())
    && (r.out.Blocked? ==> !r.pr.eof)
    && (r.out.Completed? ==> CleanCode(until, r.out.ec, r.pr))
  }

  ghost predicate CleanCode(until: Until, ec: Code, pr: ParserState) {
    && ec != NeedMoreInput && ec != Eof
    && (pr.eof ==> pr.IsComplete() || ec.Syntax?)
    && (ec == Ok && until == Header ==> pr.GotHeader())
    && (ec == Ok && until == Message ==> pr.IsComplete())
    && (ec == Ok && until == Progress ==> pr.seen == pr.input)
  }

  lemma TurnIsClean(until: Until, pr: ParserState, a: Arrival)
    requires pr.Valid() && !pr.eof && a.FromStream()
    ensures var t := TurnOf(until, pr, a);
            && t.pr.Valid() && (pr.GotHeader() ==> t.pr.GotHeader())
            && (if t.Leave? then CleanCode(until, t.ec, t.pr) else !t.pr.eof)
  {
    AbsorbValid(pr, a);
  }

  lemma {:induction false} LoopExits(until: Until, pr: ParserState, total: nat, script: seq<Arrival>)
    requires pr.Valid() && !pr.eof && FromStream(script)
    ensures CleanExit(until, pr, ReadLoop(until, pr, total, script))
    decreases |script|
  {
    if script != [] {
      var t := TurnOf(until, pr.Prepare(), script[0]);
      TurnIsClean(until, pr.Prepare(), script[0]);
      if t.Again? {
        LoopExits(until, t.pr, total + |script[0].data|, script[1..]);
      }
    }
  }

  lemma HeaderExits(pr: ParserState, script: seq<Arrival>)
    requires pr.Valid() && !pr.eof && FromStream(script)
    ensures CleanExit(Header, pr, ReadHeader(pr, script))
  {
    if !pr.GotHeader() {
      LoopExits(Header, pr, 0, script);
    }
  }

  lemma BodyExits(some: bool, pr: ParserState, script: seq<Arrival>)
    requires pr.Valid() && (!pr.eof || pr.IsComplete()) && FromStream(script)
    ensures CleanExit(if some then Progress else Message, pr, ReadBody(some, pr, script))
  {
    if pr.IsComplete() {
      CompleteStays(pr);
    } else {
      LoopExits(if some then Progress else Message, pr, 0, script);
    }
  }

  /** Whatever the stream answers, neither `NeedMoreInput` nor the end of the stream escapes
      from a read, and a body read after a successful header read finds the header known, so
      it never trips the "header must be read first" check. */
  lemma NothingEscapes(pr: ParserState, script: seq<Arrival>)
    requires pr.Valid() && !pr.eof && FromStream(script)
    ensures CleanExit(Header, pr, ReadHeader(pr, script))
    ensures var r := ReadHeader(pr, script);
            r.Succeeded() ==>
              && r.pr.GotHeader()
              && forall some, rest :: FromStream(rest) ==>
                   CleanExit(if some then Progress else Message, r.pr, ReadBody(some, r.pr, rest))
  {
    HeaderExits(pr, script);
    var r := ReadHeader(pr, script);
    if r.Succeeded() {
      forall some, rest | FromStream(rest)
        ensures CleanExit(if some then Progress else Message, r.pr, ReadBody(some, r.pr, rest))
      {
        BodyExits(some, r.pr, rest);
      }
    }
  }
}
