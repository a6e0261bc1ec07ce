/** What a worker records of its connections is what the environment did, and what its handlers
    do to a connection while the server runs and while it shuts down. */
module Histories {
  import opened Codes
  import opened Parsing
  import R = ReadSteps
  import W = WriteSteps
  import opened Requests
  import opened Connections
  import opened WorkerModel
  import opened WorkerTheorems

  /** All connections of a worker, the current one last. */
  function All(w: Worker): seq<Connection> {
    w.past + [w.cur]
  }

  // ---------- one handler ----------

  /** The accept handler begins to read exactly when the accept succeeded. After any other error
      than an abort the worker accepts again, on a closed socket and with nothing carried over. */
  lemma AcceptDecides(w: Worker, site: Site, down: bool)
    requires Sound(w) && w.task.Accepting? && w.slot.Ready?
    ensures var w', ec := Handle(w, site, down), w.slot.done.ec;
            && (w'.task.Header? <==> ec == Ok)
            && (ec == Ok ==> w'.sock == Open && w'.slot == InFlight(Read) && w'.cur == NEW.(accepted := true))
            && (ec != Ok && ec != Aborted ==>
                  w'.task.Accepting? && w'.slot == InFlight(Accept) && w'.sock == Closed && w'.cur == NEW)
  {
  }

  /** The continuation of a posted operation, which was not heard from acceptor or socket. */
  predicate Posted(task: Task) {
    (task.Body? && task.bop.pc.Posted?) || (task.Writing? && task.wop.inner.Posted?)
  }

  /** The connection that a handler worked on, as it left it. */
  function Touched(w: Worker, w': Worker): Connection {
    if w'.task.Accepting? && |w.past| < |w'.past| then w'.past[|w.past|] else w'.cur
  }

  /** The connection stays, or is given up for a new one. */
  ghost predicate Moves(w: Worker, w': Worker) {
    All(w') == w.past + [Touched(w, w')] + (if w'.task.Accepting? then [NEW] else [])
  }

  /** What a handler may do to a connection: at most one response is begun, the handler's before
      shutdown and a 503 that closes after. */
  ghost predicate Grows(site: Site, down: bool, c: Connection, c': Connection) {
    && c.handed <= c'.handed && c.replies <= c'.replies && c.finished <= c'.finished
    && |c'.replies| <= |c.replies| + 1
    && (|c'.replies| > |c.replies| ==>
          && |c.replies| < |c'.handed|
          && var res := c'.replies[|c.replies|].response;
             if down then Unavailable(res) else Answers(site, c'.handed[|c.replies|], res))
  }

  // ---------- what was heard ----------

  /** What the environment alone decides of a connection. */
  datatype Facts = Facts(accepted: bool, bytes: seq<byte>, eof: bool, sent: seq<byte>, fault: Code)

  const BLANK := Facts(false, [], false, [], Ok)

  /** An error of the serializer is none of the environment's. */
  function FactsOf(c: Connection): Facts {
    Facts(c.accepted, c.bytes, c.eof, c.sent, if c.fault.Source? then Ok else c.fault)
  }

  function FactsOfAll(cs: seq<Connection>): seq<Facts> {
    seq(|cs|, i requires 0 <= i < |cs| => FactsOf(cs[i]))
  }

  function Hear(f: Facts, h: Heard): Facts {
    match h.io
    case Accept => Facts(h.a.ec == Ok, [], false, [], Ok)
    case Read =>
      f.(bytes := f.bytes + h.a.data, eof := f.eof || h.a.ec == Eof,
         fault := if h.a.ec == Ok || h.a.ec == Eof then f.fault else h.a.ec)
    case Write =>
      f.(sent := f.sent + h.a.data, fault := if h.a.ec == Ok then f.fault else h.a.ec)
  }

  /** The connections that were heard of: each accept begins one, and what follows belongs to it. */
  function Replay(log: seq<Heard>): seq<Facts> {
    if log == [] then []
    else
      var before, h := Replay(log[..|log| - 1]), log[|log| - 1];
      if h.io == Accept then before + [Hear(BLANK, h)]
      else if before == [] then []
      else before[..|before| - 1] + [Hear(before[|before| - 1], h)]
  }

  function IoOf(task: Task): Io {
    match task
    case Accepting => Accept
    case Header(_) => Read
    case Body(_) => Read
    case Writing(_) => Write
    case Ended => Accept
  }

  /** A completion was heard and its handler has not run. */
  predicate Unhandled(w: Worker) {
    w.slot.Ready? && !Posted(w.task) && w.log != []
  }

  function Handled(w: Worker): seq<Heard> {
    if Unhandled(w) then w.log[..|w.log| - 1] else w.log
  }

  /** The history is what was heard: every connection with its bytes in both directions, its end
      and its failure. The first one stands for the time before the worker ran. */
  ghost predicate Recorded(w: Worker) {
    && (w.slot.Ready? && !Posted(w.task) ==> w.log != [] && w.log[|w.log| - 1] == Heard(IoOf(w.task), w.slot.done))
    && FactsOfAll(All(w)) == [BLANK] + Replay(Handled(w)) + (if w.task.Accepting? then [BLANK] else [])
  }

  /** What a handler has done to the facts of the connection it worked on. */
  ghost predicate Heeds(w: Worker, w': Worker)
    requires w.slot.Ready?
  {
    && w'.log == w.log && !(w'.slot.Ready? && !Posted(w'.task))
    && FactsOf(Touched(w, w')) ==
         if Posted(w.task) then FactsOf(w.cur) else Hear(FactsOf(w.cur), Heard(IoOf(w.task), w.slot.done))
  }

  ghost predicate Evolves(w: Worker, w': Worker, site: Site, down: bool)
    requires w.slot.Ready?
  {
    Moves(w, w') && Heeds(w, w') && Grows(site, down, w.cur, Touched(w, w'))
  }

  // What the worker's own handlers do to it, once the composed operation has completed.

  /** The worker's connection becomes `c`, and nothing but a post or an operation in flight is left. */
  ghost predicate Leaves(w: Worker, w': Worker, c: Connection) {
    Moves(w, w') && Touched(w, w') == c && w'.log == w.log && !(w'.slot.Ready? && !Posted(w'.task))
  }

  lemma OnErrorLeaves(w: Worker, ec: Code)
    requires w.slot.Free?
    ensures Leaves(w, OnError(w, ec), if ec == Eof then SendShut(w.cur) else w.cur)
  {
  }

  lemma DoReadLeaves(w: Worker)
    requires w.slot.Free? && Startable(w.pr)
    ensures Leaves(w, DoRead(w), w.cur)
  {
  }

  lemma OnReadHeaderLeaves(w: Worker, ec: Code)
    requires w.slot.Free? && (ec == Ok ==> w.pr.GotHeader()) && ec != Eof
    ensures Leaves(w, OnReadHeader(w, ec), Dropped(w.cur, ec))
  {
    if ec.Failed() {
      OnErrorLeaves(w.(cur := Dropped(w.cur, ec)), ec);
    }
  }

  lemma OnReadBodyLeaves(w: Worker, ec: Code, site: Site, down: bool)
    requires w.slot.Free? && ec != Eof
    requires ec == Ok ==> w.pr.IsComplete() && w.pr.Verdict().length <= |w.pr.input|
    ensures Leaves(w, OnReadBody(w, ec, site, down),
                   if ec == Ok then BeginResponse(w, site, down).cur else Dropped(w.cur, ec))
  {
    if ec.Failed() {
      OnErrorLeaves(w.(cur := Dropped(w.cur, ec)), ec);
    }
  }

  lemma OnWriteLeaves(w: Worker, ec: Code, down: bool)
    requires w.slot.Free? && Startable(w.pr)
    ensures Leaves(w, OnWrite(w, ec, down),
                   if ec == Ok then Finished(w.cur, down) else if ec == Eof then SendShut(w.cur) else w.cur)
  {
    if ec.Failed() {
      OnErrorLeaves(w, ec);
    } else if w.res.keepAlive {
      DoReadLeaves(w.(cur := Finished(w.cur, down)));
    }
  }

  lemma AcceptEvolves(w: Worker, site: Site, down: bool)
    requires Sound(w) && w.slot.Ready? && w.task.Accepting?
    ensures Evolves(w, Handle(w, site, down), site, down)
  {
  }

  /** What a worker's own handler leaves, seen from before the composed operation was resumed. */
  lemma LeavesEvolves(w: Worker, v: Worker, w': Worker, c: Connection, site: Site, down: bool)
    requires w.slot.Ready? && v.past == w.past && v.log == w.log && Leaves(v, w', c) && Grows(site, down, w.cur, c)
    requires FactsOf(c) ==
      if Posted(w.task) then FactsOf(w.cur) else Hear(FactsOf(w.cur), Heard(IoOf(w.task), w.slot.done))
    ensures Evolves(w, w', site, down)
  {
  }

  lemma HeaderEvolves(w: Worker, site: Site, down: bool)
    requires Inv(w, site, down) && w.slot.Ready? && w.task.Header?
    ensures Evolves(w, Handle(w, site, down), site, down)
  {
    hide R.HeaderResume, OnReadHeader, Between, Good, Answers, Leaves, Grows;
    HeaderResumes(w);
    var a, s := w.slot.done, R.HeaderResume(w.task.hop, w.pr, w.slot.done);
    var c := Received(w.cur, a);
    var v := Suspended(w.(task := Header(s.op), pr := s.pr, cur := c), s.effect.Done?, Free);
    if s.effect.Done? {
      OnReadHeaderLeaves(v, s.effect.ec);
      ReadGrows(w.cur, a, s.effect.ec, site, down);
      LeavesEvolves(w, v, OnReadHeader(v, s.effect.ec), Dropped(c, s.effect.ec), site, down);
    } else {
      ReadGrows(w.cur, a, Ok, site, down);
    }
  }

  lemma ReadGrows(c: Connection, a: Arrival, ec: Code, site: Site, down: bool)
    ensures Grows(site, down, c, Dropped(Received(c, a), ec))
    ensures FactsOf(Dropped(c, ec)) == FactsOf(c)
    ensures a.FromStream() && !c.fault.Source? ==> FactsOf(Received(c, a)) == Hear(FactsOf(c), Heard(Read, a))
  {
  }

  /** A response begun is the handler's, or the 503. */
  lemma ResponseGrows(w: Worker, site: Site, down: bool, c: Connection)
    requires w.pr.IsComplete() && w.pr.Verdict().length <= |w.pr.input|
    requires c.handed == w.cur.handed && c.replies == w.cur.replies && c.finished == w.cur.finished
    requires |c.handed| == |c.replies|
    ensures Grows(site, down, c, BeginResponse(w, site, down).cur)
    ensures FactsOf(BeginResponse(w, site, down).cur) == FactsOf(w.cur)
  {
    hide Answers, Answer;
    AnswerAnswers(site, w.pr.Message());
  }

  lemma BodyEvolves(w: Worker, site: Site, down: bool)
    requires Inv(w, site, down) && w.slot.Ready? && w.task.Body?
    ensures Evolves(w, Handle(w, site, down), site, down)
  {
    hide R.BodyResume, OnReadBody, Left, Good, Answers, Answer, Leaves, Grows, BeginResponse;
    BodyResumes(w);
    var a, s := w.slot.done, R.BodyResume(w.task.bop, false, w.pr, w.slot.done);
    var c := if w.task.bop.pc.Posted? then w.cur else Received(w.cur, a);
    var v := Suspended(w.(task := Body(s.op), pr := s.pr, cur := c), s.effect.Done?, Free);
    if !s.effect.Done? {
      ReadGrows(w.cur, a, Ok, site, down);
    } else {
      OnReadBodyLeaves(v, s.effect.ec, site, down);
      ReadGrows(w.cur, a, s.effect.ec, site, down);
      ReadGrows(c, a, s.effect.ec, site, down);
      if s.effect.ec == Ok {
        ResponseGrows(v, site, down, w.cur);
      }
      LeavesEvolves(w, v, OnReadBody(v, s.effect.ec, site, down),
                    if s.effect.ec == Ok then BeginResponse(v, site, down).cur else Dropped(c, s.effect.ec),
                    site, down);
    }
  }

  lemma WriteGrows(c: Connection, a: Arrival, site: Site, down: bool)
    ensures var d := Delivered(c, a);
            && Grows(site, down, c, d) && Grows(site, down, c, SendShut(d)) && Grows(site, down, c, Finished(d, down))
            && FactsOf(SendShut(d)) == FactsOf(Finished(d, down)) == FactsOf(d)
    ensures !c.fault.Failed() && !a.ec.Source? ==> FactsOf(Delivered(c, a)) == Hear(FactsOf(c), Heard(Write, a))
    ensures !c.fault.Failed() && a.ec.Source? && a.data == [] ==> FactsOf(Delivered(c, a)) == FactsOf(c)
  {
  }

  lemma WritingEvolves(w: Worker, site: Site, down: bool)
    requires Inv(w, site, down) && w.slot.Ready? && w.task.Writing?
    ensures Evolves(w, Handle(w, site, down), site, down)
  {
    hide W.WriteResume, OnWrite, Responding, Good, Answers, Leaves, Grows, FactsOf;
    WriteResumes(w);
    var a, s := w.slot.done, W.WriteResume(w.task.wop, w.sr, w.slot.done);
    var c := Delivered(w.cur, a);
    var v := Suspended(w.(task := Writing(s.op), sr := s.sr, cur := c), s.effect.Done?, Free);
    WriteGrows(w.cur, a, site, down);
    if s.effect.Done? {
      var ec := s.effect.ec;
      OnWriteLeaves(v, ec, down);
      LeavesEvolves(w, v, OnWrite(v, ec, down),
                    if ec == Ok then Finished(c, down) else if ec == Eof then SendShut(c) else c, site, down);
    }
  }

  lemma HandleEvolves(w: Worker, site: Site, down: bool)
    requires Inv(w, site, down) && w.slot.Ready?
    ensures Evolves(w, Handle(w, site, down), site, down)
  {
    match w.task
    case Accepting => AcceptEvolves(w, site, down);
    case Header(_) => HeaderEvolves(w, site, down);
    case Body(_) => BodyEvolves(w, site, down);
    case Writing(_) => WritingEvolves(w, site, down);
    case Ended =>
  }

  // ---------- the history is what was heard ----------

  lemma FactsOfTwo(a: seq<Connection>, b: seq<Connection>)
    ensures FactsOfAll(a + b) == FactsOfAll(a) + FactsOfAll(b)
  {
  }

  lemma ReplayOne(log: seq<Heard>, h: Heard)
    ensures var r := Replay(log);
            Replay(log + [h]) ==
              if h.io == Accept then r + [Hear(BLANK, h)]
              else if r == [] then [] else r[..|r| - 1] + [Hear(r[|r| - 1], h)]
  {
    assert (log + [h])[..|log|] == log;
  }

  /** One more completion: the facts before it and after it. */
  lemma OneMoreHeard(past: seq<Facts>, f: Facts, log: seq<Heard>, h: Heard)
    requires h.io == Accept ==> f == BLANK && past == [BLANK] + Replay(log)
    requires h.io != Accept ==> f != BLANK && past + [f] == [BLANK] + Replay(log)
    ensures past + [Hear(f, h)] == [BLANK] + Replay(log + [h])
  {
    hide Replay, Hear;
    ReplayOne(log, h);
    var r := Replay(log);
    if h.io == Accept {
      assert ([BLANK] + r) + [Hear(f, h)] == [BLANK] + (r + [Hear(f, h)]);
    } else {
      LastOfBoth(past, f, BLANK, r);
      assert ([BLANK] + r[..|r| - 1]) + [Hear(f, h)] == [BLANK] + (r[..|r| - 1] + [Hear(f, h)]);
    }
  }

  lemma LastOfBoth(past: seq<Facts>, f: Facts, first: Facts, r: seq<Facts>)
    requires f != first && past + [f] == [first] + r
    ensures r != [] && f == r[|r| - 1] && past == [first] + r[..|r| - 1]
  {
    assert |past| == |r|;
    assert (past + [f])[|past|] == f;
    assert ([first] + r)[0] == first;
    if r != [] {
      assert ([first] + r)[|r|] == r[|r| - 1];
      assert past == (past + [f])[..|past|] == ([first] + r)[..|r|];
    }
  }

  lemma RecordedHandled(w: Worker, site: Site, down: bool)
    requires Inv(w, site, down) && w.slot.Ready? && Recorded(w)
    ensures Recorded(Handle(w, site, down))
  {
    hide Handle, Sound, Course, AllGood, Hear, Replay, Grows;
    var w' := Handle(w, site, down);
    var c := Touched(w, w');
    HandleEvolves(w, site, down);
    CurrentFacts(w, site, down);
    FactsOfTwo(w.past, [w.cur]);
    FactsOfTwo(w.past + [c], if w'.task.Accepting? then [NEW] else []);
    FactsOfTwo(w.past, [c]);
    var past, f := FactsOfAll(w.past), FactsOf(w.cur);
    assert FactsOfAll([w.cur]) == [f] && FactsOfAll([c]) == [FactsOf(c)];
    assert FactsOfAll(if w'.task.Accepting? then [NEW] else []) == if w'.task.Accepting? then [BLANK] else [];
    if !Posted(w.task) {
      var h := Heard(IoOf(w.task), w.slot.done);
      assert w.log == Handled(w) + [h];
      if w.task.Accepting? {
        assert past == ([BLANK] + Replay(Handled(w)) + [BLANK])[..|past|] == [BLANK] + Replay(Handled(w));
      }
      OneMoreHeard(past, f, Handled(w), h);
    }
  }

  /** A worker that is past its accept has one that succeeded. */
  lemma CurrentFacts(w: Worker, site: Site, down: bool)
    requires Inv(w, site, down) && (w.slot.Ready? || !w.task.Ended?)
    ensures !w.task.Ended?
    ensures if w.task.Accepting? then w.cur == NEW else w.cur.accepted
    ensures !w.task.Accepting? <==> IoOf(w.task) != Accept
  {
  }

  lemma RecordedCompletes(w: Worker, a: Arrival)
    requires Sound(w) && w.slot.InFlight? && Recorded(w)
    ensures Recorded(CompleteIo(w, a))
  {
    hide FactsOfAll, Replay;
    var w' := CompleteIo(w, a);
    assert All(w') == All(w) && !Posted(w.task);
    assert Handled(w') == w.log;
  }

  /** The latest accept that was heard of is the one that opened the last connection. */
  lemma {:induction false} LastAccept(log: seq<Heard>) returns (j: nat)
    requires Replay(log) != [] && Replay(log)[|Replay(log)| - 1].accepted
    ensures j < |log| && log[j].io == Accept && log[j].a.ec == Ok
    ensures forall k :: j < k < |log| ==> log[k].io != Accept
    decreases |log|
  {
    var n := |log| - 1;
    if log[n].io == Accept {
      return n;
    }
    j := LastAccept(log[..n]);
  }

  lemma LatestIsNoAccept(w: Worker, site: Site, down: bool)
    requires Inv(w, site, down) && Recorded(w) && !w.task.Accepting? && !w.task.Ended?
    ensures Unhandled(w) ==> w.log[|w.log| - 1].io != Accept
  {
    hide Replay, AllGood, Course;
  }

  /** A worker reads, or writes, only after an accept that succeeded, with no other since. */
  lemma AcceptedBefore(w: Worker, site: Site, down: bool) returns (j: nat)
    requires Inv(w, site, down) && Recorded(w) && !w.task.Accepting? && !w.task.Ended?
    ensures j < |w.log| && w.log[j].io == Accept && w.log[j].a.ec == Ok
    ensures forall k :: j < k < |w.log| ==> w.log[k].io != Accept
  {
    hide Inv, Replay;
    CurrentFacts(w, site, down);
    var facts := [BLANK] + Replay(Handled(w));
    assert FactsOfAll(All(w))[|w.past|] == FactsOf(w.cur);
    assert facts[|facts| - 1].accepted;
    LatestIsNoAccept(w, site, down);
    j := LastAccept(Handled(w));
  }
}
