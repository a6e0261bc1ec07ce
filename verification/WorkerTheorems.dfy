/** What every worker keeps, whatever completes and whenever. */
module WorkerTheorems {
  import opened Codes
  import opened Parsing
  import R = ReadSteps
  import W = WriteSteps
  import opened Requests
  import opened Connections
  import opened WorkerModel

  /** Where the worker's current connection stands, task by task. */
  ghost predicate Course(w: Worker, site: Site, down: bool) {
    match w.task
    case Accepting => true
    case Header(_) => !w.cur.fault.Failed() && Between(w.pr.g, site, w.cur, down, w.pr.input)
    case Body(_) => !w.cur.fault.Failed() && Between(w.pr.g, site, w.cur, down, w.pr.input)
    case Writing(_) =>
      && !w.cur.fault.Failed()
      && w.pr.Verdict().Complete? && w.pr.Verdict().length <= |w.pr.input|
      && w.sr.Valid() && w.sr.bytes == site.wire(w.res)
      && Responding(w.pr.g, site, w.cur, down, w.pr.input[w.pr.Verdict().length..], w.res, w.sr.bytes[..w.sr.cursor])
    case Ended => Concluded(w.cur)
  }

  /** Every connection is good, and those that are past were given up for a reason. */
  ghost predicate AllGood(w: Worker, site: Site) {
    && Good(w.pr.g, site, w.cur)
    && forall i :: 0 <= i < |w.past| ==> Good(w.pr.g, site, w.past[i]) && LetGo(w.past[i])
  }

  /** There was a reason, and the end of the stream met by a write was answered in kind. */
  ghost predicate LetGo(c: Connection) {
    Concluded(c) && (c.halfClosed <==> c.fault == Eof)
  }

  ghost predicate Inv(w: Worker, site: Site, down: bool) {
    Sound(w) && Course(w, site, down) && AllGood(w, site)
  }

  // ---------- the handlers, one by one ----------

  /** A worker whose handler is running: nothing is outstanding, and its history is in order. */
  ghost predicate Running(w: Worker, site: Site) {
    w.slot.Free? && w.issued == w.handled && w.pr.g.Lawful() && w.sr.Valid() && AllGood(w, site)
  }

  lemma DoAcceptKeeps(w: Worker, site: Site, down: bool)
    requires Running(w, site) && LetGo(w.cur)
    ensures Inv(DoAccept(w), site, down)
  {
  }

  lemma OnErrorKeeps(w: Worker, ec: Code, site: Site, down: bool)
    requires Running(w, site) && Concluded(w.cur) && !w.cur.halfClosed && (ec == Eof <==> w.cur.fault == Eof)
    requires w.pr.Valid() && (w.pr.eof ==> w.cur.eof)
    ensures Inv(OnError(w, ec), site, down)
  {
    if ec != Aborted {
      if ec == Eof {
        SendShutIsGood(w.pr.g, site, w.cur);
      }
      DoAcceptKeeps(Fail(w, ec), site, down);
    }
  }

  /** A read fails because of what was read, or because the stream does. */
  ghost predicate ReasonFor(w: Worker, ec: Code) {
    if ec.Syntax? then w.pr.g.verdict(w.pr.input, w.pr.eof).Malformed? && !w.cur.fault.Failed()
    else w.cur.fault == ec
  }

  lemma OnReadErrorKeeps(w: Worker, ec: Code, site: Site, down: bool)
    requires Running(w, site) && w.pr.Valid() && (w.pr.eof ==> w.cur.eof)
    requires Between(w.pr.g, site, w.cur, down, w.pr.input) && ec.Failed() && ReasonFor(w, ec)
    ensures Inv(OnReadError(w, ec), site, down)
  {
    if ec.Syntax? {
      RejectedIsGood(w.pr.g, site, w.cur, down, w.pr.input, w.pr.eof);
    }
    OnErrorKeeps(w.(cur := Dropped(w.cur, ec)), ec, site, down);
  }

  lemma DoReadKeeps(w: Worker, site: Site, down: bool)
    requires Running(w, site) && Startable(w.pr) && w.sock == Open && !w.cur.fault.Failed()
    requires Between(w.pr.g, site, w.cur, down, if w.pr.unstarted then [] else w.pr.input[w.pr.Verdict().length..])
    ensures Inv(DoRead(w), site, down)
  {
  }

  lemma OnAcceptKeeps(w: Worker, ec: Code, site: Site, down: bool)
    requires Running(w, site) && w.pr.Valid() && w.pr.unstarted && w.cur == NEW && ec != Eof
    ensures Inv(OnAccept(w, ec), site, down)
  {
    if ec.Failed() {
      OnErrorKeeps(w, ec, site, down);
    } else {
      NewIsBetween(w.pr.g, site, down);
      BetweenIsGood(w.pr.g, site, Opened(NEW), down, []);
      DoReadKeeps(w.(sock := Open, cur := Opened(NEW)), site, down);
    }
  }

  lemma OnReadHeaderKeeps(w: Worker, ec: Code, site: Site, down: bool)
    requires Running(w, site) && w.pr.Valid() && w.sock == Open && (w.pr.eof ==> w.cur.eof)
    requires Between(w.pr.g, site, w.cur, down, w.pr.input)
    requires ReasonFor(w, ec) && (ec == Ok ==> w.pr.GotHeader() && (w.pr.eof ==> w.pr.IsComplete()))
    ensures Inv(OnReadHeader(w, ec), site, down)
  {
    if ec.Failed() {
      OnReadErrorKeeps(w, ec, site, down);
    }
  }

  lemma StartWriteKeeps(w: Worker, site: Site, down: bool)
    requires Running(w, site) && w.pr.Valid() && w.pr.GotHeader() && w.sock == Open && (w.pr.eof ==> w.cur.eof)
    requires w.pr.IsComplete() && w.pr.Verdict().length <= |w.pr.input|
    requires w.sr.bytes == site.wire(w.res) && w.sr.cursor == 0 && !w.cur.fault.Failed()
    requires Responding(w.pr.g, site, w.cur, down, w.pr.input[w.pr.Verdict().length..], w.res, [])
    ensures Inv(StartWrite(w), site, down)
  {
    hide Responding, Good, Concluded;
    assert w.sr.bytes[..w.sr.cursor] == [];
  }

  lemma OnReadBodyKeeps(w: Worker, ec: Code, site: Site, down: bool)
    requires Running(w, site) && w.pr.Valid() && w.sock == Open && (w.pr.eof ==> w.cur.eof)
    requires Between(w.pr.g, site, w.cur, down, w.pr.input)
    requires ReasonFor(w, ec) && (ec == Ok ==> w.pr.IsComplete() && w.pr.Verdict().length <= |w.pr.input|)
    ensures Inv(OnReadBody(w, ec, site, down), site, down)
  {
    if ec.Failed() {
      OnReadErrorKeeps(w, ec, site, down);
    } else {
      var n := w.pr.Verdict().length;
      CompleteStays(w.pr);
      BegunResponds(w.pr.g, site, w.cur, down, w.pr.input, w.pr.eof, n);
      hide Between, Responding, Good, Answer, OnReadError;
      var w' := BeginResponse(w, site, down);
      RespondingIsGood(w.pr.g, site, w'.cur, down, w.pr.input[n..], w'.res, []);
      StartWriteKeeps(w', site, down);
    }
  }

  lemma OnWriteKeeps(w: Worker, ec: Code, site: Site, down: bool)
    requires Running(w, site) && Startable(w.pr) && !w.pr.unstarted && w.sock == Open && (w.pr.eof ==> w.cur.eof)
    requires !w.cur.halfClosed
    requires w.pr.Verdict().Complete? && w.pr.Verdict().length <= |w.pr.input| && w.cur.fault == ec
    requires ec == Ok ==>
      Responding(w.pr.g, site, w.cur, down, w.pr.input[w.pr.Verdict().length..], w.res, site.wire(w.res))
    ensures Inv(OnWrite(w, ec, down), site, down)
  {
    if ec.Failed() {
      OnErrorKeeps(w, ec, site, down);
    } else {
      var w' := w.(cur := Finished(w.cur, down));
      FinishedIsGood(w.pr.g, site, w.cur, down, w.pr.input[w.pr.Verdict().length..], w.res);
      if w.res.keepAlive {
        DoReadKeeps(w', site, down);
      } else {
        DoAcceptKeeps(w', site, down);
      }
    }
  }

  // ---------- one event ----------

  /** What a read brings belongs to the current connection and to the parser alike. */
  lemma ReadArrives(w: Worker, site: Site, down: bool)
    requires Inv(w, site, down) && w.slot.Ready? && FromOpenStream(w.cur, w.slot.done)
    requires w.task.Header? || w.task.Body?
    ensures Between(w.pr.g, site, Received(w.cur, w.slot.done), down, w.pr.input + w.slot.done.data)
    ensures Good(w.pr.g, site, Received(w.cur, w.slot.done))
  {
    ReceivedKeeps(w.pr.g, site, w.cur, down, w.pr.input, w.slot.done);
    BetweenIsGood(w.pr.g, site, Received(w.cur, w.slot.done), down, w.pr.input + w.slot.done.data);
  }

  /** A read that fails gives the reason, and one that does not records none. */
  lemma ReadReason(w: Worker, site: Site, down: bool, pr: ParserState, effect: R.Effect)
    requires Inv(w, site, down) && (w.task.Header? || w.task.Body?) && w.slot.Ready?
    requires R.Broken(w.slot.done) ==> effect.Done? && effect.ec == w.slot.done.ec && !effect.ec.Syntax?
    requires effect.Done? && effect.ec.Failed() && !effect.ec.Syntax? ==> R.Broken(w.slot.done)
    requires effect.Done? && effect.ec.Syntax? ==> !R.Broken(w.slot.done) && pr.g.verdict(pr.input, pr.eof).Malformed?
    ensures var cur := Received(w.cur, w.slot.done);
            && (effect.Done? ==> ReasonFor(w.(pr := pr, cur := cur), effect.ec))
            && (!effect.Done? ==> !cur.fault.Failed())
  {
  }

  lemma HandleHeaderKeeps(w: Worker, site: Site, down: bool)
    requires Inv(w, site, down) && w.slot.Ready? && w.task.Header?
    ensures Inv(HandleHeader(w), site, down)
  {
    var a, s := w.slot.done, R.HeaderResume(w.task.hop, w.pr, w.slot.done);
    var w' := w.(task := Header(s.op), pr := s.pr, cur := Received(w.cur, a));
    HeaderResumes(w);
    ReadArrives(w, site, down);
    ReadReason(w, site, down, s.pr, s.effect);
    hide OnReadHeader, R.HeaderResume, Between, Good, Received, ReasonFor, LetGo;
    if s.effect.Done? {
      OnReadHeaderKeeps(Suspended(w', true, Free), s.effect.ec, site, down);
      assert HandleHeader(w) == OnReadHeader(Suspended(w', true, Free), s.effect.ec);
    }
  }

  lemma HandlePostedBodyKeeps(w: Worker, site: Site, down: bool)
    requires Inv(w, site, down) && w.slot.Ready? && w.task.Body? && w.task.bop.pc.Posted?
    ensures Inv(HandleBody(w, site, down), site, down)
  {
    var s := R.BodyResume(w.task.bop, false, w.pr, w.slot.done);
    var w' := w.(task := Body(s.op), pr := s.pr);
    BodyResumes(w);
    assert s.pr.input == w.pr.input;
    hide OnReadBody, R.BodyResume, Between, Good, Received, LetGo;
    OnReadBodyKeeps(Suspended(w', true, Free), Ok, site, down);
    assert HandleBody(w, site, down) == OnReadBody(Suspended(w', true, Free), Ok, site, down);
  }

  lemma HandleReadBodyKeeps(w: Worker, site: Site, down: bool)
    requires Inv(w, site, down) && w.slot.Ready? && w.task.Body? && !w.task.bop.pc.Posted?
    ensures Inv(HandleBody(w, site, down), site, down)
  {
    var a, s := w.slot.done, R.BodyResume(w.task.bop, false, w.pr, w.slot.done);
    var w' := w.(task := Body(s.op), pr := s.pr, cur := Received(w.cur, a));
    BodyResumes(w);
    ReadArrives(w, site, down);
    ReadReason(w, site, down, s.pr, s.effect);
    hide OnReadBody, R.BodyResume, Between, Good, Received, ReasonFor, LetGo;
    if s.effect.Done? {
      OnReadBodyKeeps(Suspended(w', true, Free), s.effect.ec, site, down);
      assert HandleBody(w, site, down) == OnReadBody(Suspended(w', true, Free), s.effect.ec, site, down);
    }
  }

  lemma HandleBodyKeeps(w: Worker, site: Site, down: bool)
    requires Inv(w, site, down) && w.slot.Ready? && w.task.Body?
    ensures Inv(HandleBody(w, site, down), site, down)
  {
    if w.task.bop.pc.Posted? {
      HandlePostedBodyKeeps(w, site, down);
    } else {
      HandleReadBodyKeeps(w, site, down);
    }
  }

  /** What the socket accepts is the next part of the response under way. */
  lemma WriteArrives(w: Worker, site: Site, down: bool)
    requires Inv(w, site, down) && w.slot.Ready? && w.task.Writing?
    ensures var s, c := W.WriteResume(w.task.wop, w.sr, w.slot.done), Delivered(w.cur, w.slot.done);
            && s.sr.Valid() && s.sr.bytes == w.sr.bytes
            && Responding(w.pr.g, site, c, down, w.pr.input[w.pr.Verdict().length..], w.res, s.sr.bytes[..s.sr.cursor])
            && Good(w.pr.g, site, c)
  {
    var s, a := W.WriteResume(w.task.wop, w.sr, w.slot.done), w.slot.done;
    var left, written := w.pr.input[w.pr.Verdict().length..], w.sr.bytes[..w.sr.cursor];
    assert s.sr.bytes[..s.sr.cursor] == written + a.data;
    DeliveredKeeps(w.pr.g, site, w.cur, down, left, w.res, written, a);
    RespondingIsGood(w.pr.g, site, Delivered(w.cur, a), down, left, w.res, written + a.data);
  }

  lemma HandleWritingKeeps(w: Worker, site: Site, down: bool)
    requires Inv(w, site, down) && w.slot.Ready? && w.task.Writing?
    ensures Inv(HandleWriting(w, down), site, down)
  {
    hide OnWrite, W.WriteResume, Responding, Good, LetGo;
    WriteResumes(w);
    WriteArrives(w, site, down);
    var a, s := w.slot.done, W.WriteResume(w.task.wop, w.sr, w.slot.done);
    var w' := w.(task := Writing(s.op), sr := s.sr, cur := Delivered(w.cur, a));
    if s.effect.Done? {
      assert s.effect.ec == Ok ==> s.sr.bytes[..s.sr.cursor] == s.sr.bytes;
      OnWriteKeeps(Suspended(w', true, Free), s.effect.ec, site, down);
      assert HandleWriting(w, down) == OnWrite(Suspended(w', true, Free), s.effect.ec, down);
    }
  }

  /** Running the handler of any queued completion keeps the invariant. */
  lemma HandleKeeps(w: Worker, site: Site, down: bool)
    requires Inv(w, site, down) && w.slot.Ready?
    ensures Inv(Handle(w, site, down), site, down)
  {
    match w.task
    case Accepting => OnAcceptKeeps(Suspended(w, true, Free), w.slot.done.ec, site, down);
    case Header(_) => HandleHeaderKeeps(w, site, down);
    case Body(_) => HandleBodyKeeps(w, site, down);
    case Writing(_) => HandleWritingKeeps(w, site, down);
    case Ended =>
  }

  /** So does a completion of the operation in flight, and so do both cancellations. */
  lemma CompletionKeeps(w: Worker, a: Arrival, site: Site, down: bool)
    requires Inv(w, site, down)
    ensures CanComplete(w, a) ==> Inv(CompleteIo(w, a), site, down)
    ensures Inv(CancelAccept(w), site, down) && Inv(CancelSocket(w), site, down)
  {
    hide Between, Responding, Good, Concluded;
  }

  /** A worker before it runs. */
  function Created(g: Grammar, oracle: nat -> W.Answer): Worker {
    Worker(Ended, Free, Closed,
           ParserState(g, true, [], false, [], false, 0, []), W.SerializerState([], 0, oracle, []),
           ErrorResponse(200, false), 0, 0, NEW, [], [])
  }

  // ---------- aborts ----------

  /** A worker that has ended, or whose queued completion is an abort. */
  predicate Doomed(w: Worker) {
    w.task.Ended? || (w.slot.Ready? && w.slot.done.ec == Aborted)
  }

  lemma AbortEndsSilently(w: Worker, site: Site, down: bool)
    requires Sound(w) && w.slot.Ready? && w.slot.done.ec == Aborted
    ensures var w' := Handle(w, site, down);
            && w'.issued == w.issued && w'.task.Ended? && w'.slot.Free?
            && w'.sock == w.sock && w'.past == w.past && w'.cur.handed == w.cur.handed
            && w'.cur.replies == w.cur.replies && w'.cur.finished == w.cur.finished
  {
  }

  lemma OthersIssue(w: Worker, site: Site, down: bool)
    requires Sound(w) && w.slot.Ready? && w.slot.done.ec != Aborted
    ensures Handle(w, site, down).issued == w.issued + 1 && !Handle(w, site, down).task.Ended?
  {
    match w.task
    case Accepting =>
    case Header(_) => HeaderResumes(w);
    case Body(_) => BodyResumes(w);
    case Writing(_) => WriteResumes(w);
    hide R.HeaderResume, R.BodyResume, W.WriteResume;
  }

  /** A handler begins exactly one further operation, unless its completion is an abort. Then,
      whatever the worker was doing, it ends silently: nothing is begun, the socket is left
      alone, and no request or response begins. */
  lemma IssuesUnlessAborted(w: Worker, site: Site, down: bool)
    requires Sound(w) && w.slot.Ready?
    ensures var w', aborted := Handle(w, site, down), w.slot.done.ec == Aborted;
            && w'.issued == w.issued + (if aborted then 0 else 1)
            && (w'.task.Ended? <==> aborted)
            && (aborted ==>
                  && w'.slot.Free? && w'.sock == w.sock && w'.past == w.past && w'.cur.handed == w.cur.handed
                  && w'.cur.replies == w.cur.replies && w'.cur.finished == w.cur.finished)
  {
    if w.slot.done.ec == Aborted {
      AbortEndsSilently(w, site, down);
    } else {
      OthersIssue(w, site, down);
    }
  }

  /** After both cancellations a worker is doomed unless a completion that is not an abort was
      queued already; a doomed worker has nothing in flight. */
  lemma CancelledUnlessQueued(w: Worker)
    requires Sound(w)
    ensures var w' := CancelSocket(CancelAccept(w));
            && w'.issued == w.issued && !w'.slot.InFlight?
            && (Doomed(w') <==> !(w.slot.Ready? && w.slot.done.ec != Aborted))
    ensures Doomed(w) ==> !w.slot.InFlight?
    ensures CancelAccept(w).slot == if w.task.Accepting? && w.slot.InFlight? then Ready(Plain(Aborted)) else w.slot
    ensures CancelSocket(w).slot == if !w.task.Accepting? && w.slot.InFlight? then Ready(Plain(Aborted)) else w.slot
  {
  }
}
