/** The worker of the example server as a state machine: each handler the event loop runs is
    one step, and composed operations stand wherever their coroutines are suspended. */
module WorkerModel {
  import opened Codes
  import opened Parsing
  import R = ReadSteps
  import ReadLoops
  import Fragmentation
  import W = WriteSteps
  import opened Requests
  import opened Connections

  /** Which handler the worker's one outstanding operation will call. */
  datatype Task =
    | Accepting
    | Header(hop: R.ReadOp)
    | Body(bop: R.ReadOp)
    | Writing(wop: W.WriteOp)
    | Ended

  datatype Io = Accept | Read | Write

  /** The outstanding operation: in flight, where it can be cancelled, or completed and
      queued, where it cannot. */
  datatype Slot = Free | InFlight(io: Io) | Ready(done: Arrival)

  /** A completion of an operation on acceptor or socket, as the environment or a cancellation gave it. */
  datatype Heard = Heard(io: Io, a: Arrival)

  datatype Socket = Closed | Open | HalfClosed

  datatype Worker = Worker(
    task: Task,
    slot: Slot,
    sock: Socket,
    pr: ParserState,
    sr: W.SerializerState,
    res: Response,
    issued: nat,                 // operations begun on acceptor, socket or executor so far
    handled: nat,                // of those, the ones whose completion has been handled
    cur: Connection,
    past: seq<Connection>,
    log: seq<Heard>)             // all that was heard from acceptor and socket, handled or not

  // ---------- what the environment may do ----------

  /** What a read may bring. After the end of the stream it brings no more bytes. */
  predicate FromOpenStream(c: Connection, a: Arrival) {
    a.FromStream() && (c.eof ==> a.data == [])
  }

  /** What the outstanding operation may complete with. */
  predicate Possible(w: Worker, a: Arrival) {
    match w.task
    case Accepting => (a.ec.Ok? || a.ec.Aborted? || a.ec.Io?) && a.data == []
    case Header(_) => FromOpenStream(w.cur, a)
    case Body(op) => if op.pc == R.Posted then a == Plain(Ok) else FromOpenStream(w.cur, a)
    case Writing(op) => W.Expects(op, w.sr, a)
    case Ended => false
  }

  /** An operation in flight completes. Only a cancellation completes one as aborted. */
  predicate CanComplete(w: Worker, a: Arrival) {
    w.slot.InFlight? && Possible(w, a) && a.ec != Aborted
  }

  function CompleteIo(w: Worker, a: Arrival): Worker
    requires w.slot.InFlight?
  {
    w.(slot := Ready(a), log := w.log + [Heard(w.slot.io, a)])
  }

  /** Cancelling the acceptor aborts an accept in flight, and nothing else. */
  function CancelAccept(w: Worker): Worker {
    if w.slot == InFlight(Accept) then CompleteIo(w, Plain(Aborted)) else w
  }

  /** Cancelling the worker's socket aborts its read or write in flight, and nothing else. */
  function CancelSocket(w: Worker): Worker {
    if w.slot == InFlight(Read) || w.slot == InFlight(Write) then CompleteIo(w, Plain(Aborted)) else w
  }

  // ---------- the handlers ----------

  /** How a suspended read operation is outstanding. */
  function ReadSlot(effect: R.Effect): Slot
    requires !effect.Done?
  {
    if effect.Post? then Ready(Plain(effect.ec)) else InFlight(Read)
  }

  function WriteSlot(effect: W.Effect): Slot
    requires !effect.Done?
  {
    if effect.Post? then Ready(Plain(effect.ec)) else InFlight(Write)
  }

  /** Close the socket, which must have nothing pending, drop the message and accept anew. */
  function DoAccept(w: Worker): Worker
    requires w.slot.Free?
  {
    w.(sock := Closed, pr := w.pr.Reset(), task := Accepting, slot := InFlight(Accept),
       issued := w.issued + 1, past := w.past + [w.cur], cur := NEW)
  }

  function Fail(w: Worker, ec: Code): Worker {
    if ec == Eof then w.(sock := HalfClosed, cur := SendShut(w.cur)) else w
  }

  /** Every handler treats an error alike: an abort ends the worker silently, anything else
      drops the connection. */
  function OnError(w: Worker, ec: Code): Worker
    requires w.slot.Free?
  {
    if ec == Aborted then Fail(w, ec).(task := Ended) else DoAccept(Fail(w, ec))
  }

  /** An error of a read, which may say that what followed is no message. */
  function OnReadError(w: Worker, ec: Code): Worker
    requires w.slot.Free?
  {
    OnError(w.(cur := Dropped(w.cur, ec)), ec)
  }

  function OnAccept(w: Worker, ec: Code): Worker
    requires w.slot.Free? && Startable(w.pr)
  {
    if ec.Failed() then OnError(w, ec) else DoRead(w.(sock := Open, cur := Opened(w.cur)))
  }

  /** The parser was just reset, or holds a complete message. */
  ghost predicate Startable(pr: ParserState) {
    pr.Valid() && pr.CanStart()
  }

  lemma StartIsLegal(pr: ParserState)
    requires Startable(pr)
    ensures pr.unstarted || (pr.IsComplete() && pr.Verdict().length <= |pr.input|)
    ensures pr.Start().Valid() && !pr.Start().GotHeader() && !pr.Start().eof
  {
  }

  function DoRead(w: Worker): Worker
    requires w.slot.Free? && Startable(w.pr)
  {
    StartIsLegal(w.pr);
    var s := R.HeaderResume(R.START, w.pr.Start(), Plain(Ok));
    w.(pr := s.pr, task := Header(s.op), slot := ReadSlot(s.effect), issued := w.issued + 1)
  }

  function OnReadHeader(w: Worker, ec: Code): Worker
    requires w.slot.Free? && (ec == Ok ==> w.pr.GotHeader())
  {
    if ec.Failed() then OnReadError(w, ec) else StartBody(w)
  }

  function StartBody(w: Worker): Worker {
    var s := R.BodyResume(R.START, false, w.pr, Plain(Ok));
    w.(pr := s.pr, task := Body(s.op), slot := ReadSlot(s.effect), issued := w.issued + 1)
  }

  function OnReadBody(w: Worker, ec: Code, site: Site, down: bool): Worker
    requires w.slot.Free? && (ec == Ok ==> w.pr.IsComplete() && w.pr.Verdict().length <= |w.pr.input|)
  {
    if ec.Failed() then OnReadError(w, ec) else StartWrite(BeginResponse(w, site, down))
  }

  function BeginResponse(w: Worker, site: Site, down: bool): Worker
    requires w.pr.IsComplete() && w.pr.Verdict().length <= |w.pr.input|
  {
    var request := w.pr.Message();
    var res := if down then UNAVAILABLE else Answer(site, request);
    w.(res := res, sr := w.sr.Start(site.wire(res)), cur := Begun(w.cur, request, res, down))
  }

  function StartWrite(w: Worker): Worker
    requires w.sr.Valid()
  {
    var s := W.WriteAgain(0, w.sr);
    w.(sr := s.sr, task := Writing(s.op), slot := WriteSlot(s.effect), issued := w.issued + 1)
  }

  function OnWrite(w: Worker, ec: Code, down: bool): Worker
    requires w.slot.Free? && Startable(w.pr)
  {
    if ec.Failed() then OnError(w, ec)
    else
      var w' := w.(cur := Finished(w.cur, down));
      if w.res.keepAlive then DoRead(w') else DoAccept(w')
  }

  /** After a composed operation was resumed: outstanding again, or over. */
  function Suspended(w: Worker, done: bool, slot: Slot): Worker {
    w.(slot := slot, handled := w.handled + 1, issued := w.issued + if done then 0 else 1)
  }

  function HandleHeader(w: Worker): Worker
    requires w.slot.Ready? && w.task.Header? && Sound(w)
  {
    HeaderResumes(w);
    var s := R.HeaderResume(w.task.hop, w.pr, w.slot.done);
    var w' := w.(task := Header(s.op), pr := s.pr, cur := Received(w.cur, w.slot.done));
    if s.effect.Done? then OnReadHeader(Suspended(w', true, Free), s.effect.ec)
    else Suspended(w', false, ReadSlot(s.effect))
  }

  function HandleBody(w: Worker, site: Site, down: bool): Worker
    requires w.slot.Ready? && w.task.Body? && Sound(w)
  {
    BodyResumes(w);
    var op := w.task.bop;
    var s := R.BodyResume(op, false, w.pr, w.slot.done);
    var w' := w.(task := Body(s.op), pr := s.pr,
                 cur := if op.pc.Posted? then w.cur else Received(w.cur, w.slot.done));
    if s.effect.Done? then OnReadBody(Suspended(w', true, Free), s.effect.ec, site, down)
    else Suspended(w', false, ReadSlot(s.effect))
  }

  function HandleWriting(w: Worker, down: bool): Worker
    requires w.slot.Ready? && w.task.Writing? && Sound(w)
  {
    var s := W.WriteResume(w.task.wop, w.sr, w.slot.done);
    var w' := w.(task := Writing(s.op), sr := s.sr, cur := Delivered(w.cur, w.slot.done));
    if s.effect.Done? then OnWrite(Suspended(w', true, Free), s.effect.ec, down)
    else Suspended(w', false, WriteSlot(s.effect))
  }

  /** The event loop runs the handler of a queued completion: resume the composed operation,
      and when that completes, the worker's own handler. */
  function Handle(w: Worker, site: Site, down: bool): Worker
    requires w.slot.Ready? && Sound(w)
  {
    match w.task
    case Accepting => OnAccept(Suspended(w, true, Free), w.slot.done.ec)
    case Header(_) => HandleHeader(w)
    case Body(_) => HandleBody(w, site, down)
    case Writing(_) => HandleWriting(w, down)
  }

  // ---------- the shape every reachable worker has ----------

  /** A live worker has exactly one outstanding operation and an ended one none; the socket is
      open exactly between accept and close; the parser is where its task needs it. */
  ghost predicate Sound(w: Worker) {
    && w.pr.Valid() && w.sr.Valid()
    && (w.slot.Free? <==> w.task.Ended?)
    && w.issued - w.handled == (if w.task.Ended? then 0 else 1)
    && (w.slot.Ready? ==> Possible(w, w.slot.done))
    && (w.pr.eof ==> w.cur.eof)
    && match w.task
       case Accepting => w.sock == Closed && w.pr.unstarted && w.cur == NEW && OutstandingIs(w.slot, Accept)
       case Header(op) =>
         w.sock == Open && op.pc == R.Reading && !w.pr.eof && !w.pr.GotHeader() && OutstandingIs(w.slot, Read)
       case Body(op) =>
         w.sock == Open && w.pr.GotHeader()
         && (if w.pr.IsComplete() then op.pc == R.Posted && w.slot == Ready(Plain(Ok))
             else op.pc == R.Reading && !w.pr.eof && OutstandingIs(w.slot, Read))
       case Writing(op) =>
         w.sock == Open && w.pr.IsComplete()
         && (match op.inner
             case Posted => w.slot.Ready?
             case Sending(run) => run != [] && run <= w.sr.Remaining() && OutstandingIs(w.slot, Write)
             case _ => false)
       case Ended => true
  }

  predicate OutstandingIs(slot: Slot, io: Io) {
    slot.Ready? || slot == InFlight(io)
  }

  /** A resumed header read leaves the parser as its continuation needs it. */
  lemma HeaderResumes(w: Worker)
    requires Sound(w) && w.slot.Ready? && w.task.Header?
    ensures var s := R.HeaderResume(w.task.hop, w.pr, w.slot.done);
            && s.pr.Valid() && (s.pr.eof ==> w.slot.done.ec == Eof)
            && s.pr.g == w.pr.g && s.pr.input == w.pr.input + w.slot.done.data
            && (R.Broken(w.slot.done) ==> s.effect.Done? && s.effect.ec == w.slot.done.ec)
            && (s.effect.Done? && s.effect.ec.Failed() && !s.effect.ec.Syntax? ==> R.Broken(w.slot.done))
            && (s.effect.Done? && s.effect.ec.Syntax? ==> s.pr.g.verdict(s.pr.input, s.pr.eof).Malformed?)
            && (s.effect.Done? && s.effect.ec == Ok ==> s.pr.GotHeader() && (s.pr.eof ==> s.pr.IsComplete()))
            && (!s.effect.Done? ==> s.op.pc == R.Reading && s.effect.ReadSome? && !s.pr.eof && !s.pr.GotHeader())
  {
    ReadLoops.TurnIsClean(R.Until.Header, w.pr, w.slot.done);
  }

  /** A resumed body read that succeeds holds a complete message. */
  lemma BodyResumes(w: Worker)
    requires Sound(w) && w.slot.Ready? && w.task.Body?
    ensures var s := R.BodyResume(w.task.bop, false, w.pr, w.slot.done);
            && s.pr.Valid() && s.pr.g == w.pr.g && s.pr.input == w.pr.input + w.slot.done.data
            && (R.Broken(w.slot.done) ==> s.effect.Done? && s.effect.ec == w.slot.done.ec)
            && (s.effect.Done? && s.effect.ec.Failed() && !s.effect.ec.Syntax? ==> R.Broken(w.slot.done))
            && (s.effect.Done? && s.effect.ec.Syntax? ==> s.pr.g.verdict(s.pr.input, s.pr.eof).Malformed?)
            && (w.task.bop.pc == R.Reading && s.pr.eof ==> w.slot.done.ec == Eof)
            && (w.task.bop.pc == R.Posted ==> s.pr.eof == w.pr.eof && s.effect.Done? && s.effect.ec == Ok)
            && (s.effect.Done? && s.effect.ec == Ok ==> s.pr.IsComplete() && s.pr.Verdict().length <= |s.pr.input|)
            && (!s.effect.Done? ==> s.op.pc == R.Reading && s.effect.ReadSome?
                                    && !s.pr.eof && s.pr.GotHeader() && !s.pr.IsComplete())
  {
    if w.task.bop.pc == R.Posted {
      CompleteStays(w.pr);
      assert w.pr.input + [] == w.pr.input;
    } else {
      ReadLoops.TurnIsClean(R.Until.Message, w.pr, w.slot.done);
      Fragmentation.ProgressTurn(w.pr, w.slot.done);
    }
    var s := R.BodyResume(w.task.bop, false, w.pr, w.slot.done);
    if s.effect.Done? && s.effect.ec == Ok {
      CompleteStays(s.pr);
    }
  }

  /** A resumed write completes with the code it was resumed with, or waits again. */
  lemma WriteResumes(w: Worker)
    requires Sound(w) && w.slot.Ready? && w.task.Writing?
    ensures var s := W.WriteResume(w.task.wop, w.sr, w.slot.done);
            && s.sr.Valid() && s.sr.bytes == w.sr.bytes && s.sr.cursor == w.sr.cursor + |w.slot.done.data|
            && (if s.effect.Done? then s.effect.ec == w.slot.done.ec && (s.effect.ec == Ok ==> s.sr.IsDone())
                else w.slot.done.ec == Ok && Suspends(s))
  {
  }

  /** The operation waits for the post of a prepare error, or for a write of what was offered. */
  predicate Suspends(s: W.Step) {
    match s.op.inner
    case Posted => s.effect.Post? && s.effect.ec.Source?
    case Sending(run) => s.effect.WriteSome? && s.sr.Valid() && run != [] && run <= s.sr.Remaining()
    case _ => false
  }
}
