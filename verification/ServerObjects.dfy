/** The server, acceptor and worker objects, whose methods are the handlers. */
module ServerObjects {
  import opened Codes
  import opened Parsing
  import opened ReadOps
  import opened WriteOps
  import R = ReadSteps
  import W = WriteSteps
  import opened Requests
  import opened Connections
  import WM = WorkerModel
  import SM = ServerModel
  import WorkerTheorems

  datatype Kind = Accepting | ReadingHeader | ReadingBody | Writing | Ended

  /** What is remembered of a worker, for the theorems only. */
  datatype History = History(issued: nat, handled: nat, cur: Connection, past: seq<Connection>, log: seq<WM.Heard>)
  {
    function Now(c: Connection): History {
      this.(cur := c)
    }

    function OneMore(): History {
      this.(issued := issued + 1)
    }
  }

  class Worker {
    const srv: Server
    const id: nat
    const site: Site
    const pr: Parser
    const sr: Serializer
    var kind: Kind
    var slot: WM.Slot
    var sock: WM.Socket
    var res: Response
    // the composed operation that is outstanding, if the worker waits for one
    var hop: ReadHeaderOp?
    var bop: ReadBodyOp?
    var wop: WriteAllOp?
    ghost var h: History
    ghost var Repr: set<object>

    ghost predicate Valid()
      reads this, Repr
    {
      && this in Repr && pr in Repr && sr in Repr && srv !in Repr
      && (hop != null ==> hop in Repr && hop.pr == pr)
      && (bop != null ==> bop in Repr && bop.pr == pr && !bop.some)
      && (wop != null ==> wop in Repr && wop.inner in Repr && wop.sr == sr && wop.Valid())
      && (kind == ReadingHeader ==> hop != null)
      && (kind == ReadingBody ==> bop != null)
      && (kind == Writing ==> wop != null)
    }

    ghost function Task(): WM.Task
      requires Valid()
      reads this, Repr
    {
      match kind
      case Accepting => WM.Accepting
      case ReadingHeader => WM.Header(hop.View())
      case ReadingBody => WM.Body(bop.View())
      case Writing => WM.Writing(wop.View())
      case Ended => WM.Ended
    }

    /** The state of the worker as the model sees it. */
    ghost function View(): WM.Worker
      requires Valid()
      reads this, Repr
    {
      WM.Worker(Task(), slot, sock, pr.st, sr.st, res, h.issued, h.handled, h.cur, h.past, h.log)
    }

    constructor (srv: Server, site: Site, g: Grammar, oracle: nat -> W.Answer, id: nat)
      ensures Valid() && fresh(Repr) && this.srv == srv && this.site == site && this.id == id
      ensures View() == WorkerTheorems.Created(g, oracle)
    {
      this.srv, this.site, this.id := srv, site, id;
      var p := new Parser(g);
      var s := new Serializer(oracle);
      pr, sr := p, s;
      kind, slot, sock := Ended, WM.Free, WM.Closed;
      res := ErrorResponse(200, false);
      hop, bop, wop := null, null, null;
      h := History(0, 0, NEW, [], []);
      Repr := {this, p, s};
    }

    method Run()
      requires Valid() && slot.Free?
      modifies Repr
      ensures Valid() && fresh(Repr - old(Repr))
      ensures View() == WM.DoAccept(old(View()))
    {
      DoAccept();
    }

    /** Cancel the worker's socket: an abort for what is in flight on it. */
    method Stop()
      requires Valid()
      modifies this
      ensures Valid() && Repr == old(Repr)
      ensures View() == WM.CancelSocket(old(View()))
    {
      if slot == WM.InFlight(WM.Read) || slot == WM.InFlight(WM.Write) {
        CompleteIo(Plain(Aborted));
      }
    }

    method DoAccept()
      requires Valid() && slot.Free?
      modifies this, pr
      ensures Valid() && Repr == old(Repr)
      ensures View() == WM.DoAccept(old(View()))
    {
      sock := WM.Closed;
      pr.Reset();
      kind := Accepting;
      slot := WM.InFlight(WM.Accept);
      h := History(h.issued + 1, h.handled, NEW, h.past + [h.cur], h.log);
    }

    method Fail(ec: Code)
      requires Valid()
      modifies this
      ensures Valid() && Repr == old(Repr)
      ensures View() == WM.Fail(old(View()), ec)
    {
      if ec == Aborted {
        return;
      }
      if ec == Eof {
        sock := WM.HalfClosed;
        h := h.Now(SendShut(h.cur));
        return;
      }
    }

    /** What every handler does with an error. */
    method OnError(ec: Code)
      requires Valid() && slot.Free?
      modifies this, pr
      ensures Valid() && Repr == old(Repr)
      ensures View() == WM.OnError(old(View()), ec)
      ensures kind == if ec == Aborted then Ended else Accepting
    {
      Fail(ec);
      if ec == Aborted {
        kind := Ended;
        return;
      }
      DoAccept();
    }

    method OnReadError(ec: Code)
      requires Valid() && slot.Free?
      modifies this, pr
      ensures Valid() && Repr == old(Repr)
      ensures View() == WM.OnReadError(old(View()), ec)
      ensures kind == if ec == Aborted then Ended else Accepting
    {
      h := h.Now(Dropped(h.cur, ec));
      OnError(ec);
    }

    method OnAccept(ec: Code)
      requires Valid() && slot.Free? && WM.Startable(pr.st)
      modifies Repr
      ensures Valid() && fresh(Repr - old(Repr))
      ensures View() == WM.OnAccept(old(View()), ec)
      ensures kind == ReadingHeader <==> ec == Ok
      ensures ec.Failed() && ec != Aborted ==> kind == Accepting && sock == WM.Closed
    {
      if ec.Failed() {
        OnError(ec);
        return;
      }
      sock := WM.Open;
      h := h.Now(Opened(h.cur));
      DoRead();
    }

    method DoRead()
      requires Valid() && slot.Free? && WM.Startable(pr.st)
      modifies Repr
      ensures Valid() && fresh(Repr - old(Repr))
      ensures View() == WM.DoRead(old(View()))
    {
      WM.StartIsLegal(pr.st);
      hide R.HeaderResume, WM.Startable;
      pr.Start();
      var effect;
      hop, effect := AsyncReadHeader(pr);
      Repr := Repr + {hop};
      kind := ReadingHeader;
      slot := WM.ReadSlot(effect);
      h := h.OneMore();
    }

    method OnReadHeader(ec: Code)
      requires Valid() && slot.Free? && (ec == Ok ==> pr.GotHeader())
      modifies Repr
      ensures Valid() && fresh(Repr - old(Repr))
      ensures View() == WM.OnReadHeader(old(View()), ec)
      ensures kind == ReadingBody <==> ec == Ok
    {
      if ec.Failed() {
        OnReadError(ec);
        return;
      }
      StartBody();
    }

    /** Initiate the body read, once the header was read. */
    method StartBody()
      requires Valid() && pr.GotHeader()
      modifies this, pr
      ensures Valid() && fresh(Repr - old(Repr))
      ensures View() == WM.StartBody(old(View()))
    {
      hide R.BodyResume, WM.ReadSlot;
      var effect;
      bop, effect := AsyncReadBody(pr, false);
      Repr := Repr + {bop};
      kind := ReadingBody;
      slot := WM.ReadSlot(effect);
      h := h.OneMore();
    }

    method OnReadBody(ec: Code)
      requires Valid() && slot.Free?
      requires ec == Ok ==> pr.IsComplete() && pr.st.Verdict().length <= |pr.st.input|
      modifies Repr
      ensures Valid() && fresh(Repr - old(Repr))
      ensures View() == WM.OnReadBody(old(View()), ec, site, srv.isShuttingDown)
      ensures kind == Writing <==> ec == Ok
    {
      if ec.Failed() {
        OnReadError(ec);
        return;
      }
      hide WM.StartWrite, WM.OnReadError;
      BeginResponse();
      StartWrite();
    }

    /** Answer the message the parser holds: what the handler says, or 503 once shutting down. */
    method BeginResponse()
      requires Valid() && pr.IsComplete() && pr.st.Verdict().length <= |pr.st.input|
      modifies this, sr
      ensures Valid() && Repr == old(Repr)
      ensures View() == WM.BeginResponse(old(View()), site, srv.isShuttingDown)
    {
      hide Answer;
      var request := pr.st.Message();
      if !srv.isShuttingDown {
        res := HandleRequest(site, request);
      } else {
        res := UNAVAILABLE;
      }
      sr.Start(site.wire(res));
      h := h.Now(Begun(h.cur, request, res, srv.isShuttingDown));
    }

    /** Initiate the write of the response the serializer holds. */
    method StartWrite()
      requires Valid() && sr.st.Valid()
      modifies this, sr
      ensures Valid() && fresh(Repr - old(Repr))
      ensures View() == WM.StartWrite(old(View()))
    {
      hide W.WriteAgain, WM.WriteSlot;
      var effect;
      wop, effect := AsyncWrite(sr);
      Repr := Repr + {wop, wop.inner};
      kind := Writing;
      slot := WM.WriteSlot(effect);
      h := h.OneMore();
    }

    method OnWrite(ec: Code)
      requires Valid() && slot.Free? && WM.Startable(pr.st)
      modifies Repr
      ensures Valid() && fresh(Repr - old(Repr))
      ensures View() == WM.OnWrite(old(View()), ec, srv.isShuttingDown)
      ensures kind == ReadingHeader <==> ec == Ok && old(res).keepAlive
    {
      if ec.Failed() {
        OnError(ec);
        return;
      }
      h := h.Now(Finished(h.cur, srv.isShuttingDown));
      if res.keepAlive {
        DoRead();
      } else {
        DoAccept();
      }
    }

    /** The event loop runs the handler of the queued completion. */
    method Dispatch()
      requires Valid() && slot.Ready? && WM.Sound(View())
      modifies Repr
      ensures Valid() && fresh(Repr - old(Repr))
      ensures View() == WM.Handle(old(View()), site, srv.isShuttingDown)
    {
      var a := slot.done;
      match kind {
        case Accepting =>
          Suspend(true, WM.Free);
          OnAccept(a.ec);
        case ReadingHeader => DispatchHeader(a);
        case ReadingBody => DispatchBody(a);
        case Writing => DispatchWriting(a);
        case Ended =>
      }
    }

    /** The operation in flight completes, or is cancelled; its handler is queued. */
    method CompleteIo(a: Arrival)
      requires Valid() && slot.InFlight?
      modifies this
      ensures Valid() && Repr == old(Repr)
      ensures View() == WM.CompleteIo(old(View()), a)
    {
      h := h.(log := h.log + [WM.Heard(slot.io, a)]);
      slot := WM.Ready(a);
    }

    // Each composed operation is resumed first; once it has completed, the worker's own handler runs.

    method ResumeHeader(a: Arrival) returns (effect: R.Effect)
      requires Valid() && kind == ReadingHeader && hop.pc != R.Finished
      modifies this, hop, pr
      ensures Valid() && Repr == old(Repr)
      ensures var w := old(View());
              var s := R.HeaderResume(old(hop.View()), w.pr, a);
              && effect == s.effect
              && View() == WM.Suspended(w.(task := WM.Header(s.op), pr := s.pr, cur := Received(w.cur, a)),
                                        s.effect.Done?, if s.effect.Done? then WM.Free else WM.ReadSlot(s.effect))
    {
      hide R.HeaderResume;
      effect := hop.Resume(a);
      h := h.Now(Received(h.cur, a));
      Suspend(effect.Done?, if effect.Done? then WM.Free else WM.ReadSlot(effect));
    }

    method ResumeBody(a: Arrival) returns (effect: R.Effect)
      requires Valid() && kind == ReadingBody && bop.pc != R.Finished
      modifies this, bop, pr
      ensures Valid() && Repr == old(Repr)
      ensures var w, op := old(View()), old(bop.View());
              var s := R.BodyResume(op, false, w.pr, a);
              && effect == s.effect
              && View() == WM.Suspended(w.(task := WM.Body(s.op), pr := s.pr,
                                           cur := if op.pc.Posted? then w.cur else Received(w.cur, a)),
                                        s.effect.Done?, if s.effect.Done? then WM.Free else WM.ReadSlot(s.effect))
    {
      hide R.BodyResume;
      if bop.pc != R.Posted {
        h := h.Now(Received(h.cur, a));
      }
      effect := bop.Resume(a);
      Suspend(effect.Done?, if effect.Done? then WM.Free else WM.ReadSlot(effect));
    }

    method ResumeWrite(a: Arrival) returns (effect: W.Effect)
      requires Valid() && kind == Writing && W.Expects(wop.View(), sr.st, a)
      modifies this, wop, wop.inner, sr
      ensures Valid() && fresh(Repr - old(Repr))
      ensures var w := old(View());
              var s := W.WriteResume(old(wop.View()), w.sr, a);
              && effect == s.effect
              && View() == WM.Suspended(w.(task := WM.Writing(s.op), sr := s.sr, cur := Delivered(w.cur, a)),
                                        s.effect.Done?, if s.effect.Done? then WM.Free else WM.WriteSlot(s.effect))
    {
      hide W.WriteResume;
      effect := wop.Resume(a);
      Repr := Repr + {wop.inner};
      h := h.Now(Delivered(h.cur, a));
      Suspend(effect.Done?, if effect.Done? then WM.Free else WM.WriteSlot(effect));
    }

    method Suspend(done: bool, slot: WM.Slot)
      requires Valid()
      modifies this
      ensures Valid() && Repr == old(Repr)
      ensures View() == WM.Suspended(old(View()), done, slot)
    {
      this.slot := slot;
      h := h.(handled := h.handled + 1);
      if !done {
        h := h.OneMore();
      }
    }

    method DispatchHeader(a: Arrival)
      requires Valid() && slot == WM.Ready(a) && kind == ReadingHeader && WM.Sound(View())
      modifies Repr
      ensures Valid() && fresh(Repr - old(Repr))
      ensures View() == WM.HandleHeader(old(View()))
    {
      WM.HeaderResumes(View());
      hide WM.OnReadHeader, WM.Sound, R.HeaderResume, Received;
      var effect := ResumeHeader(a);
      if effect.Done? {
        OnReadHeader(effect.ec);
      }
    }

    method DispatchBody(a: Arrival)
      requires Valid() && slot == WM.Ready(a) && kind == ReadingBody && WM.Sound(View())
      modifies Repr
      ensures Valid() && fresh(Repr - old(Repr))
      ensures View() == WM.HandleBody(old(View()), site, srv.isShuttingDown)
    {
      WM.BodyResumes(View());
      hide WM.OnReadBody, WM.Sound, R.BodyResume, Received;
      var effect := ResumeBody(a);
      if effect.Done? {
        OnReadBody(effect.ec);
      }
    }

    method DispatchWriting(a: Arrival)
      requires Valid() && slot == WM.Ready(a) && kind == Writing && WM.Sound(View())
      modifies Repr
      ensures Valid() && fresh(Repr - old(Repr))
      ensures View() == WM.HandleWriting(old(View()), srv.isShuttingDown)
    {
      hide WM.OnWrite, W.WriteResume, Delivered;
      var effect := ResumeWrite(a);
      if effect.Done? {
        OnWrite(effect.ec);
      }
    }
  }

  /** A service: the workers that accept on one listening socket and serve one site. */
  class Acceptor {
    const srv: Server
    const site: Site
    var id: nat
    var workers: seq<Worker>
    ghost var Repr: set<object>

    ghost predicate Valid()
      reads this, Repr
    {
      && this in Repr && srv !in Repr
      && (forall i :: 0 <= i < |workers| ==>
            && workers[i] in Repr && workers[i].Repr <= Repr && this !in workers[i].Repr
            && workers[i].srv == srv && workers[i].site == site && workers[i].Valid())
      && (forall i, j :: 0 <= i < j < |workers| ==> workers[i].Repr !! workers[j].Repr)
    }

    ghost function Views(): (views: seq<WM.Worker>)
      requires Valid()
      reads this, Repr
    {
      seq(|workers|, i requires 0 <= i < |workers| reads this, Repr requires Valid() => workers[i].View())
    }

    /** `n` workers with consecutive identifiers, none of them running. */
    constructor (srv: Server, site: Site, g: Grammar, oracles: seq<nat -> W.Answer>)
      ensures Valid() && fresh(Repr) && this.srv == srv && this.site == site && id == |oracles|
      ensures Views() == SM.CreatedWorkers(g, oracles)
      ensures forall i :: 0 <= i < |workers| ==> workers[i].id == i + 1
    {
      this.srv, this.site := srv, site;
      id, workers := 0, [];
      Repr := {this};
      new;
      hide WorkerTheorems.Created;
      for i := 0 to |oracles|
        invariant Valid() && fresh(Repr) && |workers| == i == id
        invariant |Views()| == i && forall j :: 0 <= j < i ==> Views()[j] == WorkerTheorems.Created(g, oracles[j])
        invariant forall j :: 0 <= j < i ==> workers[j].id == j + 1
      {
        AddWorker(g, oracles[i]);
      }
    }

    method AddWorker(g: Grammar, oracle: nat -> W.Answer)
      requires Valid()
      modifies this
      ensures Valid() && fresh(Repr - old(Repr)) && id == old(id) + 1
      ensures |workers| == |old(workers)| + 1 && workers[..|old(workers)|] == old(workers)
      ensures workers[|old(workers)|].id == id
      ensures Views() == old(Views()) + [WorkerTheorems.Created(g, oracle)]
    {
      hide WorkerTheorems.Created;
      var next := NextId();
      var w := new Worker(srv, site, g, oracle, next);
      workers := workers + [w];
      Repr := Repr + w.Repr;
    }

    method NextId() returns (next: nat)
      modifies `id
      ensures next == id == old(id) + 1
    {
      id := id + 1;
      next := id;
    }

    method RunWorker(i: nat)
      requires Valid() && i < |workers| && workers[i].slot.Free?
      modifies this, workers[i].Repr
      ensures Valid() && fresh(Repr - old(Repr)) && workers == old(workers) && id == old(id)
      ensures Views() == old(Views())[i := WM.DoAccept(old(Views())[i])]
    {
      hide WM.DoAccept;
      workers[i].Run();
      Repr := Repr + workers[i].Repr;
    }

    method CancelAcceptOf(i: nat)
      requires Valid() && i < |workers|
      modifies workers[i]
      ensures Valid()
      ensures Views() == old(Views())[i := WM.CancelAccept(old(Views())[i])]
    {
      if workers[i].slot == WM.InFlight(WM.Accept) {
        workers[i].CompleteIo(Plain(Aborted));
      }
    }

    method StopWorker(i: nat)
      requires Valid() && i < |workers|
      modifies workers[i]
      ensures Valid()
      ensures Views() == old(Views())[i := WM.CancelSocket(old(Views())[i])]
    {
      workers[i].Stop();
    }

    method CompleteIo(i: nat, a: Arrival)
      requires Valid() && i < |workers| && workers[i].slot.InFlight?
      modifies workers[i]
      ensures Valid()
      ensures Views() == old(Views())[i := WM.CompleteIo(old(Views())[i], a)]
    {
      workers[i].CompleteIo(a);
    }

    /** The event loop runs the queued handler of one of the workers. */
    method DispatchWorker(i: nat)
      requires Valid() && i < |workers| && workers[i].slot.Ready? && WM.Sound(workers[i].View())
      modifies this, workers[i].Repr
      ensures Valid() && fresh(Repr - old(Repr)) && workers == old(workers) && id == old(id)
      ensures Views() ==
        old(Views())[i := WM.Handle(old(Views())[i], site, old(srv.isShuttingDown))]
    {
      hide WM.Sound, WM.Handle;
      workers[i].Dispatch();
      Repr := Repr + workers[i].Repr;
    }

    method Run()
      requires Valid() && forall i :: 0 <= i < |workers| ==> Views()[i].slot.Free?
      modifies Repr
      ensures Valid() && fresh(Repr - old(Repr)) && workers == old(workers) && id == old(id)
      ensures Views() == SM.AcceptAll(old(Views()))
    {
      ghost var before := Views();
      for i := 0 to |workers|
        invariant Valid() && fresh(Repr - old(Repr)) && workers == old(workers) && id == old(id)
        invariant forall j :: 0 <= j < i ==> Views()[j] == WM.DoAccept(before[j])
        invariant forall j :: i <= j < |workers| ==> Views()[j] == before[j]
      {
        assert workers[i].View() == Views()[i];
        RunWorker(i);
      }
    }

    /** Cancelling the listening socket aborts every accept that is in flight; then each worker
        is stopped. */
    method Stop()
      requires Valid()
      modifies Repr
      ensures Valid() && Repr == old(Repr) && workers == old(workers) && id == old(id)
      ensures Views() == SM.CancelAll(old(Views()))
    {
      ghost var before := Views();
      for i := 0 to |workers|
        invariant Valid() && Repr == old(Repr) && workers == old(workers) && id == old(id)
        invariant forall j :: 0 <= j < i ==> Views()[j] == WM.CancelAccept(before[j])
        invariant forall j :: i <= j < |workers| ==> Views()[j] == before[j]
      {
        CancelAcceptOf(i);
      }
      for i := 0 to |workers|
        invariant Valid() && Repr == old(Repr) && workers == old(workers) && id == old(id)
        invariant forall j :: 0 <= j < i ==> Views()[j] == WM.CancelSocket(WM.CancelAccept(before[j]))
        invariant forall j :: i <= j < |workers| ==> Views()[j] == WM.CancelAccept(before[j])
      {
        StopWorker(i);
      }
    }
  }

  /** The server: two flags, two waits, and its services. */
  class Server {
    var isShuttingDown: bool
    var isStopped: bool
    var sigs: SM.Wait
    var timer: SM.Wait
    var v: seq<Acceptor>
    ghost var signals: nat
    ghost var timeouts: nat
    ghost var stops: nat
    ghost var Repr: set<object>

    ghost predicate Valid()
      reads this, Repr
    {
      && this in Repr
      && (forall k :: 0 <= k < |v| ==>
            && v[k] in Repr && v[k].Repr <= Repr && this !in v[k].Repr && v[k].srv == this && v[k].Valid())
      && (forall j, k :: 0 <= j < k < |v| ==> v[j].Repr !! v[k].Repr)
    }

    ghost function Views(): seq<seq<WM.Worker>>
      requires Valid()
      reads this, Repr
    {
      seq(|v|, k requires 0 <= k < |v| reads this, Repr requires Valid() => v[k].Views())
    }

    /** The state of the server as the model sees it: the workers of all services in a row. */
    ghost function View(): SM.Server
      requires Valid()
      reads this, Repr
    {
      SM.Server(isShuttingDown, isStopped, sigs, timer, Concat(Views()), signals, timeouts, stops)
    }

    /** Every service serves this site. */
    ghost predicate Serves(site: Site)
      reads this
    {
      forall k :: 0 <= k < |v| ==> v[k].site == site
    }

    constructor ()
      ensures Valid() && fresh(Repr) && v == []
      ensures View() == SM.Server(false, false, SM.Off, SM.Off, [], 0, 0, 0)
    {
      isShuttingDown, isStopped := false, false;
      sigs, timer := SM.Off, SM.Off;
      v, signals, timeouts, stops := [], 0, 0, 0;
      Repr := {this};
    }

    method MakeService(site: Site, g: Grammar, oracles: seq<nat -> W.Answer>)
      requires Valid()
      modifies this
      ensures Valid() && fresh(Repr - old(Repr))
      ensures |v| == |old(v)| + 1 && v[..|old(v)|] == old(v)
      ensures fresh(v[|old(v)|]) && v[|old(v)|].site == site
      ensures View() == old(View()).(workers := old(View()).workers + SM.CreatedWorkers(g, oracles))
    {
      hide SM.CreatedWorkers, Concat;
      var svc := new Acceptor(this, site, g, oracles);
      ghost var before := Views();
      v := v + [svc];
      Repr := Repr + svc.Repr;
      assert Views() == before + [svc.Views()];
      ConcatAppend(before, svc.Views());
    }

    method RunService(k: nat)
      requires Valid() && k < |v| && forall i :: 0 <= i < |Views()[k]| ==> Views()[k][i].slot.Free?
      modifies this`Repr, v[k].Repr
      ensures Valid() && fresh(Repr - old(Repr)) && v == old(v)
      ensures Views() == old(Views())[k := SM.AcceptAll(old(Views())[k])]
    {
      assert Views()[k] == v[k].Views();
      v[k].Run();
      Repr := Repr + v[k].Repr;
    }

    method StopService(k: nat)
      requires Valid() && k < |v|
      modifies v[k].Repr
      ensures Valid() && Views() == old(Views())[k := SM.CancelAll(old(Views())[k])]
    {
      v[k].Stop();
    }

    /** Arm the signal wait and run every service; the event loop comes next. */
    method Run()
      requires Valid() && forall i :: 0 <= i < |View().workers| ==> View().workers[i].slot.Free?
      modifies Repr
      ensures Valid() && fresh(Repr - old(Repr)) && v == old(v)
      ensures View() == old(View()).(sig := SM.Armed, workers := SM.AcceptAll(old(View()).workers))
    {
      ghost var before := Views();
      ghost var view := View();
      SM.PartsFree(before);
      sigs := SM.Armed;
      for k := 0 to |v|
        invariant Valid() && fresh(Repr - old(Repr)) && v == old(v) && |before| == |v|
        invariant View() == view.(sig := SM.Armed, workers := Concat(Views()))
        invariant forall j :: 0 <= j < k ==> Views()[j] == SM.AcceptAll(before[j])
        invariant forall j :: k <= j < |v| ==> Views()[j] == before[j]
      {
        RunService(k);
      }
      SM.AcceptConcat(before, Views());
    }

    method Stop()
      requires Valid()
      modifies Repr
      ensures Valid() && Repr == old(Repr) && v == old(v)
      ensures View() == SM.Stop(old(View()))
    {
      if isStopped {
        // happens when signal and timer handlers race
        return;
      }
      ghost var before := Views();
      isStopped := true;
      stops := stops + 1;
      sigs := sigs.Cancelled();
      timer := timer.Cancelled();
      assert Views() == before;
      StopServices();
    }

    /** Stop every service, one after the other. */
    method StopServices()
      requires Valid()
      modifies Repr
      ensures Valid() && Repr == old(Repr) && v == old(v)
      ensures View() == old(View()).(workers := SM.CancelAll(old(View()).workers))
    {
      hide SM.CancelAll;
      ghost var before := Views();
      ghost var view := View();
      for k := 0 to |v|
        invariant Valid() && Repr == old(Repr) && v == old(v) && |before| == |v|
        invariant View() == view.(workers := Concat(Views()))
        invariant forall j :: 0 <= j < k ==> Views()[j] == SM.CancelAll(before[j])
        invariant forall j :: k <= j < |v| ==> Views()[j] == before[j]
      {
        StopService(k);
      }
      SM.CancelConcat(before, Views());
    }

    /** A signal arrived, or its wait was cancelled: the code is not looked at. */
    method OnSignal(ec: Code)
      requires Valid()
      modifies Repr
      ensures Valid() && Repr == old(Repr) && v == old(v)
      ensures View() == SM.OnSignal(old(View()))
      ensures isShuttingDown && (isStopped <==> old(isStopped) || old(isShuttingDown))
    {
      if !isShuttingDown {
        ghost var before := Views();
        isShuttingDown := true;
        sigs := SM.Armed;
        timer := SM.Armed;
        assert Views() == before;
      } else {
        Stop();
      }
    }

    method OnTimer(ec: Code)
      requires Valid()
      modifies Repr
      ensures Valid() && Repr == old(Repr) && v == old(v)
      ensures View() == SM.OnTimer(old(View()), ec)
      ensures isStopped <==> old(isStopped) || ec == Ok
    {
      if !ec.Failed() {
        Stop();
      }
    }

    // ---------- what the event loop runs ----------

    method DispatchSignal()
      requires Valid() && sigs.Fired?
      modifies Repr
      ensures Valid() && Repr == old(Repr) && v == old(v)
      ensures View() == SM.SignalHandled(old(View()))
    {
      ghost var before := Views();
      var ec := sigs.ec;
      sigs := SM.Off;
      signals := signals + 1;
      assert Views() == before;
      OnSignal(ec);
    }

    method DispatchTimer()
      requires Valid() && timer.Fired?
      modifies Repr
      ensures Valid() && Repr == old(Repr) && v == old(v)
      ensures View() == SM.TimerHandled(old(View()))
    {
      ghost var before := Views();
      var ec := timer.ec;
      timer := SM.Off;
      timeouts := timeouts + 1;
      assert Views() == before;
      OnTimer(ec);
    }

    /** Run the queued handler of worker `i` of service `k`. */
    method DispatchWorker(k: nat, i: nat)
      requires Valid() && k < |v| && i < |v[k].workers|
      requires v[k].workers[i].slot.Ready? && WM.Sound(v[k].workers[i].View())
      modifies this`Repr, v[k], v[k].workers[i].Repr
      ensures Valid() && fresh(Repr - old(Repr)) && v == old(v)
      ensures var n, site := SM.Position(old(Views()), k, i), v[k].site;
              && n < |old(View()).workers| && old(View()).workers[n] == old(Views())[k][i]
              && View() == old(View()).(workers :=
                   old(View()).workers[n := WM.Handle(old(View()).workers[n], site, old(isShuttingDown))])
    {
      hide WM.Sound, WM.Handle;
      ghost var before := Views();
      v[k].DispatchWorker(i);
      Repr := Repr + v[k].Repr;
      ghost var w := v[k].Views()[i];
      assert Views() == before[k := before[k][i := w]];
      SM.ConcatUpdate(before, k, i, w);
    }

    // ---------- what the environment does ----------

    method SignalArrives(ec: Code)
      requires Valid() && sigs.Armed?
      modifies this`sigs
      ensures Valid() && View() == old(View()).(sig := SM.Fired(ec))
    {
      ghost var before := Views();
      sigs := SM.Fired(ec);
      assert Views() == before;
    }

    method TimerExpires(ec: Code)
      requires Valid() && timer.Armed?
      modifies this`timer
      ensures Valid() && View() == old(View()).(timer := SM.Fired(ec))
    {
      ghost var before := Views();
      timer := SM.Fired(ec);
      assert Views() == before;
    }

    /** The operation in flight of worker `i` of service `k` completes. */
    method IoCompletes(k: nat, i: nat, a: Arrival)
      requires Valid() && k < |v| && i < |v[k].workers| && v[k].workers[i].slot.InFlight?
      modifies v[k].workers[i]
      ensures Valid()
      ensures var n := SM.Position(old(Views()), k, i);
              && n < |old(View()).workers| && old(View()).workers[n].slot.InFlight?
              && View() == old(View()).(workers :=
                   old(View()).workers[n := WM.CompleteIo(old(View()).workers[n], a)])
    {
      ghost var before := Views();
      v[k].CompleteIo(i, a);
      ghost var w := v[k].Views()[i];
      assert Views() == before[k := before[k][i := w]];
      SM.ConcatUpdate(before, k, i, w);
    }

    /** Which worker of which service stands at position `n` of the row. */
    method Locate(n: nat) returns (k: nat, i: nat)
      requires Valid() && n < |View().workers|
      ensures k < |v| && i < |v[k].workers| && SM.Position(Views(), k, i) == n
      ensures View().workers[n] == v[k].workers[i].View()
    {
      ghost var parts := Views();
      k, i := 0, n;
      assert parts[..|parts|] == parts && parts[..0] == [];
      while k < |v| && i >= |v[k].workers|
        invariant k <= |v| && SM.Position(parts + [[]], k, i) == n
        decreases |v| - k
      {
        assert parts[..k + 1] == parts[..k] + [parts[k]];
        ConcatAppend(parts[..k], parts[k]);
        assert (parts + [[]])[..k] == parts[..k] && (parts + [[]])[..k + 1] == parts[..k + 1];
        k, i := k + 1, i - |v[k].workers|;
      }
      assert (parts + [[]])[..k] == parts[..k];
      SM.ConcatUpdate(parts, k, i, parts[k][i]);
    }

    /** One event of the environment or of the event loop, as the state machine says. */
    method Step(site: Site, e: SM.Event)
      requires Valid() && Serves(site) && SM.ServerInv(View(), site) && SM.Enabled(View(), e)
      modifies Repr
      ensures Valid() && fresh(Repr - old(Repr)) && v == old(v)
      ensures View() == SM.Next(old(View()), site, e)
    {
      hide Concat;
      match e {
        case SignalArrives(ec) => SignalArrives(ec);
        case TimerExpires(ec) => TimerExpires(ec);
        case RunOnSignal => DispatchSignal();
        case RunOnTimer => DispatchTimer();
        case IoCompletes(n, a) =>
          var k, i := Locate(n);
          IoCompletes(k, i, a);
        case RunWorker(n) =>
          var k, i := Locate(n);
          DispatchWorker(k, i);
      }
    }
  }

  /** What `main` does before the event loop runs: one service of as many workers as asked for. */
  method Boot(site: Site, g: Grammar, oracles: seq<nat -> W.Answer>) returns (srv: Server)
    ensures fresh(srv) && fresh(srv.Repr) && srv.Valid() && |srv.v| == 1 && srv.Serves(site)
    ensures srv.View() == SM.Started(g, oracles)
  {
    hide WM.DoAccept, Server.View;
    srv := new Server();
    srv.MakeService(site, g, oracles);
    assert [] + SM.CreatedWorkers(g, oracles) == SM.CreatedWorkers(g, oracles);
    srv.Run();
  }
}
