/** The server as a whole: its shutdown flags, its two waits and its workers, driven by an
    adversary that chooses which operation completes when and which queued handler runs next. */
module ServerModel {
  import opened Codes
  import Parsing
  import WriteSteps
  import opened Requests
  import opened WorkerModel
  import opened WorkerTheorems

  /** A wait on the signal set or the timer. */
  datatype Wait = Off | Armed | Fired(ec: Code)
  {
    function Pending(): nat {
      if Off? then 0 else 1
    }

    function Cancelled(): Wait {
      if Armed? then Fired(Aborted) else this
    }
  }

  datatype Server = Server(
    down: bool,             // is_shutting_down_
    stopped: bool,          // is_stopped_
    sig: Wait,
    timer: Wait,
    workers: seq<Worker>,
    signals: nat,           // calls of on_signal so far
    timeouts: nat,          // calls of on_timer so far
    stops: nat)             // executions of the body of stop() so far

  datatype Event =
    | SignalArrives(ec: Code)
    | TimerExpires(ec: Code)
    | IoCompletes(i: nat, a: Arrival)
    | RunOnSignal
    | RunOnTimer
    | RunWorker(i: nat)

  predicate IsHandler(e: Event) {
    e.RunOnSignal? || e.RunOnTimer? || e.RunWorker?
  }

  /** What can happen next. Only a cancellation makes a wait or an operation complete as aborted. */
  predicate Enabled(s: Server, e: Event) {
    match e
    case SignalArrives(ec) => s.sig.Armed? && ec != Aborted
    case TimerExpires(ec) => s.timer.Armed? && ec != Aborted
    case IoCompletes(i, a) => i < |s.workers| && CanComplete(s.workers[i], a)
    case RunOnSignal => s.sig.Fired?
    case RunOnTimer => s.timer.Fired?
    case RunWorker(i) => i < |s.workers| && s.workers[i].slot.Ready?
  }

  function AcceptAll(workers: seq<Worker>): seq<Worker>
    requires forall i :: 0 <= i < |workers| ==> workers[i].slot.Free?
  {
    seq(|workers|, i requires 0 <= i < |workers| => DoAccept(workers[i]))
  }

  function CancelAll(workers: seq<Worker>): seq<Worker> {
    seq(|workers|, i requires 0 <= i < |workers| => CancelSocket(CancelAccept(workers[i])))
  }

  function CreatedWorkers(g: Parsing.Grammar, oracles: seq<nat -> WriteSteps.Answer>): seq<Worker> {
    seq(|oracles|, i requires 0 <= i < |oracles| => Created(g, oracles[i]))
  }

  // ---------- the workers of several services in a row ----------

  /** Where worker `i` of part `k` stands in the row. */
  function Position(parts: seq<seq<Worker>>, k: nat, i: nat): nat
    requires k < |parts|
  {
    |Concat(parts[..k])| + i
  }

  lemma {:induction false} ConcatUpdate(parts: seq<seq<Worker>>, k: nat, i: nat, w: Worker)
    requires k < |parts| && i < |parts[k]|
    ensures var n := Position(parts, k, i);
            && n < |Concat(parts)| && Concat(parts)[n] == parts[k][i]
            && Concat(parts[k := parts[k][i := w]]) == Concat(parts)[n := w]
  {
    var parts' := parts[k := parts[k][i := w]];
    if k == 0 {
      assert parts'[1..] == parts[1..];
    } else {
      assert parts'[1..] == parts[1..][k - 1 := parts[1..][k - 1][i := w]];
      assert parts[..k][1..] == parts[1..][..k - 1];
      ConcatUpdate(parts[1..], k - 1, i, w);
    }
  }

  lemma {:induction false} PartsFree(parts: seq<seq<Worker>>)
    requires forall n :: 0 <= n < |Concat(parts)| ==> Concat(parts)[n].slot.Free?
    ensures forall k, i :: 0 <= k < |parts| && 0 <= i < |parts[k]| ==> parts[k][i].slot.Free?
  {
    forall k, i | 0 <= k < |parts| && 0 <= i < |parts[k]|
      ensures parts[k][i].slot.Free?
    {
      ConcatUpdate(parts, k, i, parts[k][i]);
    }
  }

  lemma {:induction false} CancelConcat(parts: seq<seq<Worker>>, parts': seq<seq<Worker>>)
    requires |parts'| == |parts| && forall k :: 0 <= k < |parts| ==> parts'[k] == CancelAll(parts[k])
    ensures Concat(parts') == CancelAll(Concat(parts))
  {
    if parts != [] {
      CancelConcat(parts[1..], parts'[1..]);
    }
  }

  lemma {:induction false} AcceptConcat(parts: seq<seq<Worker>>, parts': seq<seq<Worker>>)
    requires forall n :: 0 <= n < |Concat(parts)| ==> Concat(parts)[n].slot.Free?
    requires forall k, i :: 0 <= k < |parts| && 0 <= i < |parts[k]| ==> parts[k][i].slot.Free?
    requires |parts'| == |parts| && forall k :: 0 <= k < |parts| ==> parts'[k] == AcceptAll(parts[k])
    ensures Concat(parts') == AcceptAll(Concat(parts))
  {
    if parts != [] {
      assert forall n :: 0 <= n < |Concat(parts[1..])| ==>
        Concat(parts[1..])[n] == Concat(parts)[|parts[0]| + n];
      AcceptConcat(parts[1..], parts'[1..]);
    }
  }

  /** Cancel both waits, then every service. A second call, when signal and timer race, does nothing. */
  function Stop(s: Server): Server {
    if s.stopped then s
    else s.(stopped := true, sig := s.sig.Cancelled(), timer := s.timer.Cancelled(),
            workers := CancelAll(s.workers), stops := s.stops + 1)
  }

  /** The first signal begins graceful shutdown and arms both waits; the second forces a stop. */
  function OnSignal(s: Server): Server {
    if !s.down then s.(down := true, sig := Armed, timer := Armed) else Stop(s)
  }

  function OnTimer(s: Server, ec: Code): Server {
    if ec.Failed() then s else Stop(s)
  }

  // ---------- the invariant ----------

  ghost predicate WorkersInv(workers: seq<Worker>, site: Site, down: bool) {
    forall i :: 0 <= i < |workers| ==> Inv(workers[i], site, down)
  }

  /** Signals, timeouts and stops are counted against what is still pending, which bounds them. */
  ghost predicate FlagsInv(s: Server) {
    && s.signals + s.sig.Pending() == (if s.down then 2 else 1)
    && s.timeouts + s.timer.Pending() == (if s.down then 1 else 0)
    && (s.down <==> s.signals > 0)
    && s.stops == (if s.stopped then 1 else 0)
    && (s.stopped ==> s.down && !s.sig.Armed? && !s.timer.Armed? && s.sig.Pending() + s.timer.Pending() <= 1)
  }

  ghost predicate ServerInv(s: Server, site: Site) {
    WorkersInv(s.workers, site, s.down) && FlagsInv(s)
  }

  lemma CancelAllKeeps(workers: seq<Worker>, site: Site, down: bool)
    requires WorkersInv(workers, site, down)
    ensures WorkersInv(CancelAll(workers), site, down)
  {
    forall i | 0 <= i < |workers|
      ensures Inv(CancelAll(workers)[i], site, down)
    {
      CompletionKeeps(workers[i], Plain(Ok), site, down);
      CompletionKeeps(CancelAccept(workers[i]), Plain(Ok), site, down);
    }
  }

  lemma DownKeepsWorkers(workers: seq<Worker>, site: Site)
    requires WorkersInv(workers, site, false)
    ensures WorkersInv(workers, site, true)
  {
  }

  lemma WorkerKeeps(s: Server, site: Site, i: nat, w: Worker)
    requires ServerInv(s, site) && i < |s.workers| && Inv(w, site, s.down)
    ensures ServerInv(s.(workers := s.workers[i := w]), site)
  {
  }

  function SignalHandled(s: Server): Server {
    OnSignal(s.(sig := Off, signals := s.signals + 1))
  }

  function TimerHandled(s: Server): Server
    requires s.timer.Fired?
  {
    OnTimer(s.(timer := Off, timeouts := s.timeouts + 1), s.timer.ec)
  }

  lemma SignalKeeps(s: Server, site: Site)
    requires ServerInv(s, site) && s.sig.Fired?
    ensures ServerInv(SignalHandled(s), site)
  {
    if s.down {
      CancelAllKeeps(s.workers, site, true);
    } else {
      DownKeepsWorkers(s.workers, site);
    }
  }

  lemma TimerKeeps(s: Server, site: Site)
    requires ServerInv(s, site) && s.timer.Fired?
    ensures ServerInv(TimerHandled(s), site)
  {
    CancelAllKeeps(s.workers, site, s.down);
  }

  /** One event. Every event keeps the invariant. */
  ghost function Next(s: Server, site: Site, e: Event): (t: Server)
    requires ServerInv(s, site) && Enabled(s, e)
    ensures ServerInv(t, site) && |t.workers| == |s.workers|
  {
    match e
    case SignalArrives(ec) => s.(sig := Fired(ec))
    case TimerExpires(ec) => s.(timer := Fired(ec))
    case RunOnSignal => SignalKeeps(s, site); SignalHandled(s)
    case RunOnTimer => TimerKeeps(s, site); TimerHandled(s)
    case IoCompletes(i, a) =>
      CompletionKeeps(s.workers[i], a, site, s.down);
      WorkerKeeps(s, site, i, CompleteIo(s.workers[i], a));
      s.(workers := s.workers[i := CompleteIo(s.workers[i], a)])
    case RunWorker(i) =>
      HandleKeeps(s.workers[i], site, s.down);
      WorkerKeeps(s, site, i, Handle(s.workers[i], site, s.down));
      s.(workers := s.workers[i := Handle(s.workers[i], site, s.down)])
  }

  /** `t` is reached from `s` by these events. */
  ghost predicate Runs(s: Server, site: Site, events: seq<Event>, t: Server)
    requires ServerInv(s, site)
    decreases |events|
  {
    if events == [] then s == t
    else Enabled(s, events[0]) && Runs(Next(s, site, events[0]), site, events[1..], t)
  }

  /** The state in which `run` enters the event loop: one signal wait, and every worker accepting. */
  function Started(g: Parsing.Grammar, oracles: seq<nat -> WriteSteps.Answer>): Server {
    Server(false, false, Armed, Off,
           AcceptAll(CreatedWorkers(g, oracles)), 0, 0, 0)
  }

  lemma StartedInv(g: Parsing.Grammar, oracles: seq<nat -> WriteSteps.Answer>, site: Site)
    requires g.Lawful()
    ensures ServerInv(Started(g, oracles), site)
    ensures var s := Started(g, oracles);
            && s.sig.Armed? && s.timer.Off? && !s.down && !s.stopped && |s.workers| == |oracles|
            && forall i :: 0 <= i < |oracles| ==>
                 && s.workers[i].task.Accepting? && s.workers[i].slot == InFlight(Accept)
                 && s.workers[i].pr.g == g && s.workers[i].sr.oracle == oracles[i]
  {
  }
}
