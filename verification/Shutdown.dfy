/** What holds over every run of the server. */
module Shutdown {
  import opened Codes
  import Parsing
  import ReadSteps
  import WriteSteps
  import Paths
  import opened Requests
  import opened Connections
  import opened WorkerModel
  import opened WorkerTheorems
  import opened ServerModel

  // ---------- every reachable state ----------

  lemma {:induction false} RunsKeep(s: Server, site: Site, events: seq<Event>, t: Server)
    requires ServerInv(s, site) && Runs(s, site, events, t)
    ensures ServerInv(t, site) && |t.workers| == |s.workers|
    ensures s.down ==> t.down
    ensures s.stopped ==> t.stopped
    decreases |events|
  {
    if events != [] {
      RunsKeep(Next(s, site, events[0]), site, events[1..], t);
    }
  }

  /** `t` is reached by a server that has just been started, by these events. */
  ghost predicate Reached(g: Parsing.Grammar, oracles: seq<nat -> WriteSteps.Answer>, site: Site,
                          events: seq<Event>, t: Server)
    requires g.Lawful()
  {
    StartedInv(g, oracles, site);
    Runs(Started(g, oracles), site, events, t)
  }

  /** In every state a server can reach: at most two calls of `on_signal`, one of `on_timer` and
      one execution of the stop body, whatever the order of racing completions; stopped implies
      shutting down and leaves neither wait armed; of the operations a worker has begun, all but
      one have been handled while it lives, and all once it has ended. */
  lemma EveryReachableState(g: Parsing.Grammar, oracles: seq<nat -> WriteSteps.Answer>, site: Site,
                            events: seq<Event>, t: Server)
    requires g.Lawful() && Reached(g, oracles, site, events, t)
    ensures t.signals <= 2 && t.timeouts <= 1 && t.stops <= 1
    ensures t.stopped ==> t.down && !t.sig.Armed? && !t.timer.Armed? && t.stops == 1
    ensures |t.workers| == |oracles|
    ensures forall i :: 0 <= i < |t.workers| ==>
              && Sound(t.workers[i])
              && (t.workers[i].slot.Free? <==> t.workers[i].task.Ended?)
              && t.workers[i].issued - t.workers[i].handled == (if t.workers[i].task.Ended? then 0 else 1)
  {
    StartedInv(g, oracles, site);
    RunsKeep(Started(g, oracles), site, events, t);
    forall i | 0 <= i < |t.workers|
      ensures Inv(t.workers[i], site, t.down)
    {
    }
  }

  // ---------- every connection ----------

  lemma HandleKeepsGrammar(w: Worker, site: Site, down: bool)
    requires Sound(w) && w.slot.Ready?
    ensures Handle(w, site, down).pr.g == w.pr.g
  {
    if w.task.Header? {
      HeaderResumes(w);
    } else if w.task.Body? {
      BodyResumes(w);
    }
    hide ReadSteps.HeaderResume, ReadSteps.BodyResume, WriteSteps.WriteResume;
  }

  ghost predicate AllSpeak(g: Parsing.Grammar, workers: seq<Worker>) {
    forall i :: 0 <= i < |workers| ==> workers[i].pr.g == g
  }

  lemma NextKeepsGrammar(g: Parsing.Grammar, s: Server, site: Site, e: Event)
    requires ServerInv(s, site) && Enabled(s, e) && AllSpeak(g, s.workers)
    ensures AllSpeak(g, Next(s, site, e).workers)
  {
    hide Handle, Possible;
    if e.RunWorker? {
      assert Inv(s.workers[e.i], site, s.down);
      HandleKeepsGrammar(s.workers[e.i], site, s.down);
    }
  }

  lemma {:induction false} RunsKeepGrammar(g: Parsing.Grammar, s: Server, site: Site, events: seq<Event>, t: Server)
    requires ServerInv(s, site) && Runs(s, site, events, t) && AllSpeak(g, s.workers)
    ensures AllSpeak(g, t.workers)
    decreases |events|
  {
    hide Next, AllSpeak, Inv;
    if events != [] {
      NextKeepsGrammar(g, s, site, events[0]);
      RunsKeepGrammar(g, Next(s, site, events[0]), site, events[1..], t);
    }
  }

  /** One of a worker's connections, past or current. */
  ghost predicate ConnectionOf(c: Connection, w: Worker) {
    c == w.cur || c in w.past
  }

  /** Every connection of a reachable server is good by the grammar the server was started with. */
  lemma ReachedIsGood(g: Parsing.Grammar, oracles: seq<nat -> WriteSteps.Answer>, site: Site,
                      events: seq<Event>, t: Server, i: nat, c: Connection)
    requires g.Lawful() && Reached(g, oracles, site, events, t)
    requires i < |t.workers| && ConnectionOf(c, t.workers[i])
    ensures Good(g, site, c) && Inv(t.workers[i], site, t.down)
    ensures c in t.workers[i].past ==> LetGo(c)
  {
    StartedInv(g, oracles, site);
    RunsKeep(Started(g, oracles), site, events, t);
    RunsKeepGrammar(g, Started(g, oracles), site, events, t);
    assert Inv(t.workers[i], site, t.down);
  }

  /** Over any run and with any fragmentation, the requests a worker handed over on a connection
      are, in order, the first messages of that connection's own bytes, whatever may still
      arrive, and all of them once a read was refused because of what followed (the end of the
      stream included); each is answered in order, and what was sent is those answers, the last
      perhaps in part. */
  lemma RequestsAndRepliesInOrder(g: Parsing.Grammar, oracles: seq<nat -> WriteSteps.Answer>, site: Site,
                                  events: seq<Event>, t: Server, i: nat, c: Connection, more: seq<byte>)
    requires g.Lawful() && Reached(g, oracles, site, events, t)
    requires i < |t.workers| && ConnectionOf(c, t.workers[i]) && CanFollow(c, more)
    ensures c.handed <= Split(g, c.bytes + more)
    ensures c.rejected ==> c.handed == Split(g, c.bytes + more)
    ensures |c.replies| == |c.handed| && c.finished <= |c.replies| <= c.finished + 1
    ensures forall k :: 0 <= k < |c.replies| && !c.replies[k].late ==>
              Answers(site, c.handed[k], c.replies[k].response)
    ensures Wired(site, c.replies[..c.finished]) <= c.sent <= Wired(site, c.replies)
  {
    ReachedIsGood(g, oracles, site, events, t, i, c);
    assert HandedInOrder(g, c, more);
    assert c.rejected ==> HandedAll(g, c, more);
    forall k | 0 <= k < |c.replies| && !c.replies[k].late
      ensures Answers(site, c.handed[k], c.replies[k].response)
    {
      AnswerAnswers(site, c.handed[k]);
    }
  }

  /** Over any run a connection is given up only for a reason: what followed was no message, a read
      or write on it failed, or its last response completed and closes it (or none was accepted).
      As long as there is no such reason the worker stays with it. No response follows one that
      closes the connection. Its sending side was shut down exactly if a write met the end of the
      stream. */
  lemma GivenUpIffConcluded(g: Parsing.Grammar, oracles: seq<nat -> WriteSteps.Answer>, site: Site,
                            events: seq<Event>, t: Server, i: nat, c: Connection)
    requires g.Lawful() && Reached(g, oracles, site, events, t)
    requires i < |t.workers| && ConnectionOf(c, t.workers[i])
    ensures c in t.workers[i].past ==> Concluded(c) && (c.halfClosed <==> c.fault == Eof)
    ensures Concluded(t.workers[i].cur) <==> t.workers[i].task.Accepting? || t.workers[i].task.Ended?
    ensures forall k :: 0 <= k < |c.replies| - 1 ==> c.replies[k].response.keepAlive
  {
    ReachedIsGood(g, oracles, site, events, t, i, c);
    ReachedIsGood(g, oracles, site, events, t, i, t.workers[i].cur);
  }

  /** Over any run, a response that names a file answers a request whose target passed the check,
      and that file, which could be opened, lies at or below the document root. */
  lemma FilesServedBelowRoot(g: Parsing.Grammar, oracles: seq<nat -> WriteSteps.Answer>, site: Site,
                             events: seq<Event>, t: Server, i: nat, c: Connection, k: nat)
    requires g.Lawful() && Reached(g, oracles, site, events, t)
    requires i < |t.workers| && ConnectionOf(c, t.workers[i]) && k < |c.replies|
    requires c.replies[k].response.content.File?
    ensures k < |c.handed|
    ensures var target := site.target(c.handed[k]);
            target != "" && target[0] == '/' && !Contains(target, "..")
    ensures var res := c.replies[k].response;
            && res.status == 200 && site.opens(res.content.path)
            && Paths.AtOrBelow(site.docRoot, res.content.path)
            && StandsFor(site.docRoot, site.target(c.handed[k]), res.content.path)
  {
    ReachedIsGood(g, oracles, site, events, t, i, c);
    AnswerAnswers(site, c.handed[k]);
    AnswersStayBelowRoot(site, c.handed[k], c.replies[k].response);
  }

  /** Once shutdown has begun, a connection begins at most one further response, which is its
      last and a 503 that does not keep the connection, and at most two complete on it. */
  lemma AtMostOneLateResponse(g: Parsing.Grammar, oracles: seq<nat -> WriteSteps.Answer>, site: Site,
                              events: seq<Event>, t: Server, i: nat, c: Connection)
    requires g.Lawful() && Reached(g, oracles, site, events, t)
    requires i < |t.workers| && ConnectionOf(c, t.workers[i])
    ensures forall k :: 0 <= k < |c.replies| && c.replies[k].late ==>
              k == |c.replies| - 1 && c.replies[k].response.status == 503 && !c.replies[k].response.keepAlive
    ensures c.finishedLate <= 2
    ensures c == t.workers[i].cur && c.replies != [] && c.replies[|c.replies| - 1].late ==>
              t.workers[i].task.Writing? || t.workers[i].task.Ended?
  {
    ReachedIsGood(g, oracles, site, events, t, i, c);
  }

  // ---------- after the stop body ----------

  /** This event executes the body of `stop()`. */
  ghost predicate Stops(s: Server, site: Site, e: Event)
    requires ServerInv(s, site) && Enabled(s, e)
  {
    !s.stopped && Next(s, site, e).stopped
  }

  /** A completion that is not an abort, or a posted continuation, is queued. */
  predicate Queued(w: Worker) {
    w.slot.Ready? && w.slot.done.ec != Aborted
  }

  lemma StopDooms(s: Server, site: Site, e: Event, i: nat)
    requires ServerInv(s, site) && Enabled(s, e) && Stops(s, site, e) && i < |s.workers|
    ensures var w, w' := s.workers[i], Next(s, site, e).workers[i];
            && w' == CancelSocket(CancelAccept(w)) && w'.issued == w.issued
            && (Doomed(w') <==> !Queued(w)) && (Queued(w) ==> w' == w)
  {
  }

  /** Once stopped, no event cancels anything or touches a worker other than its own. */
  lemma DoomedStays(s: Server, site: Site, e: Event, i: nat)
    requires ServerInv(s, site) && Enabled(s, e) && s.stopped && i < |s.workers| && Doomed(s.workers[i])
    ensures Next(s, site, e).stopped
    ensures Doomed(Next(s, site, e).workers[i]) && Next(s, site, e).workers[i].issued == s.workers[i].issued
  {
    if e.RunWorker? && e.i == i {
      AbortEndsSilently(s.workers[i], site, s.down);
    }
  }

  lemma {:induction false} DoomedIssuesNothing(s: Server, site: Site, events: seq<Event>, t: Server, i: nat)
    requires ServerInv(s, site) && Runs(s, site, events, t) && s.stopped && i < |s.workers| && Doomed(s.workers[i])
    ensures i < |t.workers| && Doomed(t.workers[i]) && t.workers[i].issued == s.workers[i].issued
    decreases |events|
  {
    if events != [] {
      DoomedStays(s, site, events[0], i);
      DoomedIssuesNothing(Next(s, site, events[0]), site, events[1..], t, i);
    }
  }

  /** Some run after this state makes worker `i` begin an operation. */
  ghost predicate CanStillIssue(s: Server, site: Site, i: nat)
    requires ServerInv(s, site) && i < |s.workers|
  {
    exists events, t ::
      Runs(s, site, events, t) && i < |t.workers| && t.workers[i].issued > s.workers[i].issued
  }

  lemma NoEvents(s: Server, site: Site)
    requires ServerInv(s, site)
    ensures Runs(s, site, [], s)
  {
  }

  lemma OneEventMore(s: Server, site: Site, e: Event, events: seq<Event>, t: Server)
    requires ServerInv(s, site) && Enabled(s, e) && Runs(Next(s, site, e), site, events, t)
    ensures Runs(s, site, [e] + events, t)
  {
    assert ([e] + events)[1..] == events;
  }

  /** Whatever happens after this state, worker `i` begins nothing, and has ended or waits for
      nothing but the handler of its abort, which ends it. */
  ghost predicate OnlyEnds(s: Server, site: Site, i: nat)
    requires ServerInv(s, site) && i < |s.workers|
  {
    forall events, t | Runs(s, site, events, t) ::
      i < |t.workers| && t.workers[i].issued == s.workers[i].issued && Doomed(t.workers[i])
  }

  /** In every interleaving a worker can begin an operation after the stop body has run exactly
      when a completion that is not an abort, or a posted continuation, was queued for it at that
      moment. Every other worker takes its abort and ends, whatever it was doing. */
  lemma IssuesAfterStopIffQueued(s: Server, site: Site, e: Event, i: nat)
    requires ServerInv(s, site) && Enabled(s, e) && Stops(s, site, e) && i < |s.workers|
    ensures CanStillIssue(Next(s, site, e), site, i) <==> Queued(s.workers[i])
    ensures OnlyEnds(Next(s, site, e), site, i) <==> !Queued(s.workers[i])
  {
    hide Runs;
    var s' := Next(s, site, e);
    StopDooms(s, site, e, i);
    if Queued(s.workers[i]) {
      var run := RunWorker(i);
      var t := Next(s', site, run);
      OthersIssue(s'.workers[i], site, s'.down);
      NoEvents(t, site);
      OneEventMore(s', site, run, [], t);
    } else {
      forall events, t | Runs(s', site, events, t)
        ensures i < |t.workers| && t.workers[i].issued == s'.workers[i].issued && Doomed(t.workers[i])
      {
        DoomedIssuesNothing(s', site, events, t, i);
      }
    }
  }

  /** Such a completion can be queued then: a worker accepts while the second signal's handler,
      already queued, is about to stop the server. So a stop does not end every run. */
  lemma StopCanFindOneQueued(g: Parsing.Grammar, oracle: nat -> WriteSteps.Answer, site: Site)
    requires g.Lawful()
    ensures exists s ::
              && Reached(g, [oracle], site, RACE, s) && |s.workers| == 1
              && ServerInv(s, site) && Enabled(s, RunOnSignal) && Stops(s, site, RunOnSignal)
              && Queued(s.workers[0]) && CanStillIssue(Next(s, site, RunOnSignal), site, 0)
  {
    hide Runs, Inv, WorkersInv, FlagsInv;
    StartedInv(g, [oracle], site);
    var s0 := Started(g, [oracle]);
    var s1 := Next(s0, site, SignalArrives(Ok));
    var s2 := Next(s1, site, RunOnSignal);
    var s3 := Next(s2, site, SignalArrives(Ok));
    var s4 := Next(s3, site, IoCompletes(0, Plain(Ok)));
    NoEvents(s4, site);
    OneEventMore(s3, site, RACE[3], [], s4);
    assert [RACE[3]] + [] == RACE[3..] && [RACE[2]] + RACE[3..] == RACE[2..];
    OneEventMore(s2, site, RACE[2], RACE[3..], s4);
    assert [RACE[1]] + RACE[2..] == RACE[1..] && [RACE[0]] + RACE[1..] == RACE;
    OneEventMore(s1, site, RACE[1], RACE[2..], s4);
    OneEventMore(s0, site, RACE[0], RACE[1..], s4);
    assert Runs(s0, site, RACE, s4);
    IssuesAfterStopIffQueued(s4, site, RunOnSignal, 0);
  }

  const RACE := [SignalArrives(Ok), RunOnSignal, SignalArrives(Ok), IoCompletes(0, Plain(Ok))]

  // ---------- draining ----------

  function ReadyCount(workers: seq<Worker>): nat {
    if workers == [] then 0
    else (if workers[0].slot.Ready? then 1 else 0) + ReadyCount(workers[1..])
  }

  lemma {:induction false} ReadyCountUpdate(workers: seq<Worker>, i: nat, w: Worker)
    requires i < |workers| && workers[i].slot.Ready? && !w.slot.Ready?
    ensures ReadyCount(workers) == ReadyCount(workers[i := w]) + 1
  {
    if i == 0 {
      assert workers[i := w][1..] == workers[1..];
    } else {
      assert workers[i := w][1..] == workers[1..][i - 1 := w];
      ReadyCountUpdate(workers[1..], i - 1, w);
    }
  }

  lemma {:induction false} ReadyCountBound(workers: seq<Worker>)
    ensures ReadyCount(workers) <= |workers|
    ensures ReadyCount(workers) == 0 <==> forall i :: 0 <= i < |workers| ==> !workers[i].slot.Ready?
  {
    if workers != [] {
      ReadyCountBound(workers[1..]);
      if forall i :: 0 <= i < |workers| ==> !workers[i].slot.Ready? {
        assert forall i :: 0 <= i < |workers[1..]| ==> !workers[1..][i].slot.Ready? by {
          assert forall i :: 0 <= i < |workers[1..]| ==> workers[1..][i] == workers[i + 1];
        }
      } else {
        var i :| 0 <= i < |workers| && workers[i].slot.Ready?;
        assert i > 0 ==> workers[1..][i - 1].slot.Ready?;
      }
    }
  }

  /** The work the event loop still has once nothing is in flight. */
  function Work(s: Server): nat {
    ReadyCount(s.workers) + s.sig.Pending() + s.timer.Pending()
  }

  ghost predicate Draining(s: Server, site: Site) {
    ServerInv(s, site) && s.stopped && forall i :: 0 <= i < |s.workers| ==> Doomed(s.workers[i])
  }

  /** While draining, every event is a handler, begins nothing, and leaves one piece of work less. */
  lemma DrainStep(s: Server, site: Site, e: Event)
    requires Draining(s, site) && Enabled(s, e)
    ensures IsHandler(e) && Draining(Next(s, site, e), site) && Work(Next(s, site, e)) == Work(s) - 1
  {
    var t := Next(s, site, e);
    forall i | 0 <= i < |s.workers|
      ensures Doomed(t.workers[i])
    {
      DoomedStays(s, site, e, i);
    }
    assert forall i :: 0 <= i < |s.workers| ==> Doomed(s.workers[i]) && !s.workers[i].slot.InFlight?;
    if e.RunWorker? {
      AbortEndsSilently(s.workers[e.i], site, s.down);
      ReadyCountUpdate(s.workers, e.i, t.workers[e.i]);
    }
  }

  lemma {:induction false} DrainRuns(s: Server, site: Site, events: seq<Event>, t: Server)
    requires Draining(s, site) && Runs(s, site, events, t)
    ensures Draining(t, site) && |events| + Work(t) == Work(s)
    ensures forall i :: 0 <= i < |events| ==> IsHandler(events[i])
    decreases |events|
  {
    if events != [] {
      DrainStep(s, site, events[0]);
      DrainRuns(Next(s, site, events[0]), site, events[1..], t);
    }
  }

  /** As long as there is work some handler can run, and without work nothing can happen. */
  lemma WorkIsRunnable(s: Server, site: Site)
    requires Draining(s, site)
    ensures Work(s) > 0 <==> exists e :: Enabled(s, e)
  {
    ReadyCountBound(s.workers);
    if s.sig.Fired? {
      assert Enabled(s, RunOnSignal);
    } else if s.timer.Fired? {
      assert Enabled(s, RunOnTimer);
    } else if ReadyCount(s.workers) > 0 {
      var i :| 0 <= i < |s.workers| && s.workers[i].slot.Ready?;
      assert Enabled(s, RunWorker(i));
    }
    if e :| Enabled(s, e) {
      DrainStep(s, site, e);
    }
  }

  lemma StopStartsDraining(s: Server, site: Site, e: Event)
    requires ServerInv(s, site) && Enabled(s, e) && Stops(s, site, e)
    requires forall i :: 0 <= i < |s.workers| ==> !Queued(s.workers[i])
    ensures Draining(Next(s, site, e), site) && Work(Next(s, site, e)) <= |s.workers| + 1
    ensures forall i :: 0 <= i < |s.workers| ==> Next(s, site, e).workers[i].issued == s.workers[i].issued
  {
    var s' := Next(s, site, e);
    forall i | 0 <= i < |s.workers|
      ensures Doomed(s'.workers[i]) && s'.workers[i].issued == s.workers[i].issued
    {
      StopDooms(s, site, e, i);
    }
    ReadyCountBound(s'.workers);
  }

  ghost predicate AllEnded(s: Server) {
    s.sig.Off? && s.timer.Off? && forall i :: 0 <= i < |s.workers| ==> s.workers[i].task.Ended?
  }

  lemma DrainedMeansEnded(s: Server, site: Site)
    requires Draining(s, site)
    ensures Work(s) == 0 <==> AllEnded(s)
  {
    ReadyCountBound(s.workers);
    forall i | 0 <= i < |s.workers|
      ensures s.workers[i].task.Ended? <==> !s.workers[i].slot.Ready?
    {
      assert Doomed(s.workers[i]) && Sound(s.workers[i]);
    }
  }

  /** If no worker has a completion queued that is not an abort when the stop body runs, the
      event loop drains: at most N + 1 more handlers run for N workers, nothing else happens,
      no operation is begun, and the run cannot continue exactly when nobody is left alive. */
  lemma StopDrains(s: Server, site: Site, e: Event, events: seq<Event>, t: Server)
    requires ServerInv(s, site) && Enabled(s, e) && Stops(s, site, e)
    requires forall i :: 0 <= i < |s.workers| ==> !Queued(s.workers[i])
    requires Runs(Next(s, site, e), site, events, t)
    ensures |events| <= |s.workers| + 1 && forall i :: 0 <= i < |events| ==> IsHandler(events[i])
    ensures |t.workers| == |s.workers|
    ensures forall i :: 0 <= i < |t.workers| ==> t.workers[i].issued == s.workers[i].issued
    ensures (forall e' :: !Enabled(t, e')) <==> AllEnded(t)
  {
    hide Next, Inv, FlagsInv, WorkersInv, AllEnded, Queued, Stops, Doomed, Runs;
    var s' := Next(s, site, e);
    StopStartsDraining(s, site, e);
    DrainRuns(s', site, events, t);
    RunsKeep(s', site, events, t);
    forall i | 0 <= i < |t.workers|
      ensures t.workers[i].issued == s.workers[i].issued
    {
      DoomedIssuesNothing(s', site, events, t, i);
    }
    WorkIsRunnable(t, site);
    DrainedMeansEnded(t, site);
  }

  // ---------- exactly when it drains ----------

  /** A completion that any operation in flight may have. */
  const RESET := Arrival(Io(0), [])

  /** What keeps a worker that is not doomed going: its queued handler, or an error of what is in flight. */
  function KeepsGoing(s: Server, i: nat): Event
    requires i < |s.workers|
  {
    if s.workers[i].slot.Ready? then RunWorker(i) else IoCompletes(i, RESET)
  }

  /** Running a handler that takes no abort leaves none queued. */
  lemma HandledIsNotDoomed(w: Worker, site: Site, down: bool)
    requires Sound(w) && w.slot.Ready? && w.slot.done.ec != Aborted
    ensures !Doomed(Handle(w, site, down))
  {
    match w.task
    case Accepting =>
    case Header(_) => HeaderResumes(w);
    case Body(_) => BodyResumes(w);
    case Writing(_) => WriteResumes(w);
    hide ReadSteps.HeaderResume, ReadSteps.BodyResume, WriteSteps.WriteResume, Sound;
  }

  lemma AliveKeepsGoing(s: Server, site: Site, i: nat)
    requires ServerInv(s, site) && i < |s.workers| && !Doomed(s.workers[i])
    ensures Enabled(s, KeepsGoing(s, i)) && !Doomed(Next(s, site, KeepsGoing(s, i)).workers[i])
  {
    assert Inv(s.workers[i], site, s.down);
    if s.workers[i].slot.Ready? {
      HandledIsNotDoomed(s.workers[i], site, s.down);
    }
    hide Handle;
  }

  /** As long as one worker is not doomed there are runs of every length. */
  lemma {:induction false} AliveRunsOn(s: Server, site: Site, i: nat, n: nat) returns (events: seq<Event>, t: Server)
    requires ServerInv(s, site) && i < |s.workers| && !Doomed(s.workers[i])
    ensures Runs(s, site, events, t) && |events| == n
    decreases n
  {
    hide Runs, ServerInv, Doomed;
    if n == 0 {
      NoEvents(s, site);
      return [], s;
    }
    AliveKeepsGoing(s, site, i);
    var rest;
    rest, t := AliveRunsOn(Next(s, site, KeepsGoing(s, i)), site, i, n - 1);
    OneEventMore(s, site, KeepsGoing(s, i), rest, t);
    events := [KeepsGoing(s, i)] + rest;
  }

  /** No run from this state has more than `n` events. */
  ghost predicate EndsWithin(s: Server, site: Site, n: nat)
    requires ServerInv(s, site)
  {
    forall events, t | Runs(s, site, events, t) :: |events| <= n
  }

  /** After the stop body the event loop is bound to come to an end exactly when no worker had a
      completion queued that is not an abort; and then within N + 1 handlers. */
  lemma DrainsIffNoneQueued(s: Server, site: Site, e: Event)
    requires ServerInv(s, site) && Enabled(s, e) && Stops(s, site, e)
    ensures (exists n: nat :: EndsWithin(Next(s, site, e), site, n))
            <==> forall i :: 0 <= i < |s.workers| ==> !Queued(s.workers[i])
    ensures (exists n: nat :: EndsWithin(Next(s, site, e), site, n))
            <==> EndsWithin(Next(s, site, e), site, |s.workers| + 1)
  {
    hide Runs, ServerInv, Next, Stops, Enabled, Doomed, Queued;
    var s' := Next(s, site, e);
    if i :| 0 <= i < |s.workers| && Queued(s.workers[i]) {
      StopDooms(s, site, e, i);
      forall n: nat ensures !EndsWithin(s', site, n) {
        var events, t := AliveRunsOn(s', site, i, n + 1);
      }
    } else {
      forall events, t | Runs(s', site, events, t) ensures |events| <= |s.workers| + 1 {
        StopDrains(s, site, e, events, t);
      }
      assert EndsWithin(s', site, |s.workers| + 1);
    }
  }
}
