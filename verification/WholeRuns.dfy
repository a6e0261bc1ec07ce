/** What whole runs of a server do to its workers and their connections. */
module WholeRuns {
  import opened Codes
  import Parsing
  import WriteSteps
  import opened Requests
  import opened Connections
  import opened WorkerModel
  import opened WorkerTheorems
  import opened ServerModel
  import opened Shutdown
  import opened Histories

  // ---------- one event, one worker ----------

  /** A worker that is not the one whose handler runs: nothing, a completion, or the cancellations. */
  ghost predicate Waits(w: Worker, w': Worker, i: nat, e: Event) {
    || w' == w
    || (w.slot.InFlight? && e.IoCompletes? && e.i == i && w' == CompleteIo(w, e.a))
    || ((e == RunOnSignal || e == RunOnTimer) && w' == CancelSocket(CancelAccept(w)))
  }

  lemma NextOfWorker(s: Server, site: Site, e: Event, i: nat)
    requires ServerInv(s, site) && Enabled(s, e) && i < |s.workers|
    ensures var w, w' := s.workers[i], Next(s, site, e).workers[i];
            && Inv(w, site, s.down)
            && (if e == RunWorker(i) then w.slot.Ready? && w' == Handle(w, site, s.down) else Waits(w, w', i, e))
            && (e.IoCompletes? && e.i == i ==> w.slot.InFlight? && w' == CompleteIo(w, e.a) && e.a.ec != Aborted)
  {
    hide Handle, Inv, Possible;
  }

  lemma WaitingKeepsAll(w: Worker, w': Worker, i: nat, e: Event)
    requires Waits(w, w', i, e)
    ensures All(w') == All(w) && w'.task == w.task
  {
  }

  // ---------- the history is what happened ----------

  ghost predicate AllRecorded(s: Server) {
    forall i :: 0 <= i < |s.workers| ==> Recorded(s.workers[i])
  }

  lemma WaitingKeepsRecorded(w: Worker, w': Worker, i: nat, e: Event)
    requires Sound(w) && Recorded(w) && Waits(w, w', i, e)
    ensures Recorded(w')
  {
    hide Recorded, Sound;
    if w.slot.InFlight? && w' != w {
      RecordedCompletes(w, if e.IoCompletes? then e.a else Plain(Aborted));
    }
  }

  lemma NextRecorded(s: Server, site: Site, e: Event)
    requires ServerInv(s, site) && Enabled(s, e) && AllRecorded(s)
    ensures AllRecorded(Next(s, site, e))
  {
    hide Next, Recorded, Handle, Waits, Course, AllGood;
    forall i | 0 <= i < |s.workers|
      ensures Recorded(Next(s, site, e).workers[i])
    {
      NextOfWorker(s, site, e, i);
      if e == RunWorker(i) {
        RecordedHandled(s.workers[i], site, s.down);
      } else {
        WaitingKeepsRecorded(s.workers[i], Next(s, site, e).workers[i], i, e);
      }
    }
  }

  lemma {:induction false} RunsRecorded(s: Server, site: Site, events: seq<Event>, t: Server)
    requires ServerInv(s, site) && Runs(s, site, events, t) && AllRecorded(s)
    ensures AllRecorded(t)
    decreases |events|
  {
    hide Next, AllRecorded, ServerInv, Enabled;
    if events != [] {
      NextRecorded(s, site, events[0]);
      RunsRecorded(Next(s, site, events[0]), site, events[1..], t);
    }
  }

  lemma StartedRecorded(g: Parsing.Grammar, oracles: seq<nat -> WriteSteps.Answer>)
    ensures AllRecorded(Started(g, oracles))
  {
    forall i | 0 <= i < |oracles|
      ensures Recorded(Started(g, oracles).workers[i])
    {
      var w := Started(g, oracles).workers[i];
      assert All(w) == [NEW, NEW];
      assert FactsOfAll(All(w)) == [BLANK, BLANK];
    }
  }

  /** The completions that the environment gave to worker `i`. */
  function Given(events: seq<Event>, i: nat): seq<Arrival> {
    if events == [] then []
    else (if events[0].IoCompletes? && events[0].i == i then [events[0].a] else []) + Given(events[1..], i)
  }

  /** Those a worker heard of, cancellations aside. */
  function NotAborted(log: seq<Heard>): seq<Arrival> {
    if log == [] then []
    else NotAborted(log[..|log| - 1]) + (if log[|log| - 1].a.ec == Aborted then [] else [log[|log| - 1].a])
  }

  lemma NextHears(s: Server, site: Site, e: Event, i: nat)
    requires ServerInv(s, site) && Enabled(s, e) && i < |s.workers|
    ensures NotAborted(Next(s, site, e).workers[i].log) == NotAborted(s.workers[i].log) + Given([e], i)
  {
    hide Next, Handle, Inv;
    NextOfWorker(s, site, e, i);
    var w, w' := s.workers[i], Next(s, site, e).workers[i];
    if e == RunWorker(i) {
      HandleEvolves(w, site, s.down);
    } else if w'.log != w.log {
      assert w'.log[..|w'.log| - 1] == w.log;
    }
    assert Given([], i) == [];
  }

  lemma {:induction false} RunsHear(s: Server, site: Site, events: seq<Event>, t: Server, i: nat)
    requires ServerInv(s, site) && Runs(s, site, events, t) && i < |s.workers|
    ensures i < |t.workers| && NotAborted(t.workers[i].log) == NotAborted(s.workers[i].log) + Given(events, i)
    decreases |events|
  {
    hide Next, ServerInv, NotAborted;
    if events != [] {
      NextHears(s, site, events[0], i);
      RunsHear(Next(s, site, events[0]), site, events[1..], t, i);
      assert Given([events[0]], i) + Given(events[1..], i) == Given(events, i) by {
        assert [events[0]][1..] == [];
      }
    }
  }

  /** Over any run, the connections of a worker with their bytes in both directions, their ends and
      failures are those that the completions given to it make up, cancellations aside; and what it
      heard of but has not handled yet is at most the last of them. */
  lemma HistoryIsWhatHappened(g: Parsing.Grammar, oracles: seq<nat -> WriteSteps.Answer>, site: Site,
                              events: seq<Event>, t: Server, i: nat)
    requires g.Lawful() && Reached(g, oracles, site, events, t) && i < |t.workers|
    ensures Recorded(t.workers[i]) && NotAborted(t.workers[i].log) == Given(events, i)
  {
    StartedInv(g, oracles, site);
    StartedRecorded(g, oracles);
    RunsKeep(Started(g, oracles), site, events, t);
    RunsRecorded(Started(g, oracles), site, events, t);
    RunsHear(Started(g, oracles), site, events, t, i);
    assert NotAborted(Started(g, oracles).workers[i].log) == [];
  }

  /** Over any run, a worker that reads or writes does so on a connection whose accept succeeded:
      the latest accept it heard of completed without error. */
  lemma ReadsOnlyAfterAccept(g: Parsing.Grammar, oracles: seq<nat -> WriteSteps.Answer>, site: Site,
                             events: seq<Event>, t: Server, i: nat)
    requires g.Lawful() && Reached(g, oracles, site, events, t) && i < |t.workers|
    requires t.workers[i].task.Header? || t.workers[i].task.Body? || t.workers[i].task.Writing?
    ensures var log := t.workers[i].log;
            exists j :: 0 <= j < |log| && log[j].io == Accept && log[j].a.ec == Ok
                        && forall k :: j < k < |log| ==> log[k].io != Accept
  {
    HistoryIsWhatHappened(g, oracles, site, events, t, i);
    StartedInv(g, oracles, site);
    RunsKeep(Started(g, oracles), site, events, t);
    assert Inv(t.workers[i], site, t.down);
    var j := AcceptedBefore(t.workers[i], site, t.down);
  }

  // ---------- before shutdown, after it, and until the server stops ----------

  ghost predicate AllAnswered(w: Worker, site: Site) {
    forall p :: 0 <= p < |All(w)| ==> AnsweredByHandler(All(w)[p], site)
  }

  ghost predicate AnsweredByHandler(c: Connection, site: Site) {
    |c.replies| <= |c.handed| && forall k :: 0 <= k < |c.replies| ==> Answers(site, c.handed[k], c.replies[k].response)
  }

  lemma HandleAnswers(w: Worker, site: Site)
    requires Inv(w, site, false) && w.slot.Ready? && AllAnswered(w, site)
    ensures AllAnswered(Handle(w, site, false), site)
  {
    hide Handle, Sound, Course, AllGood, Answers, Heeds;
    HandleEvolves(w, site, false);
    var w' := Handle(w, site, false);
    assert All(w)[|w.past|] == w.cur;
    assert AnsweredByHandler(Touched(w, w'), site);
    forall p | 0 <= p < |All(w')|
      ensures AnsweredByHandler(All(w')[p], site)
    {
      assert p < |w.past| ==> All(w')[p] == All(w)[p];
    }
  }

  lemma NextAnswers(s: Server, site: Site, e: Event, i: nat)
    requires ServerInv(s, site) && Enabled(s, e) && !s.down && i < |s.workers| && AllAnswered(s.workers[i], site)
    ensures AllAnswered(Next(s, site, e).workers[i], site)
  {
    hide Next, AllAnswered, Handle, Inv;
    NextOfWorker(s, site, e, i);
    if e == RunWorker(i) {
      HandleAnswers(s.workers[i], site);
    } else {
      WaitingKeepsAll(s.workers[i], Next(s, site, e).workers[i], i, e);
      SameAnswers(s.workers[i], Next(s, site, e).workers[i], site);
    }
  }

  lemma SameAnswers(w: Worker, w': Worker, site: Site)
    requires All(w') == All(w)
    ensures AllAnswered(w, site) <==> AllAnswered(w', site)
  {
  }

  lemma {:induction false} RunsAnswer(s: Server, site: Site, events: seq<Event>, t: Server, i: nat)
    requires ServerInv(s, site) && Runs(s, site, events, t) && !t.down && i < |s.workers|
    requires AllAnswered(s.workers[i], site)
    ensures i < |t.workers| && AllAnswered(t.workers[i], site)
    decreases |events|
  {
    hide Next, AllAnswered, ServerInv;
    RunsKeep(s, site, events, t);
    if events != [] {
      NextAnswers(s, site, events[0], i);
      RunsAnswer(Next(s, site, events[0]), site, events[1..], t, i);
    }
  }

  /** Over any run and before shutdown begins, every response is the handler's answer to its request. */
  lemma BeforeShutdown(g: Parsing.Grammar, oracles: seq<nat -> WriteSteps.Answer>, site: Site,
                       events: seq<Event>, t: Server, i: nat, c: Connection, k: nat)
    requires g.Lawful() && Reached(g, oracles, site, events, t) && !t.down
    requires i < |t.workers| && ConnectionOf(c, t.workers[i]) && k < |c.replies|
    ensures k < |c.handed| && Answers(site, c.handed[k], c.replies[k].response)
  {
    StartedInv(g, oracles, site);
    var s := Started(g, oracles);
    RunsKeep(s, site, events, t);
    assert All(s.workers[i]) == [NEW, NEW];
    RunsAnswer(s, site, events, t, i);
    hide Inv, Answers;
    assert c in All(t.workers[i]);
    var p :| 0 <= p < |All(t.workers[i])| && All(t.workers[i])[p] == c;
    assert AnsweredByHandler(c, site);
  }

  /** What may have become of a connection in the course of shutdown: all that is new is refused. */
  ghost predicate Refuses(c: Connection, c': Connection) {
    && c.replies <= c'.replies && c.finished <= c'.finished
    && forall k :: |c.replies| <= k < |c'.replies| ==>
         Unavailable(c'.replies[k].response)
  }

  /** The connection with number `p`, or one that is yet to come. */
  function Numbered(w: Worker, p: nat): Connection {
    if p < |All(w)| then All(w)[p] else NEW
  }

  ghost predicate RefusesAll(w: Worker, w': Worker) {
    |All(w)| <= |All(w')| && forall p: nat :: Refuses(Numbered(w, p), Numbered(w', p))
  }

  lemma GrowsRefuses(c: Connection, c': Connection, site: Site)
    requires Grows(site, true, c, c')
    ensures Refuses(c, c')
  {
  }

  lemma RefusesSame()
    ensures forall c: Connection :: Refuses(c, c)
  {
  }

  lemma HandleRefuses(w: Worker, site: Site)
    requires Inv(w, site, true) && w.slot.Ready?
    ensures RefusesAll(w, Handle(w, site, true))
  {
    HandleEvolves(w, site, true);
    hide Handle, Inv, Heeds, Grows, Refuses;
    var w' := Handle(w, site, true);
    GrowsRefuses(w.cur, Touched(w, w'), site);
    RefusesSame();
    forall p: nat
      ensures Refuses(Numbered(w, p), Numbered(w', p))
    {
      if p < |w.past| {
        assert All(w')[p] == All(w)[p];
      } else if p == |w.past| {
        assert All(w')[p] == Touched(w, w');
      }
    }
  }

  lemma RefusesTwice(w: Worker, v: Worker, w': Worker)
    requires RefusesAll(w, v) && RefusesAll(v, w')
    ensures RefusesAll(w, w')
  {
    hide Numbered;
    forall p: nat
      ensures Refuses(Numbered(w, p), Numbered(w', p))
    {
      var c, d, c' := Numbered(w, p), Numbered(v, p), Numbered(w', p);
      assert Refuses(c, d) && Refuses(d, c');
      forall k | |c.replies| <= k < |c'.replies|
        ensures Unavailable(c'.replies[k].response)
      {
        assert k < |d.replies| ==> c'.replies[k] == d.replies[k];
      }
    }
  }

  lemma NextRefuses(s: Server, site: Site, e: Event, i: nat)
    requires ServerInv(s, site) && Enabled(s, e) && s.down && i < |s.workers|
    ensures RefusesAll(s.workers[i], Next(s, site, e).workers[i])
  {
    hide Next, Handle, Inv;
    NextOfWorker(s, site, e, i);
    if e == RunWorker(i) {
      HandleRefuses(s.workers[i], site);
    } else {
      WaitingKeepsAll(s.workers[i], Next(s, site, e).workers[i], i, e);
    }
  }

  lemma {:induction false} RunsRefuse(s: Server, site: Site, events: seq<Event>, t: Server, i: nat)
    requires ServerInv(s, site) && Runs(s, site, events, t) && s.down && i < |s.workers|
    ensures i < |t.workers| && RefusesAll(s.workers[i], t.workers[i])
    decreases |events|
  {
    hide Next, ServerInv, RefusesAll;
    RunsKeep(s, site, events, t);
    if events == [] {
      RefusesNone(s.workers[i]);
    } else {
      var s' := Next(s, site, events[0]);
      RunsKeep(s, site, [events[0]], s') by {
        NoEvents(s', site);
        OneEventMore(s, site, events[0], [], s');
      }
      NextRefuses(s, site, events[0], i);
      RunsRefuse(s', site, events[1..], t, i);
      RefusesTwice(s.workers[i], s'.workers[i], t.workers[i]);
    }
  }

  lemma RefusesNone(w: Worker)
    ensures RefusesAll(w, w)
  {
  }

  /** From any moment of a run at which shutdown has begun: on each connection, one that is yet to
      come included, at most one further response is begun, a 503 that closes the connection, and
      at most two complete, one of which was under way. */
  lemma AfterShutdown(s: Server, site: Site, events: seq<Event>, t: Server, i: nat, p: nat)
    requires ServerInv(s, site) && Runs(s, site, events, t) && s.down && i < |s.workers|
    ensures |t.workers| == |s.workers|
    ensures var c, c' := Numbered(s.workers[i], p), Numbered(t.workers[i], p);
            && c.replies <= c'.replies && |c'.replies| <= |c.replies| + 1
            && (|c'.replies| > |c.replies| ==>
                  Unavailable(c'.replies[|c.replies|].response))
            && c.finished <= c'.finished <= c.finished + 2
  {
    RunsKeep(s, site, events, t);
    RunsRefuse(s, site, events, t, i);
    NumberedIsGood(s, site, i, p);
    NumberedIsGood(t, site, i, p);
    hide ServerInv, Numbered, KeptUntilLast, Refuses;
    assert Refuses(Numbered(s.workers[i], p), Numbered(t.workers[i], p));
    RefusesAtMostOne(Numbered(s.workers[i], p), Numbered(t.workers[i], p));
  }

  lemma RefusesAtMostOne(c: Connection, c': Connection)
    requires Refuses(c, c') && KeptUntilLast(c')
    requires c.finished <= |c.replies| <= c.finished + 1 && c'.finished <= |c'.replies|
    ensures |c'.replies| <= |c.replies| + 1 && c'.finished <= c.finished + 2
    ensures c.replies <= c'.replies && c.finished <= c'.finished
    ensures |c'.replies| > |c.replies| ==>
              Unavailable(c'.replies[|c.replies|].response)
  {
    assert |c.replies| < |c'.replies| ==> !c'.replies[|c.replies|].response.keepAlive;
  }

  lemma NumberedIsGood(s: Server, site: Site, i: nat, p: nat)
    requires ServerInv(s, site) && i < |s.workers|
    ensures var c := Numbered(s.workers[i], p); KeptUntilLast(c) && c.finished <= |c.replies| <= c.finished + 1
  {
    var w := s.workers[i];
    assert Inv(w, site, s.down);
    if p < |w.past| {
      assert Good(w.pr.g, site, w.past[p]);
    }
  }

  lemma NextKeepsAlive(s: Server, site: Site, e: Event, i: nat)
    requires ServerInv(s, site) && Enabled(s, e) && !Next(s, site, e).stopped
    requires i < |s.workers| && !Doomed(s.workers[i])
    ensures !Doomed(Next(s, site, e).workers[i])
  {
    hide Handle, Course, AllGood;
    NextOfWorker(s, site, e, i);
    if e == RunWorker(i) {
      HandledIsNotDoomed(s.workers[i], site, s.down);
    }
  }

  lemma {:induction false} RunsKeepAlive(s: Server, site: Site, events: seq<Event>, t: Server, i: nat)
    requires ServerInv(s, site) && Runs(s, site, events, t) && !t.stopped && i < |s.workers| && !Doomed(s.workers[i])
    ensures i < |t.workers| && !Doomed(t.workers[i])
    decreases |events|
  {
    hide Next, ServerInv, Doomed;
    RunsKeep(s, site, events, t);
    if events != [] {
      var s' := Next(s, site, events[0]);
      RunsKeep(s', site, events[1..], t);
      NextKeepsAlive(s, site, events[0], i);
      RunsKeepAlive(s', site, events[1..], t, i);
    }
  }

  /** Every worker runs from the start, and none ends before the stop body has run. */
  lemma NoneEndsBeforeStop(g: Parsing.Grammar, oracles: seq<nat -> WriteSteps.Answer>, site: Site,
                           events: seq<Event>, t: Server, i: nat)
    requires g.Lawful() && Reached(g, oracles, site, events, t) && !t.stopped && i < |oracles|
    ensures i < |t.workers| && !t.workers[i].task.Ended? && !t.workers[i].slot.Free?
  {
    StartedInv(g, oracles, site);
    RunsKeepAlive(Started(g, oracles), site, events, t, i);
    RunsKeep(Started(g, oracles), site, events, t);
    assert Inv(t.workers[i], site, t.down);
  }
}
