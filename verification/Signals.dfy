/** Exactly when the server begins to shut down, and exactly when it stops. */
module Signals {
  import opened Codes
  import Parsing
  import WriteSteps
  import opened Requests
  import opened WorkerModel
  import opened WorkerTheorems
  import opened ServerModel
  import opened Shutdown

  /** The first signal handled begins graceful shutdown: both waits are armed and no worker is
      touched. A later one stops the server, and so does an expired timer, but no failed wait.
      Nothing else changes either flag. */
  lemma FlagsChange(s: Server, site: Site, e: Event)
    requires ServerInv(s, site) && Enabled(s, e)
    ensures var t := Next(s, site, e);
            && (t.down <==> s.down || e == RunOnSignal)
            && (t.stopped <==> s.stopped || (e == RunOnSignal && s.down) || (e == RunOnTimer && s.timer == Fired(Ok)))
            && (e == RunOnSignal && !s.down ==> t.sig.Armed? && t.timer.Armed? && t.workers == s.workers)
            && (e == RunOnTimer && s.timer != Fired(Ok) ==> t.workers == s.workers && t.sig == s.sig)
  {
    hide Inv, CanComplete, Handle;
  }

  function SignalsHandled(events: seq<Event>): nat {
    if events == [] then 0
    else (if events[0] == RunOnSignal then 1 else 0) + SignalsHandled(events[1..])
  }

  /** The timer's wait is over, or pending. */
  ghost predicate TimerFollows(s: Server, events: seq<Event>) {
    && (TimerExpires(Ok) in events ==> s.timer.Armed? || !s.down)
    && (RunOnTimer in events ==> !s.timer.Off? || !s.down)
  }

  lemma TimerLaw(s: Server, site: Site, e: Event, rest: seq<Event>)
    requires ServerInv(s, site) && Enabled(s, e) && TimerFollows(Next(s, site, e), rest)
    ensures TimerFollows(s, [e] + rest)
  {
    hide Inv, CanComplete, Handle;
  }

  lemma {:induction false} TimerOnce(s: Server, site: Site, events: seq<Event>, t: Server)
    requires ServerInv(s, site) && Runs(s, site, events, t)
    ensures TimerFollows(s, events)
    decreases |events|
  {
    hide Next, Enabled, ServerInv;
    if events != [] {
      TimerOnce(Next(s, site, events[0]), site, events[1..], t);
      TimerLaw(s, site, events[0], events[1..]);
      assert [events[0]] + events[1..] == events;
    }
  }

  /** What makes a server stop: as many signals handled as it takes, or an expired timer. */
  ghost predicate MustStop(s: Server, events: seq<Event>) {
    || s.stopped
    || SignalsHandled(events) >= (if s.down then 1 else 2)
    || (RunOnTimer in events && (s.timer == Fired(Ok) || TimerExpires(Ok) in events))
  }

  lemma MustStopLaw(s: Server, site: Site, e: Event, rest: seq<Event>)
    requires ServerInv(s, site) && Enabled(s, e) && TimerFollows(Next(s, site, e), rest)
    ensures MustStop(s, [e] + rest) <==> MustStop(Next(s, site, e), rest)
  {
    hide Inv, CanComplete, Handle;
    assert ([e] + rest)[1..] == rest;
    FlagsChange(s, site, e);
  }

  lemma {:induction false} RunsFlags(s: Server, site: Site, events: seq<Event>, t: Server)
    requires ServerInv(s, site) && Runs(s, site, events, t)
    ensures t.down <==> s.down || SignalsHandled(events) > 0
    ensures t.stopped <==> MustStop(s, events)
    decreases |events|
  {
    hide ServerInv, MustStop;
    if events == [] {
      StopsNow(s);
    } else {
      var s' := Next(s, site, events[0]);
      RunsFlags(s', site, events[1..], t);
      FlagsChange(s, site, events[0]);
      TimerOnce(s', site, events[1..], t);
      MustStopLaw(s, site, events[0], events[1..]);
      assert [events[0]] + events[1..] == events;
    }
  }

  lemma StopsNow(s: Server)
    ensures MustStop(s, []) <==> s.stopped
  {
  }

  /** Over any run of a server: it shuts down exactly when a signal was handled, and the stop body
      has run, then once, exactly when two signals were handled or the timer expired and that was. */
  lemma ShutsDownAndStopsExactly(g: Parsing.Grammar, oracles: seq<nat -> WriteSteps.Answer>, site: Site,
                                 events: seq<Event>, t: Server)
    requires g.Lawful() && Reached(g, oracles, site, events, t)
    ensures t.down <==> SignalsHandled(events) > 0
    ensures t.stopped <==> SignalsHandled(events) >= 2 || (RunOnTimer in events && TimerExpires(Ok) in events)
    ensures t.stops == (if t.stopped then 1 else 0)
  {
    StartedInv(g, oracles, site);
    RunsFlags(Started(g, oracles), site, events, t);
    RunsKeep(Started(g, oracles), site, events, t);
  }
}
