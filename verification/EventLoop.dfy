/** The objects under the event loop: every run of the state machine is a run of them. */
module EventLoop {
  import opened Parsing
  import W = WriteSteps
  import opened Requests
  import SM = ServerModel
  import Shutdown
  import opened ServerObjects

  /** Let the events of a run happen to the objects. They end in the state the run ends in. */
  method RunEvents(srv: Server, site: Site, events: seq<SM.Event>, ghost t: SM.Server)
    requires srv.Valid() && srv.Serves(site) && SM.ServerInv(srv.View(), site)
    requires SM.Runs(srv.View(), site, events, t)
    modifies srv.Repr
    ensures srv.Valid() && fresh(srv.Repr - old(srv.Repr)) && srv.v == old(srv.v)
    ensures srv.View() == t
  {
    for n := 0 to |events|
      invariant srv.Valid() && fresh(srv.Repr - old(srv.Repr)) && srv.v == old(srv.v)
      invariant SM.ServerInv(srv.View(), site) && SM.Runs(srv.View(), site, events[n..], t)
    {
      assert events[n..][0] == events[n] && events[n..][1..] == events[n + 1..];
      srv.Step(site, events[n]);
    }
  }

  /** A whole program: boot, then any run. The theorems over runs hold of the objects, because
      they end in the state that the run reaches. */
  method Serve(site: Site, g: Grammar, oracles: seq<nat -> W.Answer>, events: seq<SM.Event>, ghost t: SM.Server)
    returns (srv: Server)
    requires g.Lawful() && Shutdown.Reached(g, oracles, site, events, t)
    ensures srv.Valid() && srv.View() == t
    ensures srv.signals <= 2 && srv.timeouts <= 1 && srv.stops <= 1
    ensures srv.isStopped ==> srv.isShuttingDown && !srv.sigs.Armed? && !srv.timer.Armed?
  {
    SM.StartedInv(g, oracles, site);
    Shutdown.EveryReachableState(g, oracles, site, events, t);
    srv := Boot(site, g, oracles);
    RunEvents(srv, site, events, t);
  }
}
