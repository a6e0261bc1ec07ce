/** The example client: follow redirects, then print the body of the response as it arrives. */
module Client {
  import opened Codes
  import opened Parsing
  import opened ReadSteps
  import opened ReadLoops
  import opened ReadOps
  import opened Fragmentation

  /** What the client reads from a header. */
  datatype Peer = Peer(status: seq<byte> -> nat, hasLocation: seq<byte> -> bool)

  /** One connection the client makes: it cannot be made or written to, or it answers with a script. */
  datatype Hop = Unreachable(ec: Code) | Connected(script: seq<Arrival>)

  datatype Result = Exited | Threw(ec: Code) | BadRedirect | Waiting

  predicate IsRedirect(status: nat) {
    status == 301 || status == 302 || status == 307 || status == 308
  }

  // ---------- what a connection carries ----------

  /** The bytes of a connection up to the end of the stream, and whether it ended. */
  datatype Wire = Wire(bytes: seq<byte>, ended: bool)
  {
    /** All that the stream may turn out to bring before it ends. */
    predicate CouldBe(all: seq<byte>) {
      bytes <= all && (ended ==> all == bytes)
    }
  }

  predicate Ends(script: seq<Arrival>) {
    script != [] && (script[0].ec == Eof || Ends(script[1..]))
  }

  function WireOf(script: seq<Arrival>): Wire {
    Wire(Delivered(script), Ends(script))
  }

  /** What was printed is a prefix of the decoded body, whatever is still to come. */
  ghost predicate PrintsPrefix(g: Grammar, wire: Wire, printed: seq<byte>) {
    forall all | wire.CouldBe(all) :: printed <= g.body(all, true)
  }

  /** What was printed is the whole decoded body of a complete message. */
  ghost predicate PrintsAll(g: Grammar, wire: Wire, printed: seq<byte>) {
    forall all | wire.CouldBe(all) :: g.verdict(all, true).Complete? && printed == g.body(all, true)
  }

  // ---------- which response is printed, and how it ends ----------

  /** The first response that is not a redirect: the connection it comes on, the parser when its
      header is known, and what that connection still delivers; or why there is none. */
  datatype Landing = Stuck(res: Result) | Landed(hop: nat, run: Run)

  /** Follow the connections from number `k` on, each header read by a parser that was reset. */
  function Follow(peer: Peer, pr: ParserState, hops: seq<Hop>, k: nat): Landing
    decreases |hops| - k
  {
    if k >= |hops| then Stuck(Waiting)
    else if hops[k].Unreachable? then Stuck(Threw(hops[k].ec))
    else
      var r := ReadHeader(pr.Reset().Start(), hops[k].script);
      if r.out.Blocked? then Stuck(Waiting)
      else if r.out.ec.Failed() then Stuck(Threw(r.out.ec))
      else if !IsRedirect(peer.status(r.pr.seen)) then Landed(k, r)
      else if !peer.hasLocation(r.pr.seen) then Stuck(BadRedirect)
      else Follow(peer, r.pr, hops, k + 1)
  }

  // ---------- the same, connection by connection ----------

  /** The parser once the headers of the first `k` connections were read. */
  function ParserAt(pr: ParserState, hops: seq<Hop>, k: nat): ParserState
    requires k <= |hops|
    decreases k, 0
  {
    if k == 0 || hops[k - 1].Unreachable? then pr else HeaderAt(pr, hops, k - 1).pr
  }

  /** The header read on connection `k`, by a parser that was reset and started. */
  function HeaderAt(pr: ParserState, hops: seq<Hop>, k: nat): Run
    requires k < |hops| && hops[k].Connected?
    decreases k, 1
  {
    ReadHeader(ParserAt(pr, hops, k).Reset().Start(), hops[k].script)
  }

  /** Connection `k` answers with a redirect that can be followed. */
  ghost predicate Redirects(peer: Peer, pr: ParserState, hops: seq<Hop>, k: nat)
    requires k < |hops|
  {
    && hops[k].Connected? && HeaderAt(pr, hops, k).Succeeded()
    && peer.status(HeaderAt(pr, hops, k).pr.seen) in {301, 302, 307, 308}
    && peer.hasLocation(HeaderAt(pr, hops, k).pr.seen)
  }

  /** Connection `k` is reached: every one before it redirects. */
  ghost predicate ReachedHop(peer: Peer, pr: ParserState, hops: seq<Hop>, k: nat) {
    k <= |hops| && forall j :: 0 <= j < k ==> Redirects(peer, pr, hops, j)
  }

  /** What connection `k` means for a client that reaches it, if it is the last. */
  ghost predicate EndsAt(peer: Peer, pr: ParserState, hops: seq<Hop>, k: nat, l: Landing)
    requires k <= |hops|
  {
    if k == |hops| then l == Stuck(Waiting)
    else if hops[k].Unreachable? then l == Stuck(Threw(hops[k].ec))
    else
      var r := HeaderAt(pr, hops, k);
      match r.out
      case Blocked => l == Stuck(Waiting)
      case Completed(ec, _) =>
        if ec != Ok then l == Stuck(Threw(ec))
        else if peer.status(r.pr.seen) !in {301, 302, 307, 308} then l == Landed(k, r)
        else l == Stuck(BadRedirect) && !peer.hasLocation(r.pr.seen)
  }

  lemma FollowStep(peer: Peer, pr: ParserState, hops: seq<Hop>, k: nat, l: Landing)
    requires ReachedHop(peer, pr, hops, k)
    ensures if k < |hops| && Redirects(peer, pr, hops, k)
      then Follow(peer, ParserAt(pr, hops, k), hops, k) == Follow(peer, ParserAt(pr, hops, k + 1), hops, k + 1)
           && !EndsAt(peer, pr, hops, k, l)
      else Follow(peer, ParserAt(pr, hops, k), hops, k) == l <==> EndsAt(peer, pr, hops, k, l)
  {
  }

  lemma {:induction false} FollowFrom(peer: Peer, pr: ParserState, hops: seq<Hop>, k: nat, l: Landing)
    requires ReachedHop(peer, pr, hops, k)
    ensures l == Follow(peer, ParserAt(pr, hops, k), hops, k) <==>
              exists n :: k <= n <= |hops| && ReachedHop(peer, pr, hops, n) && EndsAt(peer, pr, hops, n, l)
    decreases |hops| - k
  {
    hide Follow, EndsAt, Redirects;
    FollowStep(peer, pr, hops, k, l);
    if k < |hops| && Redirects(peer, pr, hops, k) {
      FollowFrom(peer, pr, hops, k + 1, l);
    }
  }

  /** Where a client lands, or why it does not: on the first connection that does not answer with
      a redirect to follow, every one before it having done so. */
  ghost predicate Lands(peer: Peer, pr: ParserState, hops: seq<Hop>, l: Landing) {
    exists n :: 0 <= n <= |hops| && ReachedHop(peer, pr, hops, n) && EndsAt(peer, pr, hops, n, l)
  }

  lemma LandsIff(peer: Peer, pr: ParserState, hops: seq<Hop>, l: Landing)
    ensures l == Follow(peer, pr, hops, 0) <==> Lands(peer, pr, hops, l)
  {
    FollowFrom(peer, pr, hops, 0, l);
  }

  /** How a client ends that waits for a message with this fate. */
  function Settled(fate: Fate): Result {
    match fate
    case Undecided => Waiting
    case Whole(_) => Exited
    case Rejected(k) => Threw(Syntax(k))
    case Lost(ec) => Threw(ec)
  }

  /** The bytes that arrived before the one arrival that decides the fate of the message of which
      `b` is already buffered; all of them, while none does. */
  function BeforeFate(g: Grammar, b: seq<byte>, script: seq<Arrival>): seq<byte>
    decreases |script|
  {
    if script == [] || script[0].ec != Ok || g.verdict(b + script[0].data, false) != NeedMore then b
    else BeforeFate(g, b + script[0].data, script[1..])
  }

  /** The parser holds the message of this fate, or will, from what is left to read; then it has
      looked at every byte it was given, and the bytes before the fate are still these. */
  ghost predicate Pending(pr: ParserState, rest: seq<Arrival>, fate: Fate, before: seq<byte>) {
    if pr.IsComplete() then fate.Whole?
    else
      && !pr.eof && pr.seen == pr.input
      && fate == FateOf(pr.g, pr.input, rest) && before == BeforeFate(pr.g, pr.input, rest)
  }

  // ---------- how the decoded body grows ----------

  lemma TurnGrows(until: Until, pr: ParserState, a: Arrival)
    requires pr.seen <= pr.input
    ensures var p := TurnOf(until, pr.Prepare(), a).pr;
            p.g == pr.g && p.taken == pr.taken && pr.input <= p.input && pr.seen <= p.seen <= p.input
  {
  }

  lemma {:induction false} LoopGrows(until: Until, pr: ParserState, total: nat, script: seq<Arrival>)
    requires pr.seen <= pr.input
    ensures var r := ReadLoop(until, pr, total, script);
            && r.pr.g == pr.g && r.pr.taken == pr.taken && pr.input <= r.pr.input && pr.seen <= r.pr.seen <= r.pr.input
    decreases |script|
  {
    if script != [] {
      var t := TurnOf(until, pr.Prepare(), script[0]);
      TurnGrows(until, pr, script[0]);
      if t.Again? {
        LoopGrows(until, t.pr, total + |script[0].data|, script[1..]);
      }
    }
  }

  lemma BodyGrows(pr: ParserState, script: seq<Arrival>)
    requires pr.Valid() && !pr.eof && !pr.IsComplete() && FromStream(script)
    ensures var r := ReadBody(true, pr, script);
            && r.pr.Valid() && r.pr.g == pr.g && r.pr.taken == pr.taken && pr.Body() <= r.pr.Body()
  {
    BodyExits(true, pr, script);
    LoopGrows(Progress, pr, 0, script);
    pr.g.Stable(pr.seen, ReadBody(true, pr, script).pr.seen, ReadBody(true, pr, script).pr.seenEof);
  }

  /** What is committed and what is left to read. */
  function Joined(pr: ParserState, rest: seq<Arrival>): Wire {
    if pr.eof then Wire(pr.input, true) else Wire(pr.input + Delivered(rest), Ends(rest))
  }

  lemma TurnTakes(until: Until, pr: ParserState, a: Arrival)
    requires pr.g.Lawful() && !pr.eof
    ensures var t := TurnOf(until, pr, a);
            && t.pr.g == pr.g && t.pr.input == pr.input + a.data && t.pr.eof == a.ec.Eof?
            && (t.Again? ==> !t.pr.eof)
  {
  }

  lemma TurnOnWire(until: Until, pr: ParserState, script: seq<Arrival>)
    requires pr.g.Lawful() && !pr.eof && script != []
    ensures var t := TurnOf(until, pr.Prepare(), script[0]);
            && Joined(t.pr, script[1..]) == Joined(pr, script)
            && t.pr.g == pr.g && (t.Again? ==> !t.pr.eof)
  {
    TurnTakes(until, pr.Prepare(), script[0]);
    hide TurnOf;
    var rest := Delivered(script[1..]);
    assert (pr.input + script[0].data) + rest == pr.input + (script[0].data + rest);
  }

  lemma {:induction false} LoopOnWire(until: Until, pr: ParserState, total: nat, script: seq<Arrival>)
    requires pr.g.Lawful() && !pr.eof
    ensures var r := ReadLoop(until, pr, total, script);
            Joined(r.pr, r.rest) == Joined(pr, script)
    decreases |script|
  {
    hide TurnOf;
    if script != [] {
      var t := TurnOf(until, pr.Prepare(), script[0]);
      TurnOnWire(until, pr, script);
      if t.Again? {
        LoopOnWire(until, t.pr, total + |script[0].data|, script[1..]);
      }
    }
  }

  lemma PrefixPrinted(pr: ParserState, rest: seq<Arrival>, printed: seq<byte>)
    requires pr.Valid() && printed <= pr.Body()
    ensures PrintsPrefix(pr.g, Joined(pr, rest), printed)
    ensures pr.IsComplete() && printed == pr.Body() ==> PrintsAll(pr.g, Joined(pr, rest), printed)
  {
    forall all | Joined(pr, rest).CouldBe(all)
      ensures pr.Body() <= pr.g.body(all, true)
      ensures pr.IsComplete() ==> pr.g.verdict(all, true).Complete? && pr.Body() == pr.g.body(all, true)
    {
      assert pr.input <= all;
      if pr.seenEof {
        assert all == pr.seen;
      } else {
        pr.g.Stable(pr.seen, all, true);
      }
    }
  }

  lemma HeaderTurnLooks(pr: ParserState, script: seq<Arrival>)
    requires pr.Valid() && !pr.eof && FromStream(script) && script != []
    ensures var t := TurnOf(Header, pr.Prepare(), script[0]);
            && t.pr.Valid() && (t.Again? ==> !t.pr.eof)
            && (t.Again? || (t.ec == Ok && !t.pr.IsComplete()) ==>
                  && t.pr.seen == t.pr.input
                  && BeforeFate(t.pr.g, t.pr.input, script[1..]) == BeforeFate(pr.g, pr.input, script))
  {
    TurnIsClean(Header, pr.Prepare(), script[0]);
  }

  /** A header read that leaves the message unfinished has looked at all it committed. */
  lemma {:induction false} HeaderLooksAtAll(pr: ParserState, total: nat, script: seq<Arrival>)
    requires pr.Valid() && !pr.eof && FromStream(script)
    ensures var r := ReadLoop(Header, pr, total, script);
            r.Succeeded() && !r.pr.IsComplete() ==>
              && r.pr.seen == r.pr.input
              && BeforeFate(r.pr.g, r.pr.input, r.rest) == BeforeFate(pr.g, pr.input, script)
    decreases |script|
  {
    hide TurnOf, BeforeFate, ParserState.Valid;
    if script != [] {
      var t := TurnOf(Header, pr.Prepare(), script[0]);
      HeaderTurnLooks(pr, script);
      if t.Again? {
        HeaderLooksAtAll(t.pr, total + |script[0].data|, script[1..]);
      }
    }
  }

  /** One `async_read_some` on a message that is not complete: it loses nothing and repeats
      nothing, and fails or waits only if that is the message's fate. */
  lemma SomeMore(pr: ParserState, script: seq<Arrival>, fate: Fate, before: seq<byte>)
    requires pr.Valid() && pr.GotHeader() && !pr.IsComplete() && FromStream(script)
    requires Pending(pr, script, fate, before)
    ensures var r := ReadBody(true, pr, script);
            && r.pr.Valid() && r.pr.g == pr.g && r.pr.taken == pr.taken && pr.Body() <= r.pr.Body()
            && r.pr.GotHeader() && FromStream(r.rest) && Joined(r.pr, r.rest) == Joined(pr, script)
            && (r.out.Blocked? ==> Settled(fate) == Waiting && before == pr.input)
            && (r.out.Completed? && r.out.ec.Failed() ==>
                  r.out.ec != NeedMoreInput && Settled(fate) == Threw(r.out.ec) && before == pr.input)
            && (r.Succeeded() ==> Pending(r.pr, r.rest, fate, before) && |r.rest| < |script|)
  {
    BodyGrows(pr, script);
    BodyExits(true, pr, script);
    LoopOnWire(Progress, pr, 0, script);
    if script != [] {
      ProgressTurn(pr.Prepare(), script[0]);
      TurnMeetsFate(Message, pr, 0, script);
    }
  }

  // ---------- the client ----------

  /** Print what is there, stop when the message is complete, else read some more. Each read finds
      the header known, so the check that it was read first never throws. Where it ends otherwise,
      all has been printed that could be decoded from the bytes before the failing read. */
  method PrintBody(parser: Parser, stream: ReadStream, ghost fate: Fate, ghost before: seq<byte>)
    returns (printed: seq<byte>, res: Result)
    requires parser.st.Valid() && parser.GotHeader() && parser.st.taken == 0
    requires FromStream(stream.script) && Pending(parser.st, stream.script, fate, before)
    modifies parser, stream
    ensures parser.st.Valid() && parser.st.g == old(parser.st.g) && parser.GotHeader()
    ensures PrintsPrefix(parser.st.g, old(Joined(parser.st, stream.script)), printed)
    ensures res == Settled(fate)
    ensures if res == Exited then PrintsAll(parser.st.g, old(Joined(parser.st, stream.script)), printed)
            else printed == parser.st.g.body(before, false)
  {
    hide ReadBody, PrintsPrefix, PrintsAll;
    printed := [];
    while true
      invariant parser.st.Valid() && parser.st.g == old(parser.st.g) && parser.GotHeader()
      invariant FromStream(stream.script) && Pending(parser.st, stream.script, fate, before)
      invariant Joined(parser.st, stream.script) == old(Joined(parser.st, stream.script))
      invariant parser.st.taken == |printed| && printed <= parser.st.Body()
      decreases |stream.script|
    {
      var data := parser.PullBody();
      printed := printed + data;
      parser.ConsumeBody(|data|);
      assert printed == parser.st.Body();
      if parser.IsComplete() {
        PrefixPrinted(parser.st, stream.script, printed);
        return printed, Exited;
      }
      SomeMore(parser.st, stream.script, fate, before);
      var out := DriveBody(parser, true, stream);
      PrefixPrinted(parser.st, stream.script, printed);
      if out.Blocked? {
        return printed, Waiting;
      }
      if out.ec.Failed() && out.ec != NeedMoreInput {
        return printed, Threw(out.ec);
      }
    }
  }

  /** What a header read leaves behind on a new connection. */
  lemma HopHeader(pr: ParserState, script: seq<Arrival>)
    requires pr.Valid() && FromStream(script)
    ensures var p := pr.Reset().Start();
            var r := ReadHeader(p, script);
            && p.Valid() && r.pr.Valid() && r.pr.g == pr.g && r.pr.taken == 0 && FromStream(r.rest)
            && Joined(r.pr, r.rest) == WireOf(script)
            && (r.Succeeded() ==>
                  && r.pr.GotHeader()
                  && Pending(r.pr, r.rest, FateOf(pr.g, [], script), BeforeFate(pr.g, [], script)))
  {
    var p := pr.Reset().Start();
    HeaderExits(p, script);
    LoopGrows(Header, p, 0, script);
    LoopOnWire(Header, p, 0, script);
    LoopRest(Header, p, 0, script);
    LoopFate(Header, p, 0, script);
    HeaderLooksAtAll(p, 0, script);
    assert [] + Delivered(script) == Delivered(script);
  }

  /** Reset the parser and read the header the new connection brings. */
  method OpenHop(parser: Parser, script: seq<Arrival>) returns (stream: ReadStream, out: Outcome)
    requires parser.st.Valid() && FromStream(script)
    modifies parser
    ensures fresh(stream) && parser.st.Valid()
    ensures Run(parser.st, out, stream.script) == ReadHeader(old(parser.st).Reset().Start(), script)
  {
    hide ReadHeader;
    HopHeader(parser.st, script);
    stream := new ReadStream(script);
    parser.Reset();
    parser.Start();
    out := DriveHeader(parser, stream);
  }

  /** Follow redirects to the first response that is not one. */
  method FindResponse(peer: Peer, parser: Parser, hops: seq<Hop>)
    returns (stream: ReadStream, res: Result, ghost landing: Landing)
    requires parser.st.Valid()
    requires forall k :: 0 <= k < |hops| && hops[k].Connected? ==> FromStream(hops[k].script)
    modifies parser
    ensures fresh(stream) && parser.st.Valid() && parser.st.g == old(parser.st.g)
    ensures landing == Follow(peer, old(parser.st), hops, 0) && Lands(peer, old(parser.st), hops, landing)
    ensures if res == Exited then landing.Landed? && landing.run.pr == parser.st && landing.run.rest == stream.script
            else landing == Stuck(res)
  {
    hide ReadHeader;
    landing := Follow(peer, parser.st, hops, 0);
    LandsIff(peer, parser.st, hops, landing);
    hide Lands;
    var i := 0;
    stream := new ReadStream([]);
    while i < |hops|
      invariant i <= |hops| && fresh(stream) && parser.st.Valid() && parser.st.g == old(parser.st.g)
      invariant landing == Follow(peer, old(parser.st), hops, 0)
      invariant landing == Follow(peer, parser.st, hops, i)
    {
      if hops[i].Unreachable? {
        return stream, Threw(hops[i].ec), landing;
      }
      HopHeader(parser.st, hops[i].script);
      var out;
      stream, out := OpenHop(parser, hops[i].script);
      if out.Blocked? {
        return stream, Waiting, landing;
      }
      if out.ec.Failed() {
        return stream, Threw(out.ec), landing;
      }
      if !IsRedirect(peer.status(parser.st.seen)) {
        return stream, Exited, landing;
      }
      if !peer.hasLocation(parser.st.seen) {
        return stream, BadRedirect, landing;
      }
      i := i + 1;
    }
    res := Waiting;
  }

  lemma {:induction false} FollowLands(peer: Peer, pr: ParserState, hops: seq<Hop>, k: nat)
    requires pr.Valid()
    requires forall k :: 0 <= k < |hops| && hops[k].Connected? ==> FromStream(hops[k].script)
    ensures var l := Follow(peer, pr, hops, k);
            l.Landed? ==>
              && l.hop < |hops| && hops[l.hop].Connected? && l.run.Succeeded()
              && l.run.pr.Valid() && l.run.pr.g == pr.g && l.run.pr.taken == 0 && FromStream(l.run.rest)
              && l.run.pr.GotHeader() && Joined(l.run.pr, l.run.rest) == WireOf(hops[l.hop].script)
              && Pending(l.run.pr, l.run.rest, FateOf(pr.g, [], hops[l.hop].script),
                         BeforeFate(pr.g, [], hops[l.hop].script))
              && !IsRedirect(peer.status(l.run.pr.seen))
    decreases |hops| - k
  {
    if k < |hops| && hops[k].Connected? {
      HopHeader(pr, hops[k].script);
      FollowLands(peer, ReadHeader(pr.Reset().Start(), hops[k].script).pr, hops, k + 1);
    }
  }

  /** Whatever the streams answer and whatever the redirects, only the body of the first response
      that is not a redirect is printed: always a prefix of the body that the parser decodes from
      the bytes of that one connection, and on a normal exit the whole. Nothing of a redirect is
      printed, and each redirect starts from a reset parser. The client exits normally exactly
      when the message of that connection is whole, and else ends with the first error there, or
      waits, having printed all that could be decoded from the bytes before. */
  method Request(peer: Peer, parser: Parser, hops: seq<Hop>)
    returns (printed: seq<byte>, res: Result, ghost landing: Landing)
    requires parser.st.Valid()
    requires forall k :: 0 <= k < |hops| && hops[k].Connected? ==> FromStream(hops[k].script)
    modifies parser
    ensures parser.st.g == old(parser.st.g)
    ensures Lands(peer, old(parser.st), hops, landing)
    ensures match landing
            case Stuck(why) => printed == [] && res == why
            case Landed(k, r) =>
              && k < |hops| && hops[k].Connected? && !IsRedirect(peer.status(r.pr.seen))
              && var g, wire := old(parser.st.g), WireOf(hops[k].script);
                 && PrintsPrefix(g, wire, printed)
                 && (match FateOf(g, [], hops[k].script)
                     case Undecided => res == Waiting
                     case Whole(_) => res == Exited
                     case Rejected(n) => res == Threw(Syntax(n))
                     case Lost(ec) => res == Threw(ec))
                 && (if res == Exited then PrintsAll(g, wire, printed)
                     else printed == g.body(BeforeFate(g, [], hops[k].script), false))
  {
    FollowLands(peer, parser.st, hops, 0);
    hide Follow;
    hide Lands;
    var stream;
    stream, res, landing := FindResponse(peer, parser, hops);
    if res != Exited {
      return [], res, landing;
    }
    ghost var script := hops[landing.hop].script;
    printed, res := PrintBody(parser, stream, FateOf(parser.st.g, [], script), BeforeFate(parser.st.g, [], script));
  }
}
