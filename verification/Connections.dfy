/** The history of one connection, and what a server owes it. */
module Connections {
  import opened Codes
  import opened Parsing
  import opened Requests

  datatype Reply = Reply(response: Response, late: bool)   // late: begun after shutdown had

  datatype Connection = Connection(
    accepted: bool,              // the accept succeeded
    bytes: seq<byte>,            // delivered by the stream
    eof: bool,                   // the stream has ended
    handed: seq<seq<byte>>,      // requests given to the handler
    replies: seq<Reply>,         // responses begun
    finished: nat,               // responses completed
    finishedLate: nat,           // of those, completed after shutdown had begun
    sent: seq<byte>,             // accepted by the socket
    rejected: bool,              // dropped because what followed is no message
    fault: Code,                 // the failure of a read or write on it, if one failed
    halfClosed: bool)            // its sending side was shut down

  const NEW := Connection(false, [], false, [], [], 0, 0, [], false, Ok, false)

  // ---------- what handlers record ----------

  function Opened(c: Connection): Connection {
    c.(accepted := true)
  }

  /** The end of the stream is no failure of a read. */
  function Received(c: Connection, a: Arrival): Connection {
    c.(bytes := c.bytes + a.data, eof := c.eof || a.ec == Eof,
       fault := if a.ec.Failed() && a.ec != Eof then a.ec else c.fault)
  }

  function Begun(c: Connection, request: seq<byte>, res: Response, down: bool): Connection {
    c.(handed := c.handed + [request], replies := c.replies + [Reply(res, down)])
  }

  function Delivered(c: Connection, a: Arrival): Connection {
    c.(sent := c.sent + a.data, fault := if a.ec.Failed() then a.ec else c.fault)
  }

  function Finished(c: Connection, down: bool): Connection {
    c.(finished := c.finished + 1, finishedLate := c.finishedLate + if down then 1 else 0)
  }

  function Dropped(c: Connection, ec: Code): Connection {
    if ec.Syntax? then c.(rejected := true) else c
  }

  function SendShut(c: Connection): Connection {
    c.(halfClosed := true)
  }

  // ---------- what is owed ----------

  /** Part `k` is exactly the message that the stream, which ends after `d`, holds beyond the
      parts before it. */
  ghost predicate MessageAt(g: Grammar, d: seq<byte>, parts: seq<seq<byte>>, k: nat)
    requires k < |parts|
  {
    var at, part := |Concat(parts[..k])|, parts[k];
    at + |part| <= |d| && part == d[at..at + |part|] && g.verdict(d[at..], true) == Complete(|part|)
  }

  /** The parts are messages, one after the other, and no message follows them. */
  ghost predicate Cuts(g: Grammar, d: seq<byte>, parts: seq<seq<byte>>) {
    && (forall k :: 0 <= k < |parts| ==> MessageAt(g, d, parts, k))
    && |Concat(parts)| <= |d| && !g.verdict(d[|Concat(parts)|..], true).Complete?
  }

  /** The messages of a stream that ends after `d`. */
  function Split(g: Grammar, d: seq<byte>): seq<seq<byte>>
    decreases |d|
  {
    match g.verdict(d, true)
    case Complete(n) => if 0 < n <= |d| then [d[..n]] + Split(g, d[n..]) else []
    case _ => []
  }

  /** What the parts beyond the first are, seen from the whole stream and from where they begin. */
  lemma Beyond(g: Grammar, d: seq<byte>, parts: seq<seq<byte>>, k: nat)
    requires parts != [] && |parts[0]| <= |d| && k < |parts| - 1
    ensures MessageAt(g, d, parts, k + 1) <==> MessageAt(g, d[|parts[0]|..], parts[1..], k)
  {
    var n, at := |parts[0]|, |Concat(parts[1..][..k])|;
    assert parts[..k + 1][1..] == parts[1..][..k];
    assert |Concat(parts[..k + 1])| == n + at;
    if n + at + |parts[k + 1]| <= |d| {
      assert d[n..][at..at + |parts[k + 1]|] == d[n + at..n + at + |parts[k + 1]|];
    }
    if n + at <= |d| {
      assert d[n..][at..] == d[n + at..];
    }
  }

  /** Cutting a stream is cutting off its first message and then cutting what is left. */
  lemma CutsFromFront(g: Grammar, d: seq<byte>, parts: seq<seq<byte>>)
    requires parts != []
    ensures Cuts(g, d, parts) <==> MessageAt(g, d, parts, 0) && Cuts(g, d[|parts[0]|..], parts[1..])
  {
    if MessageAt(g, d, parts, 0) {
      var n, m := |parts[0]|, |Concat(parts[1..])|;
      forall k | 0 < k < |parts|
        ensures MessageAt(g, d, parts, k) <==> MessageAt(g, d[n..], parts[1..], k - 1)
      {
        Beyond(g, d, parts, k - 1);
      }
      if Cuts(g, d, parts) {
        forall k | 0 <= k < |parts| - 1 ensures MessageAt(g, d[n..], parts[1..], k) {
          assert MessageAt(g, d, parts, k + 1);
        }
      }
      if n + m <= |d| {
        assert d[n..][m..] == d[n + m..];
      }
    }
  }

  /** The split cuts the bytes into their messages, without gap, repetition or reordering, and it
      is the only way to do so. */
  lemma {:induction false} SplitCuts(g: Grammar, d: seq<byte>, parts: seq<seq<byte>>)
    requires g.Lawful()
    ensures Cuts(g, d, parts) <==> parts == Split(g, d)
    ensures Concat(Split(g, d)) <= d
    decreases |d|
  {
    assert d[0..] == d && parts[..0] == [];
    if g.verdict(d, true).Complete? {
      var n := g.verdict(d, true).length;
      SplitCuts(g, d[n..], if parts == [] then [] else parts[1..]);
      assert d == d[..n] + d[n..] && Split(g, d)[1..] == Split(g, d[n..]);
      if parts != [] {
        CutsFromFront(g, d, parts);
        assert parts == [parts[0]] + parts[1..];
      }
    } else if parts != [] {
      CutsFromFront(g, d, parts);
    }
  }

  /** What may still arrive: nothing, once the stream has ended. */
  predicate CanFollow(c: Connection, more: seq<byte>) {
    c.eof ==> more == []
  }

  ghost predicate HandedInOrder(g: Grammar, c: Connection, more: seq<byte>) {
    c.handed <= Split(g, c.bytes + more)
  }

  ghost predicate HandedAll(g: Grammar, c: Connection, more: seq<byte>) {
    c.handed == Split(g, c.bytes + more)
  }

  /** The bytes of all these responses, in order. */
  function Wired(site: Site, replies: seq<Reply>): seq<byte>
    decreases |replies|
  {
    if replies == [] then []
    else Wired(site, replies[..|replies| - 1]) + site.wire(replies[|replies| - 1].response)
  }

  /** One response for each request, in order: the handler's, or 503 once shutdown has begun. */
  ghost predicate Answered(site: Site, c: Connection) {
    && |c.replies| == |c.handed|
    && forall i :: 0 <= i < |c.replies| ==>
         c.replies[i].response == if c.replies[i].late then UNAVAILABLE else Answer(site, c.handed[i])
  }

  /** Only the last response can have been begun late, or close the connection. */
  ghost predicate KeptUntilLast(c: Connection) {
    forall i :: 0 <= i < |c.replies| - 1 ==> !c.replies[i].late && c.replies[i].response.keepAlive
  }

  /** There is a reason to give up the connection: none was accepted, what followed was no
      message, a read or write failed, or its last response has completed and closes it. */
  predicate Concluded(c: Connection) {
    || c == NEW
    || c.rejected
    || c.fault.Failed()
    || (c.replies != [] && c.finished == |c.replies| && !c.replies[|c.replies| - 1].response.keepAlive)
  }

  /** What holds of every connection at every moment of its life.

      - The requests handed over are, in order, the first messages of the connection's own
        bytes, whatever may still arrive; all of them, if it was what followed that ended it.
      - Each is answered, in order, and the bytes sent are those of the completed responses
        followed by a part of the one under way.
      - After shutdown has begun at most one more response is begun, a 503 that closes the
        connection, and at most two complete. */
  ghost predicate Good(g: Grammar, site: Site, c: Connection) {
    && (forall more | CanFollow(c, more) :: HandedInOrder(g, c, more))
    && (c.rejected ==> forall more | CanFollow(c, more) :: HandedAll(g, c, more))
    && Answered(site, c)
    && c.finished <= |c.replies| <= c.finished + 1
    && Wired(site, c.replies[..c.finished]) <= c.sent <= Wired(site, c.replies)
    && KeptUntilLast(c) && c.finishedLate <= 2
    && (c.halfClosed ==> c.fault == Eof)
  }

  // ---------- in the course of a connection ----------

  ghost predicate SplitsAt(g: Grammar, c: Connection, left: seq<byte>, more: seq<byte>) {
    Split(g, c.bytes + more) == c.handed + Split(g, left + more)
  }

  /** `left` is what remains of the bytes once the requests handed over are cut off. */
  ghost predicate Left(g: Grammar, c: Connection, left: seq<byte>) {
    forall more | CanFollow(c, more) :: SplitsAt(g, c, left, more)
  }

  /** No response is under way; `left` belongs to the next request. */
  ghost predicate Between(g: Grammar, site: Site, c: Connection, down: bool, left: seq<byte>) {
    && Left(g, c, left) && Answered(site, c) && c.accepted && !c.rejected && !c.halfClosed
    && c.finished == |c.replies| && c.sent == Wired(site, c.replies)
    && (forall i :: 0 <= i < |c.replies| ==> !c.replies[i].late && c.replies[i].response.keepAlive)
    && c.finishedLate <= (if down then 1 else 0)
  }

  /** The last response is under way and `written` of it has been sent. */
  ghost predicate Responding(g: Grammar, site: Site, c: Connection, down: bool, left: seq<byte>,
                             res: Response, written: seq<byte>)
  {
    && Left(g, c, left) && Answered(site, c) && c.accepted && KeptUntilLast(c)
    && !c.rejected && !c.halfClosed
    && c.replies != [] && c.replies[|c.replies| - 1].response == res
    && c.finished == |c.replies| - 1
    && written <= site.wire(res) && c.sent == Wired(site, c.replies[..c.finished]) + written
    && (if c.replies[|c.replies| - 1].late then down && c.finishedLate <= 1 else c.finishedLate == 0)
  }

  lemma LeftMeansInOrder(g: Grammar, c: Connection, left: seq<byte>)
    requires Left(g, c, left)
    ensures forall more | CanFollow(c, more) :: HandedInOrder(g, c, more)
  {
  }

  lemma BetweenIsGood(g: Grammar, site: Site, c: Connection, down: bool, left: seq<byte>)
    requires Between(g, site, c, down, left)
    ensures Good(g, site, c)
  {
    LeftMeansInOrder(g, c, left);
    assert c.replies[..c.finished] == c.replies;
  }

  lemma RespondingIsGood(g: Grammar, site: Site, c: Connection, down: bool, left: seq<byte>,
                         res: Response, written: seq<byte>)
    requires Responding(g, site, c, down, left, res, written)
    ensures Good(g, site, c)
  {
  }

  /** Shutting down the sending side changes nothing else. */
  lemma SendShutIsGood(g: Grammar, site: Site, c: Connection)
    requires Good(g, site, c) && c.fault == Eof
    ensures Good(g, site, SendShut(c))
  {
    var c' := SendShut(c);
    forall more | CanFollow(c', more)
      ensures HandedInOrder(g, c', more) && (c'.rejected ==> HandedAll(g, c', more))
    {
      assert HandedInOrder(g, c, more) && (c.rejected ==> HandedAll(g, c, more));
    }
  }

  lemma NewIsBetween(g: Grammar, site: Site, down: bool)
    ensures Between(g, site, Opened(NEW), down, [])
  {
  }

  lemma ReceivedKeeps(g: Grammar, site: Site, c: Connection, down: bool, left: seq<byte>, a: Arrival)
    requires Between(g, site, c, down, left) && (c.eof ==> a.data == [])
    ensures Between(g, site, Received(c, a), down, left + a.data)
  {
    forall more | CanFollow(Received(c, a), more)
      ensures SplitsAt(g, Received(c, a), left + a.data, more)
    {
      assert SplitsAt(g, c, left, a.data + more);
      assert (c.bytes + a.data) + more == c.bytes + (a.data + more);
      assert (left + a.data) + more == left + (a.data + more);
    }
  }

  /** A finished message is the first of the split, whatever may still arrive. */
  lemma FirstMessage(g: Grammar, c: Connection, left: seq<byte>, eof: bool, n: nat, more: seq<byte>)
    requires g.Lawful() && (eof ==> c.eof) && CanFollow(c, more)
    requires g.verdict(left, eof) == Complete(n)
    ensures 0 < n <= |left| && Split(g, left + more) == [left[..n]] + Split(g, left[n..] + more)
  {
    if eof {
      assert left + more == left;
    } else {
      g.Stable(left, left + more, true);
    }
    assert (left + more)[..n] == left[..n] && (left + more)[n..] == left[n..] + more;
  }

  /** Where the bytes left begin with no message, whatever may still arrive, none was missed. */
  lemma RejectedIsGood(g: Grammar, site: Site, c: Connection, down: bool, left: seq<byte>, eof: bool)
    requires g.Lawful() && Between(g, site, c, down, left)
    requires (eof ==> c.eof) && g.verdict(left, eof).Malformed?
    ensures Good(g, site, c.(rejected := true))
  {
    var c' := c.(rejected := true);
    BetweenIsGood(g, site, c, down, left);
    forall more | CanFollow(c', more)
      ensures HandedInOrder(g, c', more) && HandedAll(g, c', more)
    {
      assert SplitsAt(g, c, left, more);
      if eof {
        assert left + more == left;
      } else {
        g.Stable(left, left + more, true);
      }
    }
  }

  /** Handing over a finished message cuts it off the bytes left. */
  lemma BegunLeft(g: Grammar, c: Connection, down: bool, left: seq<byte>, eof: bool, n: nat, res: Response)
    requires g.Lawful() && Left(g, c, left) && (eof ==> c.eof)
    requires g.verdict(left, eof) == Complete(n) && n <= |left|
    ensures Left(g, Begun(c, left[..n], res, down), left[n..])
  {
    var c' := Begun(c, left[..n], res, down);
    forall more | CanFollow(c', more)
      ensures SplitsAt(g, c', left[n..], more)
    {
      assert SplitsAt(g, c, left, more);
      FirstMessage(g, c, left, eof, n, more);
      var tail := Split(g, left[n..] + more);
      assert c.handed + ([left[..n]] + tail) == c'.handed + tail;
    }
  }

  lemma BegunResponds(g: Grammar, site: Site, c: Connection, down: bool, left: seq<byte>, eof: bool, n: nat)
    requires g.Lawful() && Between(g, site, c, down, left)
    requires (eof ==> c.eof) && g.verdict(left, eof) == Complete(n)
    ensures 0 < n <= |left|
    ensures var res := if down then UNAVAILABLE else Answer(site, left[..n]);
            Responding(g, site, Begun(c, left[..n], res, down), down, left[n..], res, [])
  {
    var res := if down then UNAVAILABLE else Answer(site, left[..n]);
    BegunLeft(g, c, down, left, eof, n, res);
    assert Begun(c, left[..n], res, down).replies[..c.finished] == c.replies;
  }

  lemma DeliveredKeeps(g: Grammar, site: Site, c: Connection, down: bool, left: seq<byte>,
                       res: Response, written: seq<byte>, a: Arrival)
    requires Responding(g, site, c, down, left, res, written) && written + a.data <= site.wire(res)
    ensures Responding(g, site, Delivered(c, a), down, left, res, written + a.data)
  {
    assert Left(g, Delivered(c, a), left) by {
      forall more | CanFollow(Delivered(c, a), more)
        ensures SplitsAt(g, Delivered(c, a), left, more)
      {
        assert SplitsAt(g, c, left, more);
      }
    }
  }

  /** Completing a response; one that keeps the connection was not late. */
  lemma FinishedIsGood(g: Grammar, site: Site, c: Connection, down: bool, left: seq<byte>, res: Response)
    requires Responding(g, site, c, down, left, res, site.wire(res))
    ensures Good(g, site, Finished(c, down))
    ensures res.keepAlive ==> Between(g, site, Finished(c, down), down, left)
  {
    var c' := Finished(c, down);
    assert c'.replies[..c'.finished] == c.replies;
    assert Left(g, c', left) by {
      forall more | CanFollow(c', more)
        ensures SplitsAt(g, c', left, more)
      {
        assert SplitsAt(g, c, left, more);
      }
    }
    LeftMeansInOrder(g, c', left);
  }
}
