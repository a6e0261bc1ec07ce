/** The contract of the message parser, and the parser object that the operations share.

    The parser itself belongs to another library. What is fixed here is what the operations
    rely on: the answer of `parse` is a function of the bytes committed since `start` and of
    whether the end of the stream was committed. */
module Parsing {
  import opened Codes

  /** What is known about one message after some of its bytes. */
  datatype Verdict =
    | NeedMore
    | Complete(length: nat)   // the message is the first `length` bytes
    | Malformed(number: int)

  /** A parser, as functions of (bytes since `start`, end of stream committed):
      the verdict, whether the header is known, and the decoded body so far. */
  datatype Grammar = Grammar(
    verdict: (seq<byte>, bool) -> Verdict,
    header: (seq<byte>, bool) -> bool,
    body: (seq<byte>, bool) -> seq<byte>)
  {
    /** The contract. It is assumed of every grammar below, and met by one in SampleGrammar. */
    ghost predicate Lawful() {
      LawfulVerdict() && LawfulHeader() && LawfulBody()
    }

    ghost predicate LawfulVerdict() {
      && verdict([], false) == NeedMore
      // the end of the stream decides
      && (forall b :: verdict(b, true) != NeedMore)
      // a decision stands whatever follows
      && (forall b, b' | Extends(b, b') && verdict(b, false) != NeedMore ::
            verdict(b', false) == verdict(b', true) == verdict(b, false))
      // a message is not empty, lies within the bytes, and has a header
      && (forall b, e | verdict(b, e).Complete? ::
            0 < verdict(b, e).length <= |b| && header(b, e))
    }

    ghost predicate LawfulHeader() {
      && !header([], false)
      && (forall b, b' | Extends(b, b') && header(b, false) :: header(b', false) && header(b', true))
    }

    /** The decoded body only grows, and is whole once the message is. */
    ghost predicate LawfulBody() {
      forall b, b' | Extends(b, b') ::
        && body(b, false) <= body(b', false) && body(b, false) <= body(b', true)
        && (verdict(b, false).Complete? ==> body(b', false) == body(b', true) == body(b, false))
    }

    lemma Stable(b: seq<byte>, b': seq<byte>, e: bool)
      requires Lawful() && b <= b'
      ensures verdict(b, false) != NeedMore ==> verdict(b', e) == verdict(b, false)
      ensures header(b, false) ==> header(b', e)
      ensures body(b, false) <= body(b', e)
      ensures verdict(b, false).Complete? ==> body(b', e) == body(b, false)
    {
      assert Extends(b, b');
    }
  }

  /** Names the laws' only trigger, so that a law is used where it is asked for. */
  ghost predicate Extends(b: seq<byte>, b': seq<byte>) {
    b <= b'
  }

  /** One call on the parser, for comparing call traces. */
  datatype Call = Prepared | Committed(n: nat) | CommittedEof | Parsed | Started | WasReset

  /** The state of the parser: the bytes committed since `start`, the bytes the last
      `parse` has looked at, and the part of the decoded body already consumed. */
  datatype ParserState = ParserState(
    g: Grammar,
    unstarted: bool,           // reset, and not started since
    input: seq<byte>,
    eof: bool,
    seen: seq<byte>,
    seenEof: bool,
    taken: nat,
    calls: seq<Call>)
  {
    ghost predicate Valid() {
      && g.Lawful()
      && seen <= input
      && (seenEof ==> eof && seen == input)
      && (unstarted ==> input == [] && !eof && seen == [])
      && taken <= |Body()|
    }

    function Verdict(): Verdict {
      g.verdict(seen, seenEof)
    }

    function GotHeader(): bool {
      g.header(seen, seenEof)
    }

    function IsComplete(): bool {
      Verdict().Complete?
    }

    /** The decoded body known so far. */
    function Body(): seq<byte> {
      g.body(seen, seenEof)
    }

    ghost predicate CanStart() {
      unstarted || IsComplete()
    }

    function Reset(): ParserState {
      ParserState(g, true, [], false, [], false, 0, calls + [WasReset])
    }

    /** Begin the next message with whatever lies beyond the finished one. */
    function Start(): ParserState
      requires unstarted || (IsComplete() && Verdict().length <= |input|)
    {
      ParserState(g, false, if unstarted then [] else input[Verdict().length..],
                  false, [], false, 0, calls + [Started])
    }

    function Prepare(): ParserState {
      this.(calls := calls + [Prepared])
    }

    function Commit(data: seq<byte>): ParserState {
      this.(unstarted := false, input := input + data, calls := calls + [Committed(|data|)])
    }

    function CommitEof(): ParserState {
      this.(unstarted := false, eof := true, calls := calls + [CommittedEof])
    }

    function Parse(): ParserState {
      this.(seen := input, seenEof := eof, calls := calls + [Parsed])
    }

    /** The decoded body not consumed yet. */
    function Pull(): seq<byte>
      requires taken <= |Body()|
    {
      Body()[taken..]
    }

    function Take(n: nat): ParserState {
      this.(taken := taken + n)
    }

    /** The code `parse` reports. */
    function ParseCode(): Code {
      match g.verdict(input, eof)
      case NeedMore => NeedMoreInput
      case Complete(_) => Ok
      case Malformed(k) => Syntax(k)
    }

    /** The bytes of the finished message. */
    function Message(): seq<byte>
      requires IsComplete() && Verdict().length <= |input|
    {
      input[..Verdict().length]
    }
  }

  /** A message being complete survives more input, and a further `parse` agrees. */
  lemma CompleteStays(p: ParserState)
    requires p.Valid() && p.IsComplete()
    ensures p.Parse().Valid() && p.Parse().Verdict() == p.Verdict() && p.Parse().GotHeader()
    ensures p.ParseCode() == Ok && p.GotHeader() && p.Verdict().length <= |p.input|
  {
  }

  /** The parser object, updated in place by whichever operation holds a reference to it. */
  class Parser {
    var st: ParserState

    constructor (g: Grammar)
      ensures st == ParserState(g, true, [], false, [], false, 0, [])
    {
      st := ParserState(g, true, [], false, [], false, 0, []);
    }

    function GotHeader(): bool
      reads this
    {
      st.GotHeader()
    }

    function IsComplete(): bool
      reads this
    {
      st.IsComplete()
    }

    method Reset()
      modifies this
      ensures st == old(st).Reset()
    {
      st := st.Reset();
    }

    /** The library refuses to start over an unfinished message. */
    method Start()
      requires st.Valid() && st.CanStart()
      modifies this
      ensures st == old(st).Start()
    {
      st := st.Start();
    }

    method Prepare()
      modifies this
      ensures st == old(st).Prepare()
    {
      st := st.Prepare();
    }

    method Commit(data: seq<byte>)
      modifies this
      ensures st == old(st).Commit(data)
    {
      st := st.Commit(data);
    }

    method CommitEof()
      modifies this
      ensures st == old(st).CommitEof()
    {
      st := st.CommitEof();
    }

    method Parse() returns (ec: Code)
      modifies this
      ensures st == old(st).Parse() && ec == old(st).ParseCode()
    {
      ec := st.ParseCode();
      st := st.Parse();
    }

    /** Hand out the decoded body that is there, as the client prints it. */
    method PullBody() returns (data: seq<byte>)
      requires st.taken <= |st.Body()|
      ensures data == st.Pull()
    {
      data := st.Pull();
    }

    method ConsumeBody(n: nat)
      modifies this
      ensures st == old(st).Take(n)
    {
      st := st.Take(n);
    }
  }
}
