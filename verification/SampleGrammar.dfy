/** A grammar that meets the contract: a header that starts with a digit and ends at the
    first CR LF CR LF, then as many body bytes as the digit says, none of them NUL. */
module SampleGrammar {
  import opened Codes
  import opened Parsing
  import opened ReadLoops
  import opened Fragmentation
  import HeaderAlone

  predicate BlankLineAt(b: seq<byte>, i: nat) {
    i + 4 <= |b| && b[i] == 13 && b[i + 1] == 10 && b[i + 2] == 13 && b[i + 3] == 10
  }

  /** The index just beyond the first blank line at or after `i`, or 0 where there is none. */
  function HeaderEnd(b: seq<byte>, i: nat): (end: nat)
    ensures end == 0 || i + 4 <= end <= |b|
    decreases |b| - i
  {
    if i + 4 > |b| then 0 else if BlankLineAt(b, i) then i + 4 else HeaderEnd(b, i + 1)
  }

  lemma {:induction false} HeaderEndStable(b: seq<byte>, b': seq<byte>, i: nat)
    requires b <= b' && HeaderEnd(b, i) != 0
    ensures HeaderEnd(b', i) == HeaderEnd(b, i)
    decreases |b| - i
  {
    if !BlankLineAt(b, i) {
      assert !BlankLineAt(b', i);
      HeaderEndStable(b, b', i + 1);
    }
  }

  function Header(b: seq<byte>, eof: bool): bool {
    HeaderEnd(b, 0) != 0 && 48 <= b[0] <= 57
  }

  /** Where the message ends, once the header is known. */
  function MessageEnd(b: seq<byte>): nat
    requires Header(b, false)
  {
    HeaderEnd(b, 0) + (b[0] as int - 48)
  }

  function Available(b: seq<byte>): seq<byte>
    requires Header(b, false)
  {
    b[HeaderEnd(b, 0)..if MessageEnd(b) <= |b| then MessageEnd(b) else |b|]
  }

  function Judgement(b: seq<byte>, eof: bool): Verdict {
    if HeaderEnd(b, 0) == 0 then if eof then Malformed(1) else NeedMore
    else if !Header(b, eof) then Malformed(2)
    else if 0 in Available(b) then Malformed(3)
    else if MessageEnd(b) <= |b| then Complete(MessageEnd(b))
    else if eof then Malformed(1)
    else NeedMore
  }

  function Body(b: seq<byte>, eof: bool): seq<byte> {
    if Header(b, eof) then Available(b) else []
  }

  const SAMPLE := Grammar(Judgement, Header, Body)

  lemma AvailableGrows(b: seq<byte>, b': seq<byte>)
    requires b <= b' && Header(b, false)
    ensures Header(b', false) && MessageEnd(b') == MessageEnd(b) && Available(b) <= Available(b')
    ensures 0 in Available(b) ==> 0 in Available(b')
    ensures MessageEnd(b) <= |b| ==> Available(b') == Available(b)
  {
    HeaderEndStable(b, b', 0);
    assert b[0] == b'[0];
    assert Header(b', false) && MessageEnd(b') == MessageEnd(b);
    assert Available(b) == Available(b')[..|Available(b)|];
    assert forall x :: x in Available(b) ==> x in Available(b');
  }

  /** The contract can be met. */
  lemma SampleIsLawful()
    ensures SAMPLE.Lawful()
  {
    forall b, b' | Extends(b, b')
      ensures Judgement(b, false) != NeedMore ==> Judgement(b', false) == Judgement(b', true) == Judgement(b, false)
      ensures Header(b, false) ==> Header(b', false) && Header(b', true)
      ensures Body(b, false) <= Body(b', false) && Body(b, false) <= Body(b', true)
      ensures Judgement(b, false).Complete? ==> Body(b', false) == Body(b', true) == Body(b, false)
    {
      if HeaderEnd(b, 0) != 0 {
        HeaderEndStable(b, b', 0);
        if Header(b, false) {
          AvailableGrows(b, b');
        }
      }
    }
  }

  /** A complete header with a one-byte body that is NUL. */
  const TRAP: seq<byte> := [49, 13, 10, 13, 10, 0]

  /** The fault shares a read with the header, or comes in a read of its own. */
  const TOGETHER := [Arrival(Ok, TRAP), Arrival(Eof, [])]
  const APART := [Arrival(Ok, TRAP[..5]), Arrival(Ok, [0]), Arrival(Eof, [])]

  lemma TrapJudged()
    ensures SAMPLE.verdict(TRAP, false) == Malformed(3)
    ensures SAMPLE.header(TRAP[..5], false) && SAMPLE.verdict(TRAP[..5], false) == NeedMore
  {
    assert TRAP[..5] == [49, 13, 10, 13, 10];
    assert BlankLineAt(TRAP[..5], 1) && BlankLineAt(TRAP, 1);
    assert HeaderEnd(TRAP[..5], 0) == HeaderEnd(TRAP[..5], 1) == 5;
    assert HeaderEnd(TRAP, 0) == HeaderEnd(TRAP, 1) == 5;
    assert Available(TRAP) == [0] && Available(TRAP[..5]) == [];
  }

  /** A parser on which `start` was just called. */
  function Begun(g: Grammar): ParserState {
    ParserState(g, false, [], false, [], false, 0, [])
  }

  /** What a header read makes of a first arrival that it can judge. */
  lemma OneRead(g: Grammar, script: seq<Arrival>)
    requires g.Lawful() && script != [] && script[0].ec == Ok
    ensures Begun(g).Valid()
    ensures var b, out := script[0].data, ReadHeader(Begun(g), script).out;
            && (g.verdict(b, false).Malformed? ==> out == Completed(Syntax(g.verdict(b, false).number), |b|))
            && (g.verdict(b, false) == NeedMore && g.header(b, false) ==> out == Completed(Ok, |b|))
  {
    assert [] + script[0].data == script[0].data;
  }

  lemma TrapDelivered()
    ensures FromStream(TOGETHER) && EndsInEof(TOGETHER) && Delivered(TOGETHER) == TRAP
    ensures FromStream(APART) && EndsInEof(APART) && Delivered(APART) == TRAP
  {
    assert TOGETHER[1..] == [Arrival(Eof, [])] && APART[1..] == [Arrival(Ok, [0]), Arrival(Eof, [])];
    assert APART[1..][1..] == [Arrival(Eof, [])];
    assert Delivered(APART[1..]) == [0] + Delivered(APART[1..][1..]);
    assert EndsInEof(APART[1..]);
  }

  /** Reading that header on its own fails in the first case and succeeds in the second, though
      both streams deliver the same bytes and end. */
  lemma HeaderAloneCanDiffer()
    ensures FromStream(TOGETHER) && EndsInEof(TOGETHER) && Delivered(TOGETHER) == TRAP
    ensures FromStream(APART) && EndsInEof(APART) && Delivered(APART) == TRAP
    ensures var pr := Begun(SAMPLE);
            && pr.Valid() && !HeaderAlone.HeaderIndependent(pr, TRAP)
            && ReadHeader(pr, TOGETHER).out == Completed(Syntax(3), 6)
            && ReadHeader(pr, APART).out == Completed(Ok, 5)
  {
    hide Judgement, Header, Body, ReadHeader, Grammar.LawfulVerdict, Grammar.LawfulHeader, Grammar.LawfulBody;
    SampleIsLawful();
    TrapJudged();
    TrapDelivered();
    OneRead(SAMPLE, TOGETHER);
    OneRead(SAMPLE, APART);
    assert ReadHeader(Begun(SAMPLE), TOGETHER).out.ec != ReadHeader(Begun(SAMPLE), APART).out.ec;
  }
}
