/** Reading the header alone does depend on fragmentation, and exactly when. */
module HeaderAlone {
  import opened Codes
  import opened Parsing
  import opened ReadSteps
  import opened ReadLoops
  import opened Fragmentation

  /** After `b`, the stream holds a stretch on which the header is known and nothing is wrong
      yet, and another on which something already is. */
  ghost predicate Exposed(g: Grammar, b: seq<byte>, d: seq<byte>) {
    && (exists n: nat :: HeaderBefore(g, b, d, n))
    && (exists n: nat :: BrokenBefore(g, b, d, n))
  }

  predicate HeaderBefore(g: Grammar, b: seq<byte>, d: seq<byte>, n: nat) {
    0 < n <= |d| && g.header(b + d[..n], false) && !g.verdict(b + d[..n], false).Malformed?
  }

  predicate BrokenBefore(g: Grammar, b: seq<byte>, d: seq<byte>, n: nat) {
    0 < n <= |d| && g.verdict(b + d[..n], false).Malformed?
  }

  /** The code of a header read where fragmentation does not matter. */
  function HeaderCode(g: Grammar, b: seq<byte>, d: seq<byte>): Code {
    if HeaderBefore(g, b, d, |d|) then Ok
    else match g.verdict(b + d, true)
      case NeedMore => NeedMoreInput
      case Complete(_) => Ok
      case Malformed(k) => Syntax(k)
  }

  lemma ShiftedPrefix(g: Grammar, b: seq<byte>, d: seq<byte>, d': seq<byte>, n: nat)
    requires n <= |d'|
    ensures (b + d) + d'[..n] == b + (d + d')[..|d| + n]
    ensures HeaderBefore(g, b + d, d', n) ==> HeaderBefore(g, b, d + d', |d| + n)
    ensures BrokenBefore(g, b + d, d', n) ==> BrokenBefore(g, b, d + d', |d| + n)
  {
  }

  lemma ExposedLater(g: Grammar, b: seq<byte>, d: seq<byte>, d': seq<byte>)
    requires Exposed(g, b + d, d')
    ensures Exposed(g, b, d + d')
  {
    var n: nat :| HeaderBefore(g, b + d, d', n);
    var m: nat :| BrokenBefore(g, b + d, d', m);
    ShiftedPrefix(g, b, d, d', n);
    ShiftedPrefix(g, b, d, d', m);
  }

  /** One successful read either settles the code or leaves it as it was. */
  lemma HeaderTurn(pr: ParserState, a: Arrival, d': seq<byte>)
    requires pr.Valid() && !pr.eof && a.FromStream() && a.ec == Ok
    requires !Exposed(pr.g, pr.input, a.data + d')
    ensures var t, code := TurnOf(Header, pr.Prepare(), a), HeaderCode(pr.g, pr.input, a.data + d');
            && (t.Leave? ==> t.ec == code)
            && (t.Again? ==> code == HeaderCode(t.pr.g, t.pr.input, d'))
  {
    var g, b, d := pr.g, pr.input, a.data + d';
    var p := Absorb(pr.Prepare(), a);
    assert d[..|d|] == d && d[..|a.data|] == a.data && b + d == p.input + d' && d'[..|d'|] == d';
    g.Stable(p.input, b + d, false);
    g.Stable(p.input, b + d, true);
    if p.ParseCode() == NeedMoreInput {
      if p.Parse().GotHeader() {
        assert HeaderBefore(g, b, d, |a.data|);
        assert !BrokenBefore(g, b, d, |d|);
      } else if d' == [] {
        assert p.input == b + d;
      }
    }
  }

  lemma HeaderAgain(pr: ParserState, a: Arrival, d': seq<byte>)
    requires pr.Valid() && !pr.eof && a.FromStream() && TurnOf(Header, pr.Prepare(), a).Again?
    requires !Exposed(pr.g, pr.input, a.data + d')
    ensures var p := TurnOf(Header, pr.Prepare(), a).pr;
            p.Valid() && !p.eof && !Exposed(p.g, p.input, d')
  {
    var p := TurnOf(Header, pr.Prepare(), a).pr;
    TurnIsClean(Header, pr.Prepare(), a);
    hide HeaderBefore, BrokenBefore;
    if Exposed(p.g, p.input, d') {
      ExposedLater(pr.g, pr.input, a.data, d');
    }
  }

  lemma {:induction false} HeaderLoopCode(pr: ParserState, total: nat, script: seq<Arrival>)
    requires pr.Valid() && !pr.eof && FromStream(script) && EndsInEof(script)
    requires !Exposed(pr.g, pr.input, Delivered(script))
    ensures ReadLoop(Header, pr, total, script).out.Completed?
    ensures ReadLoop(Header, pr, total, script).out.ec == HeaderCode(pr.g, pr.input, Delivered(script))
    decreases |script|
  {
    if script[0].ec == Ok {
      var t := TurnOf(Header, pr.Prepare(), script[0]);
      HeaderTurn(pr, script[0], Delivered(script[1..]));
      if t.Again? {
        HeaderAgain(pr, script[0], Delivered(script[1..]));
        HeaderLoopCode(t.pr, total + |script[0].data|, script[1..]);
      }
    }
  }

  /** The first `n` bytes in one read, the rest in another, then the end. */
  function SplitAt(d: seq<byte>, n: nat): seq<Arrival>
    requires n <= |d|
  {
    [Arrival(Ok, d[..n])] + (if n == |d| then [] else [Arrival(Ok, d[n..])]) + [Arrival(Eof, [])]
  }

  lemma SplitAtDelivers(d: seq<byte>, n: nat)
    requires 0 < n <= |d|
    ensures FromStream(SplitAt(d, n)) && EndsInEof(SplitAt(d, n)) && Delivered(SplitAt(d, n)) == d
  {
    var s := SplitAt(d, n);
    assert s[0] == Arrival(Ok, d[..n]);
    if n == |d| {
      assert s[1..] == [Arrival(Eof, [])];
    } else {
      assert s[1..] == [Arrival(Ok, d[n..]), Arrival(Eof, [])];
      assert s[1..][1..] == [Arrival(Eof, [])];
      assert Delivered(s[1..]) == d[n..] + Delivered(s[1..][1..]) == d[n..];
      assert d == d[..n] + d[n..];
    }
  }

  lemma FirstReadDecides(pr: ParserState, d: seq<byte>, n: nat)
    requires pr.Valid() && !pr.eof && 0 < n <= |d|
    ensures HeaderBefore(pr.g, pr.input, d, n) ==> ReadLoop(Header, pr, 0, SplitAt(d, n)).Succeeded()
    ensures BrokenBefore(pr.g, pr.input, d, n) ==> !ReadLoop(Header, pr, 0, SplitAt(d, n)).Succeeded()
  {
  }

  /** Any two ways of splitting these bytes give a header read the same code. */
  ghost predicate HeaderIndependent(pr: ParserState, d: seq<byte>) {
    forall s, s' ::
      && FromStream(s) && EndsInEof(s) && Delivered(s) == d
      && FromStream(s') && EndsInEof(s') && Delivered(s') == d ==>
        ReadHeader(pr, s).out.Completed? && ReadHeader(pr, s').out.Completed?
        && ReadHeader(pr, s).out.ec == ReadHeader(pr, s').out.ec
  }

  /** A header read alone is independent of fragmentation exactly when the bytes are not
      exposed: a fault that lies beyond the header surfaces early if it shares a read with it. */
  lemma HeaderIndependentIff(pr: ParserState, d: seq<byte>)
    requires pr.Valid() && !pr.eof && !pr.GotHeader()
    ensures HeaderIndependent(pr, d) <==> !Exposed(pr.g, pr.input, d)
  {
    if Exposed(pr.g, pr.input, d) {
      var n: nat :| HeaderBefore(pr.g, pr.input, d, n);
      var m: nat :| BrokenBefore(pr.g, pr.input, d, m);
      SplitAtDelivers(d, n);
      SplitAtDelivers(d, m);
      FirstReadDecides(pr, d, n);
      FirstReadDecides(pr, d, m);
      assert ReadHeader(pr, SplitAt(d, n)).out != ReadHeader(pr, SplitAt(d, m)).out;
    } else {
      forall s | FromStream(s) && EndsInEof(s) && Delivered(s) == d
        ensures ReadHeader(pr, s).out.Completed? && ReadHeader(pr, s).out.ec == HeaderCode(pr.g, pr.input, d)
      {
        HeaderLoopCode(pr, 0, s);
      }
    }
  }
}
