/** Completion codes and the completions that the event loop hands to a handler. */
module Codes {

  newtype byte = x: int | 0 <= x < 256

  /** `Ok` is the empty error code; every other value "failed". `Io` stands for any further
      error of the socket, `Syntax` for an error of the parser, `Source` for one of the serializer. */
  datatype Code =
    | Ok
    | Aborted
    | Eof
    | NeedMoreInput
    | Io(number: int)
    | Syntax(number: int)
    | Source(number: int)
  {
    predicate Failed() {
      !Ok?
    }
  }

  /** One completion: its code and the bytes transferred with it. A posted
      continuation, an accept and a failed wait transfer no bytes. */
  datatype Arrival = Arrival(ec: Code, data: seq<byte>)
  {
    /** What a stream may answer to a read: success brings at least one byte and
        end of file none; the codes of the parser and serializer never appear. */
    predicate FromStream() {
      && (ec.Ok? || ec.Aborted? || ec.Eof? || ec.Io?)
      && (ec.Ok? ==> data != [])
      && (ec.Eof? ==> data == [])
    }
  }

  /** The completion of a first, synchronous call and of a `post`. */
  function Plain(ec: Code): Arrival {
    Arrival(ec, [])
  }

  ghost predicate FromStream(script: seq<Arrival>) {
    forall i :: 0 <= i < |script| ==> script[i].FromStream()
  }

  /** All bytes of a script, in order. */
  function Bytes(script: seq<Arrival>): seq<byte> {
    if script == [] then [] else script[0].data + Bytes(script[1..])
  }

  function Concat<T>(parts: seq<seq<T>>): seq<T> {
    if parts == [] then [] else parts[0] + Concat(parts[1..])
  }

  lemma {:induction false} ConcatAppend<T>(parts: seq<seq<T>>, last: seq<T>)
    ensures Concat(parts + [last]) == Concat(parts) + last
  {
    if parts == [] {
      assert parts + [last] == [last];
    } else {
      assert (parts + [last])[1..] == parts[1..] + [last];
      ConcatAppend(parts[1..], last);
    }
  }
}
