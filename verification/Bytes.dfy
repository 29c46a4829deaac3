/** Files as bytes, and the lines in them. */
module Bytes {
  import opened Splitting

  type Byte = n: nat | n < 256

  const NEWLINE: Byte := 10

  predicate OneLine(bytes: seq<Byte>) {
    Uncut(bytes, NEWLINE)
  }

  predicate EachOneLine(lines: seq<seq<Byte>>) {
    EachUncut(lines, NEWLINE)
  }

  function Lines(file: seq<Byte>): (lines: seq<seq<Byte>>)
    ensures lines != []
  {
    Pieces(file, NEWLINE)
  }

  /** The bytes of so many lines, each with the newline that ends it. */
  function Flat(lines: seq<seq<Byte>>): seq<Byte> {
    Closed(lines, NEWLINE)
  }
}
