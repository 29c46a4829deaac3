/** The ledger of runs: one line to a run, appended and never rewritten, by a process that can be killed
    part way through a write. */
module Ledger {
  import opened Wrappers
  import opened Numbers
  import opened Splitting
  import opened Bytes

  /** How a record is put on a line, and read off one. */
  datatype Codec<!R> = Codec(encode: R -> seq<Byte>, decode: seq<Byte> -> Option<R>)

  /** What the ledger rests on: a record is one line and not a blank one, it reads back as itself, and
      no part of it that a write could have stopped at reads as anything. */
  ghost predicate Lawful<R(!new)>(codec: Codec<R>) {
    forall r: R ::
      && OneLine(codec.encode(r)) && !Blank(codec.encode(r))
      && codec.decode(codec.encode(r)) == Some(r)
      && forall k :: 0 <= k < |codec.encode(r)| ==> codec.decode(codec.encode(r)[..k]) == None
  }

  /** `is_ascii_whitespace`, of every byte. */
  predicate Blank(line: seq<Byte>) {
    forall k :: 0 <= k < |line| ==> line[k] in [32, 9, 10, 12, 13]
  }

  // ---------------------------------------------------------------- reading and appending

  function ReadLine<R>(codec: Codec<R>, line: seq<Byte>): seq<R> {
    if Blank(line) then []
    else
      match codec.decode(line)
      case Some(r) => [r]
      case None => []
  }

  function ReadLines<R>(codec: Codec<R>, lines: seq<seq<Byte>>): seq<R> {
    if lines == [] then [] else ReadLines(codec, lines[..|lines| - 1]) + ReadLine(codec, lines[|lines| - 1])
  }

  /** Every run a file holds, oldest first, lines nobody can read left out. */
  function Read<R>(codec: Codec<R>, file: seq<Byte>): seq<R> {
    ReadLines(codec, Lines(file))
  }

  predicate MidLine(file: seq<Byte>) {
    file != [] && file[|file| - 1] != NEWLINE
  }

  /** What one append hands to the file in one write. */
  function Buffer<R>(codec: Codec<R>, file: seq<Byte>, run: R): seq<Byte> {
    (if MidLine(file) then [NEWLINE] else []) + codec.encode(run) + [NEWLINE]
  }

  /** The file after an append of which so many bytes landed. */
  function Appended<R>(codec: Codec<R>, file: seq<Byte>, run: R, lands: nat): seq<Byte> {
    var buffer := Buffer(codec, file, run);
    file + buffer[..Min(lands, |buffer|)]
  }

  /** Whether all of the record itself landed, its newline or not. */
  predicate Landed<R>(codec: Codec<R>, file: seq<Byte>, run: R, lands: nat) {
    lands >= |Buffer(codec, file, run)| - 1
  }

  class RunLedger<R> {
    const codec: Codec<R>
    var file: seq<Byte>

    constructor (codec: Codec<R>)
      ensures this.codec == codec && file == []
    {
      this.codec := codec;
      file := [];
    }

    /** Whether the last line was cut short. */
    method Unfinished() returns (so: bool)
      ensures so == MidLine(file)
    {
      if |file| == 0 {
        return false;
      }
      var last := file[|file| - 1];
      so := last != NEWLINE;
    }

    /** Puts a run on the end, of which the first so many bytes reach the file: all of them, or fewer
        where the core is killed meanwhile. */
    method Append(run: R, lands: nat)
      modifies this
      ensures file == Appended(codec, old(file), run, lands)
    {
      var midLine := Unfinished();
      var line := codec.encode(run) + [NEWLINE];
      if midLine {
        line := [NEWLINE] + line;
      }
      assert line == Buffer(codec, file, run);
      file := file + line[..Min(lands, |line|)];
    }

    method ReadAll() returns (runs: seq<R>)
      ensures runs == Read(codec, file)
    {
      var lines := Lines(file);
      runs := [];
      for i := 0 to |lines|
        invariant runs == ReadLines(codec, lines[..i])
      {
        assert lines[..i + 1][..i] == lines[..i];
        if !Blank(lines[i]) {
          var held := codec.decode(lines[i]);
          if held.Some? {
            runs := runs + [held.value];
          }
        }
      }
      assert lines[..|lines|] == lines;
    }
  }

  // ---------------------------------------------------------------- a torn write costs its own record

  lemma ReadOneMore<R>(codec: Codec<R>, front: seq<seq<Byte>>, last: seq<Byte>)
    ensures ReadLines(codec, front + [last]) == ReadLines(codec, front) + ReadLine(codec, last)
  {
    assert (front + [last])[..|front|] == front;
  }

  lemma ANewLineReadsTheSame<R>(codec: Codec<R>, file: seq<Byte>)
    ensures Read(codec, file + [NEWLINE]) == Read(codec, file)
  {
    OneMoreElement(file, NEWLINE, NEWLINE);
    ReadOneMore(codec, Lines(file), []);
  }

  /** What follows a whole file or a newline is read on its own. */
  lemma MoreReadsOnItsOwn<R>(codec: Codec<R>, file: seq<Byte>, more: seq<Byte>)
    requires !MidLine(file) && OneLine(more)
    ensures Read(codec, file + more) == Read(codec, file) + ReadLine(codec, more)
  {
    EndsOnAnEmptyLine(file);
    MoreOfAPiece(file, more, NEWLINE);
    OntoAnEmptyLine(codec, Lines(file), more);
  }

  lemma OntoAnEmptyLine<R>(codec: Codec<R>, lines: seq<seq<Byte>>, more: seq<Byte>)
    requires lines != [] && lines[|lines| - 1] == []
    ensures ReadLines(codec, Continued(lines, more)) == ReadLines(codec, lines) + ReadLine(codec, more)
  {
    var front := lines[..|lines| - 1];
    assert [] + more == more;
    ReadOneMore(codec, front, more);
    assert ReadLine(codec, []) == [];
    assert ReadLines(codec, front) + [] == ReadLines(codec, front);
  }

  lemma EndsOnAnEmptyLine(file: seq<Byte>)
    requires !MidLine(file)
    ensures Lines(file)[|Lines(file)| - 1] == []
  {
  }

  /** What part of a record reads as: the run, where all of it is there, and nothing short of that. */
  lemma PartOfARecord<R(!new)>(codec: Codec<R>, run: R, k: nat)
    requires Lawful(codec) && k <= |codec.encode(run)|
    ensures OneLine(codec.encode(run)[..k])
    ensures ReadLine(codec, codec.encode(run)[..k]) == if k == |codec.encode(run)| then [run] else []
  {
    assert codec.encode(run)[..|codec.encode(run)|] == codec.encode(run);
  }

  lemma OntoAWholeFile<R(!new)>(codec: Codec<R>, file: seq<Byte>, run: R, k: nat)
    requires Lawful(codec) && !MidLine(file) && k <= |codec.encode(run)| + 1
    ensures Read(codec, file + (codec.encode(run) + [NEWLINE])[..k])
         == Read(codec, file) + if k >= |codec.encode(run)| then [run] else []
  {
    var record := codec.encode(run);
    var part := record[..Min(k, |record|)];
    PartOfARecord(codec, run, |part|);
    MoreReadsOnItsOwn(codec, file, part);
    if k <= |record| {
      assert (record + [NEWLINE])[..k] == part;
    } else {
      assert file + (record + [NEWLINE])[..k] == (file + part) + [NEWLINE];
      ANewLineReadsTheSame(codec, file + part);
    }
  }

  /** Whatever the file held, and wherever the write stopped: what reads back is what read back before,
      and the run after it where its record landed whole. Nothing written before is lost to it. */
  lemma AnAppendCostsAtMostItsOwnRecord<R(!new)>(codec: Codec<R>, file: seq<Byte>, run: R, lands: nat)
    requires Lawful(codec)
    ensures Read(codec, Appended(codec, file, run, lands))
         == Read(codec, file) + if Landed(codec, file, run, lands) then [run] else []
  {
    if MidLine(file) {
      OntoAnUnfinishedLine(codec, file, run, lands);
    } else {
      var record := codec.encode(run);
      assert Buffer(codec, file, run) == record + [NEWLINE];
      OntoAWholeFile(codec, file, run, Min(lands, |record| + 1));
    }
  }

  /** Where the file ends part way through a line, the newline that goes first ends that line: it reads as
      it did, and the record is on its own. */
  lemma OntoAnUnfinishedLine<R(!new)>(codec: Codec<R>, file: seq<Byte>, run: R, lands: nat)
    requires Lawful(codec) && MidLine(file)
    ensures Read(codec, Appended(codec, file, run, lands))
         == Read(codec, file) + if Landed(codec, file, run, lands) then [run] else []
  {
    var record := codec.encode(run);
    var k := Min(lands, |record| + 2);
    assert Buffer(codec, file, run) == [NEWLINE] + (record + [NEWLINE]);
    if k == 0 {
      assert Appended(codec, file, run, lands) == file;
    } else {
      assert Appended(codec, file, run, lands) == (file + [NEWLINE]) + (record + [NEWLINE])[..k - 1];
      ANewLineReadsTheSame(codec, file);
      OntoAWholeFile(codec, file + [NEWLINE], run, k - 1);
    }
  }

  datatype Attempt<R> = Attempt(run: R, lands: nat)

  function AfterAll<R>(codec: Codec<R>, file: seq<Byte>, attempts: seq<Attempt<R>>): seq<Byte>
    decreases attempts
  {
    if attempts == [] then file
    else AfterAll(codec, Appended(codec, file, attempts[0].run, attempts[0].lands), attempts[1..])
  }

  /** The runs whose records landed whole, in the order they were appended. */
  function AllLanded<R>(codec: Codec<R>, file: seq<Byte>, attempts: seq<Attempt<R>>): seq<R>
    decreases attempts
  {
    if attempts == [] then []
    else
      (if Landed(codec, file, attempts[0].run, attempts[0].lands) then [attempts[0].run] else [])
      + AllLanded(codec, Appended(codec, file, attempts[0].run, attempts[0].lands), attempts[1..])
  }

  lemma AssociatesOver<R>(a: seq<R>, b: seq<R>, c: seq<R>)
    ensures (a + b) + c == a + (b + c)
  {
  }

  lemma {:induction false} AppendsCostAtMostTheirOwnRecords<R(!new)>(codec: Codec<R>, file: seq<Byte>,
                                                                     attempts: seq<Attempt<R>>)
    requires Lawful(codec)
    ensures Read(codec, AfterAll(codec, file, attempts)) == Read(codec, file) + AllLanded(codec, file, attempts)
    decreases attempts
  {
    if attempts != [] {
      var one := attempts[0];
      AnAppendCostsAtMostItsOwnRecord(codec, file, one.run, one.lands);
      AppendsCostAtMostTheirOwnRecords(codec, Appended(codec, file, one.run, one.lands), attempts[1..]);
      AssociatesOver(Read(codec, file), if Landed(codec, file, one.run, one.lands) then [one.run] else [],
                     AllLanded(codec, Appended(codec, file, one.run, one.lands), attempts[1..]));
    }
  }

  /** After any history of appends, each completed or cut off at any byte, the ledger reads back exactly
      the runs whose records landed whole, in the order they were appended. */
  lemma TheLedgerKeepsWhatLanded<R(!new)>(codec: Codec<R>, attempts: seq<Attempt<R>>)
    requires Lawful(codec)
    ensures Read(codec, AfterAll(codec, [], attempts)) == AllLanded(codec, [], attempts)
  {
    AppendsCostAtMostTheirOwnRecords(codec, [], attempts);
    ReadOneMore(codec, [], []);
  }

  // ---------------------------------------------------------------- a codec that keeps the laws

  /** A number in braces, as an object is written: two letters for its halves. */
  function Braced(n: Byte): seq<Byte> {
    [123, 97 + n / 16, 97 + n % 16, 125]
  }

  function Unbraced(line: seq<Byte>): Option<Byte> {
    if |line| == 4 && line[0] == 123 && line[3] == 125 && 97 <= line[1] < 113 && 97 <= line[2] < 113
    then Some(16 * (line[1] - 97) + (line[2] - 97))
    else None
  }

  /** The laws can be kept, and what makes the last of them hold is the closing brace. */
  lemma BracesKeepTheLaws()
    ensures Lawful(Codec(Braced, Unbraced))
  {
    forall r: Byte
      ensures OneLine(Braced(r)) && !Blank(Braced(r)) && Unbraced(Braced(r)) == Some(r)
      ensures forall k :: 0 <= k < |Braced(r)| ==> Unbraced(Braced(r)[..k]) == None
    {
      assert Braced(r)[0] == 123;
    }
  }
}
