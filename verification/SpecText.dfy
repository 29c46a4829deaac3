/** Reading a spec undoes writing it, and exactly when. */
module SpecText {
  import opened Wrappers
  import opened Splitting
  import opened Specs

  // ---------------------------------------------------------------- the line that names a part

  lemma WhatALabelIs(named: Named)
    ensures var name := named.Label();
            name != "" && Uncut(name, ':') && Uncut(name, '\n') && !Opening.Holds(name[0]) && Bare(name, Space)
              && Bare(name, Decoration)
  {
    match named
    case Goal =>
    case Place =>
    case DoneWhen =>
    case OnFailure =>
    case Why =>
    case Scope =>
  }

  lemma WhatALabelNames(named: Named)
    ensures Lowered(named.Label()) == named.Label() && Called(named.Label()) == Some(named)
  {
    match named
    case Goal =>
    case Place =>
    case DoneWhen =>
    case OnFailure =>
    case Why =>
    case Scope =>
  }

  function NamingLine(named: Named, said: string): string {
    named.Label() + ": " + said
  }

  lemma NothingOpensIt(named: Named, said: string)
    ensures var line := NamingLine(named, said); TrimStart(TrimStart(TrimStart(line, Space), Opening), Space) == line
  {
    WhatALabelIs(named);
    assert NamingLine(named, said)[0] == named.Label()[0];
  }

  lemma ColonAfterTheLabel(named: Named, said: string)
    ensures var line, name := NamingLine(named, said), named.Label();
            FirstFrom(line, ':', 0) == |name| < |line| && line[..|name|] == name && line[|name| + 1..] == " " + said
  {
    WhatALabelIs(named);
    var line, name := NamingLine(named, said), named.Label();
    assert line[|name|] == ':' && forall k :: 0 <= k < |name| ==> line[k] == name[k];
  }

  lemma LabelIsCalled(named: Named)
    ensures Called(Lowered(Trim(Trim(Trim(named.Label(), Space), Decoration), Space))) == Some(named)
  {
    WhatALabelIs(named);
    WhatALabelNames(named);
    BareStays(named.Label(), Space);
    BareStays(named.Label(), Decoration);
  }

  lemma NamingLineNames(named: Named, said: string)
    ensures NamedOn(NamingLine(named, said)) == Some((named, " " + said))
  {
    NothingOpensIt(named, said);
    ColonAfterTheLabel(named, said);
    LabelIsCalled(named);
  }

  lemma ASpaceBefore(said: string)
    ensures ValueOn(" " + said) == ValueOn(said)
  {
    assert (" " + said)[1..] == said;
  }

  lemma ReturnAtTheEnd(named: Named, said: string)
    ensures WithoutReturn(NamingLine(named, said)) == NamingLine(named, WithoutReturn(said))
  {
    if said != "" {
      assert NamingLine(named, said)[..|NamingLine(named, said)| - 1] == NamingLine(named, said[..|said| - 1]);
    }
  }

  /** What a naming line does to a reading, however far it is. */
  lemma ReadNamingLine(so: Reading, named: Named, said: string)
    ensures ReadLine(so, WithoutReturn(NamingLine(named, said)))
         == Reading(so.spec.With(named, GivenAs(ValueOn(WithoutReturn(said)))), true, Some(named))
  {
    ReturnAtTheEnd(named, said);
    NamingLineNames(named, WithoutReturn(said));
    ASpaceBefore(WithoutReturn(said));
  }

  // ---------------------------------------------------------------- what reads back

  /** A line that goes on with what was being said: it names no part, is not blank, and has nothing after
      what it says. */
  predicate GoesOn(line: string) {
    NamedOn(line).None? && Trim(line, Space) != "" && TrimEnd(line, Space) == line
  }

  /** What a part must say for it to read back: nothing to take off its first line, and every other line
      one that goes on. */
  predicate Clean(said: string) {
    ValueOn(Pieces(said, '\n')[0]) == Pieces(said, '\n')[0]
    && AfterTheFirst(GoesOn, Pieces(said, '\n'), |Pieces(said, '\n')|)
  }

  /** So of each of the first so many pieces but the first. */
  predicate AfterTheFirst(so: string -> bool, pieces: seq<string>, k: nat)
    requires k <= |pieces|
  {
    forall j :: 1 <= j < k ==> so(pieces[j])
  }

  predicate AllClean(spec: Spec) {
    forall named: Named :: spec.PartOf(named).Says() != "" ==> Clean(spec.PartOf(named).Says())
  }

  predicate SaysSomething(spec: Spec) {
    exists named: Named :: spec.PartOf(named).Says() != ""
  }

  /** A part as its author's own, or open where it says nothing. */
  function Restated(part: Part): Part {
    if part.Says() == "" then UNSETTLED else GivenAs(part.Says())
  }

  function RestatedSpec(spec: Spec): Spec {
    Spec(Restated(spec.goal), Restated(spec.place), Restated(spec.doneWhen), Restated(spec.onFailure),
         Restated(spec.why), Restated(spec.scope))
  }

  // ---------------------------------------------------------------- the lines of one part

  function Block(named: Named, said: string): seq<string> {
    [NamingLine(named, Pieces(said, '\n')[0])] + Pieces(said, '\n')[1..]
  }

  function AsRead(lines: seq<string>): seq<string> {
    seq(|lines|, i requires 0 <= i < |lines| => WithoutReturn(lines[i]))
  }

  lemma ReadOneMore(so: Reading, lines: seq<string>, k: nat)
    requires k < |lines|
    ensures ReadLines(ReadLine, so, lines[..k + 1]) == ReadLine(ReadLines(ReadLine, so, lines[..k]), lines[k])
  {
    assert lines[..k + 1][..k] == lines[..k];
  }

  lemma ReadFirstOfABlock(so: Reading, named: Named, said: string)
    ensures ReadLines(ReadLine, so, AsRead(Block(named, said))[..1])
         == Reading(so.spec.With(named, GivenAs(ValueOn(WithoutReturn(Pieces(said, '\n')[0])))), true, Some(named))
  {
    ReadOneMore(so, AsRead(Block(named, said)), 0);
    ReadNamingLine(so, named, Pieces(said, '\n')[0]);
  }

  lemma OneMorePiece(pieces: seq<string>, k: nat)
    requires 1 <= k < |pieces|
    ensures Joined(pieces[..k + 1], '\n') == Joined(pieces[..k], '\n') + "\n" + pieces[k]
  {
    assert pieces[..k + 1] == pieces[..k] + [pieces[k]];
    OneMoreJoined(pieces[..k], pieces[k], '\n');
  }

  /** A line that goes on adds itself to what was being said. */
  lemma ReadGoingOn(so: Reading, line: string, named: Named, said: string)
    requires GoesOn(line) && so.last == Some(named) && so.spec.PartOf(named) == GivenAs(said) && said != ""
    ensures ReadLine(so, WithoutReturn(line)) == so.(spec := so.spec.With(named, GivenAs(said + "\n" + line)))
  {
    assert WithoutReturn(line) == line;
  }

  /** Nothing to take off: the first line of it is not empty. */
  lemma FirstLineSays(said: string)
    requires said != "" && Bare(said, Space)
    ensures Pieces(said, '\n')[0] != ""
  {
    PiecesJoinBack(said, '\n');
    if Pieces(said, '\n')[0] == "" {
      StartsWithItsFirst(Pieces(said, '\n'));
    }
  }

  lemma {:induction false} StartsWithItsFirst(pieces: seq<string>)
    requires pieces != []
    ensures |Joined(pieces, '\n')| >= |pieces[0]| && Joined(pieces, '\n')[..|pieces[0]|] == pieces[0]
    ensures |pieces| > 1 ==> |Joined(pieces, '\n')| > |pieces[0]| && Joined(pieces, '\n')[|pieces[0]|] == '\n'
  {
    if |pieces| > 1 {
      StartsWithItsFirst(pieces[..|pieces| - 1]);
    }
  }

  /** With so much of a part read. */
  predicate ReadUpTo(read: Reading, spec: Spec, named: Named, said: string) {
    said != "" && read == Reading(spec.With(named, GivenAs(said)), true, Some(named))
  }

  lemma ReadOn(read: Reading, spec: Spec, named: Named, said: string, line: string)
    requires ReadUpTo(read, spec, named, said) && GoesOn(line)
    ensures ReadUpTo(ReadLine(read, WithoutReturn(line)), spec, named, said + "\n" + line)
  {
    WritingInto(spec, named, GivenAs(said), named);
    ReadGoingOn(read, line, named, said);
  }

  /** Lines read after a first one, where each is a piece of what is said. */
  predicate ReadsThese(lines: seq<string>, pieces: seq<string>) {
    |lines| == |pieces| && forall k :: 1 <= k < |lines| ==> lines[k] == WithoutReturn(pieces[k])
  }

  lemma {:induction false} CleanLinesReadBack(so: Reading, lines: seq<string>, named: Named, pieces: seq<string>,
                                              k: nat)
    requires 1 <= k <= |pieces| && ReadsThese(lines, pieces)
    requires ReadUpTo(ReadLines(ReadLine, so, lines[..1]), so.spec, named, pieces[0])
    requires AfterTheFirst(GoesOn, pieces, |pieces|)
    ensures ReadUpTo(ReadLines(ReadLine, so, lines[..k]), so.spec, named, Joined(pieces[..k], '\n'))
  {
    if k == 1 {
      assert pieces[..1] == [pieces[0]];
    } else {
      CleanLinesReadBack(so, lines, named, pieces, k - 1);
      OneMorePiece(pieces, k - 1);
      ReadOneMore(so, lines, k - 1);
      ReadOn(ReadLines(ReadLine, so, lines[..k - 1]), so.spec, named, Joined(pieces[..k - 1], '\n'), pieces[k - 1]);
    }
  }

  lemma NoReturnToTakeOff(piece: string)
    requires ValueOn(piece) == piece
    ensures WithoutReturn(piece) == piece
  {
  }

  lemma TheFirstReadsBack(so: Reading, named: Named, said: string)
    requires said != "" && Bare(said, Space) && Clean(said)
    ensures ReadUpTo(ReadLines(ReadLine, so, AsRead(Block(named, said))[..1]), so.spec, named, Pieces(said, '\n')[0])
  {
    var read, first := ReadLines(ReadLine, so, AsRead(Block(named, said))[..1]), Pieces(said, '\n')[0];
    FirstLineSays(said);
    NoReturnToTakeOff(first);
    ReadFirstOfABlock(so, named, said);
    assert read == Reading(so.spec.With(named, GivenAs(first)), true, Some(named));
  }

  lemma LinesOfABlock(named: Named, said: string)
    ensures ReadsThese(AsRead(Block(named, said)), Pieces(said, '\n'))
    ensures AsRead(Block(named, said))[..|Pieces(said, '\n')|] == AsRead(Block(named, said))
    ensures Joined(Pieces(said, '\n')[..|Pieces(said, '\n')|], '\n') == said
  {
    var pieces, lines := Pieces(said, '\n'), AsRead(Block(named, said));
    BlockReadsThese(named, said, pieces);
    PiecesJoinBack(said, '\n');
    assert pieces[..|pieces|] == pieces && lines[..|pieces|] == lines;
  }

  lemma BlockReadsThese(named: Named, said: string, pieces: seq<string>)
    requires pieces == Pieces(said, '\n')
    ensures ReadsThese(AsRead(Block(named, said)), pieces)
  {
  }

  /** A clean part reads back whole, whatever was read before it. */
  lemma ACleanBlockReadsBack(so: Reading, named: Named, said: string)
    requires said != "" && Bare(said, Space) && Clean(said)
    ensures ReadUpTo(ReadLines(ReadLine, so, AsRead(Block(named, said))), so.spec, named, said)
  {
    LinesOfABlock(named, said);
    TheFirstReadsBack(so, named, said);
    CleanLinesReadBack(so, AsRead(Block(named, said)), named, Pieces(said, '\n'), |Pieces(said, '\n')|);
  }

  // ---------------------------------------------------------------- no line gives more than it holds

  lemma NamedOnSaysLess(line: string)
    ensures NamedOn(line).Some? ==> |NamedOn(line).value.1| <= |line|
  {
  }

  /** What was read adds so much at most, and all of it only where this is so. */
  predicate AddsAtMost(next: Reading, so: Reading, much: nat, only: bool) {
    && (so.namedOne ==> next.namedOne)
    && next.spec.Size() <= so.spec.Size() + much
    && (next.spec.Size() == so.spec.Size() + much ==> only)
  }

  /** A line adds itself and a newline at most, and that only where it goes on with what was being said. */
  lemma ALineAddsAtMostItself(so: Reading, line: string)
    ensures AddsAtMost(ReadLine(so, WithoutReturn(line)), so, 1 + |line|, GoesOn(line))
  {
    var read := WithoutReturn(line);
    NamedOnSaysLess(read);
    if NamedOn(read).Some? {
      var (named, said) := NamedOn(read).value;
      WritingInto(so.spec, named, GivenAs(ValueOn(said)), named);
    } else if so.last.Some? {
      var part := so.spec.PartOf(so.last.value);
      if part.said.Some? {
        WritingInto(so.spec, so.last.value, part.(said := Some(WithMore(part.said.value, TrimEnd(read, Space)))),
                    so.last.value);
      }
    }
  }

  /** So many pieces read add what they come to at most, and that only where it is so of each. */
  predicate AddsUpTo(goesOn: string -> bool, read: Reading, start: nat, pieces: seq<string>, k: nat)
    requires 1 <= k <= |pieces|
  {
    && read.namedOne
    && read.spec.Size() <= start + |Joined(pieces[..k], '\n')|
    && (read.spec.Size() == start + |Joined(pieces[..k], '\n')| ==>
          ValueOn(pieces[0]) == pieces[0] && AfterTheFirst(goesOn, pieces, k))
  }

  lemma {:induction false} OneMoreAdds(goesOn: string -> bool, read: Reading, next: Reading, start: nat,
                                       pieces: seq<string>, k: nat)
    requires 1 <= k < |pieces| && AddsUpTo(goesOn, read, start, pieces, k)
    requires AddsAtMost(next, read, 1 + |pieces[k]|, goesOn(pieces[k]))
    ensures AddsUpTo(goesOn, next, start, pieces, k + 1)
  {
    OneMorePiece(pieces, k);
  }

  lemma {:induction false} LinesAddAtMostThemselves(so: Reading, lines: seq<string>, pieces: seq<string>, k: nat)
    requires 1 <= k <= |pieces| && ReadsThese(lines, pieces)
    requires AddsUpTo(GoesOn, ReadLines(ReadLine, so, lines[..1]), so.spec.Size(), pieces, 1)
    ensures AddsUpTo(GoesOn, ReadLines(ReadLine, so, lines[..k]), so.spec.Size(), pieces, k)
  {
    if k > 1 {
      LinesAddAtMostThemselves(so, lines, pieces, k - 1);
      ReadOneMore(so, lines, k - 1);
      ALineAddsAtMostItself(ReadLines(ReadLine, so, lines[..k - 1]), pieces[k - 1]);
      OneMoreAdds(GoesOn, ReadLines(ReadLine, so, lines[..k - 1]), ReadLines(ReadLine, so, lines[..k]), so.spec.Size(),
                  pieces, k - 1);
    }
  }

  lemma ValueIsNoMore(piece: string)
    ensures |ValueOn(WithoutReturn(piece))| <= |piece|
    ensures |ValueOn(WithoutReturn(piece))| == |piece| ==> ValueOn(piece) == piece
  {
  }

  lemma GivingAdds(read: Reading, so: Reading, named: Named, value: string, pieces: seq<string>)
    requires pieces != [] && read == Reading(so.spec.With(named, GivenAs(value)), true, Some(named))
    requires |value| <= |pieces[0]| && (|value| == |pieces[0]| ==> ValueOn(pieces[0]) == pieces[0])
    ensures AddsUpTo(GoesOn, read, so.spec.Size(), pieces, 1)
  {
    WritingInto(so.spec, named, GivenAs(value), named);
    assert pieces[..1] == [pieces[0]];
  }

  lemma TheFirstAdds(so: Reading, named: Named, said: string)
    ensures AddsUpTo(GoesOn, ReadLines(ReadLine, so, AsRead(Block(named, said))[..1]), so.spec.Size(),
                     Pieces(said, '\n'), 1)
  {
    var pieces := Pieces(said, '\n');
    ReadFirstOfABlock(so, named, said);
    ValueIsNoMore(pieces[0]);
    GivingAdds(ReadLines(ReadLine, so, AsRead(Block(named, said))[..1]), so, named, ValueOn(WithoutReturn(pieces[0])),
               pieces);
  }

  /** A part adds what it says at most, and that only where it is clean. */
  lemma ABlockAddsAtMostItself(so: Reading, named: Named, said: string)
    ensures AddsAtMost(ReadLines(ReadLine, so, AsRead(Block(named, said))), so, |said|, Clean(said))
    ensures ReadLines(ReadLine, so, AsRead(Block(named, said))).namedOne
  {
    var pieces, lines := Pieces(said, '\n'), AsRead(Block(named, said));
    LinesOfABlock(named, said);
    TheFirstAdds(so, named, said);
    LinesAddAtMostThemselves(so, lines, pieces, |pieces|);
  }

  // ---------------------------------------------------------------- the lines of some parts

  /** A part and what it says. */
  datatype Saying = Saying(named: Named, said: string)

  predicate Spoken(ss: seq<Saying>) {
    forall k :: 0 <= k < |ss| ==> ss[k].said != "" && Bare(ss[k].said, Space)
  }

  function LinesBy(ss: seq<Saying>): seq<string> {
    if ss == [] then [] else LinesBy(ss[..|ss| - 1]) + Block(ss[|ss| - 1].named, ss[|ss| - 1].said)
  }

  lemma {:induction false} ReadInTurn(step: (Reading, string) -> Reading, so: Reading, one: seq<string>,
                                      another: seq<string>)
    ensures ReadLines(step, so, one + another) == ReadLines(step, ReadLines(step, so, one), another)
  {
    if another == [] {
      assert one + another == one;
    } else {
      ReadInTurn(step, so, one, another[..|another| - 1]);
      assert (one + another)[..|one + another| - 1] == one + another[..|another| - 1];
    }
  }

  lemma AsReadInTurn(one: seq<string>, another: seq<string>)
    ensures AsRead(one + another) == AsRead(one) + AsRead(another)
  {
  }

  function ReadBy(ss: seq<Saying>): Reading {
    ReadLines(ReadLine, UNREAD, AsRead(LinesBy(ss)))
  }

  lemma ReadOnePartMore(front: seq<Saying>, last: Saying)
    ensures LinesBy(front + [last]) == LinesBy(front) + Block(last.named, last.said)
    ensures ReadBy(front + [last]) == ReadLines(ReadLine, ReadBy(front), AsRead(Block(last.named, last.said)))
  {
    assert (front + [last])[..|front|] == front;
    AsReadInTurn(LinesBy(front), Block(last.named, last.said));
    ReadInTurn(ReadLine, UNREAD, AsRead(LinesBy(front)), AsRead(Block(last.named, last.said)));
  }

  /** The spec with these parts given and every other open. */
  function RestatedBy(ss: seq<Saying>): Spec {
    if ss == [] then OPEN else RestatedBy(ss[..|ss| - 1]).With(ss[|ss| - 1].named, GivenAs(ss[|ss| - 1].said))
  }

  function SizeBy(ss: seq<Saying>): nat {
    if ss == [] then 0 else SizeBy(ss[..|ss| - 1]) + |ss[|ss| - 1].said|
  }

  /** So of what each of them says. */
  predicate SoOfEach(so: string -> bool, ss: seq<Saying>) {
    forall k :: 0 <= k < |ss| ==> so(ss[k].said)
  }

  predicate ReadsBack(ss: seq<Saying>) {
    ReadBy(ss).spec == RestatedBy(ss)
  }

  lemma ThisPartReadsBack(front: seq<Saying>, last: Saying)
    requires ReadsBack(front) && last.said != "" && Bare(last.said, Space) && Clean(last.said)
    ensures ReadsBack(front + [last])
  {
    assert (front + [last])[..|front|] == front;
    ReadOnePartMore(front, last);
    ACleanBlockReadsBack(ReadBy(front), last.named, last.said);
  }

  /** Parts read back as far as each next one does. */
  lemma {:induction false} OneAfterAnother(back: seq<Saying> -> bool, good: Saying -> bool, ss: seq<Saying>)
    requires back([]) && forall k :: 0 <= k < |ss| ==> good(ss[k])
    requires forall front, last :: back(front) && good(last) ==> back(front + [last])
    ensures back(ss)
  {
    if ss != [] {
      assert ss == ss[..|ss| - 1] + [ss[|ss| - 1]];
      OneAfterAnother(back, good, ss[..|ss| - 1]);
    }
  }

  predicate CleanSaying(s: Saying) {
    s.said != "" && Bare(s.said, Space) && Clean(s.said)
  }

  lemma CleanPartsReadBack(ss: seq<Saying>)
    requires Spoken(ss) && SoOfEach(Clean, ss)
    ensures ReadsBack(ss)
  {
    assert ReadsBack([]);
    forall front, last | ReadsBack(front) && CleanSaying(last) ensures ReadsBack(front + [last]) {
      ThisPartReadsBack(front, last);
    }
    OneAfterAnother(ReadsBack, CleanSaying, ss);
  }

  /** Parts add what they say at most, and all of it only where this is so of each. */
  predicate PartsAdd(good: string -> bool, read: Reading, ss: seq<Saying>) {
    && read.spec.Size() <= SizeBy(ss)
    && (read.spec.Size() == SizeBy(ss) ==> SoOfEach(good, ss))
    && (read.namedOne <==> ss != [])
  }

  lemma {:induction false} OnePartMoreAdds(good: string -> bool, read: Reading, next: Reading, front: seq<Saying>,
                                           last: Saying)
    requires PartsAdd(good, read, front) && next.namedOne && AddsAtMost(next, read, |last.said|, good(last.said))
    ensures PartsAdd(good, next, front + [last])
  {
    assert (front + [last])[..|front|] == front;
  }

  lemma ThisPartAdds(front: seq<Saying>, last: Saying)
    requires PartsAdd(Clean, ReadBy(front), front)
    ensures PartsAdd(Clean, ReadBy(front + [last]), front + [last])
  {
    ReadOnePartMore(front, last);
    ABlockAddsAtMostItself(ReadBy(front), last.named, last.said);
    OnePartMoreAdds(Clean, ReadBy(front), ReadBy(front + [last]), front, last);
  }

  lemma {:induction false} PartsAddAtMostThemselves(ss: seq<Saying>)
    ensures PartsAdd(Clean, ReadBy(ss), ss)
  {
    if ss != [] {
      assert ss == ss[..|ss| - 1] + [ss[|ss| - 1]];
      PartsAddAtMostThemselves(ss[..|ss| - 1]);
      ThisPartAdds(ss[..|ss| - 1], ss[|ss| - 1]);
    }
  }

  predicate NamedOnce(ss: seq<Saying>) {
    forall i, j :: 0 <= i < j < |ss| ==> ss[i].named != ss[j].named
  }

  lemma {:induction false} GivenOrOpen(ss: seq<Saying>, named: Named)
    requires NamedOnce(ss)
    ensures forall k :: 0 <= k < |ss| && ss[k].named == named ==> RestatedBy(ss).PartOf(named) == GivenAs(ss[k].said)
    ensures (forall k :: 0 <= k < |ss| ==> ss[k].named != named) ==> RestatedBy(ss).PartOf(named) == UNSETTLED
  {
    if ss != [] {
      var front, last := ss[..|ss| - 1], ss[|ss| - 1];
      GivenOrOpen(front, named);
      WritingInto(RestatedBy(front), last.named, GivenAs(last.said), named);
    }
  }

  lemma {:induction false} RestatingKeepsTheSize(ss: seq<Saying>)
    requires NamedOnce(ss)
    ensures RestatedBy(ss).Size() == SizeBy(ss)
  {
    if ss != [] {
      var front, last := ss[..|ss| - 1], ss[|ss| - 1];
      RestatingKeepsTheSize(front);
      GivenOrOpen(front, last.named);
      WritingInto(RestatedBy(front), last.named, GivenAs(last.said), last.named);
    }
  }

  /** Some parts read back as they are exactly where each is clean. */
  lemma ReadAsTheyAre(ss: seq<Saying>)
    requires Spoken(ss) && NamedOnce(ss)
    ensures ReadsBack(ss) <==> SoOfEach(Clean, ss)
  {
    RestatingKeepsTheSize(ss);
    PartsAddAtMostThemselves(ss);
    if SoOfEach(Clean, ss) {
      CleanPartsReadBack(ss);
    }
  }

  // ---------------------------------------------------------------- the text of some parts

  /** Lines with nothing to take off the end of the last. */
  predicate EndsFirmly(lines: seq<string>) {
    lines != [] && lines[|lines| - 1] != "" && !Space.Holds(lines[|lines| - 1][|lines[|lines| - 1]| - 1])
  }

  lemma JoinedEndsAsItsLast(lines: seq<string>)
    requires EndsFirmly(lines)
    ensures var text := Joined(lines, '\n'); text != "" && !Space.Holds(text[|text| - 1])
  {
  }

  lemma EndOfJoined(lines: seq<string>)
    requires lines != [] && Bare(Joined(lines, '\n'), Space) && Joined(lines, '\n') != ""
    ensures EndsFirmly(lines)
  {
    var text, last := Joined(lines, '\n'), lines[|lines| - 1];
    if |lines| > 1 {
      OneMoreJoined(lines[..|lines| - 1], last, '\n');
      assert lines == lines[..|lines| - 1] + [last];
    }
    assert text[|text| - 1] == if last == "" then '\n' else last[|last| - 1];
  }

  lemma ABlockEndsFirmly(named: Named, said: string)
    requires said != "" && Bare(said, Space)
    ensures EndsFirmly(Block(named, said)) && EachUncut(Block(named, said), '\n')
    ensures Joined(Block(named, said), '\n') == NamingLine(named, said)
  {
    var pieces := Pieces(said, '\n');
    PiecesJoinBack(said, '\n');
    WhatALabelIs(named);
    EndOfJoined(pieces);
    JoinedAfter(named.Label() + ": ", pieces);
  }

  lemma {:induction false} JoinedAfter(before: string, pieces: seq<string>)
    requires pieces != []
    ensures Joined([before + pieces[0]] + pieces[1..], '\n') == before + Joined(pieces, '\n')
  {
    if |pieces| > 1 {
      var front, last := pieces[..|pieces| - 1], pieces[|pieces| - 1];
      JoinedAfter(before, front);
      assert [before + pieces[0]] + pieces[1..] == ([before + front[0]] + front[1..]) + [last];
      OneMoreJoined([before + front[0]] + front[1..], last, '\n');
      assert pieces == front + [last];
      OneMoreJoined(front, last, '\n');
    }
  }

  lemma EndsAsItsEnd(one: seq<string>, another: seq<string>)
    requires EndsFirmly(another) && EachUncut(one, '\n') && EachUncut(another, '\n')
    ensures EndsFirmly(one + another) && EachUncut(one + another, '\n')
  {
    assert (one + another)[|one + another| - 1] == another[|another| - 1];
  }

  function TextBy(write: (Named, string) -> string, ss: seq<Saying>): string {
    if ss == [] then "" else TextBy(write, ss[..|ss| - 1]) + write(ss[|ss| - 1].named, ss[|ss| - 1].said)
  }

  /** Lines a text is made of, ending firmly where there are any. */
  predicate MadeOf(text: string, lines: seq<string>) {
    && text == Closed(lines, '\n') && EachUncut(lines, '\n')
    && (lines == [] || EndsFirmly(lines))
  }

  lemma OneBlockMore(text: string, lines: seq<string>, last: Saying)
    requires MadeOf(text, lines) && last.said != "" && Bare(last.said, Space)
    ensures MadeOf(text + WrittenPart(last.named, last.said), lines + Block(last.named, last.said))
  {
    var block := Block(last.named, last.said);
    ABlockEndsFirmly(last.named, last.said);
    ClosedIsJoined(block, '\n');
    ClosedSplits(lines, block, '\n');
    EndsAsItsEnd(lines, block);
  }

  lemma {:induction false} WrittenIsItsLines(ss: seq<Saying>)
    requires Spoken(ss)
    ensures MadeOf(TextBy(WrittenPart, ss), LinesBy(ss)) && (LinesBy(ss) == [] <==> ss == [])
  {
    if ss != [] {
      WrittenIsItsLines(ss[..|ss| - 1]);
      OneBlockMore(TextBy(WrittenPart, ss[..|ss| - 1]), LinesBy(ss[..|ss| - 1]), ss[|ss| - 1]);
    }
  }

  lemma TrimmedIsJoined(lines: seq<string>)
    requires EndsFirmly(lines)
    ensures TrimEnd(Closed(lines, '\n'), Space) == Joined(lines, '\n')
  {
    ClosedIsJoined(lines, '\n');
    JoinedEndsAsItsLast(lines);
    var text := Joined(lines, '\n');
    assert (text + "\n")[..|text|] == text;
  }

  lemma WrittenReadsAsItsLines(lines: seq<string>)
    requires EndsFirmly(lines) && EachUncut(lines, '\n')
    ensures LinesOf(TrimEnd(Closed(lines, '\n'), Space)) == AsRead(lines)
  {
    TrimmedIsJoined(lines);
    PiecesOfJoined(lines, '\n');
    assert WithoutReturn(lines[|lines| - 1]) == lines[|lines| - 1];
  }

  lemma ReadOfWritten(ss: seq<Saying>)
    requires Spoken(ss)
    ensures ReadSpec(TrimEnd(TextBy(WrittenPart, ss), Space)) == if ss == [] then None else Some(ReadBy(ss).spec)
  {
    WrittenIsItsLines(ss);
    PartsAddAtMostThemselves(ss);
    if ss == [] {
      assert LinesOf("") == [];
    } else {
      WrittenReadsAsItsLines(LinesBy(ss));
    }
  }

  // ---------------------------------------------------------------- what a spec says

  /** The parts that say something, in an order. */
  function SaidAmong(order: seq<Named>, says: Named -> string, n: nat): seq<Saying>
    requires n <= |order|
  {
    if n == 0 then []
    else
      SaidAmong(order, says, n - 1)
        + if says(order[n - 1]) == "" then [] else [Saying(order[n - 1], says(order[n - 1]))]
  }

  lemma {:induction false} WrittenAsSaid(write: (Named, string) -> string, order: seq<Named>, says: Named -> string,
                                         n: nat)
    requires n <= |order| && forall named: Named :: write(named, "") == ""
    ensures WrittenAmong(write, order, says, n) == TextBy(write, SaidAmong(order, says, n))
  {
    if n > 0 {
      WrittenAsSaid(write, order, says, n - 1);
      var front, text := SaidAmong(order, says, n - 1), WrittenAmong(write, order, says, n - 1);
      if says(order[n - 1]) == "" {
        assert front + [] == front && text + "" == text;
      } else {
        assert (front + [Saying(order[n - 1], says(order[n - 1]))])[..|front|] == front;
      }
    }
  }

  /** Where what is said stands: exactly the parts that say something, each once. */
  lemma {:induction false} WhatIsSaid(order: seq<Named>, says: Named -> string, n: nat)
    requires n <= |order| && NoneTwice(order)
    ensures forall s :: s in SaidAmong(order, says, n) <==>
              s.said != "" && s.said == says(s.named) && s.named in order[..n]
    ensures NamedOnce(SaidAmong(order, says, n))
  {
    if n > 0 {
      WhatIsSaid(order, says, n - 1);
      assert order[..n] == order[..n - 1] + [order[n - 1]];
      assert order[n - 1] !in order[..n - 1];
      var front := SaidAmong(order, says, n - 1);
      forall k | 0 <= k < |front| ensures front[k].named != order[n - 1] {
        assert front[k] in front;
      }
    }
  }

  predicate NoneTwice(order: seq<Named>) {
    forall i, j :: 0 <= i < j < |order| ==> order[i] != order[j]
  }

  /** Every part, and none of them twice. */
  predicate EachOnce(order: seq<Named>) {
    NoneTwice(order) && forall named: Named :: named in order
  }

  lemma PartsAreReadOnceEach()
    ensures EachOnce(ALL)
  {
    forall named: Named ensures named in ALL {
      match named
      case Goal => assert ALL[0] == Goal;
      case Place => assert ALL[1] == Place;
      case DoneWhen => assert ALL[2] == DoneWhen;
      case OnFailure => assert ALL[3] == OnFailure;
      case Why => assert ALL[4] == Why;
      case Scope => assert ALL[5] == Scope;
    }
  }

  /** What a spec says, part by part, in an order. */
  function SayingsOf(order: seq<Named>, spec: Spec): seq<Saying> {
    SaidAmong(order, SaidIn(spec), |order|)
  }

  lemma SayingsAre(order: seq<Named>, spec: Spec)
    requires EachOnce(order)
    ensures NamedOnce(SayingsOf(order, spec))
    ensures forall s :: s in SayingsOf(order, spec) <==> s.said != "" && s.said == spec.PartOf(s.named).Says()
  {
    WhatIsSaid(order, SaidIn(spec), |order|);
    assert order[..|order|] == order;
  }

  lemma SayingsAreSpoken(order: seq<Named>, spec: Spec)
    requires EachOnce(order)
    ensures Spoken(SayingsOf(order, spec))
  {
    SayingsAre(order, spec);
    var ss := SayingsOf(order, spec);
    forall k | 0 <= k < |ss| ensures ss[k].said != "" && Bare(ss[k].said, Space) {
      assert ss[k] in ss;
    }
  }

  lemma RestatedFrom(order: seq<Named>, spec: Spec, named: Named)
    requires EachOnce(order)
    ensures RestatedBy(SayingsOf(order, spec)).PartOf(named) == Restated(spec.PartOf(named))
  {
    var ss, said := SayingsOf(order, spec), spec.PartOf(named).Says();
    SayingsAre(order, spec);
    GivenOrOpen(ss, named);
    if said == "" {
      forall k | 0 <= k < |ss| ensures ss[k].named != named {
        assert ss[k] in ss;
      }
    } else {
      assert Saying(named, said) in ss;
    }
  }

  lemma SameParts(one: Spec, spec: Spec)
    requires one.PartOf(Goal) == Restated(spec.goal) && one.PartOf(Place) == Restated(spec.place)
    requires one.PartOf(DoneWhen) == Restated(spec.doneWhen) && one.PartOf(OnFailure) == Restated(spec.onFailure)
    requires one.PartOf(Why) == Restated(spec.why) && one.PartOf(Scope) == Restated(spec.scope)
    ensures one == RestatedSpec(spec)
  {
  }

  lemma RestatedAll(order: seq<Named>, spec: Spec)
    requires EachOnce(order)
    ensures RestatedBy(SayingsOf(order, spec)) == RestatedSpec(spec)
  {
    RestatedFrom(order, spec, Goal);
    RestatedFrom(order, spec, Place);
    RestatedFrom(order, spec, DoneWhen);
    RestatedFrom(order, spec, OnFailure);
    RestatedFrom(order, spec, Why);
    RestatedFrom(order, spec, Scope);
    SameParts(RestatedBy(SayingsOf(order, spec)), spec);
  }

  /** What holds of each saying holds of what each part says. */
  lemma {:induction false} EachSaying(order: seq<Named>, so: string -> bool, spec: Spec)
    requires EachOnce(order)
    ensures SoOfEach(so, SayingsOf(order, spec)) <==>
              forall named: Named :: spec.PartOf(named).Says() != "" ==> so(spec.PartOf(named).Says())
    ensures SayingsOf(order, spec) != [] <==> SaysSomething(spec)
  {
    SayingsAre(order, spec);
    var ss := SayingsOf(order, spec);
    forall named: Named | spec.PartOf(named).Says() != "" ensures Saying(named, spec.PartOf(named).Says()) in ss {
    }
    forall k | 0 <= k < |ss| ensures ss[k].said != "" && ss[k].said == spec.PartOf(ss[k].named).Says() {
      assert ss[k] in ss;
    }
    if ss != [] {
      assert spec.PartOf(ss[0].named).Says() != "";
    }
    if named: Named :| spec.PartOf(named).Says() != "" {
      assert Saying(named, spec.PartOf(named).Says()) in ss;
    }
  }

  lemma CleanAll(order: seq<Named>, spec: Spec)
    requires EachOnce(order)
    ensures SoOfEach(Clean, SayingsOf(order, spec)) <==> AllClean(spec)
  {
    EachSaying(order, Clean, spec);
  }

  // ---------------------------------------------------------------- reading undoes writing

  lemma ReadingUndoesWritingInOrder(order: seq<Named>, spec: Spec)
    requires EachOnce(order)
    ensures var text := TrimEnd(WrittenAmong(WrittenPart, order, SaidIn(spec), |order|), Space);
            && (ReadSpec(text).Some? <==> SaysSomething(spec))
            && (SaysSomething(spec) ==> (ReadSpec(text) == Some(RestatedSpec(spec)) <==> AllClean(spec)))
  {
    var ss := SayingsOf(order, spec);
    WrittenAsSaid(WrittenPart, order, SaidIn(spec), |order|);
    SayingsAreSpoken(order, spec);
    SayingsAre(order, spec);
    ReadOfWritten(ss);
    ReadAsTheyAre(ss);
    RestatedAll(order, spec);
    EachSaying(order, Clean, spec);
    CleanAll(order, spec);
  }

  /** Reading what was written gives back the same parts, each as its author's own and every other part
      open, exactly where something was said and all that was is clean. */
  lemma ReadingUndoesWriting(spec: Spec)
    ensures ReadSpec(WrittenSpec(spec)).Some? <==> SaysSomething(spec)
    ensures SaysSomething(spec) ==> (ReadSpec(WrittenSpec(spec)) == Some(RestatedSpec(spec)) <==> AllClean(spec))
  {
    PartsAreReadOnceEach();
    ReadingUndoesWritingInOrder(ALL, spec);
  }

  lemma RestatedSaysTheSame(spec: Spec, named: Named)
    ensures RestatedSpec(spec).PartOf(named) == Restated(spec.PartOf(named))
    ensures RestatedSpec(spec).PartOf(named).Says() == spec.PartOf(named).Says()
  {
    BareStays(spec.PartOf(named).Says(), Space);
  }

  lemma {:induction false} SayingTheSameWritesTheSame(write: (Named, string) -> string, order: seq<Named>,
                                                      says: Named -> string, same: Named -> string, n: nat)
    requires n <= |order| && forall named: Named :: says(named) == same(named)
    ensures WrittenAmong(write, order, says, n) == WrittenAmong(write, order, same, n)
  {
    if n > 0 {
      SayingTheSameWritesTheSame(write, order, says, same, n - 1);
    }
  }

  /** And what was read back is written as the same text again. */
  lemma WritingAgainWritesTheSame(spec: Spec)
    requires SaysSomething(spec) && AllClean(spec)
    ensures ReadSpec(WrittenSpec(spec)).Some? && WrittenSpec(ReadSpec(WrittenSpec(spec)).value) == WrittenSpec(spec)
  {
    ReadingUndoesWriting(spec);
    forall named: Named ensures SaidIn(RestatedSpec(spec))(named) == SaidIn(spec)(named) {
      RestatedSaysTheSame(spec, named);
    }
    SayingTheSameWritesTheSame(WrittenPart, ALL, SaidIn(RestatedSpec(spec)), SaidIn(spec), |ALL|);
  }

  /** What is open in what was read back is exactly what nobody had said. */
  lemma OpenIsWhatNobodySaid(spec: Spec, named: Named)
    requires SaysSomething(spec) && AllClean(spec)
    ensures ReadSpec(WrittenSpec(spec)).Some?
    ensures ReadSpec(WrittenSpec(spec)).value.PartOf(named).IsOpen() <==> spec.PartOf(named).Says() == ""
  {
    ReadingUndoesWriting(spec);
    RestatedSaysTheSame(spec, named);
  }
}
