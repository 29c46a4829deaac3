/** What a run wrote while it went, read a page at a time from wherever the last page ended. */
module Traces {
  import opened Wrappers
  import opened Numbers
  import opened Splitting
  import opened Bytes
  import opened Decimals

  /** How much of the file one read takes. */
  const AT_MOST: nat := 0x1_0000

  // ---------------------------------------------------------------- looking for newlines

  /** Just past the last newline, or nowhere where there is none. */
  function PastTheLast(bytes: seq<Byte>): (at: nat)
    ensures at <= |bytes|
    ensures at > 0 ==> bytes[at - 1] == NEWLINE
    ensures forall k :: at <= k < |bytes| ==> bytes[k] != NEWLINE
  {
    if bytes == [] then 0
    else if bytes[|bytes| - 1] == NEWLINE then |bytes|
    else PastTheLast(bytes[..|bytes| - 1])
  }

  // ---------------------------------------------------------------- one page

  /** What one read takes of a file from a place. Reading past the end takes nothing. */
  function Ahead(file: seq<Byte>, at: nat): seq<Byte> {
    if |file| <= at then [] else file[at..Min(at + AT_MOST, |file|)]
  }

  /** Where the line running past a place ends, or the end of what is there. */
  function PastTheLineAt(file: seq<Byte>, at: nat): nat {
    if |file| <= at then at
    else if FirstFrom(file, NEWLINE, at) < |file| then FirstFrom(file, NEWLINE, at) + 1
    else |file|
  }

  /** The whole lines a read takes, and where the next one starts. */
  function Page(file: seq<Byte>, from: nat): (seq<seq<Byte>>, nat) {
    var taken := Ahead(file, from);
    var whole := PastTheLast(taken);
    if whole == 0 then ([], PastTheLineAt(file, from + |taken|))
    else (Lines(taken[..whole])[..|Lines(taken[..whole])| - 1], from + whole)
  }

  /** What each line amounts to, those that amount to nothing left out. */
  function Events<E>(lines: seq<seq<Byte>>, event: seq<Byte> -> Option<E>): seq<E> {
    if lines == [] then []
    else
      Events(lines[..|lines| - 1], event)
      + match event(lines[|lines| - 1]) { case Some(e) => [e] case None => [] }
  }

  /** Events of one page and then the next are the events of both. */
  lemma {:induction false} EventsInTurn<E>(one: seq<seq<Byte>>, another: seq<seq<Byte>>, event: seq<Byte> -> Option<E>)
    ensures Events(one + another, event) == Events(one, event) + Events(another, event)
  {
    if another == [] {
      assert one + another == one;
    } else {
      EventsInTurn(one, another[..|another| - 1], event);
      assert (one + another)[..|one + another| - 1] == one + another[..|another| - 1];
    }
  }

  /** A place as text, of one width, so that cursors compare as text the way places do. */
  function CursorAt(at: nat): string {
    Padded(at, 12)
  }

  /** The place a cursor names. What names none is the start. */
  function PlaceOf(cursor: string): U64 {
    match Parsed(cursor, U64_MAX)
    case Some(at) => at
    case None => 0
  }

  /** An open file, and how far it has been read. */
  class Handle {
    const file: seq<Byte>
    var at: nat

    constructor (file: seq<Byte>, at: nat)
      ensures this.file == file && this.at == at
    {
      this.file := file;
      this.at := at;
    }

    method Read() returns (taken: seq<Byte>)
      modifies this
      ensures taken == Ahead(file, old(at)) && at == old(at) + |taken|
    {
      taken := Ahead(file, at);
      at := at + |taken|;
    }
  }

  method PastTheLine(held: Handle, from: nat) returns (at: nat)
    requires held.at == from
    modifies held
    ensures at == PastTheLineAt(held.file, from)
  {
    at := from;
    while true
      invariant held.at == at && PastTheLineAt(held.file, at) == PastTheLineAt(held.file, from)
      decreases if at < |held.file| then |held.file| - at else 0
    {
      var taken := held.Read();
      if taken == [] {
        return at;
      }
      SteppingOver(held.file, at);
      var ends := FirstFrom(taken, NEWLINE, 0);
      if ends < |taken| {
        return at + ends + 1;
      }
      at := at + |taken|;
    }
  }

  /** Where a read meets the newline, and where the next read must look for it. */
  lemma SteppingOver(file: seq<Byte>, at: nat)
    requires at < |file|
    ensures var taken := Ahead(file, at);
            && |taken| > 0
            && PastTheLineAt(file, at)
            == if FirstFrom(taken, NEWLINE, 0) < |taken| then at + FirstFrom(taken, NEWLINE, 0) + 1
               else PastTheLineAt(file, at + |taken|)
  {
    var taken := Ahead(file, at);
    var ends := FirstFrom(taken, NEWLINE, 0);
    forall k | at <= k < at + ends ensures file[k] != NEWLINE {
      assert file[k] == taken[k - at];
    }
    if ends < |taken| {
      FirstFromIs(file, at, at + ends);
    } else if at + |taken| < |file| {
      FirstFromIs(file, at, FirstFrom(file, NEWLINE, at + |taken|));
    } else {
      FirstFromIs(file, at, |file|);
    }
  }

  lemma FirstFromIs(bytes: seq<Byte>, from: nat, at: nat)
    requires from <= at <= |bytes| && (at < |bytes| ==> bytes[at] == NEWLINE)
    requires forall k :: from <= k < at ==> bytes[k] != NEWLINE
    ensures FirstFrom(bytes, NEWLINE, from) == at
  {
  }

  method Read<E>(file: Option<seq<Byte>>, cursor: string, event: seq<Byte> -> Option<E>)
    returns (events: seq<E>, next: string)
    ensures file.None? ==> events == [] && next == CursorAt(0)
    ensures file.Some? ==>
              events == Events(Page(file.value, PlaceOf(cursor)).0, event)
              && next == CursorAt(Page(file.value, PlaceOf(cursor)).1)
  {
    if file.None? {
      return [], CursorAt(0);
    }
    var from := PlaceOf(cursor);
    var held := new Handle(file.value, from);
    var taken := held.Read();
    var whole := PastTheLast(taken);
    if whole == 0 {
      var over := PastTheLine(held, from + |taken|);
      return [], CursorAt(over);
    }
    var lines := Lines(taken[..whole]);
    events := Events(lines[..|lines| - 1], event);
    next := CursorAt(from + whole);
  }

  // ---------------------------------------------------------------- files of whole lines

  /** How many of the lines at the front are whole within so many bytes. */
  function WholeWithin(lines: seq<seq<Byte>>, bytes: nat): (n: nat)
    ensures n <= |lines|
    ensures n > 0 <==> lines != [] && |lines[0]| + 1 <= bytes
  {
    if lines == [] || |lines[0]| + 1 > bytes then 0 else 1 + WholeWithin(lines[1..], bytes - |lines[0]| - 1)
  }

  lemma PastTheLastIs(bytes: seq<Byte>, at: nat)
    requires at <= |bytes| && (at > 0 ==> bytes[at - 1] == NEWLINE)
    requires forall k :: at <= k < |bytes| ==> bytes[k] != NEWLINE
    ensures PastTheLast(bytes) == at
  {
  }

  lemma PastTheLastOf(one: seq<Byte>, another: seq<Byte>)
    ensures PastTheLast(one + another)
            == if PastTheLast(another) > 0 then |one| + PastTheLast(another) else PastTheLast(one)
  {
    var at := if PastTheLast(another) > 0 then |one| + PastTheLast(another) else PastTheLast(one);
    PastTheLastIs(one + another, at);
  }

  /** The last newline within a stretch ends the lines that are whole in it. */
  lemma {:induction false} WholeLinesEndAtTheLast(lines: seq<seq<Byte>>, bytes: nat)
    requires EachOneLine(lines) && bytes <= |Flat(lines)|
    ensures PastTheLast(Flat(lines)[..bytes]) == |Flat(lines[..WholeWithin(lines, bytes)])|
    decreases lines
  {
    if lines != [] {
      var first, rest := lines[0], lines[1..];
      if |first| + 1 > bytes {
        assert Flat(lines)[..bytes] == first[..bytes];
        PastTheLastIs(first[..bytes], 0);
      } else {
        WholeLinesEndAtTheLast(rest, bytes - |first| - 1);
        OneMoreWholeLine(lines, bytes);
      }
    }
  }

  lemma {:induction false} TakenOfBoth(one: seq<Byte>, another: seq<Byte>, bytes: nat)
    requires |one| <= bytes <= |one + another|
    ensures (one + another)[..bytes] == one + another[..bytes - |one|]
  {
  }

  lemma {:induction false} FlatOfNext(lines: seq<seq<Byte>>, n: nat)
    requires lines != [] && n < |lines|
    ensures |Flat(lines[..1 + n])| == |lines[0]| + 1 + |Flat(lines[1..][..n])|
  {
    assert lines[..1 + n][1..] == lines[1..][..n];
  }

  lemma {:induction false} OneMoreWholeLine(lines: seq<seq<Byte>>, bytes: nat)
    requires lines != [] && |lines[0]| + 1 <= bytes <= |Flat(lines)|
    requires var n := WholeWithin(lines[1..], bytes - |lines[0]| - 1);
             PastTheLast(Flat(lines[1..])[..bytes - |lines[0]| - 1]) == |Flat(lines[1..][..n])|
    ensures PastTheLast(Flat(lines)[..bytes]) == |Flat(lines[..WholeWithin(lines, bytes)])|
  {
    var first, rest := lines[0], lines[1..];
    var n := WholeWithin(rest, bytes - |first| - 1);
    assert Flat(lines) == (first + [NEWLINE]) + Flat(rest);
    TakenOfBoth(first + [NEWLINE], Flat(rest), bytes);
    PastTheLastOf(first + [NEWLINE], Flat(rest)[..bytes - |first| - 1]);
    PastTheLastIs(first + [NEWLINE], |first| + 1);
    FlatOfNext(lines, n);
    NothingIsNoLines(rest[..n]);
  }

  lemma NothingIsNoLines(lines: seq<seq<Byte>>)
    ensures |Flat(lines)| == 0 <==> lines == []
  {
  }

  lemma {:induction false} WholeLinesFit(lines: seq<seq<Byte>>, bytes: nat)
    ensures |Flat(lines[..WholeWithin(lines, bytes)])| <= bytes
    ensures forall k :: 0 <= k < WholeWithin(lines, bytes) ==> |lines[k]| + 1 <= bytes
    decreases lines
  {
    var n := WholeWithin(lines, bytes);
    if n > 0 {
      WholeLinesFit(lines[1..], bytes - |lines[0]| - 1);
      assert lines[..n][1..] == lines[1..][..n - 1];
      forall k | 0 < k < n ensures |lines[k]| + 1 <= bytes {
        assert lines[k] == lines[1..][k - 1];
      }
    }
  }

  /** The lines one read can hold. */
  function Short(lines: seq<seq<Byte>>): seq<seq<Byte>> {
    if lines == [] then []
    else Short(lines[..|lines| - 1]) + if |lines[|lines| - 1]| + 1 <= AT_MOST then [lines[|lines| - 1]] else []
  }

  lemma {:induction false} ShortSplits(one: seq<seq<Byte>>, another: seq<seq<Byte>>)
    ensures Short(one + another) == Short(one) + Short(another)
  {
    if another == [] {
      assert one + another == one;
    } else {
      var front, last := another[..|another| - 1], another[|another| - 1];
      ShortSplits(one, front);
      assert (one + another)[..|one + another| - 1] == one + front;
    }
  }

  lemma {:induction false} AllShort(lines: seq<seq<Byte>>)
    requires forall k :: 0 <= k < |lines| ==> |lines[k]| + 1 <= AT_MOST
    ensures Short(lines) == lines
  {
    if lines != [] {
      AllShort(lines[..|lines| - 1]);
      assert lines == lines[..|lines| - 1] + [lines[|lines| - 1]];
    }
  }

  lemma NoneShort(line: seq<Byte>)
    requires |line| + 1 > AT_MOST
    ensures Short([line]) == []
  {
    assert Short([line][..|[line]| - 1]) == [];
  }

  // ---------------------------------------------------------------- paging

  /** How many lines there are to read before a line's place, after reading from there: those whole in
      one read, or the one longer than a read. */
  function NextLine(lines: seq<seq<Byte>>, n: nat): (next: nat)
    requires n <= |lines|
    ensures n <= next <= |lines| && (n < |lines| ==> n < next)
  {
    var whole := WholeWithin(lines[n..], Min(AT_MOST, |Flat(lines[n..])|));
    if whole > 0 then n + whole else Min(n + 1, |lines|)
  }

  lemma TakenAhead(lines: seq<seq<Byte>>, n: nat)
    requires n <= |lines|
    ensures Flat(lines) == Flat(lines[..n]) + Flat(lines[n..])
    ensures Ahead(Flat(lines), |Flat(lines[..n])|) == Flat(lines[n..])[..Min(AT_MOST, |Flat(lines[n..])|)]
  {
    assert lines == lines[..n] + lines[n..];
    ClosedSplits(lines[..n], lines[n..], NEWLINE);
  }

  lemma AShortPage(lines: seq<seq<Byte>>, n: nat, whole: nat)
    requires EachOneLine(lines) && n < |lines|
    requires whole == WholeWithin(lines[n..], Min(AT_MOST, |Flat(lines[n..])|)) > 0
    ensures Page(Flat(lines), |Flat(lines[..n])|) == (lines[n..n + whole], |Flat(lines[..n + whole])|)
    ensures forall k :: n <= k < n + whole ==> |lines[k]| + 1 <= AT_MOST
  {
    var rest, bytes := lines[n..], Min(AT_MOST, |Flat(lines[n..])|);
    TakenAhead(lines, n);
    WholeLinesEndAtTheLast(rest, bytes);
    WholeLinesFit(rest, bytes);
    forall k | n <= k < n + whole ensures |lines[k]| + 1 <= AT_MOST {
      assert lines[k] == rest[k - n];
    }
    AWholeStretch(rest, whole, bytes);
    assert rest[..whole] == lines[n..n + whole];
    PageOfLines(Flat(lines), |Flat(lines[..n])|, lines[n..n + whole]);
    assert lines[..n] + lines[n..n + whole] == lines[..n + whole];
    ClosedSplits(lines[..n], lines[n..n + whole], NEWLINE);
  }

  lemma PageOfLines(file: seq<Byte>, from: nat, lines: seq<seq<Byte>>)
    requires EachOneLine(lines) && lines != [] && PastTheLast(Ahead(file, from)) == |Flat(lines)|
    requires Ahead(file, from)[..|Flat(lines)|] == Flat(lines)
    ensures Page(file, from) == (lines, from + |Flat(lines)|)
  {
    PiecesOfClosed(lines, NEWLINE);
    NothingIsNoLines(lines);
    assert (lines + [[]])[..|lines|] == lines;
  }

  lemma AWholeStretch(rest: seq<seq<Byte>>, whole: nat, bytes: nat)
    requires whole <= |rest| && |Flat(rest[..whole])| <= bytes <= |Flat(rest)|
    ensures Flat(rest)[..bytes][..|Flat(rest[..whole])|] == Flat(rest[..whole])
  {
    assert rest == rest[..whole] + rest[whole..];
    ClosedSplits(rest[..whole], rest[whole..], NEWLINE);
  }

  lemma ALongLine(lines: seq<seq<Byte>>, n: nat)
    requires EachOneLine(lines) && n < |lines|
    requires WholeWithin(lines[n..], Min(AT_MOST, |Flat(lines[n..])|)) == 0
    ensures |lines[n]| + 1 > AT_MOST
    ensures Page(Flat(lines), |Flat(lines[..n])|) == ([], |Flat(lines[..n + 1])|)
  {
    var rest, from := lines[n..], |Flat(lines[..n])|;
    assert rest[0] == lines[n];
    TakenAhead(lines, n);
    WholeLinesEndAtTheLast(rest, AT_MOST);
    assert rest[..0] == [];
    assert lines[..n + 1] == lines[..n] + [lines[n]];
    ClosedEnds(lines[..n], lines[n], NEWLINE);
    LineEndsAt(lines, n, from + AT_MOST);
  }

  /** A line runs to its own newline from anywhere in it. */
  lemma LineEndsAt(lines: seq<seq<Byte>>, n: nat, at: nat)
    requires EachOneLine(lines) && n < |lines| && |Flat(lines[..n])| <= at <= |Flat(lines[..n])| + |lines[n]|
    ensures PastTheLineAt(Flat(lines), at) == |Flat(lines[..n])| + |lines[n]| + 1
  {
    var from, file := |Flat(lines[..n])|, Flat(lines);
    TakenAhead(lines, n);
    assert Flat(lines[n..]) == lines[n] + [NEWLINE] + Flat(lines[n..][1..]);
    assert file[from + |lines[n]|] == NEWLINE;
    forall k | from <= k < from + |lines[n]| ensures file[k] != NEWLINE {
      assert file[k] == lines[n][k - from];
    }
  }

  /** A read from the start of a line reports exactly the lines it steps past that one read can hold,
      and rests on the start of a line again, further on while there is further to go. */
  lemma APage(lines: seq<seq<Byte>>, n: nat)
    requires EachOneLine(lines) && n <= |lines|
    ensures Page(Flat(lines), |Flat(lines[..n])|)
         == (Short(lines[n..NextLine(lines, n)]), |Flat(lines[..NextLine(lines, n)])|)
  {
    if n == |lines| {
      assert lines[..n] == lines && lines[n..] == [];
    } else if WholeWithin(lines[n..], Min(AT_MOST, |Flat(lines[n..])|)) > 0 {
      var whole := WholeWithin(lines[n..], Min(AT_MOST, |Flat(lines[n..])|));
      AShortPage(lines, n, whole);
      AllShort(lines[n..n + whole]);
    } else {
      ALongLine(lines, n);
      assert lines[n..n + 1] == [lines[n]];
      NoneShort(lines[n]);
    }
  }

  // ---------------------------------------------------------------- a line not finished yet

  lemma {:induction false} AheadWithATail(file: seq<Byte>, part: seq<Byte>, from: nat) returns (more: seq<Byte>)
    requires from <= |file| && OneLine(part)
    ensures Ahead(file + part, from) == Ahead(file, from) + more && OneLine(more)
    ensures |Ahead(file, from)| == AT_MOST ==> more == []
  {
    var taken := Ahead(file, from);
    more := part[..Min(AT_MOST - |taken|, |part|)];
    if |file| - from >= AT_MOST {
      assert (file + part)[from..from + AT_MOST] == file[from..from + AT_MOST];
      assert taken + more == taken;
    } else {
      assert taken == file[from..];
      assert (file + part)[from..|file| + |more|] == taken + more;
    }
  }

  lemma {:induction false} NoNewlineIn(bytes: seq<Byte>)
    requires OneLine(bytes)
    ensures PastTheLast(bytes) == 0
  {
    PastTheLastIs(bytes, 0);
  }

  lemma {:induction false} SteppedOverAlike(file: seq<Byte>, part: seq<Byte>, at: nat)
    requires at < |file| && FirstFrom(file, NEWLINE, at) < |file|
    ensures PastTheLineAt(file + part, at) == PastTheLineAt(file, at)
  {
    FirstFromIs(file + part, at, FirstFrom(file, NEWLINE, at));
  }

  lemma {:induction false} SamePage(file: seq<Byte>, other: seq<Byte>, from: nat, more: seq<Byte>)
    requires Ahead(other, from) == Ahead(file, from) + more && PastTheLast(more) == 0
    requires PastTheLast(Ahead(file, from)) > 0
    ensures Page(other, from) == Page(file, from)
  {
    var taken := Ahead(file, from);
    PastTheLastOf(taken, more);
    assert (taken + more)[..PastTheLast(taken)] == taken[..PastTheLast(taken)];
  }

  lemma {:induction false} SameStep(file: seq<Byte>, other: seq<Byte>, from: nat)
    requires Ahead(other, from) == Ahead(file, from) && PastTheLast(Ahead(file, from)) == 0
    requires PastTheLineAt(other, from + |Ahead(file, from)|) == PastTheLineAt(file, from + |Ahead(file, from)|)
    ensures Page(other, from) == Page(file, from)
  {
  }

  /** With a whole line ahead, a read does not notice what has been written of the line after the last. */
  lemma {:induction false} APageWithATail(lines: seq<seq<Byte>>, part: seq<Byte>, n: nat)
    requires EachOneLine(lines) && OneLine(part) && n < |lines|
    ensures Page(Flat(lines) + part, |Flat(lines[..n])|) == Page(Flat(lines), |Flat(lines[..n])|)
  {
    var file, from := Flat(lines), |Flat(lines[..n])|;
    TakenAhead(lines, n);
    var taken := Ahead(file, from);
    var more := AheadWithATail(file, part, from);
    NoNewlineIn(more);
    if PastTheLast(taken) > 0 {
      SamePage(file, file + part, from, more);
    } else {
      LongerThanARead(lines, n);
      assert taken + more == taken;
      SteppedOverAlike(file, part, from + AT_MOST);
      SameStep(file, file + part, from);
    }
  }

  /** A read that takes no newline with a whole line ahead is all of one line longer than it. */
  lemma {:induction false} LongerThanARead(lines: seq<seq<Byte>>, n: nat)
    requires EachOneLine(lines) && n < |lines| && PastTheLast(Ahead(Flat(lines), |Flat(lines[..n])|)) == 0
    ensures var file, from := Flat(lines), |Flat(lines[..n])|;
            |Ahead(file, from)| == AT_MOST && from + AT_MOST < |file|
              && FirstFrom(file, NEWLINE, from + AT_MOST) < |file|
  {
    var file, from, rest := Flat(lines), |Flat(lines[..n])|, lines[n..];
    var bytes := Min(AT_MOST, |Flat(rest)|);
    TakenAhead(lines, n);
    WholeLinesEndAtTheLast(rest, bytes);
    NothingIsNoLines(rest[..WholeWithin(rest, bytes)]);
    assert rest[0] == lines[n] && Flat(rest) == lines[n] + [NEWLINE] + Flat(rest[1..]);
    assert file[from + |lines[n]|] == NEWLINE;
  }

  /** With only an unfinished line ahead, or nothing, a read reports nothing and steps to the very end. */
  lemma {:induction false} OnlyATail(lines: seq<seq<Byte>>, part: seq<Byte>)
    requires EachOneLine(lines) && OneLine(part)
    ensures Page(Flat(lines) + part, |Flat(lines)|) == ([], |Flat(lines) + part|)
  {
    var file, from := Flat(lines) + part, |Flat(lines)|;
    assert Ahead(file, from) == part[..Min(AT_MOST, |part|)];
    NoNewlineIn(Ahead(file, from));
    if |part| > AT_MOST {
      forall k | from + AT_MOST <= k < |file| ensures file[k] != NEWLINE {
        assert file[k] == part[k - from];
      }
      FirstFromIs(file, from + AT_MOST, |file|);
    }
  }

  /** Whether a place is where one of these lines starts, or the next one would. */
  predicate AtALine(lines: seq<seq<Byte>>, at: nat) {
    exists m :: 0 <= m <= |lines| && at == |Flat(lines[..m])|
  }

  lemma {:induction false} FrontIsNoLonger(lines: seq<seq<Byte>>, m: nat)
    requires m <= |lines|
    ensures |Flat(lines[..m])| <= |Flat(lines)|
  {
    assert lines == lines[..m] + lines[m..];
    ClosedSplits(lines[..m], lines[m..], NEWLINE);
  }

  /** From the start of a line, a read rests on the start of a line exactly where there is a whole line ahead,
      or nothing has been written of the next. */
  lemma {:induction false} RestsOnALineExactlyWhere(lines: seq<seq<Byte>>, part: seq<Byte>, n: nat)
    requires EachOneLine(lines) && OneLine(part) && n <= |lines|
    ensures AtALine(lines, Page(Flat(lines) + part, |Flat(lines[..n])|).1) <==> n < |lines| || part == []
  {
    var next := Page(Flat(lines) + part, |Flat(lines[..n])|).1;
    if n < |lines| {
      APageWithATail(lines, part, n);
      APage(lines, n);
      assert next == |Flat(lines[..NextLine(lines, n)])|;
    } else {
      OnlyATail(lines, part);
      assert lines[..n] == lines && next == |Flat(lines)| + |part|;
      forall m | 0 <= m <= |lines| ensures |Flat(lines[..m])| <= |Flat(lines)| {
        FrontIsNoLonger(lines, m);
      }
      assert lines[..|lines|] == lines;
    }
  }

  lemma {:induction false} WrittenOutWhole(lines: seq<seq<Byte>>, written: seq<Byte>, rest: seq<Byte>)
    ensures Flat(lines + [written + rest]) == (Flat(lines) + written) + (rest + [NEWLINE])
  {
    ClosedEnds(lines, written + rest, NEWLINE);
    var flat := Flat(lines);
    assert flat + ((written + rest) + [NEWLINE]) == (flat + written) + (rest + [NEWLINE]);
  }

  /** An unfinished line is stepped over once it is the next thing to read, and never reported: the line is
      written out whole in the end, and reading on finds what was written of it since as a line of its own. */
  lemma {:induction false} HalfALineIsLost(lines: seq<seq<Byte>>, written: seq<Byte>, rest: seq<Byte>)
    requires EachOneLine(lines) && OneLine(written) && OneLine(rest) && |rest| < AT_MOST
    ensures Page(Flat(lines) + written, |Flat(lines)|) == ([], |Flat(lines)| + |written|)
    ensures Page(Flat(lines + [written + rest]), |Flat(lines)| + |written|)
         == ([rest], |Flat(lines + [written + rest])|)
  {
    OnlyATail(lines, written);
    WrittenOutWhole(lines, written, rest);
    ReadsTheRest(Flat(lines) + written, rest);
  }

  lemma {:induction false} ReadsTheRest(before: seq<Byte>, rest: seq<Byte>)
    requires OneLine(rest) && |rest| < AT_MOST
    ensures Page(before + (rest + [NEWLINE]), |before|) == ([rest], |before + (rest + [NEWLINE])|)
  {
    var file := before + (rest + [NEWLINE]);
    ClosedEnds([], rest, NEWLINE);
    assert [] + [rest] == [rest] && Flat([rest]) == rest + [NEWLINE];
    assert Ahead(file, |before|) == Flat([rest]);
    PastTheLastIs(Flat([rest]), |rest| + 1);
    PageOfLines(file, |before|, [rest]);
  }

  // ---------------------------------------------------------------- a file cut into its lines

  /** The lines of a file that are finished, and what is written of the next. */
  function WholeOf(file: seq<Byte>): seq<seq<Byte>> {
    Lines(file)[..|Lines(file)| - 1]
  }

  function PartOf(file: seq<Byte>): seq<Byte> {
    Lines(file)[|Lines(file)| - 1]
  }

  lemma {:induction false} AFileIsItsLines(file: seq<Byte>)
    ensures EachOneLine(WholeOf(file)) && OneLine(PartOf(file)) && file == Flat(WholeOf(file)) + PartOf(file)
  {
    var whole, part := WholeOf(file), PartOf(file);
    PiecesJoinBack(file, NEWLINE);
    assert Lines(file) == whole + [part];
    if whole != [] {
      ClosedIsJoined(whole, NEWLINE);
      OneMoreJoined(whole, part, NEWLINE);
    }
  }

  /** What is finished stays, however much more is written. */
  lemma {:induction false} FinishedLinesStay(file: seq<Byte>, more: seq<Byte>)
    ensures WholeOf(file) <= WholeOf(file + more)
  {
    if more == [] {
      assert file + more == file;
    } else {
      var front, last := more[..|more| - 1], more[|more| - 1];
      FinishedLinesStay(file, front);
      assert file + more == (file + front) + [last];
      OneMoreElement(file + front, last, NEWLINE);
    }
  }

  // ---------------------------------------------------------------- paging a file that grows

  /** Following the cursor from the start, over a file as it stood at each read: every line reported, and
      where the next read would start. */
  function Followed(stood: seq<seq<Byte>>): (seq<seq<Byte>>, nat) {
    if stood == [] then ([], 0)
    else
      var (before, from) := Followed(stood[..|stood| - 1]);
      var (page, next) := Page(stood[|stood| - 1], from);
      (before + page, next)
  }

  /** A file that is only ever written on, by as little or as much as may be. */
  predicate Grows(stood: seq<seq<Byte>>) {
    forall i, j :: 0 <= i <= j < |stood| ==> stood[i] <= stood[j]
  }

  lemma {:induction false} GrewByLines(file: seq<Byte>, later: seq<Byte>)
    requires file <= later
    ensures WholeOf(file) <= WholeOf(later)
  {
    FinishedLinesStay(file, later[|file|..]);
    assert later == file + later[|file|..];
  }

  lemma {:induction false} GrewBefore(stood: seq<seq<Byte>>)
    requires Grows(stood) && stood != []
    ensures Grows(stood[..|stood| - 1])
    ensures |stood| > 1 ==> WholeOf(stood[|stood| - 2]) <= WholeOf(stood[|stood| - 1])
  {
    var front := stood[..|stood| - 1];
    assert forall i :: 0 <= i < |front| ==> front[i] == stood[i];
    if |stood| > 1 {
      GrewByLines(stood[|stood| - 2], stood[|stood| - 1]);
    }
  }

  /** How many lines are behind the cursor. */
  function LinesRead(stood: seq<seq<Byte>>): (n: nat)
    requires Grows(stood)
    ensures stood != [] ==> n <= |WholeOf(stood[|stood| - 1])|
    ensures stood == [] ==> n == 0
  {
    if stood == [] then 0
    else
      GrewBefore(stood);
      NextLine(WholeOf(stood[|stood| - 1]), LinesRead(stood[..|stood| - 1]))
  }

  /** No read starts with only an unfinished line ahead of it. */
  predicate NoneStartsAtAHalf(stood: seq<seq<Byte>>)
    requires Grows(stood)
  {
    stood == []
    || (GrewBefore(stood);
        && NoneStartsAtAHalf(stood[..|stood| - 1])
        && (LinesRead(stood[..|stood| - 1]) < |WholeOf(stood[|stood| - 1])| || PartOf(stood[|stood| - 1]) == []))
  }

  /** One read more, of the file as it has grown to. */
  lemma {:induction false} OnePageMore(before: seq<seq<Byte>>, file: seq<Byte>, n: nat)
    requires n <= |before| && before <= WholeOf(file) && (n < |WholeOf(file)| || PartOf(file) == [])
    ensures var last := WholeOf(file);
            && n <= |last|
            && Page(file, |Flat(before[..n])|) == (Short(last[n..NextLine(last, n)]), |Flat(last[..NextLine(last, n)])|)
            && Short(before[..n]) + Short(last[n..NextLine(last, n)]) == Short(last[..NextLine(last, n)])
  {
    var last := WholeOf(file);
    assert last[..n] == before[..n];
    APageOfAFile(file, n);
    ShortInTurn(last, n, NextLine(last, n));
  }

  lemma {:induction false} ShortInTurn(lines: seq<seq<Byte>>, n: nat, next: nat)
    requires n <= next <= |lines|
    ensures Short(lines[..n]) + Short(lines[n..next]) == Short(lines[..next])
  {
    ShortSplits(lines[..n], lines[n..next]);
    assert lines[..n] + lines[n..next] == lines[..next];
  }

  lemma {:induction false} APageOfAFile(file: seq<Byte>, n: nat)
    requires n <= |WholeOf(file)| && (n < |WholeOf(file)| || PartOf(file) == [])
    ensures var lines := WholeOf(file);
            Page(file, |Flat(lines[..n])|) == (Short(lines[n..NextLine(lines, n)]), |Flat(lines[..NextLine(lines, n)])|)
  {
    var lines := WholeOf(file);
    AFileIsItsLines(file);
    if n < |lines| {
      APageWithATail(lines, PartOf(file), n);
    } else {
      assert file == Flat(lines);
    }
    APage(lines, n);
  }

  /** Paging loses and repeats nothing, however the file grows between one read and the next, as long as no
      read starts with only an unfinished line ahead: what was reported is every line behind the cursor that
      one read can hold, once each and in order, and the cursor rests where a line starts. */
  lemma {:induction false} PagingLosesAndRepeatsNothing(stood: seq<seq<Byte>>)
    requires Grows(stood) && stood != [] && NoneStartsAtAHalf(stood)
    ensures var lines := WholeOf(stood[|stood| - 1]);
            Followed(stood) == (Short(lines[..LinesRead(stood)]), |Flat(lines[..LinesRead(stood)])|)
    decreases |stood|
  {
    var front, last := stood[..|stood| - 1], stood[|stood| - 1];
    GrewBefore(stood);
    if front == [] {
      OnePageMore([], last, 0);
    } else {
      PagingLosesAndRepeatsNothing(front);
      OnePageMore(WholeOf(front[|front| - 1]), last, LinesRead(front));
    }
  }

  /** After every read the cursor rests where a line starts. */
  predicate AlwaysRestsOnALine(stood: seq<seq<Byte>>)
    decreases |stood|
  {
    stood == []
    || (AlwaysRestsOnALine(stood[..|stood| - 1]) && AtALine(WholeOf(stood[|stood| - 1]), Followed(stood).1))
  }

  /** And only so: the cursor rests on a line after every read exactly where no read starts with only an
      unfinished line ahead. */
  lemma {:induction false} RestsOnLinesExactlyWhereNoneStartsAtAHalf(stood: seq<seq<Byte>>)
    requires Grows(stood)
    ensures AlwaysRestsOnALine(stood) <==> NoneStartsAtAHalf(stood)
    decreases |stood|
  {
    if stood != [] {
      var front, last := stood[..|stood| - 1], stood[|stood| - 1];
      GrewBefore(stood);
      RestsOnLinesExactlyWhereNoneStartsAtAHalf(front);
      if NoneStartsAtAHalf(front) {
        StartsWhereALineDoes(stood);
        AFileIsItsLines(last);
        RestsOnALineExactlyWhere(WholeOf(last), PartOf(last), LinesRead(front));
      }
    }
  }

  lemma {:induction false} StartsWhereALineDoes(stood: seq<seq<Byte>>)
    requires Grows(stood) && stood != [] && Grows(stood[..|stood| - 1]) && NoneStartsAtAHalf(stood[..|stood| - 1])
    ensures LinesRead(stood[..|stood| - 1]) <= |WholeOf(stood[|stood| - 1])|
    ensures Followed(stood[..|stood| - 1]).1 == |Flat(WholeOf(stood[|stood| - 1])[..LinesRead(stood[..|stood| - 1])])|
  {
    var front, lines := stood[..|stood| - 1], WholeOf(stood[|stood| - 1]);
    GrewBefore(stood);
    if front != [] {
      PagingLosesAndRepeatsNothing(front);
      assert WholeOf(front[|front| - 1])[..LinesRead(front)] == lines[..LinesRead(front)];
    }
  }

  lemma {:induction false} TheEndStays(file: seq<Byte>)
    ensures Page(file, |file|) == ([], |file|)
  {
    assert Ahead(file, |file|) == [];
    NoNewlineIn([]);
  }

  /** Where following the cursor over a file that stays as it is has come to: behind so many of its lines, all
      of them reported that one read can hold, or at its very end. */
  predicate IsBehind(file: seq<Byte>, followed: (seq<seq<Byte>>, nat), n: nat) {
    var lines := WholeOf(file);
    && n <= |lines| && followed.0 == Short(lines[..n])
    && (followed.1 == |Flat(lines[..n])| || (n == |lines| && followed.1 == |file|))
  }

  /** One read more of it is behind one line more, or at the end. */
  lemma {:induction false} OneReadOn(file: seq<Byte>, followed: (seq<seq<Byte>>, nat), n: nat) returns (next: nat)
    requires IsBehind(file, followed, n)
    ensures var (page, at) := Page(file, followed.1);
            && IsBehind(file, (followed.0 + page, at), next)
            && (if n < |WholeOf(file)| then next > n else next == n && at == |file|)
  {
    var lines := WholeOf(file);
    AFileIsItsLines(file);
    if n < |lines| {
      next := NextLine(lines, n);
      APageOfAFile(file, n);
      ShortInTurn(lines, n, next);
    } else {
      next := n;
      assert lines[..n] == lines;
      TheEndStays(file);
      OnlyATail(lines, PartOf(file));
    }
  }

  /** Following the cursor over a file that stays as it is comes to its end: after so many reads it is behind as
      many lines at least, and after one more than there are lines it is at the very end, with every line that
      one read can hold reported, once each and in order, whatever tail there is. */
  lemma {:induction false} PagingComesToTheEnd(stood: seq<seq<Byte>>, file: seq<Byte>) returns (n: nat)
    requires forall i :: 0 <= i < |stood| ==> stood[i] == file
    ensures IsBehind(file, Followed(stood), n) && n >= Min(|stood|, |WholeOf(file)|)
    ensures |stood| > |WholeOf(file)| ==> Followed(stood) == (Short(WholeOf(file)), |file|)
    decreases |stood|
  {
    if stood == [] {
      n := 0;
      assert WholeOf(file)[..0] == [];
    } else {
      var before := PagingComesToTheEnd(stood[..|stood| - 1], file);
      n := OneReadOn(file, Followed(stood[..|stood| - 1]), before);
      assert WholeOf(file)[..|WholeOf(file)|] == WholeOf(file);
    }
  }

  /** A read that stays where it was is at the end of the file. */
  lemma ARestIsTheEnd(lines: seq<seq<Byte>>, n: nat)
    requires EachOneLine(lines) && n <= |lines|
    ensures Page(Flat(lines), |Flat(lines[..n])|).1 == |Flat(lines[..n])| <==> n == |lines|
  {
    var next := NextLine(lines, n);
    APage(lines, n);
    assert lines[..next] == lines[..n] + lines[n..next];
    ClosedSplits(lines[..n], lines[n..next], NEWLINE);
    NothingIsNoLines(lines[n..next]);
  }

  /** The place a cursor names is the place it was written for, and cursors sort as their places do. */
  lemma CursorsReadBack(at: nat, other: nat)
    requires at <= U64_MAX
    ensures PlaceOf(CursorAt(at)) == at
    ensures at < TenTo(12) && other < TenTo(12) ==>
              |CursorAt(at)| == |CursorAt(other)| && (SortsBefore(CursorAt(at), CursorAt(other)) <==> at < other)
  {
    PaddedReadsBack(at, 12, U64_MAX);
    if at < TenTo(12) && other < TenTo(12) {
      PaddedSortsAsTheCount(at, other, 12);
    }
  }
}
