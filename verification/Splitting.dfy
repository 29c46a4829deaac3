/** Texts and files alike, cut at a mark: what stands between the marks, and what it was cut from. */
module Splitting {

  /** Nothing to cut in it. */
  predicate Uncut<T(==)>(piece: seq<T>, mark: T) {
    mark !in piece
  }

  predicate EachUncut<T(==)>(pieces: seq<seq<T>>, mark: T) {
    forall k :: 0 <= k < |pieces| ==> Uncut(pieces[k], mark)
  }

  /** Where a mark first stands from a place on, or the length where it does not. */
  function FirstFrom<T(==)>(text: seq<T>, mark: T, from: nat): (at: nat)
    requires from <= |text|
    ensures from <= at <= |text|
    ensures at < |text| ==> text[at] == mark
    ensures forall k :: from <= k < at ==> text[k] != mark
    decreases |text| - from
  {
    if from == |text| || text[from] == mark then from else FirstFrom(text, mark, from + 1)
  }

  /** What stands between the marks, first to last; what follows the last mark is a piece too, an empty
      one where nothing does. */
  function Pieces<T(==)>(text: seq<T>, mark: T): (pieces: seq<seq<T>>)
    ensures pieces != []
  {
    if text == [] then [[]]
    else
      var before, last := Pieces(text[..|text| - 1], mark), text[|text| - 1];
      if last == mark then before + [[]] else Continued(before, [last])
  }

  /** With more on the last piece. */
  function Continued<T>(pieces: seq<seq<T>>, more: seq<T>): (longer: seq<seq<T>>)
    requires pieces != []
    ensures longer != []
  {
    pieces[..|pieces| - 1] + [pieces[|pieces| - 1] + more]
  }

  /** The pieces put back together, with a mark between each two. */
  function Joined<T>(pieces: seq<seq<T>>, mark: T): seq<T> {
    if pieces == [] then []
    else if |pieces| == 1 then pieces[0]
    else Joined(pieces[..|pieces| - 1], mark) + [mark] + pieces[|pieces| - 1]
  }

  lemma OneMoreJoined<T>(front: seq<seq<T>>, last: seq<T>, mark: T)
    requires front != []
    ensures Joined(front + [last], mark) == Joined(front, mark) + [mark] + last
  {
    assert (front + [last])[..|front|] == front;
  }

  /** Cutting is the inverse of joining: no piece holds a mark, and nothing else is lost. */
  lemma {:induction false} PiecesJoinBack<T>(text: seq<T>, mark: T)
    ensures EachUncut(Pieces(text, mark), mark) && Joined(Pieces(text, mark), mark) == text
  {
    if text != [] {
      var front, last := text[..|text| - 1], text[|text| - 1];
      PiecesJoinBack(front, mark);
      OneMoreBack(front, last, mark);
      assert text == front + [last];
    }
  }

  lemma OneMoreBack<T>(front: seq<T>, last: T, mark: T)
    requires EachUncut(Pieces(front, mark), mark) && Joined(Pieces(front, mark), mark) == front
    ensures EachUncut(Pieces(front + [last], mark), mark)
    ensures Joined(Pieces(front + [last], mark), mark) == front + [last]
  {
    OneMoreElement(front, last, mark);
    if last == mark {
      OneMoreJoined(Pieces(front, mark), [], mark);
    } else {
      ContinuedJoins(Pieces(front, mark), [last], mark);
    }
  }

  lemma ContinuedJoins<T>(pieces: seq<seq<T>>, more: seq<T>, mark: T)
    requires pieces != []
    ensures Joined(Continued(pieces, more), mark) == Joined(pieces, mark) + more
  {
    var front, last := pieces[..|pieces| - 1], pieces[|pieces| - 1];
    assert pieces == front + [last];
    if front != [] {
      OneMoreJoined(front, last + more, mark);
      OneMoreJoined(front, last, mark);
      assert Joined(front, mark) + [mark] + (last + more) == Joined(front, mark) + [mark] + last + more;
    }
  }

  lemma ContinuedTwice<T>(pieces: seq<seq<T>>, one: seq<T>, another: seq<T>)
    requires pieces != []
    ensures Continued(Continued(pieces, one), another) == Continued(pieces, one + another)
  {
    var front, last := pieces[..|pieces| - 1], pieces[|pieces| - 1];
    assert (front + [last + one])[..|front|] == front;
    assert (last + one) + another == last + (one + another);
  }

  lemma OneMoreElement<T>(text: seq<T>, one: T, mark: T)
    ensures Pieces(text + [one], mark)
            == if one == mark then Pieces(text, mark) + [[]] else Continued(Pieces(text, mark), [one])
  {
    assert (text + [one])[..|text|] == text;
  }

  /** What holds no mark goes on the end of the last piece. */
  lemma {:induction false} MoreOfAPiece<T>(text: seq<T>, more: seq<T>, mark: T)
    requires Uncut(more, mark)
    ensures Pieces(text + more, mark) == Continued(Pieces(text, mark), more)
  {
    if more == [] {
      assert text + more == text;
      assert Pieces(text, mark)[|Pieces(text, mark)| - 1] + [] == Pieces(text, mark)[|Pieces(text, mark)| - 1];
    } else {
      var front, last := more[..|more| - 1], more[|more| - 1];
      assert more == front + [last] && last != mark;
      MoreOfAPiece(text, front, mark);
      assert text + more == (text + front) + [last];
      OneMoreElement(text + front, last, mark);
      ContinuedTwice(Pieces(text, mark), front, [last]);
    }
  }

  // ---------------------------------------------------------------- pieces each with a mark after it

  function Closed<T>(pieces: seq<seq<T>>, mark: T): seq<T> {
    if pieces == [] then [] else pieces[0] + [mark] + Closed(pieces[1..], mark)
  }

  lemma {:induction false} ClosedSplits<T>(one: seq<seq<T>>, another: seq<seq<T>>, mark: T)
    ensures Closed(one + another, mark) == Closed(one, mark) + Closed(another, mark)
  {
    if one == [] {
      assert one + another == another;
    } else {
      ClosedSplits(one[1..], another, mark);
      assert (one + another)[1..] == one[1..] + another && (one + another)[0] == one[0];
    }
  }

  lemma ClosedEnds<T>(front: seq<seq<T>>, last: seq<T>, mark: T)
    ensures Closed(front + [last], mark) == (Closed(front, mark) + last) + [mark]
  {
    ClosedSplits(front, [last], mark);
    assert Closed([last], mark) == last + [mark] + Closed([last][1..], mark);
    assert Closed([last][1..], mark) == [];
  }

  /** One mark fewer is a join. */
  lemma {:induction false} ClosedIsJoined<T>(pieces: seq<seq<T>>, mark: T)
    requires pieces != []
    ensures Closed(pieces, mark) == Joined(pieces, mark) + [mark]
  {
    var front, last := pieces[..|pieces| - 1], pieces[|pieces| - 1];
    assert pieces == front + [last];
    ClosedEnds(front, last, mark);
    if front != [] {
      ClosedIsJoined(front, mark);
      OneMoreJoined(front, last, mark);
    }
  }

  /** Pieces put end to end are cut back into those pieces. */
  lemma {:induction false} PiecesOfClosed<T>(pieces: seq<seq<T>>, mark: T)
    requires EachUncut(pieces, mark)
    ensures Pieces(Closed(pieces, mark), mark) == pieces + [[]]
  {
    if pieces != [] {
      var front, last := pieces[..|pieces| - 1], pieces[|pieces| - 1];
      assert pieces == front + [last];
      PiecesOfClosed(front, mark);
      ClosedEnds(front, last, mark);
      MoreOfAPiece(Closed(front, mark), last, mark);
      ContinuedFromEmpty(front, last);
      OneMoreElement(Closed(front, mark) + last, mark, mark);
    }
  }

  lemma ContinuedFromEmpty<T>(front: seq<seq<T>>, last: seq<T>)
    ensures Continued(front + [[]], last) == front + [last]
  {
    assert (front + [[]])[..|front|] == front && [] + last == last;
  }

  /** Joining is the inverse of cutting. */
  lemma PiecesOfJoined<T>(pieces: seq<seq<T>>, mark: T)
    requires pieces != [] && EachUncut(pieces, mark)
    ensures Pieces(Joined(pieces, mark), mark) == pieces
  {
    PiecesOfClosed(pieces, mark);
    ClosedIsJoined(pieces, mark);
    OneMoreElement(Joined(pieces, mark), mark, mark);
    assert (pieces + [[]])[..|pieces|] == pieces;
    assert (Pieces(Joined(pieces, mark), mark) + [[]])[..|pieces|] == Pieces(Joined(pieces, mark), mark);
  }
}
