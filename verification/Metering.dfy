/** What a session declared as a share is charged, over any sequence of looks at the vendor's limit. */
module Metering {
  import opened Wrappers
  import opened Numbers
  import opened Spendings
  import opened SessionValues

  /** A reading arriving, or the vendor saying when its limit starts over. */
  datatype Event =
    | Looks(used: U64, resetsAt: Option<U64>, now: U64)
    | Told(at: U64)

  function Step(s: Session, e: Event): Session {
    match e
    case Looks(used, resetsAt, now) => LookedAt(s, used, resetsAt, now).0
    case Told(at) => s.(resetsAt := Some(at))
  }

  function After(s: Session, es: seq<Event>): Session
    decreases es
  {
    if es == [] then s else After(Step(s, es[0]), es[1..])
  }

  /** The stretch one event adds, where it is a look that was taken. */
  function OverOf(s: Session, e: Event): Option<(U64, U64)> {
    match e
    case Looks(used, resetsAt, now) => LookedAt(s, used, resetsAt, now).1.over
    case Told(_) => None
  }

  /** The stretches the looks of a session are charged for, in the order they arrived. */
  function Stretches(s: Session, es: seq<Event>): seq<(U64, U64)>
    decreases es
  {
    if es == [] then []
    else (if OverOf(s, es[0]).Some? then [OverOf(s, es[0]).value] else []) + Stretches(Step(s, es[0]), es[1..])
  }

  predicate Metered(s: Session) {
    s.consumed.Share? && s.limitLastSeen.Some?
  }

  // ---------------------------------------------------------------- the chain

  /** Each stretch begins where the last one ended. */
  predicate Chained(from: U64, over: seq<(U64, U64)>)
    decreases over
  {
    over != [] ==> over[0].0 == from && Chained(over[0].1, over[1..])
  }

  function EndOf(from: U64, over: seq<(U64, U64)>): U64 {
    if over == [] then from else over[|over| - 1].1
  }

  lemma {:induction false} ChainedOn(from: U64, over: seq<(U64, U64)>, more: seq<(U64, U64)>)
    requires Chained(from, over) && Chained(EndOf(from, over), more)
    ensures Chained(from, over + more)
    decreases over
  {
    if over == [] {
      assert over + more == more;
    } else {
      ChainedOn(over[0].1, over[1..], more);
      assert (over + more)[1..] == over[1..] + more;
    }
  }

  /** The stretches chain end to end from the reading the session is measured from to its last
      accepted look, whatever order readings arrive in and whatever windows they name: no part of
      the limit is in two of them. */
  lemma {:induction false} StretchesChain(s: Session, es: seq<Event>)
    requires Metered(s)
    ensures Metered(After(s, es))
    ensures Chained(s.limitLastSeen.value, Stretches(s, es))
    ensures EndOf(s.limitLastSeen.value, Stretches(s, es)) == After(s, es).limitLastSeen.value
    decreases es
  {
    if es != [] {
      StretchesChain(Step(s, es[0]), es[1..]);
      var rest := Stretches(Step(s, es[0]), es[1..]);
      if OverOf(s, es[0]).Some? {
        var one := OverOf(s, es[0]).value;
        assert Chained(one.1, [one][1..]);
        ChainedOn(s.limitLastSeen.value, [one], rest);
      } else {
        assert Stretches(s, es) == rest;
      }
    }
  }

  /** How far the limit climbed along a list of stretches, as the rate of a ledger counts it:
      falls are windows that began again and count for nothing. */
  function Climbed(over: seq<(U64, U64)>): nat {
    if over == [] then 0
    else (if over[0].1 > over[0].0 then over[0].1 - over[0].0 else 0) + Climbed(over[1..])
  }

  /** Runs are never charged, together, for more of the limit than the session consumed. */
  lemma {:induction false} ChargedAtMostWhatWasConsumed(s: Session, es: seq<Event>)
    requires Metered(s)
    ensures Metered(After(s, es))
    ensures After(s, es).consumed.figure >= Clamp(s.consumed.figure + Climbed(Stretches(s, es)))
    decreases es
  {
    if es != [] {
      ChargedAtMostWhatWasConsumed(Step(s, es[0]), es[1..]);
      var rest := Stretches(Step(s, es[0]), es[1..]);
      if OverOf(s, es[0]).Some? {
        assert ([OverOf(s, es[0]).value] + rest)[1..] == rest;
      } else {
        assert Stretches(s, es) == rest;
      }
    }
  }

  /** What a session has consumed never goes down, so a figure read earlier and written down later
      leaves what is held where it is. */
  lemma NotingAnOldLookChangesNothing(ss: seq<Session>, at: nat, earlier: Session, es: seq<Event>, now: U64)
    requires at < |ss| && IndexOfSession(ss, ss[at].id) == at
    requires Metered(earlier) && ss[at] == After(earlier, es)
    ensures var noted := Note(ss, ss[at].id, earlier.consumed, now);
            noted[at].consumed == ss[at].consumed && noted[at].limitLastSeen == ss[at].limitLastSeen
            && noted[at].resetsAt == ss[at].resetsAt
  {
    ChargedAtMostWhatWasConsumed(earlier, es);
  }

  // ---------------------------------------------------------------- the account

  /** The readings taken in one named window, in the order they arrived. */
  datatype Window = Window(name: U64, readings: seq<U64>)

  function Highest(readings: seq<U64>, least: U64): U64 {
    if readings == [] then least
    else Highest(readings[1..], if readings[0] > least then readings[0] else least)
  }

  function LooksIn(w: Window, now: U64): seq<Event> {
    seq(|w.readings|, i requires 0 <= i < |w.readings| => Looks(w.readings[i], Some(w.name), now))
  }

  function LooksOver(ws: seq<Window>, now: U64): seq<Event> {
    if ws == [] then [] else LooksIn(ws[0], now) + LooksOver(ws[1..], now)
  }

  /** What the limit reached in each window, added up. */
  function Peaks(ws: seq<Window>): nat {
    if ws == [] then 0 else Highest(ws[0].readings, 0) + Peaks(ws[1..])
  }

  /** Windows follow one another: each was looked at, and no two in a row are the same one. */
  predicate InOrder(ws: seq<Window>) {
    && (forall i :: 0 <= i < |ws| ==> ws[i].readings != [])
    && (forall i, j :: 0 <= i && j == i + 1 < |ws| ==> ws[i].name != ws[j].name)
  }

  lemma {:induction false} HighestFrom(readings: seq<U64>, least: U64)
    ensures Highest(readings, least) >= least
    ensures Highest(readings, least) == Highest(readings, 0) || Highest(readings, least) == least
    ensures Highest(readings, least) >= Highest(readings, 0)
    decreases readings
  {
    if readings != [] {
      HighestFrom(readings[1..], if readings[0] > least then readings[0] else least);
      HighestFrom(readings[1..], readings[0]);
    }
  }

  lemma {:induction false} AfterBoth(s: Session, es: seq<Event>, more: seq<Event>)
    ensures After(s, es + more) == After(After(s, es), more)
    decreases es
  {
    if es == [] {
      assert es + more == more;
    } else {
      assert (es + more)[1..] == es[1..] + more;
      AfterBoth(Step(s, es[0]), es[1..], more);
    }
  }

  /** Inside the window being measured, what is added is how far the highest reading is above the
      last look, in whatever order the readings come. */
  lemma {:induction false} WithinOneWindow(s: Session, w: Window, exact: nat, now: U64)
    requires Metered(s) && s.resetsAt == Some(w.name) && s.consumed == Share(Clamp(exact))
    ensures var t := After(s, LooksIn(w, now));
            t.resetsAt == Some(w.name)
            && t.limitLastSeen == Some(Highest(w.readings, s.limitLastSeen.value))
            && t.limitLastSeen.value >= s.limitLastSeen.value
            && t.consumed == Share(Clamp(exact + t.limitLastSeen.value - s.limitLastSeen.value))
    decreases w.readings
  {
    if w.readings != [] {
      var es := LooksIn(w, now);
      var t := Step(s, es[0]);
      var seen, read := s.limitLastSeen.value, w.readings[0];
      var rest := w.(readings := w.readings[1..]);
      assert es[1..] == LooksIn(rest, now);
      WithinOneWindow(t, rest, if read > seen then exact + read - seen else exact, now);
    }
  }

  /** The windows after the one being measured add what each of them reached. */
  lemma {:induction false} LaterWindows(s: Session, ws: seq<Window>, exact: nat, now: U64)
    requires Metered(s) && s.resetsAt.Some? && s.consumed == Share(Clamp(exact))
    requires InOrder(ws) && (ws != [] ==> Some(ws[0].name) != s.resetsAt)
    ensures After(s, LooksOver(ws, now)).consumed == Share(Clamp(exact + Peaks(ws)))
    decreases ws
  {
    if ws != [] {
      var w := ws[0];
      var es := LooksIn(w, now);
      var t, rest := Step(s, es[0]), w.(readings := w.readings[1..]);
      assert t.consumed == Share(Clamp(exact + w.readings[0])) && t.limitLastSeen == Some(w.readings[0]);
      assert es[1..] == LooksIn(rest, now);
      WithinOneWindow(t, rest, exact + w.readings[0], now);
      AfterBoth(s, es, LooksOver(ws[1..], now));
      LaterWindows(After(s, es), ws[1..], exact + Highest(w.readings, 0), now);
    }
  }

  /** The first window adds how far it rose above the reading the session opened on. */
  lemma FirstWindow(s: Session, w: Window, now: U64)
    requires Metered(s) && s.resetsAt.None? && s.consumed == Share(0) && w.readings != []
    requires forall i :: 0 <= i < |w.readings| ==> w.readings[i] >= s.limitLastSeen.value
    ensures Highest(w.readings, 0) >= s.limitLastSeen.value
    ensures var t := After(s, LooksIn(w, now));
            Metered(t) && t.resetsAt == Some(w.name)
            && t.consumed == Share(Clamp(Highest(w.readings, 0) - s.limitLastSeen.value))
  {
    var es := LooksIn(w, now);
    var t, rest := Step(s, es[0]), w.(readings := w.readings[1..]);
    assert es[1..] == LooksIn(rest, now);
    WithinOneWindow(t, rest, w.readings[0] - s.limitLastSeen.value, now);
    assert Highest(w.readings, 0) == Highest(rest.readings, w.readings[0]);
    HighestFrom(rest.readings, w.readings[0]);
  }

  /** The simple account: for named readings that come window by window, the first window at or
      above the reading the session opened on, a session has consumed how far the first window rose
      above that reading and then what every later window reached. */
  lemma MeasuredIsTheAccount(s: Session, ws: seq<Window>, now: U64)
    requires Metered(s) && s.resetsAt.None? && s.consumed == Share(0)
    requires ws != [] && InOrder(ws)
    requires forall i :: 0 <= i < |ws[0].readings| ==> ws[0].readings[i] >= s.limitLastSeen.value
    ensures Highest(ws[0].readings, 0) >= s.limitLastSeen.value
    ensures After(s, LooksOver(ws, now)).consumed
         == Share(Clamp(Highest(ws[0].readings, 0) - s.limitLastSeen.value + Peaks(ws[1..])))
  {
    var _, _ := WhatItComesTo(s, ws, now);
  }

  /** The same, in figures of its own. */
  lemma WhatItComesTo(s: Session, ws: seq<Window>, now: U64) returns (first: nat, consumed: Spending)
    requires Metered(s) && s.resetsAt.None? && s.consumed == Share(0) && ws != [] && InOrder(ws)
    requires forall i :: 0 <= i < |ws[0].readings| ==> ws[0].readings[i] >= s.limitLastSeen.value
    ensures Highest(ws[0].readings, 0) == s.limitLastSeen.value + first
    ensures consumed == After(s, LooksOver(ws, now)).consumed && consumed == Share(Clamp(first + Peaks(ws[1..])))
  {
    var t := OnceTheFirstIsOver(s, ws, now);
    first, consumed := Highest(ws[0].readings, 0) - s.limitLastSeen.value, After(s, LooksOver(ws, now)).consumed;
    TheRestOnTop(s, t, ws, first, now);
  }

  lemma TheRestOnTop(s: Session, t: Session, ws: seq<Window>, first: nat, now: U64)
    requires ws != [] && InOrder(ws) && Metered(t) && t.resetsAt == Some(ws[0].name)
    requires t.consumed == Share(Clamp(first))
    requires After(s, LooksOver(ws, now)) == After(t, LooksOver(ws[1..], now))
    ensures After(s, LooksOver(ws, now)).consumed == Share(Clamp(first + Peaks(ws[1..])))
  {
    LaterInOrder(ws);
    AfterTheFirst(t, ws, first, now);
  }

  lemma OnceTheFirstIsOver(s: Session, ws: seq<Window>, now: U64) returns (t: Session)
    requires Metered(s) && s.resetsAt.None? && s.consumed == Share(0) && ws != [] && ws[0].readings != []
    requires forall i :: 0 <= i < |ws[0].readings| ==> ws[0].readings[i] >= s.limitLastSeen.value
    ensures Highest(ws[0].readings, 0) >= s.limitLastSeen.value
    ensures Metered(t) && t.resetsAt == Some(ws[0].name)
    ensures t.consumed == Share(Clamp(Highest(ws[0].readings, 0) - s.limitLastSeen.value))
    ensures After(s, LooksOver(ws, now)) == After(t, LooksOver(ws[1..], now))
  {
    t := After(s, LooksIn(ws[0], now));
    FirstWindow(s, ws[0], now);
    FirstAndThenTheRest(s, ws, now);
  }

  lemma FirstAndThenTheRest(s: Session, ws: seq<Window>, now: U64)
    requires ws != []
    ensures After(s, LooksOver(ws, now)) == After(After(s, LooksIn(ws[0], now)), LooksOver(ws[1..], now))
  {
    AfterBoth(s, LooksIn(ws[0], now), LooksOver(ws[1..], now));
  }

  lemma AfterTheFirst(t: Session, ws: seq<Window>, exact: nat, now: U64)
    requires ws != [] && Metered(t) && t.resetsAt == Some(ws[0].name) && t.consumed == Share(Clamp(exact))
    requires InOrder(ws[1..]) && (|ws| > 1 ==> ws[1..][0].name != ws[0].name)
    ensures After(t, LooksOver(ws[1..], now)).consumed == Share(Clamp(exact + Peaks(ws[1..])))
  {
    LaterWindows(t, ws[1..], exact, now);
  }

  lemma LaterInOrder(ws: seq<Window>)
    requires ws != [] && InOrder(ws)
    ensures InOrder(ws[1..]) && (|ws| > 1 ==> ws[1..][0].name != ws[0].name)
  {
    assert |ws| > 1 ==> ws[0].name != ws[1].name;
  }

  lemma {:induction false} HighestIsTheMost(readings: seq<U64>)
    ensures forall i :: 0 <= i < |readings| ==> readings[i] <= Highest(readings, 0)
    ensures readings != [] ==> Highest(readings, 0) in readings
  {
    if readings != [] {
      HighestIsTheMost(readings[1..]);
      HighestFrom(readings[1..], readings[0]);
    }
  }

  /** So the figure does not depend on the order readings of one window arrive in. */
  lemma ArrivalOrderDoesNotMatter(s: Session, ws: seq<Window>, us: seq<Window>, now: U64)
    requires Metered(s) && s.resetsAt.None? && s.consumed == Share(0)
    requires ws != [] && InOrder(ws) && |us| == |ws|
    requires forall i :: 0 <= i < |ws| ==>
               us[i].name == ws[i].name && multiset(us[i].readings) == multiset(ws[i].readings)
    requires forall i :: 0 <= i < |ws[0].readings| ==> ws[0].readings[i] >= s.limitLastSeen.value
    ensures After(s, LooksOver(us, now)).consumed == After(s, LooksOver(ws, now)).consumed
  {
    SameWindows(us, ws, s.limitLastSeen.value);
    SameAccounts(s, ws, us, now);
  }

  lemma SameAccounts(s: Session, ws: seq<Window>, us: seq<Window>, now: U64)
    requires Metered(s) && s.resetsAt.None? && s.consumed == Share(0)
    requires ws != [] && InOrder(ws) && InOrder(us) && |us| == |ws|
    requires forall i :: 0 <= i < |ws| ==> SameButOrder(us[i], ws[i])
    requires forall i :: 0 <= i < |ws[0].readings| ==> ws[0].readings[i] >= s.limitLastSeen.value
    requires forall i :: 0 <= i < |us[0].readings| ==> us[0].readings[i] >= s.limitLastSeen.value
    ensures After(s, LooksOver(us, now)).consumed == After(s, LooksOver(ws, now)).consumed
  {
    var figure := Highest(ws[0].readings, 0) - s.limitLastSeen.value + Peaks(ws[1..]);
    AccountedAs(s, ws, now, figure);
    SameFigures(us, ws);
    AccountedAs(s, us, now, figure);
  }

  lemma AccountedAs(s: Session, ws: seq<Window>, now: U64, figure: int)
    requires Metered(s) && s.resetsAt.None? && s.consumed == Share(0)
    requires ws != [] && InOrder(ws)
    requires forall i :: 0 <= i < |ws[0].readings| ==> ws[0].readings[i] >= s.limitLastSeen.value
    requires figure == Highest(ws[0].readings, 0) - s.limitLastSeen.value + Peaks(ws[1..])
    ensures figure >= 0 && After(s, LooksOver(ws, now)).consumed == Share(Clamp(figure))
  {
    MeasuredIsTheAccount(s, ws, now);
  }

  lemma SameFigures(us: seq<Window>, ws: seq<Window>)
    requires ws != [] && |us| == |ws| && forall i :: 0 <= i < |ws| ==> SameButOrder(us[i], ws[i])
    ensures Highest(us[0].readings, 0) == Highest(ws[0].readings, 0) && Peaks(us[1..]) == Peaks(ws[1..])
  {
    assert SameButOrder(us[0], ws[0]);
    SamePeaks(us[1..], ws[1..]);
  }

  lemma SameWindows(us: seq<Window>, ws: seq<Window>, least: U64)
    requires ws != [] && InOrder(ws) && |us| == |ws|
    requires forall i :: 0 <= i < |ws| ==>
               us[i].name == ws[i].name && multiset(us[i].readings) == multiset(ws[i].readings)
    requires forall i :: 0 <= i < |ws[0].readings| ==> ws[0].readings[i] >= least
    ensures InOrder(us) && forall i :: 0 <= i < |ws| ==> SameButOrder(us[i], ws[i])
    ensures forall i :: 0 <= i < |us[0].readings| ==> us[0].readings[i] >= least
  {
    forall i | 0 <= i < |ws| ensures SameButOrder(us[i], ws[i]) && |us[i].readings| == |ws[i].readings| {
      SameReadings(us[i].readings, ws[i].readings);
    }
    forall i | 0 <= i < |us[0].readings| ensures us[0].readings[i] >= least {
      assert us[0].readings[i] in multiset(ws[0].readings);
    }
  }

  predicate SameButOrder(u: Window, w: Window) {
    Highest(u.readings, 0) == Highest(w.readings, 0)
  }

  lemma SameReadings(a: seq<U64>, b: seq<U64>)
    requires multiset(a) == multiset(b)
    ensures |a| == |b| && Highest(a, 0) == Highest(b, 0)
  {
    assert |multiset(a)| == |multiset(b)|;
    HighestIsTheMost(a);
    HighestIsTheMost(b);
    if a != [] {
      assert Highest(a, 0) in multiset(b) && Highest(b, 0) in multiset(a);
    }
  }

  lemma {:induction false} SamePeaks(us: seq<Window>, ws: seq<Window>)
    requires |us| == |ws|
    requires forall i :: 0 <= i < |ws| ==> SameButOrder(us[i], ws[i])
    ensures Peaks(us) == Peaks(ws)
  {
    if us != [] {
      assert SameButOrder(us[0], ws[0]);
      SamePeaks(us[1..], ws[1..]);
    }
  }

  // ---------------------------------------------------------------- windows entered again

  /** A reading named for another window than the one held adds all of itself, whether or not that window
      was measured before. */
  lemma AnotherWindowAddsAllOfIt(s: Session, used: U64, name: U64, now: U64)
    requires Metered(s) && s.resetsAt.Some?
    ensures Step(s, Looks(used, Some(name), now)).consumed.figure
         == if name != s.resetsAt.value then SatAdd(s.consumed.figure, used)
            else SatAdd(s.consumed.figure, SatSub(used, s.limitLastSeen.value))
  {
  }

  /** The most a window of that name was read at. */
  function Reached(ws: seq<Window>, name: U64): U64 {
    if ws == [] then 0
    else
      var before, last := Reached(ws[..|ws| - 1], name), ws[|ws| - 1];
      if last.name == name then Max(before, Highest(last.readings, 0)) else before
  }

  predicate Entered(ws: seq<Window>, name: U64, n: nat)
    requires n <= |ws|
  {
    exists i :: 0 <= i < n && ws[i].name == name
  }

  /** What each window reached at most, counted where it is first entered. */
  function OnceAmong(ws: seq<Window>, n: nat): nat
    requires n <= |ws|
  {
    if n == 0 then 0
    else OnceAmong(ws, n - 1) + if Entered(ws, ws[n - 1].name, n - 1) then 0 else Reached(ws, ws[n - 1].name)
  }

  /** What the limit was used in each window, each counted once. */
  function Once(ws: seq<Window>): nat {
    OnceAmong(ws, |ws|)
  }

  /** What is counted again where a window is entered again: as much as it had reached before. */
  function Again(ws: seq<Window>): nat {
    if ws == [] then 0
    else
      var front, last := ws[..|ws| - 1], ws[|ws| - 1];
      Again(front) + Min(Highest(last.readings, 0), Reached(front, last.name))
  }

  lemma {:induction false} OneMoreReached(front: seq<Window>, last: Window, name: U64)
    ensures Reached(front + [last], name)
         == if last.name == name then Max(Reached(front, name), Highest(last.readings, 0)) else Reached(front, name)
  {
    assert (front + [last])[..|front|] == front;
  }

  lemma {:induction false} NotEnteredNotReached(ws: seq<Window>, name: U64)
    requires !Entered(ws, name, |ws|)
    ensures Reached(ws, name) == 0
  {
    if ws != [] {
      assert ws[|ws| - 1].name != name;
      NotEnteredNotReached(ws[..|ws| - 1], name);
    }
  }

  lemma {:induction false} OneMoreEntered(front: seq<Window>, last: Window, name: U64, n: nat)
    requires n <= |front|
    ensures Entered(front + [last], name, n) <==> Entered(front, name, n)
  {
    assert forall i :: 0 <= i < n ==> (front + [last])[i] == front[i];
  }

  /** One more window raises what its name reached where that name was first entered, and nothing else. */
  lemma {:induction false} OneMoreRaises(front: seq<Window>, last: Window, n: nat)
    requires n <= |front|
    ensures OnceAmong(front + [last], n)
         == OnceAmong(front, n)
            + if Entered(front, last.name, n)
              then SatSub(Highest(last.readings, 0), Reached(front, last.name)) else 0
  {
    if n > 0 {
      OneMoreRaises(front, last, n - 1);
      OneMoreEntered(front, last, front[n - 1].name, n - 1);
      OneMoreReached(front, last, front[n - 1].name);
      assert Entered(front, last.name, n) <==> Entered(front, last.name, n - 1) || front[n - 1].name == last.name;
    }
  }

  lemma {:induction false} OneMorePeak(front: seq<Window>, last: Window)
    ensures Peaks(front + [last]) == Peaks(front) + Highest(last.readings, 0)
  {
    if front == [] {
      assert [last][1..] == [];
      assert front + [last] == [last];
    } else {
      assert (front + [last])[1..] == front[1..] + [last];
      OneMorePeak(front[1..], last);
    }
  }

  /** What every stay in a window reached, added up, is what each window reached and what is counted again. */
  lemma {:induction false} PeaksAreOnceAndAgain(ws: seq<Window>)
    ensures Peaks(ws) == Once(ws) + Again(ws)
  {
    if ws != [] {
      var front, last := ws[..|ws| - 1], ws[|ws| - 1];
      assert ws == front + [last];
      PeaksAreOnceAndAgain(front);
      OneMorePeak(front, last);
      OneMoreRaises(front, last, |front|);
      OneMoreEntered(front, last, last.name, |front|);
      OneMoreReached(front, last, last.name);
      if !Entered(front, last.name, |front|) {
        NotEnteredNotReached(front, last.name);
      }
    }
  }

  /** The account is exceeded exactly by windows entered again: what a session has consumed is what each
      window reached, less the reading it opened on, and once more as much of every window entered again as
      it had reached before. */
  lemma {:induction false} ReenteredWindowsAreChargedAgain(s: Session, ws: seq<Window>, now: U64)
    requires Metered(s) && s.resetsAt.None? && s.consumed == Share(0)
    requires ws != [] && InOrder(ws)
    requires forall i :: 0 <= i < |ws[0].readings| ==> ws[0].readings[i] >= s.limitLastSeen.value
    ensures Once(ws) + Again(ws) >= s.limitLastSeen.value
    ensures After(s, LooksOver(ws, now)).consumed == Share(Clamp(Once(ws) + Again(ws) - s.limitLastSeen.value))
  {
    MeasuredIsTheAccount(s, ws, now);
    PeaksAreOnceAndAgain(ws);
  }

  /** Nothing is counted again exactly where no window that was read at anything is entered again and read at
      anything. */
  lemma {:induction false} NothingIsChargedAgainExactlyWhere(ws: seq<Window>)
    ensures Again(ws) == 0 <==>
              forall n :: 0 <= n < |ws| ==> Highest(ws[n].readings, 0) == 0 || Reached(ws[..n], ws[n].name) == 0
  {
    if ws != [] {
      var front, last := ws[..|ws| - 1], ws[|ws| - 1];
      NothingIsChargedAgainExactlyWhere(front);
      forall n | 0 <= n < |front| ensures front[..n] == ws[..n] && front[n] == ws[n] {
      }
    }
  }

  /** Two windows that take turns: the first is read at fifty, the second at ten, and the first at fifty
      again. Sixty were used, and a hundred and ten are charged. */
  lemma {:induction false} AWindowIsChargedTwice(s: Session, now: U64)
    requires Metered(s) && s.resetsAt.None? && s.consumed == Share(0) && s.limitLastSeen == Some(0)
    ensures var ws := [Window(1, [50]), Window(2, [10]), Window(1, [50])];
            After(s, LooksOver(ws, now)).consumed == Share(110) && Once(ws) == 60
  {
    var ws := [Window(1, [50]), Window(2, [10]), Window(1, [50])];
    var first, both := [Window(1, [50])], [Window(1, [50]), Window(2, [10])];
    assert ws[..2] == both && both[..1] == first && first[..0] == [];
    assert Highest([50], 0) == 50 && Highest([10], 0) == 10;
    assert Reached(first, 1) == 50 && Reached(both, 1) == 50 && Reached(both, 2) == 10;
    assert Reached(ws, 1) == 50 && Reached(ws, 2) == 10;
    assert OnceAmong(ws, 1) == 50;
    assert OnceAmong(ws, 2) == 60;
    assert ws[0].name == 1 && Entered(ws, 1, 2);
    assert Again(first) == 0 && Again(both) == 0 && Again(ws) == 50;
    ReenteredWindowsAreChargedAgain(s, ws, now);
  }
}
