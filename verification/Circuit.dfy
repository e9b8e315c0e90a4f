/** The load-balancer health circuit: a stored record that each health event reads, changes and stores. */
module Circuit {
  import opened Sequences

  /** The kind `normalizeHealthEvent` gives an event. */
  datatype Kind = ChainOk | PreviousResponseNotFound | Auth | ServerError | Timeout | Network | Other(name: string)

  datatype CircuitState = Closed | Open | HalfOpen

  /** A normalised record; timestamps are left out. */
  datatype Record = Record(state: CircuitState, failures: seq<Kind>, warnings: seq<Kind>)

  const EMPTY := Record(Closed, [], [])

  const WINDOW: nat := 10

  /** `slice(-10)` */
  function LastTen(s: seq<Kind>): (r: seq<Kind>)
    ensures |r| <= WINDOW && (|s| <= WINDOW ==> r == s)
  {
    if |s| <= WINDOW then s else s[|s| - WINDOW..]
  }

  predicate IsFailure(k: Kind) {
    k != ChainOk && k != PreviousResponseNotFound
  }

  predicate IsInfrastructure(k: Kind) {
    k == ServerError || k == Timeout || k == Network
  }

  function InfrastructureCount(s: seq<Kind>): nat {
    if s == [] then 0 else InfrastructureCount(s[..|s| - 1]) + if IsInfrastructure(s[|s| - 1]) then 1 else 0
  }

  /** The window opens the circuit: three infrastructure failures, or any authentication failure. */
  predicate Trips(window: seq<Kind>) {
    InfrastructureCount(window) >= 3 || Auth in window
  }

  /** What recording one event does to a normalised record. */
  function Recorded(c: Record, k: Kind): Record {
    match k
    case ChainOk => c.(state := if c.state == HalfOpen || c.state == Open then Closed else c.state)
    case PreviousResponseNotFound =>
      c.(warnings := LastTen(c.warnings + [k]), state := if c.state == Open then Open else Closed)
    case _ =>
      var recent := LastTen(c.failures + [k]);
      c.(failures := recent, state := if Trips(recent) then Open else c.state)
  }

  /** What reading a stored record yields: an unknown state is closed, and the lists are cut to ten. */
  function Normalized(state: string, failures: seq<Kind>, warnings: seq<Kind>): Record {
    Record(if state == "open" then Open else if state == "half_open" then HalfOpen else Closed,
           LastTen(failures), LastTen(warnings))
  }

  function StateName(s: CircuitState): string {
    match s case Closed => "closed" case Open => "open" case HalfOpen => "half_open"
  }

  /** The stored health file. Nothing constrains what it holds before the first event. */
  class HealthStore {
    var state: string
    var failures: seq<Kind>
    var warnings: seq<Kind>

    /** The record that the next reader sees. */
    function View(): Record
      reads this
    {
      Normalized(state, failures, warnings)
    }

    constructor (state: string, failures: seq<Kind>, warnings: seq<Kind>)
      ensures View() == Normalized(state, failures, warnings)
    {
      this.state, this.failures, this.warnings := state, failures, warnings;
    }

    method Write(c: Record)
      modifies this
      ensures View() == c.(failures := LastTen(c.failures), warnings := LastTen(c.warnings))
      ensures failures == LastTen(c.failures) && warnings == LastTen(c.warnings) && state == StateName(c.state)
    {
      state, failures, warnings := StateName(c.state), LastTen(c.failures), LastTen(c.warnings);
    }

    method Reset()
      modifies this
      ensures View() == EMPTY
    {
      Write(EMPTY);
    }

    method RecordEvent(k: Kind)
      modifies this
      ensures View() == Recorded(old(View()), k)
    {
      var current := View();
      if k == ChainOk {
        Write(current.(state := if current.state == HalfOpen || current.state == Open then Closed else current.state));
      } else if k == PreviousResponseNotFound {
        var warnings := LastTen(current.warnings + [k]);
        Write(current.(state := if current.state == Open then Open else Closed, warnings := warnings));
      } else {
        var recent := LastTen(current.failures + [k]);
        var open := Trips(recent);
        Write(current.(state := if open then Open else current.state, failures := recent));
      }
    }

    /** Replays a run of events after a reset. */
    method Replay(events: seq<Kind>)
      modifies this
      ensures View() == After(events)
    {
      Reset();
      for i := 0 to |events|
        invariant View() == After(events[..i])
      {
        assert events[..i + 1][..i] == events[..i];
        RecordEvent(events[i]);
      }
      assert events[..|events|] == events;
    }
  }

  // ----- whole runs -----

  /** The record after a reset and a run of events. */
  function After(events: seq<Kind>): Record {
    if events == [] then EMPTY else Recorded(After(events[..|events| - 1]), events[|events| - 1])
  }

  /** The failures, or the warnings, of a run since its reset. */
  function Failures(events: seq<Kind>): seq<Kind> {
    if events == [] then []
    else
      var front, last := Failures(events[..|events| - 1]), events[|events| - 1];
      if IsFailure(last) then front + [last] else front
  }

  function Warnings(events: seq<Kind>): seq<Kind> {
    if events == [] then []
    else
      var front, last := Warnings(events[..|events| - 1]), events[|events| - 1];
      if last == PreviousResponseNotFound then front + [last] else front
  }

  lemma LastTenSlides(s: seq<Kind>, k: Kind)
    ensures LastTen(LastTen(s) + [k]) == LastTen(s + [k])
  {}

  lemma {:induction false} FailuresOfConcat(a: seq<Kind>, b: seq<Kind>)
    ensures Failures(a + b) == Failures(a) + Failures(b)
  {
    if b == [] {
      assert a + b == a;
    } else {
      assert (a + b)[..|a + b| - 1] == a + b[..|b| - 1];
      FailuresOfConcat(a, b[..|b| - 1]);
    }
  }

  /** The stored windows are the last ten failures and warnings since the reset; half-open is never reached. */
  lemma {:induction false} WindowsAreSuffixes(events: seq<Kind>)
    ensures After(events).failures == LastTen(Failures(events))
    ensures After(events).warnings == LastTen(Warnings(events))
    ensures After(events).state != HalfOpen
  {
    if events != [] {
      var front, last := events[..|events| - 1], events[|events| - 1];
      WindowsAreSuffixes(front);
      LastTenSlides(Failures(front), last);
      LastTenSlides(Warnings(front), last);
    }
  }

  /** The event at `i` is a failure at which the last ten failures since the reset open the circuit. */
  predicate TripsAt(events: seq<Kind>, i: int)
    requires 0 <= i < |events|
  {
    IsFailure(events[i]) && Trips(LastTen(Failures(events[..i + 1])))
  }

  /** No success follows position `i`. */
  predicate NoSuccessAfter(events: seq<Kind>, i: int) {
    forall j :: 0 <= j < |events| && i < j ==> events[j] != ChainOk
  }

  predicate TrippedSinceSuccess(events: seq<Kind>) {
    exists i | 0 <= i < |events| :: TripsAt(events, i) && NoSuccessAfter(events, i)
  }

  lemma AfterMore(front: seq<Kind>, last: Kind)
    ensures After(front + [last]) == Recorded(After(front), last)
  {
    assert (front + [last])[..|front + [last]| - 1] == front;
  }

  /** The last event opens the circuit, or leaves it open, or does not. */
  lemma StateAfter(front: seq<Kind>, last: Kind)
    ensures After(front + [last]).state == Open
        <==> (IsFailure(last) && Trips(LastTen(Failures(front + [last])))) || (last != ChainOk && After(front).state == Open)
  {
    AfterMore(front, last);
    WindowsAreSuffixes(front);
    WindowsAreSuffixes(front + [last]);
  }

  lemma TripsAtEnd(front: seq<Kind>, last: Kind)
    ensures TripsAt(front + [last], |front|) <==> IsFailure(last) && Trips(LastTen(Failures(front + [last])))
  {
    assert (front + [last])[..|front| + 1] == front + [last];
  }

  /** For every run: the circuit is open exactly when it tripped since the latest success. */
  lemma {:induction false} OpenIffTripped(events: seq<Kind>)
    ensures After(events).state == Open <==> TrippedSinceSuccess(events)
  {
    if events != [] {
      var front, last := events[..|events| - 1], events[|events| - 1];
      assert events == front + [last];
      OpenIffTripped(front);
      StateAfter(front, last);
      TripsAtEnd(front, last);
      TripsExtend(front, last);
    }
  }

  lemma NoSuccessExtends(front: seq<Kind>, last: Kind, i: nat)
    requires i < |front|
    ensures NoSuccessAfter(front + [last], i) <==> NoSuccessAfter(front, i) && last != ChainOk
  {
    var events := front + [last];
    assert events[|front|] == last;
    if NoSuccessAfter(events, i) {
      forall j | 0 <= j < |front| && i < j ensures front[j] != ChainOk { assert events[j] == front[j]; }
    }
  }

  lemma TripsAtExtends(front: seq<Kind>, last: Kind, i: nat)
    requires i < |front|
    ensures TripsAt(front + [last], i) == TripsAt(front, i)
  {
    assert (front + [last])[..i + 1] == front[..i + 1];
  }

  lemma TripsExtend(front: seq<Kind>, last: Kind)
    ensures TrippedSinceSuccess(front + [last])
        <==> TripsAt(front + [last], |front|) || (last != ChainOk && TrippedSinceSuccess(front))
  {
    var events := front + [last];
    forall i | 0 <= i < |front|
      ensures TripsAt(events, i) == TripsAt(front, i)
      ensures NoSuccessAfter(events, i) == (NoSuccessAfter(front, i) && last != ChainOk)
    {
      TripsAtExtends(front, last, i);
      NoSuccessExtends(front, last, i);
    }
    assert NoSuccessAfter(events, |front|);
  }

  /** A success closes the circuit without clearing the window, so the next failure re-reads it. */
  lemma SuccessKeepsWindow(events: seq<Kind>, failure: Kind)
    requires IsFailure(failure)
    ensures After(events + [ChainOk]).state == Closed
    ensures After(events + [ChainOk, failure]).state == Open <==> Trips(LastTen(Failures(events) + [failure]))
  {
    var closed := events + [ChainOk];
    assert closed[..|closed| - 1] == events;
    WindowsAreSuffixes(events);
    var all := events + [ChainOk, failure];
    assert all[..|all| - 1] == closed;
    WindowsAreSuffixes(closed);
    LastTenSlides(Failures(events), failure);
  }

  /**
   * After an authentication failure the circuit is open right after each of the next nine
   * failures, whatever successes and warnings come between.
   */
  lemma AuthTripsNineMore(before: seq<Kind>, later: seq<Kind>)
    requires later != [] && IsFailure(later[|later| - 1]) && |Failures(later)| <= 9
    ensures After(before + [Auth] + later).state == Open
  {
    var events := before + [Auth] + later;
    var n := |events| - 1;
    FailuresAroundAuth(before, later);
    RecentIsInWindow(Failures(before), Auth, Failures(later));
    assert events[..n + 1] == events && events[n] == later[|later| - 1];
    assert TripsAt(events, n) && NoSuccessAfter(events, n);
    OpenIffTripped(events);
  }

  lemma FailuresAroundAuth(before: seq<Kind>, later: seq<Kind>)
    ensures Failures(before + [Auth] + later) == Failures(before) + [Auth] + Failures(later)
  {
    FailuresOfConcat(before + [Auth], later);
    FailuresOfConcat(before, [Auth]);
    assert [Auth][..0] == [] && Failures([Auth]) == [Auth];
  }

  lemma RecentIsInWindow(a: seq<Kind>, k: Kind, b: seq<Kind>)
    requires |b| <= 9
    ensures k in LastTen(a + [k] + b)
  {
    var s := a + [k] + b;
    var w := LastTen(s);
    assert s[|a|] == k;
    assert w[|w| - 1 - |b|] == s[|s| - 1 - |b|];
  }

  lemma OldIsOutsideWindow(a: seq<Kind>, b: seq<Kind>)
    requires |b| >= 10
    ensures LastTen(a + b) == LastTen(b)
  {}

  lemma {:induction false} NoInfrastructure(s: seq<Kind>)
    requires forall k :: k in s ==> k.Other?
    ensures InfrastructureCount(s) == 0
  {
    if s != [] {
      assert s[|s| - 1] in s;
      NoInfrastructure(s[..|s| - 1]);
    }
  }

  /**
   * Nine is exact: among failures that would open nothing on their own, the one that
   * comes after a success still opens the circuit while at most eight others followed
   * the authentication failure, and no longer from nine on.
   */
  lemma AuthIsForgottenAfterNine(before: seq<Kind>, later: seq<Kind>, failure: Kind)
    requires failure.Other? && forall k :: k in Failures(later) ==> k.Other?
    ensures After(before + [Auth] + later + [ChainOk, failure]).state == Open <==> |Failures(later)| <= 8
  {
    var tail := Failures(later) + [failure];
    SuccessKeepsWindow(before + [Auth] + later, failure);
    FailuresAroundAuth(before, later);
    Associates(Failures(before) + [Auth], Failures(later), [failure]);
    WindowForgets(Failures(before), tail);
  }

  /** A window of harmless failures trips exactly while it still holds an earlier authentication failure. */
  lemma WindowForgets(earlier: seq<Kind>, tail: seq<Kind>)
    requires forall k :: k in tail ==> k.Other?
    ensures Trips(LastTen(earlier + [Auth] + tail)) <==> |tail| <= 9
  {
    if |tail| <= 9 {
      RecentIsInWindow(earlier, Auth, tail);
    } else {
      OldIsOutsideWindow(earlier + [Auth], tail);
      NoInfrastructure(LastTen(tail));
    }
  }
}
