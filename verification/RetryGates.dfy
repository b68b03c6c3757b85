/**
 The gate over preview retries (client/route/ratelimit.go:114-183) and the retry loop it guards
 (client/route/route.go:1825-1895). Times are in milliseconds.
 */
module RetryGates {
  const TRIP_AFTER := 5
  const COOLDOWN := 10_000
  const ATTEMPTS := 3
  const BACKOFF := 200

  /** openUntil is meaningless while not `open`: it is Go's zero time. */
  datatype Gate = Gate(consecutive: nat, open: bool, openUntil: int)

  const CLOSED := Gate(0, false, 0)

  predicate RetryAllowed(g: Gate, now: int) { !(g.open && now < g.openUntil) }

  function NoAnswerIn(g: Gate, now: int): Gate {
    if g.consecutive + 1 >= TRIP_AFTER then Gate(0, true, now + COOLDOWN) else g.(consecutive := g.consecutive + 1)
  }

  class RetryGate {
    var consecutive: nat
    var open: bool
    var openUntil: int

    function State(): Gate
      reads this
    {
      Gate(consecutive, open, openUntil)
    }

    constructor ()
      ensures State() == CLOSED
    {
      consecutive, open, openUntil := 0, false, 0;
    }

    method Allow(now: int) returns (ok: bool)
      ensures ok == RetryAllowed(State(), now)
    {
      ok := !(open && now < openUntil);
    }

    method NoAnswer(now: int)
      modifies this
      ensures State() == NoAnswerIn(old(State()), now)
    {
      consecutive := consecutive + 1;
      if consecutive >= TRIP_AFTER {
        open, openUntil := true, now + COOLDOWN;
        consecutive := 0;
      }
    }

    method Answered()
      modifies this
      ensures State() == CLOSED
    {
      consecutive := 0;
      open, openUntil := false, 0;
    }
  }

  // ---------------------------------------------------------------- Runs of the gate

  datatype Event = NoAnswer(at: int) | Answered

  function After(events: seq<Event>): Gate {
    if events == [] then CLOSED
    else
      match events[|events| - 1]
      case NoAnswer(at) => NoAnswerIn(After(events[..|events| - 1]), at)
      case Answered => CLOSED
  }

  /** Whether the last event tripped the gate. */
  predicate Trips(events: seq<Event>) {
    events != [] && events[|events| - 1].NoAnswer? && After(events[..|events| - 1]).consecutive + 1 >= TRIP_AFTER
  }

  function TripCount(events: seq<Event>): nat {
    if events == [] then 0 else TripCount(events[..|events| - 1]) + if Trips(events) then 1 else 0
  }

  function NoAnswers(events: seq<Event>): nat {
    if events == [] then 0 else NoAnswers(events[..|events| - 1]) + if events[|events| - 1].NoAnswer? then 1 else 0
  }

  /** Every trip is paid for by five calls of its own. */
  lemma {:induction false} TripsArePaidFor(events: seq<Event>)
    ensures TripCount(events) * TRIP_AFTER + After(events).consecutive <= NoAnswers(events)
    ensures After(events).consecutive < TRIP_AFTER
  {
    if events != [] {
      TripsArePaidFor(events[..|events| - 1]);
    }
  }

  /** The last n events are all noAnswer calls. */
  predicate LastAreNoAnswers(events: seq<Event>, n: nat) {
    n <= |events| && forall i :: |events| - n <= i < |events| ==> events[i].NoAnswer?
  }

  /** Event j tripped the gate. */
  predicate TripsAt(events: seq<Event>, j: nat) {
    j < |events| && Trips(events[..j + 1])
  }

  /** Event j is the last to have tripped the gate, and nothing has succeeded since. */
  ghost predicate LastTrip(events: seq<Event>, j: nat) {
    TripsAt(events, j) && forall i :: j < i < |events| ==> events[i].NoAnswer? && !TripsAt(events, i)
  }

  /** Exactly the last n events are noAnswer calls: none before them, or a success. */
  predicate RunIs(events: seq<Event>, n: nat) {
    LastAreNoAnswers(events, n) && (n < |events| ==> events[|events| - 1 - n].Answered?)
  }

  lemma {:induction false} RunCounts(events: seq<Event>, n: nat)
    requires RunIs(events, n)
    ensures After(events).consecutive == n % TRIP_AFTER
  {
    if n > 0 {
      var front := events[..|events| - 1];
      assert forall i :: 0 <= i < |front| ==> front[i] == events[i];
      assert events[|events| - 1].NoAnswer?;
      RunCounts(front, n - 1);
    }
  }

  lemma {:induction false} SomeRun(events: seq<Event>) returns (n: nat)
    ensures RunIs(events, n)
  {
    if events == [] || events[|events| - 1].Answered? {
      n := 0;
    } else {
      var front := events[..|events| - 1];
      n := SomeRun(front);
      assert forall i :: 0 <= i < |front| ==> front[i] == events[i];
      n := n + 1;
    }
  }

  /** The gate trips at every fifth noAnswer in a row, and at nothing else. */
  lemma TripsWhen(events: seq<Event>)
    ensures Trips(events) <==> exists n :: n > 0 && n % TRIP_AFTER == 0 && RunIs(events, n)
  {
    if events != [] && events[|events| - 1].NoAnswer? {
      var front := events[..|events| - 1];
      var n := SomeRun(front);
      RunCounts(front, n);
      assert forall i :: 0 <= i < |front| ==> front[i] == events[i];
      assert RunIs(events, n + 1);
      forall m | RunIs(events, m) ensures m == n + 1 {
        OneRun(events, m, n + 1);
      }
    }
  }

  lemma OneRun(events: seq<Event>, n: nat, m: nat)
    requires RunIs(events, n) && RunIs(events, m)
    ensures n == m
  {
  }

  /** So the five up to a trip are noAnswer calls. */
  lemma TripMeans(events: seq<Event>)
    requires Trips(events)
    ensures LastAreNoAnswers(events, TRIP_AFTER)
  {
    hide Trips;
    TripsWhen(events);
  }

  /** What the last event does to the window. */
  lemma WindowStep(events: seq<Event>)
    requires events != []
    ensures var n := |events| - 1; var g, g' := After(events[..n]), After(events);
            && (Trips(events) ==> events[n].NoAnswer? && g'.open && g'.openUntil == events[n].at + COOLDOWN)
            && (!Trips(events) && events[n].NoAnswer? ==> g'.open == g.open && g'.openUntil == g.openUntil)
            && (events[n].Answered? ==> !g'.open && !Trips(events))
  {
  }

  /** A noAnswer that does not trip leaves the last trip what it was. */
  lemma LastTripStep(events: seq<Event>, j: nat)
    requires events != [] && j < |events| - 1
    ensures var n := |events| - 1;
            LastTrip(events, j) <==> LastTrip(events[..n], j) && events[n].NoAnswer? && !Trips(events)
  {
    hide Trips, LastTrip;
    var n := |events| - 1;
    if LastTrip(events, j) {
      LastTripShorter(events, j);
    }
    if LastTrip(events[..n], j) && events[n].NoAnswer? && !Trips(events) {
      LastTripLonger(events, j);
    }
  }

  lemma TripsAtEarlier(events: seq<Event>, i: nat)
    requires events != [] && i < |events| - 1
    ensures TripsAt(events[..|events| - 1], i) == TripsAt(events, i)
  {
    hide Trips;
    assert events[..|events| - 1][..i + 1] == events[..i + 1];
  }

  lemma TripsAtLast(events: seq<Event>)
    requires events != []
    ensures TripsAt(events, |events| - 1) == Trips(events)
  {
    hide Trips;
    assert events[..|events| - 1 + 1] == events;
  }

  lemma LastTripShorter(events: seq<Event>, j: nat)
    requires events != [] && j < |events| - 1 && LastTrip(events, j)
    ensures LastTrip(events[..|events| - 1], j) && events[|events| - 1].NoAnswer? && !Trips(events)
  {
    hide Trips, TripsAt;
    var n := |events| - 1;
    var front := events[..n];
    TripsAtEarlier(events, j);
    TripsAtLast(events);
    forall i | j < i < n ensures front[i].NoAnswer? && !TripsAt(front, i) {
      TripsAtEarlier(events, i);
      assert front[i] == events[i];
    }
    assert events[n].NoAnswer?;
  }

  lemma LastTripLonger(events: seq<Event>, j: nat)
    requires events != [] && j < |events| - 1 && LastTrip(events[..|events| - 1], j)
    requires events[|events| - 1].NoAnswer? && !Trips(events)
    ensures LastTrip(events, j)
  {
    hide Trips, TripsAt;
    var n := |events| - 1;
    var front := events[..n];
    TripsAtEarlier(events, j);
    TripsAtLast(events);
    forall i | j < i < n ensures events[i].NoAnswer? && !TripsAt(events, i) {
      TripsAtEarlier(events, i);
      assert front[i] == events[i];
    }
  }

  lemma TripIsLast(events: seq<Event>)
    requires events != []
    ensures LastTrip(events, |events| - 1) <==> Trips(events)
  {
    hide Trips, TripsAt;
    TripsAtLast(events);
  }

  /** The trip that set an open window, since which nothing has succeeded. */
  lemma {:induction false} OpenMeansTripped(events: seq<Event>) returns (j: nat)
    requires After(events).open
    ensures LastTrip(events, j) && j < |events| && After(events).openUntil == events[j].at + COOLDOWN
  {
    assert events != [];
    hide After, Trips, LastTrip;
    var n := |events| - 1;
    WindowStep(events);
    if Trips(events) {
      j := n;
      TripIsLast(events);
    } else {
      j := OpenMeansTripped(events[..n]);
      LastTripStep(events, j);
    }
  }

  /** The window of the last trip with no success since is the one that is open. */
  lemma {:induction false} TrippedMeansOpen(events: seq<Event>, j: nat)
    requires LastTrip(events, j)
    ensures j < |events| && After(events).open && After(events).openUntil == events[j].at + COOLDOWN
    decreases |events|
  {
    LastTripIs(events, j);
    hide After, Trips, LastTrip;
    var n := |events| - 1;
    WindowStep(events);
    if j == n {
      TripIsLast(events);
    } else {
      LastTripStep(events, j);
      TrippedMeansOpen(events[..n], j);
    }
  }

  /** Retries are off at `now` exactly inside ten seconds of the last trip, with no success since. */
  lemma OffMeansTripped(events: seq<Event>, now: int)
    ensures !RetryAllowed(After(events), now) <==>
            exists j: nat :: LastTrip(events, j) && now < events[j].at + COOLDOWN
  {
    hide LastTrip;
    if !RetryAllowed(After(events), now) {
      var j := OpenMeansTripped(events);
      assert LastTrip(events, j) && now < events[j].at + COOLDOWN by { LastTripIs(events, j); }
    }
    if j: nat :| LastTrip(events, j) && (LastTripIs(events, j); now < events[j].at + COOLDOWN) {
      TrippedMeansOpen(events, j);
    }
  }

  lemma LastTripIs(events: seq<Event>, j: nat)
    requires LastTrip(events, j)
    ensures j < |events| && events[j].NoAnswer?
  {
    assert events[..j + 1][j] == events[j];
  }

  /** The five events up to the last trip, and all that came after it, are noAnswer calls. */
  lemma LastTripRun(events: seq<Event>, j: nat)
    requires LastTrip(events, j)
    ensures TRIP_AFTER <= j + 1 <= |events|
    ensures forall i :: j + 1 - TRIP_AFTER <= i < |events| ==> events[i].NoAnswer?
  {
    hide Trips;
    var upTo := events[..j + 1];
    TripMeans(upTo);
    forall i | j + 1 - TRIP_AFTER <= i <= j ensures events[i].NoAnswer? {
      assert upTo[i] == events[i];
    }
  }

  /** A success reopens the gate at once, and fewer than five failures after it never close it. */
  lemma SuccessReopens(events: seq<Event>, failures: seq<Event>, now: int)
    requires |failures| < TRIP_AFTER
    ensures RetryAllowed(After(events + [Answered] + failures), now)
  {
    hide After, Trips, LastTrip;
    var all := events + [Answered] + failures;
    assert all[|events|] == Answered;
    if !RetryAllowed(After(all), now) {
      var j := OpenMeansTripped(all);
      LastTripRun(all, j);
    }
  }

  // ---------------------------------------------------------------- The retry loop

  datatype Verdict = Ok | Retryable | Terminal

  /** One attempt: how long it took, how it ended, and whether the caller had gone by then. */
  datatype Attempt = Attempt(took: nat, verdict: Verdict, gone: bool)

  datatype Outcome = Succeeded | Failed | Ended | Canceled

  /**
   What one preview runs into: its budget, its attempts, the gate as each look before a retry finds it
   (other calls use it too), and whether the caller leaves during the pause before a retry.
   */
  datatype Call = Call(start: int, budget: int, attempts: seq<Attempt>, looks: seq<Gate>, leaves: seq<bool>)

  predicate IsCall(c: Call) { |c.attempts| == |c.looks| == |c.leaves| == ATTEMPTS && c.budget > 0 }

  /** How many attempts were made, how the call ended and when. */
  datatype Previewed = Previewed(made: nat, outcome: Outcome, end: int)

  /** The pause before retry i. */
  function Pause(i: nat): nat { if i <= 1 then BACKOFF else 2 * Pause(i - 1) }

  lemma FirstPauses()
    ensures Pause(1) == BACKOFF
  {
  }

  lemma PauseDoubles(i: nat)
    requires i > 0
    ensures Pause(i + 1) == 2 * Pause(i)
  {
  }

  /** Whether the call goes on to retry i at now. */
  predicate Retries(c: Call, i: nat, now: int)
    requires IsCall(c)
  {
    i < ATTEMPTS && now - c.start + Pause(i) < c.budget && RetryAllowed(c.looks[i], now)
  }

  /** The loop from attempt i on, begun at now. */
  function PreviewFrom(c: Call, i: nat, now: int): Previewed
    requires IsCall(c) && i < ATTEMPTS
    decreases ATTEMPTS - i, 0
  {
    var a, after := c.attempts[i], now + c.attempts[i].took;
    if a.verdict.Ok? then Previewed(i + 1, Succeeded, after)
    else if a.verdict.Terminal? || a.gone then Previewed(i + 1, Ended, after)
    else Onward(c, i + 1, after)
  }

  /** The loop after a failure worth a retry, which would be attempt i. */
  function Onward(c: Call, i: nat, now: int): Previewed
    requires IsCall(c) && 0 < i <= ATTEMPTS
    decreases ATTEMPTS - i, 1
  {
    if !Retries(c, i, now) then Previewed(i, Failed, now)
    else if c.leaves[i] then Previewed(i, Canceled, now + Pause(i))
    else PreviewFrom(c, i, now + Pause(i))
  }

  /** A failure worth a retry that gets one. */
  lemma PreviewNext(c: Call, i: nat, now: int)
    requires IsCall(c) && i + 1 < ATTEMPTS && c.attempts[i].verdict.Retryable? && !c.attempts[i].gone
    requires Retries(c, i + 1, now + c.attempts[i].took) && !c.leaves[i + 1]
    ensures PreviewFrom(c, i, now) == PreviewFrom(c, i + 1, now + c.attempts[i].took + Pause(i + 1))
  {
    hide Retries, Pause;
    assert PreviewFrom(c, i, now) == Onward(c, i + 1, now + c.attempts[i].took);
  }

  lemma OnwardMeans(c: Call, i: nat, now: int)
    requires IsCall(c) && 0 < i <= ATTEMPTS
    ensures var stops := i == ATTEMPTS || now - c.start + Pause(i) >= c.budget || !RetryAllowed(c.looks[i], now);
            && (stops ==> Onward(c, i, now) == Previewed(i, Failed, now))
            && (!stops && c.leaves[i] ==> Onward(c, i, now) == Previewed(i, Canceled, now + Pause(i)))
            && (!stops && !c.leaves[i] ==> Onward(c, i, now) == PreviewFrom(c, i, now + Pause(i)))
  {
    hide Pause, RetryAllowed;
  }

  /** What a call's end does to the gate it finds. */
  function Leaves(g: Gate, p: Previewed): Gate {
    match p.outcome
    case Succeeded => CLOSED
    case Failed => NoAnswerIn(g, p.end)
    case _ => g
  }

  /** preview's loop. The gate is as the call finds it when it ends. */
  method Preview(gate: RetryGate, c: Call) returns (p: Previewed)
    requires IsCall(c)
    modifies gate
    ensures p == PreviewFrom(c, 0, c.start)
    ensures gate.State() == Leaves(old(gate.State()), p)
  {
    hide Pause, RetryAllowed, Onward;
    var now, backoff, i := c.start, BACKOFF, 0;
    FirstPauses();
    while i < ATTEMPTS
      invariant 0 <= i <= ATTEMPTS && backoff == Pause(if i == 0 then 1 else i) && gate.State() == old(gate.State())
      invariant i == 0 ==> now == c.start
      invariant i > 0 ==> c.attempts[i - 1].verdict.Retryable? && !c.attempts[i - 1].gone
      invariant i > 0 ==> PreviewFrom(c, 0, c.start) == Onward(c, i, now)
    {
      if i > 0 {
        OnwardMeans(c, i, now);
        if now - c.start + backoff >= c.budget || !RetryAllowed(c.looks[i], now) {
          break;
        }
        now := now + backoff;
        if c.leaves[i] {
          return Previewed(i, Canceled, now);
        }
        PauseDoubles(i);
        backoff := backoff * 2;
      }
      var a := c.attempts[i];
      now := now + a.took;
      i := i + 1;
      if a.verdict.Ok? {
        gate.Answered();
        return Previewed(i, Succeeded, now);
      }
      if !a.verdict.Retryable? || a.gone {
        return Previewed(i, Ended, now);
      }
    }
    OnwardMeans(c, i, now);
    gate.NoAnswer(now);
    p := Previewed(i, Failed, now);
  }

  /** What a call tells the gate: a success, that it got no answer, or nothing when it was refused or left. */
  function Told(p: Previewed): seq<Event> {
    match p.outcome
    case Succeeded => [Answered]
    case Failed => [NoAnswer(p.end)]
    case Ended => []
    case Canceled => []
  }

  function ToldBy(ps: seq<Previewed>): seq<Event> {
    if ps == [] then [] else ToldBy(ps[..|ps| - 1]) + Told(ps[|ps| - 1])
  }

  /** The gate after some calls have ended, in this order. */
  function GateAfter(ps: seq<Previewed>): Gate {
    if ps == [] then CLOSED else Leaves(GateAfter(ps[..|ps| - 1]), ps[|ps| - 1])
  }

  lemma OneMore(events: seq<Event>, p: Previewed)
    ensures After(events + Told(p)) == Leaves(After(events), p)
  {
    var more := Told(p);
    if more == [] {
      assert events + more == events;
    } else {
      assert (events + more)[..|events|] == events;
    }
  }

  lemma {:induction false} GateHears(ps: seq<Previewed>)
    ensures GateAfter(ps) == After(ToldBy(ps))
  {
    hide After, Leaves, Told;
    if ps == [] {
      NothingHeard();
    } else {
      GateHears(ps[..|ps| - 1]);
      OneMore(ToldBy(ps[..|ps| - 1]), ps[|ps| - 1]);
    }
  }

  lemma NothingHeard()
    ensures After([]) == CLOSED
  {
  }

  /** However calls end, they leave retries off exactly inside ten seconds of the last trip among what they told the gate. */
  lemma PreviewsTurnRetriesOff(ps: seq<Previewed>, now: int)
    ensures !RetryAllowed(GateAfter(ps), now) <==>
            exists j: nat :: LastTrip(ToldBy(ps), j) && now < ToldBy(ps)[j].at + COOLDOWN
  {
    hide LastTrip, RetryAllowed;
    GateHears(ps);
    OffMeansTripped(ToldBy(ps), now);
  }

  /** When attempt i would begin, all before it having been retried. */
  function BeginOf(c: Call, i: nat): int
    requires IsCall(c) && i < ATTEMPTS
  {
    if i == 0 then c.start else BeginOf(c, i - 1) + c.attempts[i - 1].took + Pause(i)
  }

  /** Attempt j failed in a way worth a retry, and is retried. */
  predicate Retried(c: Call, j: nat)
    requires IsCall(c) && j < ATTEMPTS
  {
    c.attempts[j].verdict.Retryable? && !c.attempts[j].gone && Retries(c, j + 1, BeginOf(c, j) + c.attempts[j].took)
  }

  /**
   The call ends as its last attempt did, and when: a failure worth a retry ends it exactly when none is
   allowed, or, after the pause, when the caller leaves.
   */
  predicate EndsAs(c: Call, last: nat, p: Previewed)
    requires IsCall(c) && last < ATTEMPTS
  {
    var a := c.attempts[last];
    var fails := a.verdict.Retryable? && !a.gone;
    && (p.outcome.Succeeded? <==> a.verdict.Ok?)
    && (p.outcome.Ended? <==> a.verdict.Terminal? || (a.verdict.Retryable? && a.gone))
    && (p.outcome.Failed? <==> fails && !Retried(c, last))
    && (p.outcome.Canceled? <==> fails && Retried(c, last) && c.leaves[last + 1])
    && p.end == BeginOf(c, last) + a.took + if p.outcome.Canceled? then Pause(last + 1) else 0
  }

  ghost predicate Means(c: Call, i: nat, p: Previewed, T: nat)
    requires IsCall(c)
  {
    && i < p.made <= ATTEMPTS && p.end <= c.start + c.budget + T
    && (forall j :: i <= j < p.made - 1 ==> Retried(c, j) && !c.leaves[j + 1])
    && EndsAs(c, p.made - 1, p)
  }

  lemma MeansEarlier(c: Call, i: nat, p: Previewed, T: nat)
    requires IsCall(c) && Means(c, i + 1, p, T) && i + 1 < ATTEMPTS && Retried(c, i) && !c.leaves[i + 1]
    ensures Means(c, i, p, T)
  {
  }

  lemma LastAttempt(c: Call, i: nat, T: nat)
    requires IsCall(c) && i < ATTEMPTS && c.attempts[i].took <= T && BeginOf(c, i) < c.start + c.budget
    requires !Retried(c, i) || c.leaves[i + 1]
    ensures Means(c, i, PreviewFrom(c, i, BeginOf(c, i)), T)
  {
    hide BeginOf;
  }

  lemma BeginNext(c: Call, i: nat)
    requires IsCall(c) && i + 1 < ATTEMPTS
    ensures BeginOf(c, i + 1) == BeginOf(c, i) + c.attempts[i].took + Pause(i + 1)
  {
  }

  lemma {:induction false} PreviewFromMeans(c: Call, i: nat, T: nat)
    requires IsCall(c) && i < ATTEMPTS && (forall j :: 0 <= j < ATTEMPTS ==> c.attempts[j].took <= T)
    requires BeginOf(c, i) < c.start + c.budget
    ensures Means(c, i, PreviewFrom(c, i, BeginOf(c, i)), T)
    decreases ATTEMPTS - i
  {
    hide BeginOf, Pause, Means, RetryAllowed;
    if Retried(c, i) && !c.leaves[i + 1] {
      BeginNext(c, i);
      PreviewNext(c, i, BeginOf(c, i));
      PreviewFromMeans(c, i + 1, T);
      MeansEarlier(c, i, PreviewFrom(c, i, BeginOf(c, i)), T);
    } else {
      LastAttempt(c, i, T);
    }
  }

  /**
   A preview makes one to three attempts, the first whatever the gate says; a retry follows a retryable
   failure exactly when the budget, the gate and the count allow it and the caller stays; and it all
   ends within the budget and one attempt.
   */
  lemma PreviewMeans(c: Call, T: nat)
    requires IsCall(c) && (forall j :: 0 <= j < ATTEMPTS ==> c.attempts[j].took <= T)
    ensures var p := PreviewFrom(c, 0, c.start);
            && 1 <= p.made <= ATTEMPTS && p.end <= c.start + c.budget + T
            && (forall j :: 0 <= j < p.made - 1 ==> Retried(c, j) && !c.leaves[j + 1])
            && EndsAs(c, p.made - 1, p)
  {
    PreviewFromMeans(c, 0, T);
  }
}
