/**
 The keyed rate limiter (client/route/ratelimit.go:8-89). A method reads the clock, then takes the lock:
 a step has both times, and only the times under the lock are in the order of the steps.
 */
module RateLimiters {
  import opened Sweeping

  const IDENTITY: int -> int := t => t

  /** allow: whether the action is due, and the times after stamping it. */
  function Allowed(next: map<Key, int>, key: Key, window: int, now: int): (map<Key, int>, bool) {
    if key in next && now < next[key] then (next, false)
    else
      var r := Insert(next, key, now + window, now, IDENTITY);
      (r.m, !r.declined)
  }

  /** reschedule: brings the next time forward to d from now, never back. */
  function Rescheduled(next: map<Key, int>, key: Key, d: int, now: int): map<Key, int> {
    if key !in next && |next| >= CAP then next
    else if key !in next || next[key] > now + d then next[key := now + d]
    else next
  }

  class RateLimiter {
    var next: map<Key, int>

    constructor ()
      ensures next == map[]
    {
      next := map[];
    }

    method Allow(key: Key, window: int, now: int) returns (ok: bool)
      modifies this
      ensures (next, ok) == Allowed(old(next), key, window, now)
    {
      if key in next {
        if now < next[key] {
          return false;
        }
      } else if |next| >= CAP {
        next := SweepExpired(next, now, IDENTITY);
        if |next| >= CAP {
          return false;
        }
      }
      next := next[key := now + window];
      ok := true;
    }

    method Reschedule(key: Key, d: int, now: int)
      modifies this
      ensures next == Rescheduled(old(next), key, d, now)
    {
      if key !in next && |next| >= CAP {
        return;
      }
      if key !in next || next[key] > now + d {
        next := next[key := now + d];
      }
    }
  }

  // ---------------------------------------------------------------- Runs

  /** A call: the clock it read, and when it had the lock. */
  datatype Event = Allow(key: Key, window: int, read: int, at: int) | Reschedule(key: Key, d: int, read: int, at: int)

  /** A step whose reading is at most lag old, with a window of at least w or a delay of at least d. */
  predicate Fits(e: Event, w: int, d: int, lag: int) {
    && e.at - lag <= e.read <= e.at
    && match e case Allow(_, window, _, _) => w <= window case Reschedule(_, delay, _, _) => d <= delay
  }

  /** Such steps, in the order they had the lock. */
  predicate Timely(from: int, events: seq<Event>, w: int, d: int, lag: int)
    decreases |events|
  {
    events == [] || (from <= events[0].at && Fits(events[0], w, d, lag) && Timely(events[0].at, events[1..], w, d, lag))
  }

  function After(next: map<Key, int>, e: Event): map<Key, int> {
    match e
    case Allow(key, window, read, _) => Allowed(next, key, window, read).0
    case Reschedule(key, d, read, _) => Rescheduled(next, key, d, read)
  }

  /** Whether a step grants key. */
  predicate Granted(next: map<Key, int>, e: Event, key: Key) {
    e.Allow? && e.key == key && Allowed(next, e.key, e.window, e.read).1
  }

  /** The times at which a run grants key, in order. */
  function Grants(next: map<Key, int>, events: seq<Event>, key: Key): seq<int>
    decreases |events|
  {
    if events == [] then []
    else (if Granted(next, events[0], key) then [events[0].at] else []) + Grants(After(next, events[0]), events[1..], key)
  }

  function Final(next: map<Key, int>, events: seq<Event>): map<Key, int>
    decreases |events|
  {
    if events == [] then next else Final(After(next, events[0]), events[1..])
  }

  /** However long the run and whatever its keys, the map stays within the cap. */
  lemma {:induction false} MapStaysBounded(next: map<Key, int>, events: seq<Event>)
    requires |next| <= CAP
    ensures |Final(next, events)| <= CAP
    decreases |events|
  {
    if events != [] {
      MapStaysBounded(After(next, events[0]), events[1..]);
    }
  }

  /** A refusal is a live window, or a cap's worth of other live windows. */
  lemma RefusalMeans(next: map<Key, int>, key: Key, window: int, now: int)
    requires |next| <= CAP
    ensures !Allowed(next, key, window, now).1 <==>
            (key in next && now < next[key])
            || (key !in next && |next| == CAP && forall k :: k in next ==> now < next[k])
  {
    if key !in next && |next| == CAP {
      var swept := Swept(next, now, IDENTITY);
      if k :| k in next && now >= next[k] {
        assert swept.Keys <= next.Keys - {k};
        SmallerSet(swept.Keys, next.Keys - {k});
        assert |swept| == |swept.Keys| && |next| == |next.Keys|;
      } else {
        assert swept == next;
      }
    }
  }

  /** A grant is stamped for the window; every other time kept, if it is still ahead. */
  lemma GrantStamps(next: map<Key, int>, key: Key, window: int, now: int)
    ensures var (after, ok) := Allowed(next, key, window, now);
            && (ok ==> key in after && after[key] == now + window)
            && (forall k :: k in after && !(ok && k == key) ==> k in next && after[k] == next[k])
            && (forall k :: k in next && now < next[k] && k != key ==> k in after)
  {
  }

  /**
   A reschedule brings a key's time forward and never back: from then on the key is granted when it would
   have been, or after the delay. A key without a time gets one, if there is room; the others keep theirs.
   */
  lemma RescheduleMeans(next: map<Key, int>, key: Key, d: int, now: int, window: int, later: int)
    ensures var after := Rescheduled(next, key, d, now);
            && (forall k :: k != key ==> (k in after <==> k in next) && (k in next ==> after[k] == next[k]))
            && (key in next ==> (Allowed(after, key, window, later).1 <==> Allowed(next, key, window, later).1 || later >= now + d))
            && (key !in next && |next| < CAP ==> (Allowed(after, key, window, later).1 <==> later >= now + d))
            && (key !in next && |next| >= CAP ==> after == next)
  {
  }

  // ---------------------------------------------------------------- How often a key is granted

  /** Until m after its grant at g, the key's own stamp holds it back. */
  ghost predicate HeldBack(next: map<Key, int>, key: Key, g: int, m: int, now: int) {
    now < g + m ==> key in next && g + m <= next[key]
  }

  /** Consecutive grants are at least m apart. */
  predicate Spaced(times: seq<int>, m: int) {
    forall i :: 0 < i < |times| ==> times[i - 1] + m <= times[i]
  }

  lemma HeldBackStays(next: map<Key, int>, e: Event, key: Key, g: int, w: int, d: int, lag: int, m: int, now: int)
    requires HeldBack(next, key, g, m, now) && g <= now <= e.at && m + lag <= w && m + lag <= d && Fits(e, w, d, lag)
    ensures Granted(next, e, key) ==> g + m <= e.at && HeldBack(After(next, e), key, e.at, m, e.at)
    ensures !Granted(next, e, key) ==> HeldBack(After(next, e), key, g, m, e.at)
  {
  }

  lemma FirstGrantHolds(next: map<Key, int>, e: Event, key: Key, w: int, d: int, lag: int, m: int)
    requires m + lag <= w && Granted(next, e, key) && Fits(e, w, d, lag)
    ensures HeldBack(After(next, e), key, e.at, m, e.at)
  {
  }

  /** After a grant at g, whatever follows is granted at least m later, and so on. */
  lemma {:induction false} GrantsAfter(next: map<Key, int>, events: seq<Event>, key: Key, g: int, w: int, d: int, lag: int, m: int, now: int)
    requires HeldBack(next, key, g, m, now) && g <= now && m + lag <= w && m + lag <= d && Timely(now, events, w, d, lag)
    ensures Spaced([g] + Grants(next, events, key), m)
    decreases |events|
  {
    hide HeldBack, Granted, After;
    if events != [] {
      var e := events[0];
      var rest := Grants(After(next, e), events[1..], key);
      HeldBackStays(next, e, key, g, w, d, lag, m, now);
      if Granted(next, e, key) {
        GrantsAfter(After(next, e), events[1..], key, e.at, w, d, lag, m, e.at);
        SpacedCons(g, [e.at] + rest, m);
        assert [g] + ([e.at] + rest) == [g] + Grants(next, events, key);
      } else {
        GrantsAfter(After(next, e), events[1..], key, g, w, d, lag, m, e.at);
        assert [] + rest == rest;
      }
    }
  }

  lemma SpacedCons(g: int, times: seq<int>, m: int)
    requires Spaced(times, m) && times != [] && g + m <= times[0]
    ensures Spaced([g] + times, m)
  {
    var all := [g] + times;
    forall i | 0 < i < |all| ensures all[i - 1] + m <= all[i] {
      assert all[i] == times[i - 1];
      if i > 1 { assert all[i - 1] == times[i - 2]; }
    }
  }

  lemma {:induction false} GrantsAreSpaced(next: map<Key, int>, events: seq<Event>, key: Key, w: int, d: int, lag: int, m: int, now: int)
    requires m + lag <= w && m + lag <= d && Timely(now, events, w, d, lag)
    ensures Spaced(Grants(next, events, key), m)
    decreases |events|
  {
    hide HeldBack, Granted, After;
    if events != [] {
      var e := events[0];
      var rest := Grants(After(next, e), events[1..], key);
      if Granted(next, e, key) {
        FirstGrantHolds(next, e, key, w, d, lag, m);
        GrantsAfter(After(next, e), events[1..], key, e.at, w, d, lag, m, e.at);
      } else {
        GrantsAreSpaced(After(next, e), events[1..], key, w, d, lag, m, e.at);
        assert [] + rest == rest;
      }
    }
  }

  /** The times within [from, from + span]. */
  function Within(times: seq<int>, from: int, span: int): seq<int> {
    if times == [] then []
    else (if from <= times[0] <= from + span then [times[0]] else []) + Within(times[1..], from, span)
  }

  predicate AllBetween(times: seq<int>, lo: int, hi: int) {
    forall i :: 0 <= i < |times| ==> lo <= times[i] <= hi
  }

  lemma SpacedTail(times: seq<int>, m: int)
    requires Spaced(times, m) && |times| >= 2
    ensures Spaced(times[1..], m) && times[0] + m <= times[1]
  {
    var tail := times[1..];
    forall i | 0 < i < |tail| ensures tail[i - 1] + m <= tail[i] {
      assert tail[i - 1] == times[i] && tail[i] == times[i + 1];
    }
    assert times[1 - 1] + m <= times[1];
  }

  /** The filtered times keep their spacing, and none comes before the first. */
  lemma {:induction false} WithinIsSpaced(times: seq<int>, m: int, from: int, span: int)
    requires m > 0 && Spaced(times, m)
    ensures var inside := Within(times, from, span);
            && Spaced(inside, m) && AllBetween(inside, from, from + span)
            && (inside != [] ==> times != [] && times[0] <= inside[0])
  {
    hide Spaced;
    if times == [] {
      NoneSpaced(m);
    } else if |times| == 1 {
      var rest := Within(times[1..], from, span);
      assert times[1..] == [] && rest == [];
      assert [times[0]] + rest == [times[0]] && [] + rest == [];
      OneSpaced(times[0], m);
      NoneSpaced(m);
    } else {
      SpacedTail(times, m);
      WithinIsSpaced(times[1..], m, from, span);
      var rest := Within(times[1..], from, span);
      assert [] + rest == rest;
      if rest == [] {
        OneSpaced(times[0], m);
        assert [times[0]] + rest == [times[0]];
      } else {
        SpacedCons(times[0], rest, m);
      }
    }
  }

  lemma NoneSpaced(m: int)
    ensures Spaced([], m)
  {
  }

  lemma OneSpaced(t: int, m: int)
    ensures Spaced([t], m)
  {
  }

  /** n spaced times take at least (n - 1) * m. */
  lemma {:induction false} SpacedTakesTime(times: seq<int>, m: int)
    requires m > 0 && times != [] && Spaced(times, m)
    ensures (|times| - 1) * m <= times[|times| - 1] - times[0]
  {
    if |times| > 1 {
      var front := times[..|times| - 1];
      assert forall i :: 0 <= i < |front| ==> front[i] == times[i];
      SpacedTakesTime(front, m);
      assert (|times| - 1) * m == (|front| - 1) * m + m;
    }
  }

  lemma MulMono(a: int, b: int, m: int)
    requires a <= b && m >= 0
    ensures a * m <= b * m
  {
    assert (b - a) * m >= 0;
  }

  lemma FewFit(n: nat, m: int, span: int)
    requires m > 0 && span >= 0 && n * m <= span
    ensures n <= span / m
  {
    var q := span / m;
    assert span < (q + 1) * m;
    if q + 1 <= n {
      MulMono(q + 1, n, m);
    }
  }

  /** What the windows, the delays and the age of the readings leave between two grants. */
  function Spacing(w: int, d: int, lag: int): int { (if w <= d then w else d) - lag }

  /**
   The bound the limiter exists for: in any span of length L one key is granted at most
   L div (min(w, d) - lag) + 1 times, whatever other keys do, however it is swept, refused or
   rescheduled, and in whatever order the clock readings arrive, none more than lag old under the lock.
   */
  lemma GrantsAreRare(next: map<Key, int>, events: seq<Event>, key: Key, w: int, d: int, lag: nat, now: int, from: int, span: nat)
    requires Spacing(w, d, lag) > 0 && Timely(now, events, w, d, lag)
    ensures |Within(Grants(next, events, key), from, span)| <= span / Spacing(w, d, lag) + 1
  {
    hide Timely, Grants, Spaced;
    var m := Spacing(w, d, lag);
    var times := Grants(next, events, key);
    GrantsAreSpaced(next, events, key, w, d, lag, m, now);
    WithinIsSpaced(times, m, from, span);
    var inside := Within(times, from, span);
    if inside != [] {
      SpacedTakesTime(inside, m);
      FewFit(|inside| - 1, m, span);
    }
  }

  // ---------------------------------------------------------------- The bound is attained

  /** n asks for one key, each exactly when the last window ends. */
  function Eager(key: Key, m: int, at: int, n: nat): seq<Event>
    decreases n
  {
    if n == 0 then [] else [Allow(key, m, at, at)] + Eager(key, m, at + m, n - 1)
  }

  /** An ask at the end of the last window is granted and stamps the next window's end. */
  lemma EagerStep(next: map<Key, int>, key: Key, m: int, at: int)
    requires m > 0 && (key in next ==> next[key] <= at) && (key !in next ==> |next| < CAP)
    ensures Granted(next, Allow(key, m, at, at), key)
    ensures key in After(next, Allow(key, m, at, at)) && After(next, Allow(key, m, at, at))[key] == at + m
  {
  }

  /** n times, m apart, from at on. */
  predicate EveryPeriod(times: seq<int>, at: int, m: int, n: nat) {
    |times| == n && forall i :: 0 <= i < n ==> times[i] == at + i * m
  }

  lemma EveryPeriodCons(times: seq<int>, at: int, m: int, n: nat)
    requires EveryPeriod(times, at + m, m, n)
    ensures EveryPeriod([at] + times, at, m, n + 1)
  {
    var all := [at] + times;
    forall i | 0 <= i < n + 1 ensures all[i] == at + i * m {
      if i > 0 {
        assert all[i] == times[i - 1] == at + m + (i - 1) * m;
        assert (i - 1) * m + m == i * m;
      }
    }
  }

  /** The bound cannot be lowered: n eager asks get n grants, one every window. */
  lemma {:induction false} EagerGrants(next: map<Key, int>, key: Key, m: int, at: int, n: nat)
    requires m > 0 && (key in next ==> next[key] <= at) && (key !in next ==> |next| < CAP)
    ensures Timely(at, Eager(key, m, at, n), m, m, 0)
    ensures EveryPeriod(Grants(next, Eager(key, m, at, n), key), at, m, n)
    decreases n
  {
    hide Granted, After, EveryPeriod;
    if n == 0 {
      assert EveryPeriod([], at, m, 0) by { NoPeriods(at, m); }
    } else {
      var e := Allow(key, m, at, at);
      var events := Eager(key, m, at, n);
      assert events[0] == e && events[1..] == Eager(key, m, at + m, n - 1);
      EagerStep(next, key, m, at);
      EagerGrants(After(next, e), key, m, at + m, n - 1);
      TimelyEarlier(at, at + m, events[1..], m);
      EveryPeriodCons(Grants(After(next, e), events[1..], key), at, m, n - 1);
    }
  }

  lemma NoPeriods(at: int, m: int)
    ensures EveryPeriod([], at, m, 0)
  {
  }

  lemma TimelyEarlier(from: int, later: int, events: seq<Event>, m: int)
    requires from <= later && Timely(later, events, m, m, 0)
    ensures Timely(from, events, m, m, 0)
  {
  }

  // ---------------------------------------------------------------- One more step

  /** A run ends no later than now. */
  predicate EndsBy(from: int, events: seq<Event>, now: int) {
    if events == [] then from <= now else events[|events| - 1].at <= now
  }

  lemma {:induction false} FinalMore(next: map<Key, int>, events: seq<Event>, e: Event)
    ensures Final(next, events + [e]) == After(Final(next, events), e)
    decreases |events|
  {
    hide After;
    var all := events + [e];
    if events == [] {
      assert all[1..] == [] && Final(After(next, e), []) == After(next, e);
    } else {
      assert all[1..] == events[1..] + [e];
      FinalMore(After(next, events[0]), events[1..], e);
    }
  }

  lemma Associates(a: seq<int>, b: seq<int>, c: seq<int>)
    ensures (a + b) + c == a + (b + c)
  {
  }

  /** The step e, taken after a run, grants key or not as its table then says. */
  lemma {:induction false} OneMore(next: map<Key, int>, events: seq<Event>, e: Event, key: Key)
    ensures Final(next, events + [e]) == After(Final(next, events), e)
    ensures Grants(next, events + [e], key) == Grants(next, events, key) + if Granted(Final(next, events), e, key) then [e.at] else []
    decreases |events|
  {
    hide After, Granted;
    FinalMore(next, events, e);
    var all := events + [e];
    var last := if Granted(Final(next, events), e, key) then [e.at] else [];
    if events == [] {
      assert all[1..] == [];
      assert Grants(After(next, e), [], key) == [];
    } else {
      assert all[1..] == events[1..] + [e];
      var then1 := After(next, events[0]);
      OneMore(then1, events[1..], e, key);
      var first := if Granted(next, events[0], key) then [events[0].at] else [];
      assert Final(next, events) == Final(then1, events[1..]);
      hide Final;
      Associates(first, Grants(then1, events[1..], key), last);
    }
  }

  lemma {:induction false} TimelyMore(from: int, events: seq<Event>, e: Event, w: int, d: int, lag: int)
    requires Timely(from, events, w, d, lag) && EndsBy(from, events, e.at) && Fits(e, w, d, lag)
    ensures Timely(from, events + [e], w, d, lag)
    decreases |events|
  {
    hide Fits;
    var all := events + [e];
    if events == [] {
      assert all[1..] == [];
    } else {
      assert all[1..] == events[1..] + [e];
      TimelyMore(events[0].at, events[1..], e, w, d, lag);
    }
  }
}
