/** What a caller can rely on after a walk: whose answer it is, and that nobody else's reached it. */
module WalkSafety {
  import opened Wrappers
  import opened Attempts
  import opened Walking
  import WalkOrder

  // ---------------------------------------------------------------- Streaming: one source

  /** Nothing has been delivered yet. */
  ghost predicate Silent(s: State) { s.w.delivered == [] }

  /**
   All that was delivered came from the last attempt: none was started after its first frame. It is the
   leading payloads of that attempt's stream, and all of them, the final one included and signed for,
   when the attempt succeeded.
   */
  ghost predicate FromTheLast(env: Env, s: State, result: Result<Output, Failure>) {
    s.w.delivered != [] || result.Success? ==>
      s.attempts != [] &&
      var a := s.attempts[|s.attempts| - 1];
      && a.result == result
      && exists line, t, began :: IsLineOf(env, line, a, t, s.w)
                                  && EndsWell(env, line, StreamOf(env, line), EndOf(env, line), [], began, s.w.delivered, t)
  }

  /** The line of attempt a, that ended as t, when the walk was as w. */
  ghost predicate IsLineOf(env: Env, line: Line, a: Attempted, t: Tried, w: World) {
    line.call == a.call && line.provider == a.provider && Streams(env, line) && t.w == w && t.result == a.result
  }

  /** One attempt from silence: silent again, or all from it. */
  lemma TriesFromSilence(env: Env, s: State, i: nat, p: Provider)
    requires Silent(s) && Tame(env.onFrame)
    ensures var v := Tries(env, Streaming, s, i, p);
            && FromTheLast(env, v.s, v.result)
            && (v.retry ==> Silent(v.s))
            && (v.result.Failure? && IsKeyMismatch(v.result.error) ==> Silent(v.s))
  {
    hide Tame, StaleAt, EndsWell, StreamOnce, Streams;
    var t := StreamOnce(env, s.w, p);
    var v := Tries(env, Streaming, s, i, p);
    assert Attempt(env, Streaming, s.w, p) == t;
    var line, mine := StreamOnceDelivers(env, s.w, p);
    StreamOnceStale(env, s.w, p);
    var a := v.s.attempts[|v.s.attempts| - 1];
    assert a.candidate == i && a.provider == p && a.call == s.w.calls && v.s.w == t.w && v.result == a.result == t.result;
    assert mine == t.w.delivered;
    if t.w.delivered != [] || t.result.Success? {
      assert IsLineOf(env, line, a, t, v.s.w);
    }
  }

  lemma RekeyingFromSilence(env: Env, s: State, i: nat, p: Provider)
    requires Silent(s) && Tame(env.onFrame)
    ensures var v := AttemptRekeying(env, Streaming, s, i, p, false);
            FromTheLast(env, v.s, v.result) && (v.retry && v.result.Failure? ==> Silent(v.s))
  {
    hide Tame, FromTheLast, Tries;
    var v := Tries(env, Streaming, s, i, p);
    TriesFromSilence(env, s, i, p);
    if v.result.Failure? && IsKeyMismatch(v.result.error) {
      if env.canceled(v.s.w.calls, Mismatched) || Exhausted(env, v.s) {
      } else {
        var (s1, renewed) := Rekeyed(env, v.s, i, p);
        if renewed.Some? {
          TriesFromSilence(env, s1, i, renewed.value);
        } else {
          SilenceIsFromTheLast(env, s1, v.result);
        }
      }
    }
  }

  lemma SilenceIsFromTheLast(env: Env, s: State, result: Result<Output, Failure>)
    requires Silent(s) && result.Failure?
    ensures FromTheLast(env, s, result)
  {
  }

  lemma {:induction false} WalkFromSilence(env: Env, s: State, i: nat)
    requires i <= env.candidates && Silent(s) && Tame(env.onFrame)
    ensures var o := WalkFrom(env, Streaming, s, i); FromTheLast(env, o.s, o.result)
    decreases env.candidates - i
  {
    hide Tame, FromTheLast, AttemptRekeying;
    var o := WalkFrom(env, Streaming, s, i);
    if i == env.candidates {
      SilenceIsFromTheLast(env, o.s, o.result);
    } else {
      var (s1, r) := Prepare(env, s, i);
      match r {
        case Failure(f) =>
          if env.canceled(s1.w.calls, Preparing) || Exhausted(env, s1) {
            SilenceIsFromTheLast(env, o.s, o.result);
          } else {
            WalkFromSilence(env, Recorded(s1, MATERIALIZE, Resolve(f)), i + 1);
          }
        case Success(p) =>
          RekeyingFromSilence(env, s1, i, p);
          var v := AttemptRekeying(env, Streaming, s1, i, p, false);
          if v.result.Failure? && v.retry {
            if env.canceled(v.s.w.calls, FallingBack) || Exhausted(env, v.s) {
              SilenceIsFromTheLast(env, o.s, o.result);
            } else {
              WalkFromSilence(env, v.s, i + 1);
            }
          }
      }
    }
  }

  /** One source, for every run with these surroundings. */
  ghost predicate OneSource(env: Env, now: int) {
    var o := Walk(env, Streaming, now);
    FromTheLast(env, o.s, o.result)
  }

  // ---------------------------------------------------------------- Streaming: exactly which handlers

  const SEALED: Bytes := "frame"
  const REFUSING := Provider("old key", "signer", "", false)
  const RENEWED := Provider("new key", "signer", "", false)

  /** A stream of n payloads that comes without delay. */
  function Payloads(n: nat): seq<Timed<Bytes>> { seq(n, i => Timed(0, SEALED)) }

  function Streaming200(n: nat): Reply {
    Answer(200, "", Missing, None, true, Payloads(n), Timed(0, Eof), false, None)
  }

  /** How long the handler takes over the frames of h from frame n on. */
  ghost function HandlingTime(handler: Handler, h: seq<Bytes>, n: nat): nat
    decreases |h| - n
  {
    if n >= |h| then 0 else handler(h[..n + 1]).dur + HandlingTime(handler, h, n + 1)
  }

  /** One provider whose stream opens to h, and whose key changes when it is re-read, with time to do so. */
  ghost function Telling(handler: Handler, h: seq<Bytes>): Env {
    Env(1, true, HandlingTime(handler, h, 0) + 1, false, false,
        (k, i, left) => Timed(0, Success(REFUSING)),
        (k, i, stale, left) => Timed(0, Success(RENEWED)),
        (k, site) => false,
        (k, p) => Some(""),
        (k, p, envelope) => Timed(0, Streaming200(|h|)),
        data => Some(SEALED), data => false, frame => Some(false),
        (binds, frame) => true,
        (binds: bool, opener: Bytes, n: nat, frame: Bytes) => if n < |h| then Some(h[n]) else None,
        (binds, frame) => None, envelope => true, frame => true,
        (envelope, frames) => None, (envelope, frame) => "",
        (k, p, resKey) => Timed(0, None), (text, sig, signer) => false,
        handler, (got, pin) => true, (k, id) => None)
  }

  /** The frames are those of h so far, all delivered by this call. */
  ghost predicate Told(ds: seq<Delivery>, k: nat, h: seq<Bytes>) {
    Plains(ds) == h && forall j :: 0 <= j < |ds| ==> ds[j].call == k
  }

  /** The stream gets to the end of h, and stops with what the handler said to it. */
  lemma {:induction false} PumpTells(handler: Handler, h: seq<Bytes>, line: Line, w: World, st: Pumping, n: nat)
    requires StaleAt(handler, h) && n < |h| && st.index == n
    requires Told(w.delivered, line.call, h[..n])
    ensures var t := Pump(Telling(handler, h), line, Payloads(|h|)[n..], Timed(0, Eof), w, st);
            && t.result == Result.Failure(handler(h).value.value) && Told(t.w.delivered, line.call, h)
            && t.w.calls == w.calls && t.w.now == w.now + HandlingTime(handler, h, n)
    decreases |h| - n
  {
    var env := Telling(handler, h);
    var events := Payloads(|h|)[n..];
    var opener := if st.opener.None? then SEALED else st.opener.value;
    var more := w.delivered + [Delivery(line.call, SEALED, h[n])];
    assert events[0] == Timed(0, SEALED) && events[1..] == Payloads(|h|)[n + 1..];
    assert Plains(more) == h[..n + 1];
    var w1 := Later(w, 0);
    assert w1 == w;
    assert Take(env, line, w1, st, SEALED) == Deliver(env, line, w1, st, opener, SEALED, h[n]);
    if n + 1 < |h| {
      assert handler(h[..n + 1]).value.None?;
      var going := Take(env, line, w1, st, SEALED);
      PumpTells(handler, h, line, going.w, going.st, n + 1);
    } else {
      assert h[..n + 1] == h;
      assert HandlingTime(handler, h, n + 1) == 0;
    }
  }

  lemma FirstAttemptTells(handler: Handler, h: seq<Bytes>, w: World)
    requires StaleAt(handler, h) && w.delivered == []
    ensures var t := StreamOnce(Telling(handler, h), w, REFUSING);
            && t.result == Result.Failure(handler(h).value.value) && Told(t.w.delivered, w.calls, h)
            && t.w.calls == w.calls + 1 && t.w.now == w.now + HandlingTime(handler, h, 0)
  {
    hide Pump, HandlingTime;
    var w1 := Later(w.(calls := w.calls + 1), 0);
    assert Payloads(|h|)[0..] == Payloads(|h|) && Plains([]) == h[..0];
    PumpTells(handler, h, Line(w.calls, REFUSING, "", ""), w1, IDLE, 0);
  }

  /** A second attempt keeps what the first delivered, so not all is from the last. */
  lemma NotFromTheLast(env: Env, s: State, result: Result<Output, Failure>, k: nat)
    requires s.attempts != [] && s.attempts[|s.attempts| - 1].call != k
    requires s.w.delivered != [] && s.w.delivered[0].call == k
    ensures !FromTheLast(env, s, result)
  {
  }

  lemma WalkOfOne(env: Env, mode: Mode, s: State)
    requires env.candidates == 1 && Prepare(env, s, 0).1.Success?
    ensures WalkFrom(env, mode, s, 0).s == AttemptRekeying(env, mode, Prepare(env, s, 0).0, 0, Prepare(env, s, 0).1.value, false).s
  {
    hide AttemptRekeying, Prepare;
    var v := AttemptRekeying(env, mode, Prepare(env, s, 0).0, 0, Prepare(env, s, 0).1.value, false);
    assert WalkFrom(env, mode, v.s, 1) == GaveUp(v.s, RanOut);
  }

  /** An attempt keeps what had been delivered before it, and is noted as the last. */
  lemma AttemptKeepsDelivered(env: Env, s: State, p: Provider)
    requires s.w.delivered != []
    ensures var v := AttemptRekeying(env, Streaming, s, 0, p, true);
            && v.s.w.delivered != [] && v.s.w.delivered[0] == s.w.delivered[0]
            && v.s.attempts != [] && v.s.attempts[|v.s.attempts| - 1].call == s.w.calls
  {
    hide StreamOnce, Streams, EndsWell;
    var line, mine := StreamOnceDelivers(env, s.w, p);
    var v := Tries(env, Streaming, s, 0, p);
    assert v.s.w.delivered == s.w.delivered + mine;
  }

  /** After the first attempt the key is re-read, renewed, and tried. */
  lemma TellingRekeys(handler: Handler, h: seq<Bytes>, s1: State) returns (s2: State)
    requires StaleAt(handler, h) && s1.spent == 0 && s1.w.delivered == []
    ensures var env := Telling(handler, h);
            && AttemptRekeying(env, Streaming, s1, 0, REFUSING, false) == AttemptRekeying(env, Streaming, s2, 0, RENEWED, true)
            && Told(s2.w.delivered, s1.w.calls, h) && s2.w.calls == s1.w.calls + 2
  {
    hide StreamOnce, HandlingTime, Told;
    var env := Telling(handler, h);
    FirstAttemptTells(handler, h, s1.w);
    var v := Tries(env, Streaming, s1, 0, REFUSING);
    assert v.result.Failure? && IsKeyMismatch(v.result.error) && !Exhausted(env, v.s);
    var rekeyed := Rekeyed(env, v.s, 0, REFUSING);
    assert rekeyed.1 == Some(RENEWED);
    s2 := rekeyed.0;
  }

  /** A handler that answers the last frame of some h with a stale-key 409 is sent a second provider's frames too. */
  lemma SecondAttemptFollows(handler: Handler, h: seq<Bytes>, now: int)
    requires StaleAt(handler, h)
    ensures !OneSource(Telling(handler, h), now)
  {
    hide AttemptRekeying, FromTheLast;
    var env := Telling(handler, h);
    var (s1, r) := Prepare(env, Start(now), 0);
    assert r == Success(REFUSING) && s1.spent == 0 && s1.w.calls == 1;
    var s2 := TellingRekeys(handler, h, s1);
    assert |s2.w.delivered| == |h| > 0 by { assert Plains(s2.w.delivered) == h; }
    AttemptKeepsDelivered(env, s2, RENEWED);
    WalkOfOne(env, Streaming, Start(now));
    var o := Walk(env, Streaming, now);
    NotFromTheLast(env, o.s, o.result, 1);
  }

  /**
   Whatever the providers, the list, the clock and the caller do, a streaming caller only ever sees the
   frames of one attempt, the last, exactly when its handler never answers a frame with a stale-key 409
   of its own.
   */
  lemma OneSourceMeans(handler: Handler)
    ensures (forall env: Env, now: int :: env.onFrame == handler ==> OneSource(env, now)) <==> Tame(handler)
  {
    hide FromTheLast;
    if Tame(handler) {
      forall env: Env, now: int | env.onFrame == handler ensures OneSource(env, now) {
        WalkFromSilence(env, Start(now), 0);
      }
    } else {
      var h :| StaleAt(handler, h);
      SecondAttemptFollows(handler, h, 0);
      assert Telling(handler, h).onFrame == handler;
    }
  }

  // ---------------------------------------------------------------- Buffered

  /** Made by a buffered attempt that returned text: its own reply opens to it, and is signed for. */
  lemma MadeMeans(env: Env, a: Attempted, text: Bytes)
    requires WalkOrder.Made(env, Buffered, a) && a.result == Success(Plain(text))
    ensures exists envelope, reply :: AnsweredBy(env, a.call, a.provider, envelope, reply)
                                      && Genuine(env, a.call, a.provider, envelope, reply, text)
  {
    hide CompleteOnce, Genuine;
    var w: World :| w.calls == a.call && Attempt(env, Buffered, w, a.provider).result == a.result;
    CompleteOnceMeans(env, w, a.provider, text);
  }

  lemma MadeHas(env: Env, mode: Mode, a: Attempted)
    requires WalkOrder.Made(env, mode, a)
    ensures exists w: World :: w.calls == a.call && Attempt(env, mode, w, a.provider).result == a.result
  {
  }

  /** A buffered caller gets the text of the last attempt's reply, vouched for by the provider it was sealed to, and nothing else. */
  lemma CompleteReturnsGenuine(env: Env, now: int)
    ensures var o := Walk(env, Buffered, now);
            o.result.Success? ==>
              o.result.value.Plain? && o.s.attempts != [] &&
              var a := o.s.attempts[|o.s.attempts| - 1];
              && WalkOrder.SealedToListed(env, o.s.asked, o.s.attempts, |o.s.attempts| - 1)
              && exists envelope, reply :: AnsweredBy(env, a.call, a.provider, envelope, reply)
                                           && Genuine(env, a.call, a.provider, envelope, reply, o.result.value.text)
  {
    hide Genuine, WalkOrder.Made, WalkOrder.SealedToListed, WalkOrder.History, WalkOrder.LeavesOpen, Walk;
    var o := Walk(env, Buffered, now);
    WalkOrder.WalkIsOrdered(env, Buffered, now);
    WalkOrder.WalkSealsToListed(env, Buffered, now);
    if o.result.Success? {
      var a := o.s.attempts[|o.s.attempts| - 1];
      MadeHas(env, Buffered, a);
      var w: World :| w.calls == a.call && Attempt(env, Buffered, w, a.provider).result == a.result;
      CompleteOnceFrame(env, w, a.provider);
      MadeMeans(env, o.s.attempts[|o.s.attempts| - 1], o.result.value.text);
    }
  }

  // ---------------------------------------------------------------- Asynchronous submit

  /** No answer so far was a 2xx. */
  ghost predicate NoJob(s: State) { s.w.accepted == [] }

  /** At most one answer was a 2xx, and then it was the last attempt's, and decided the walk. */
  ghost predicate OneJob(s: State, result: Result<Output, Failure>) {
    && (result.Success? ==> s.w.accepted != [])
    && (s.w.accepted != [] ==>
          && s.attempts != []
          && s.w.accepted == [s.attempts[|s.attempts| - 1].call]
          && s.attempts[|s.attempts| - 1].result == result)
  }

  lemma TriesForJob(env: Env, s: State, i: nat, p: Provider)
    requires NoJob(s)
    ensures var v := Tries(env, Async, s, i, p);
            && OneJob(v.s, v.result)
            && (v.retry || (v.result.Failure? && IsKeyMismatch(v.result.error)) ==> NoJob(v.s))
  {
    hide SubmitOnce, AnsweredBy, NamesTheProvider;
    SubmitOnceMeans(env, s.w, p);
    var t := SubmitOnce(env, s.w, p);
    var v := Tries(env, Async, s, i, p);
    assert Attempt(env, Async, s.w, p) == t;
    var a := v.s.attempts[|v.s.attempts| - 1];
    assert a.call == s.w.calls && a.result == t.result && v.s.w == t.w;
  }

  lemma RekeyingForJob(env: Env, s: State, i: nat, p: Provider)
    requires NoJob(s)
    ensures var v := AttemptRekeying(env, Async, s, i, p, false);
            OneJob(v.s, v.result) && (v.retry && v.result.Failure? ==> NoJob(v.s))
  {
    hide Tries;
    var v := Tries(env, Async, s, i, p);
    TriesForJob(env, s, i, p);
    if v.result.Failure? && IsKeyMismatch(v.result.error) && !env.canceled(v.s.w.calls, Mismatched) && !Exhausted(env, v.s) {
      var (s1, renewed) := Rekeyed(env, v.s, i, p);
      if renewed.Some? {
        TriesForJob(env, s1, i, renewed.value);
      }
    }
  }

  lemma {:induction false} WalkForJob(env: Env, s: State, i: nat)
    requires i <= env.candidates && NoJob(s)
    ensures var o := WalkFrom(env, Async, s, i); OneJob(o.s, o.result)
    decreases env.candidates - i
  {
    hide AttemptRekeying;
    if i < env.candidates {
      var (s1, r) := Prepare(env, s, i);
      match r {
        case Failure(f) =>
          WalkForJob(env, Recorded(s1, MATERIALIZE, Resolve(f)), i + 1);
        case Success(p) =>
          RekeyingForJob(env, s1, i, p);
          var v := AttemptRekeying(env, Async, s1, i, p, false);
          if v.result.Failure? && v.retry {
            WalkForJob(env, v.s, i + 1);
          }
      }
    }
  }

  /** A submit makes one job at most, stops at it, and hands its id out only if its answer names the provider it was sealed to. */
  lemma SubmitMakesOneJob(env: Env, now: int)
    ensures var o := Walk(env, Async, now);
            && OneJob(o.s, o.result)
            && (o.result.Success? ==>
                  var a := o.s.attempts[|o.s.attempts| - 1];
                  && WalkOrder.SealedToListed(env, o.s.asked, o.s.attempts, |o.s.attempts| - 1) && o.result.value.Job?
                  && SubmitsAs(env, a.call, a.provider, o.result.value.status, o.result.value.fields))
  {
    hide Walk, SubmitsAs, WalkOrder.SealedToListed, WalkOrder.Made, WalkOrder.History, WalkOrder.LeavesOpen, SubmitOnce;
    var o := Walk(env, Async, now);
    WalkForJobs(env, now);
    WalkOrder.WalkIsOrdered(env, Async, now);
    WalkOrder.WalkSealsToListed(env, Async, now);
    if o.result.Success? {
      var a := o.s.attempts[|o.s.attempts| - 1];
      MadeHas(env, Async, a);
      var w: World :| w.calls == a.call && Attempt(env, Async, w, a.provider).result == a.result;
      SubmitOnceMeans(env, w, a.provider);
      assert SubmitOnce(env, w, a.provider).result == Success(Job(o.result.value.status, o.result.value.fields));
    }
  }

  lemma WalkForJobs(env: Env, now: int)
    ensures OneJob(Walk(env, Async, now).s, Walk(env, Async, now).result)
  {
    WalkForJob(env, Start(now), 0);
  }
}
