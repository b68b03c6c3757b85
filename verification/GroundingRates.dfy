/**
 What the two limiters are there for (client/route/route.go:1146-1188, 1465-1490): however many candidates
 are materialized, and however the router spells and repeats them, one provider costs few live reads of the
 chain and one endpoint few verifications of its quote past the cache.
 */
module GroundingRates {
  import opened Wrappers
  import opened Grounding
  import RL = RateLimiters

  /** A request to materialize: the candidate, and the key it was just rejected with if any. */
  datatype Request = Request(cand: Candidate, stale: Option<string>)

  const UNUSED := Limiter(map[], [], [])
  const START := State(0, UNUSED, UNUSED, [])

  function RunAll(env: Env, s: State, requests: seq<Request>): State
    decreases |requests|
  {
    if requests == [] then s
    else RunAll(env, Materializing(env, s, requests[0].cand, requests[0].stale).s, requests[1..])
  }

  /** When it was done for this key, in order. */
  function Times(done: seq<Live>, key: string): seq<int> {
    if done == [] then []
    else
      var last := done[|done| - 1];
      Times(done[..|done| - 1], key) + if last.key == key then [last.at] else []
  }

  /** The clock does not go back between calls. */
  ghost predicate Ticks(env: Env) { forall j: nat, k: nat :: j <= k ==> env.now(j) <= env.now(k) }

  /** The table is what the limiter makes of all it was asked, and what was done is what it granted. */
  ghost predicate Sound(l: Limiter, w: int, from: int, now: int) {
    && l.next == RL.Final(map[], l.asks)
    && RL.Timely(from, l.asks, w, FAILURE_BACKOFF, 0) && RL.EndsBy(from, l.asks, now)
    && forall key :: Times(l.done, key) == RL.Grants(map[], l.asks, key)
  }

  lemma SoundLater(l: Limiter, w: int, from: int, now: int, later: int)
    requires Sound(l, w, from, now) && now <= later
    ensures Sound(l, w, from, later)
  {
    hide Times, RL.Grants, RL.Final, RL.Timely;
  }

  /** An ask, and what is done on its word. */
  lemma AskSound(l: Limiter, key: string, window: int, w: int, from: int, now: int)
    requires Sound(l, w, from, now) && w <= window
    ensures var (asked, ok) := Ask(l, key, window, now);
            Sound(if ok then Done(asked, key, now) else asked, w, from, now)
  {
    hide RL.Timely, RL.After, RL.Allowed;
    var e := RL.Allow(key, window, now, now);
    var (asked, ok) := Ask(l, key, window, now);
    var after := if ok then Done(asked, key, now) else asked;
    RL.TimelyMore(from, l.asks, e, w, FAILURE_BACKOFF, 0);
    forall k ensures Times(after.done, k) == RL.Grants(map[], after.asks, k) && after.next == RL.Final(map[], after.asks) {
      RL.OneMore(map[], l.asks, e, k);
      AllowMeans(l.next, key, window, now, k);
      assert (l.done + [Live(key, now)])[..|l.done|] == l.done;
    }
    assert after.next == RL.Final(map[], after.asks) by {
      RL.OneMore(map[], l.asks, e, key);
      AllowMeans(l.next, key, window, now, key);
    }
  }

  lemma AllowMeans(next: map<string, int>, key: string, window: int, now: int, k: string)
    ensures var e := RL.Allow(key, window, now, now);
            && RL.After(next, e) == RL.Allowed(next, key, window, now).0
            && (RL.Granted(next, e, k) <==> k == key && RL.Allowed(next, key, window, now).1)
  {
  }

  lemma BackedOffSound(l: Limiter, key: string, w: int, from: int, now: int)
    requires Sound(l, w, from, now)
    ensures Sound(BackedOff(l, key, now), w, from, now)
  {
    hide RL.Timely, RL.Final, RL.Grants, Times;
    var e := RL.Reschedule(key, FAILURE_BACKOFF, now, now);
    RL.TimelyMore(from, l.asks, e, w, FAILURE_BACKOFF, 0);
    RL.OneMore(map[], l.asks, e, key);
    forall k ensures Times(l.done, k) == RL.Grants(map[], l.asks + [e], k) {
      RL.OneMore(map[], l.asks, e, k);
      assert RL.Grants(map[], l.asks, k) + [] == RL.Grants(map[], l.asks, k);
    }
  }

  ghost predicate StateSound(env: Env, s: State, from: int) {
    && Sound(s.revalidate, REVALIDATE_WINDOW, from, env.now(s.calls))
    && Sound(s.reverify, QuoteWindow(env), from, env.now(s.calls))
  }

  /** Calls only move the clock on. */
  lemma CalledSound(env: Env, s: State, from: int, n: nat)
    requires Ticks(env) && StateSound(env, s, from)
    ensures StateSound(env, s.(calls := s.calls + n), from)
  {
    hide Sound;
    SoundLater(s.revalidate, REVALIDATE_WINDOW, from, env.now(s.calls), env.now(s.calls + n));
    SoundLater(s.reverify, QuoteWindow(env), from, env.now(s.calls), env.now(s.calls + n));
  }

  /** A grounding notes a live read exactly when it makes one. */
  lemma GroundKeeps(env: Env, s: State, address: string, signer: string, from: int)
    requires Ticks(env) && StateSound(env, s, from)
    ensures var (s1, g) := Ground(env, s, address, signer);
            && StateSound(env, s1, from)
            && (g.revalidated <==> s1.revalidate.done != s.revalidate.done)
            && (g.revalidated ==> s1.revalidate.done == s.revalidate.done + [Live(env.providerKey(address), env.now(s.calls + 1))]
                                  && g.basis == env.readLive(s.calls + 2, address))
            && (!g.revalidated ==> g.basis == env.read(s.calls, address))
  {
    hide Sound, RL.Allowed, RL.Rescheduled, Judged, Agrees;
    var (s1, g) := Ground(env, s, address, signer);
    var key, now := env.providerKey(address), env.now(s.calls + 1);
    JudgedBasis(env, signer);
    CalledSound(env, s, from, 1);
    CalledSound(env, s, from, 2);
    CalledSound(env, s, from, 3);
    AskSound(s.revalidate, key, REVALIDATE_WINDOW, REVALIDATE_WINDOW, from, now);
    var (asked, ok) := Ask(s.revalidate, key, REVALIDATE_WINDOW, now);
    var used := if ok then Done(asked, key, now) else asked;
    SoundLater(used, REVALIDATE_WINDOW, from, now, env.now(s.calls + 2));
    SoundLater(used, REVALIDATE_WINDOW, from, now, env.now(s.calls + 3));
    BackedOffSound(used, key, REVALIDATE_WINDOW, from, env.now(s.calls + 2));
    SoundLater(BackedOff(used, key, env.now(s.calls + 2)), REVALIDATE_WINDOW, from, env.now(s.calls + 2), env.now(s.calls + 3));
  }

  lemma JudgedBasis(env: Env, signer: string)
    ensures forall got, revalidated :: Judged(env, got, signer, revalidated).basis == Some(got)
                                       && Judged(env, got, signer, revalidated).revalidated == revalidated
  {
  }

  /** A verification past the cache is noted exactly when it is made. */
  lemma ReverifiedKeeps(env: Env, s: State, url: string, from: int)
    requires Ticks(env) && StateSound(env, s, from)
    ensures var (s1, r) := Reverified(env, s, url);
            && StateSound(env, s1, from)
            && s1.reverify.done == s.reverify.done + if r == Failure(Throttled) then [] else [Live(url, env.now(s.calls))]
  {
    hide Sound, RL.Allowed, RL.Rescheduled;
    var now, w := env.now(s.calls), QuoteWindow(env);
    CalledSound(env, s, from, 1);
    CalledSound(env, s, from, 2);
    AskSound(s.reverify, url, w, w, from, now);
    var (asked, ok) := Ask(s.reverify, url, w, now);
    var used := if ok then Done(asked, url, now) else asked;
    SoundLater(used, w, from, now, env.now(s.calls + 1));
    SoundLater(used, w, from, now, env.now(s.calls + 2));
    BackedOffSound(used, url, w, from, env.now(s.calls + 1));
    SoundLater(BackedOff(used, url, env.now(s.calls + 1)), w, from, env.now(s.calls + 1), env.now(s.calls + 2));
  }

  lemma FreshKeeps(env: Env, s: State, endpoint: string, stale: Option<string>, from: int)
    requires Ticks(env) && StateSound(env, s, from)
    ensures StateSound(env, Fresh(env, s, endpoint, stale).s, from)
  {
    hide StateSound, Reverified;
    if env.quoteURL(endpoint).Some? {
      CalledSound(env, s, from, 1);
      CalledSound(env, s, from, 2);
      ReverifiedKeeps(env, Called(Called(s)), env.quoteURL(endpoint).value, from);
    }
  }

  lemma ConcludeKeeps(env: Env, s: State, cand: Candidate, quote: Quote, cached: bool, from: int)
    requires Ticks(env) && StateSound(env, s, from)
    ensures StateSound(env, Conclude(env, s, cand, quote, cached).s, from)
  {
    hide StateSound, Reverified, Ground;
    var (s1, g) := Ground(env, s, cand.address, quote.signer);
    GroundKeeps(env, s, cand.address, quote.signer, from);
    if g.outcome.Mismatch? && cached && env.quoteURL(cand.endpoint).Some? {
      var url := env.quoteURL(cand.endpoint).value;
      ReverifiedKeeps(env, s1, url, from);
      var (s2, again) := Reverified(env, s1, url);
      if again.Success? {
        GroundKeeps(env, s2, cand.address, again.value.signer, from);
      }
    }
  }

  lemma AdmittedKeeps(env: Env, s: State, cand: Candidate, quote: Quote, verdict: Verdict, grounded: Option<Error>, from: int)
    requires Ticks(env) && StateSound(env, s, from)
    ensures StateSound(env, Admitted(env, s, cand, quote, verdict, grounded).s, from)
  {
    hide Sound;
    CalledSound(env, s, from, 1);
  }

  lemma MaterializingKeeps(env: Env, s: State, cand: Candidate, stale: Option<string>, from: int)
    requires Ticks(env) && StateSound(env, s, from)
    ensures StateSound(env, Materializing(env, s, cand, stale).s, from)
  {
    hide StateSound, Fresh, Conclude, Admitted;
    FreshKeeps(env, s, cand.endpoint, stale, from);
    CalledSound(env, s, from, 1);
    if Usable(env, cand) {
      var f := Quoted(env, s, cand.endpoint, stale);
      match f.r {
        case Failure(_) =>
        case Success(q) =>
          if env.registry {
            ConcludeKeeps(env, f.s, cand, q, f.cached, from);
            var c := Conclude(env, f.s, cand, q, f.cached);
            AdmittedKeeps(env, c.s, cand, c.quote, VerdictOf(c.g.outcome), ErrorOf(env, c.g), from);
          } else {
            AdmittedKeeps(env, f.s, cand, q, NotChecked, None, from);
          }
      }
    }
  }

  lemma {:induction false} RunKeeps(env: Env, s: State, requests: seq<Request>, from: int)
    requires Ticks(env) && StateSound(env, s, from)
    ensures StateSound(env, RunAll(env, s, requests), from)
    decreases |requests|
  {
    hide StateSound, Materializing;
    if requests != [] {
      MaterializingKeeps(env, s, requests[0].cand, requests[0].stale, from);
      RunKeeps(env, Materializing(env, s, requests[0].cand, requests[0].stale).s, requests[1..], from);
    }
  }

  /** What a sound limiter let happen, in any span. */
  lemma SoundIsRare(l: Limiter, w: int, from: int, now: int, key: string, at: int, span: nat)
    requires Sound(l, w, from, now) && w > 0
    ensures |RL.Within(Times(l.done, key), at, span)| <= span / (if w <= FAILURE_BACKOFF then w else FAILURE_BACKOFF) + 1
  {
    hide RL.Timely, RL.Grants, RL.Within, Times;
    RL.GrantsAreRare(map[], l.asks, key, w, FAILURE_BACKOFF, 0, from, at, span);
  }

  /**
   Over any materializations, of any candidates in any spelling: in any span of length L one provider costs
   at most L div 30 seconds + 1 live reads of the chain, and one quote URL as many verifications past the
   cache, or L div the cache's lifetime + 1 if that is shorter.
   */
  lemma LiveChecksAreRare(env: Env, requests: seq<Request>, address: string, url: string, at: int, span: nat)
    requires Ticks(env)
    ensures var s, w := RunAll(env, START, requests), QuoteWindow(env);
            && |RL.Within(Times(s.revalidate.done, env.providerKey(address)), at, span)| <= span / FAILURE_BACKOFF + 1
            && |RL.Within(Times(s.reverify.done, url), at, span)| <= span / (if w <= FAILURE_BACKOFF then w else FAILURE_BACKOFF) + 1
  {
    hide RunAll, Times, RL.Within;
    var from := env.now(0);
    assert StateSound(env, START, from) by { StartSound(env); }
    RunKeeps(env, START, requests, from);
    var s := RunAll(env, START, requests);
    SoundIsRare(s.revalidate, REVALIDATE_WINDOW, from, env.now(s.calls), env.providerKey(address), at, span);
    SoundIsRare(s.reverify, QuoteWindow(env), from, env.now(s.calls), url, at, span);
  }

  lemma StartSound(env: Env)
    ensures StateSound(env, START, env.now(0))
  {
  }
}
