/**
 From a candidate the router names to a provider the client seals to (client/route/route.go:849-1041,
 1079-1112, 1124-1188, 1452-1589): whose key it is, what grounds its signer on chain, and on what evidence a
 provider is turned down. What lies outside is an `Env` of total functions of the number of the call;
 the two rate limiters are those of RateLimiters.
 */
module Grounding {
  import opened Wrappers
  import RateLimiters

  const REVALIDATE_WINDOW := 60_000
  const FAILURE_BACKOFF := 30_000
  const DEFAULT_QUOTE_TTL := 300_000

  /** What one quote verification established: the key and the signer bound in it, and all else. */
  datatype Quote = Quote(encPub: string, signer: string, facts: string)

  /** An on-chain reading; a read that bypasses the cache is not `cached`. */
  datatype Reading = Reading(address: string, acknowledged: bool, cached: bool, stale: bool)

  datatype Candidate = Candidate(address: string, endpoint: string, canonicalID: string)

  datatype Provider = Provider(encPub: string, signer: string, address: string, endpoint: string, model: string)

  datatype Error = BadCandidate | BadEndpoint | Unverified | Throttled | NoPubkey | OnChain(outcome: Outcome) | Refused

  datatype Outcome = Ok | OkStale | Mismatch | NotAcknowledged | LookupFailed

  datatype Verdict = Pass | NoMatch | Unavailable | NotChecked

  datatype Env = Env(
    verifies: bool,
    registry: bool,
    onchainEnforce: bool,
    providerEnforce: bool,
    quoteTTL: int,
    now: nat -> int,
    isAddress: string -> bool,
    providerKey: string -> string,
    quoteURL: string -> Option<string>,
    cachedQuote: (nat, string) -> Option<Quote>,
    verify: (nat, string) -> Option<Quote>,
    pubkey: (nat, string, Option<string>) -> Option<(string, string)>,
    read: (nat, string) -> Option<Reading>,
    readLive: (nat, string) -> Option<Reading>,
    sameSigner: (string, string) -> bool,
    refuses: (nat, string, string) -> bool)

  /** Something a limiter let happen: for which key, and when it was let. */
  datatype Live = Live(key: string, at: int)

  /** A limiter's table, with what it was asked and what was done on its word. */
  datatype Limiter = Limiter(next: map<string, int>, asks: seq<RateLimiters.Event>, done: seq<Live>)

  /** The two limiters, the calls made so far and the identities recorded. */
  datatype State = State(calls: nat, revalidate: Limiter, reverify: Limiter, recorded: seq<Record>)

  datatype Record = Record(address: string, quote: Quote, verdict: Verdict)

  function Called(s: State): State { s.(calls := s.calls + 1) }

  function Ask(l: Limiter, key: string, window: int, now: int): (Limiter, bool) {
    var (next, ok) := RateLimiters.Allowed(l.next, key, window, now);
    (l.(next := next, asks := l.asks + [RateLimiters.Allow(key, window, now, now)]), ok)
  }

  function Done(l: Limiter, key: string, at: int): Limiter { l.(done := l.done + [Live(key, at)]) }

  /** After a failure: another is let sooner. */
  function BackedOff(l: Limiter, key: string, now: int): Limiter {
    Limiter(RateLimiters.Rescheduled(l.next, key, FAILURE_BACKOFF, now),
            l.asks + [RateLimiters.Reschedule(key, FAILURE_BACKOFF, now, now)], l.done)
  }

  /** mayReverifyQuote's window. */
  function QuoteWindow(env: Env): (w: int)
    ensures w > 0 && (env.quoteTTL > 0 ==> w == env.quoteTTL)
  {
    if env.quoteTTL > 0 then env.quoteTTL else DEFAULT_QUOTE_TTL
  }

  // ---------------------------------------------------------------- Quotes

  datatype Fetched = Fetched(s: State, r: Result<Quote, Error>, cached: bool)

  /** reverifiedProvider: a live verification, when the limiter lets it. */
  function Reverified(env: Env, s: State, url: string): (State, Result<Quote, Error>) {
    var now := env.now(s.calls);
    var (asked, ok) := Ask(s.reverify, url, QuoteWindow(env), now);
    var s1 := Called(s);
    if !ok then (s1.(reverify := asked), Failure(Throttled))
    else
      var done := Done(asked, url, now);
      match env.verify(s1.calls, url)
      case Some(q) => (Called(s1).(reverify := done), Success(q))
      case None => (Called(s1).(reverify := BackedOff(done, url, env.now(s1.calls))), Failure(Unverified))
  }

  /** freshProvider: the cached quote or a new one, and past a cache that still holds `stale`. */
  function Fresh(env: Env, s: State, endpoint: string, stale: Option<string>): Fetched {
    match env.quoteURL(endpoint)
    case None => Fetched(s, Failure(BadEndpoint), false)
    case Some(url) =>
      var s1 := Called(s);
      match env.cachedQuote(s.calls, url)
      case None =>
        (match env.verify(s1.calls, url)
         case Some(q) => Fetched(Called(s1), Success(q), false)
         case None => Fetched(Called(s1), Failure(Unverified), false))
      case Some(q) =>
        if stale != Some(q.encPub) then Fetched(s1, Success(q), true)
        else
          var again := env.cachedQuote(s1.calls, url);
          if again.Some? && Some(again.value.encPub) != stale then Fetched(Called(s1), Success(again.value), true)
          else
            var (s2, r) := Reverified(env, Called(s1), url);
            Fetched(s2, r, false)
  }

  // ---------------------------------------------------------------- The chain

  /** signerAgrees. */
  predicate Agrees(env: Env, got: Reading, signer: string) { got.acknowledged && env.sameSigner(got.address, signer) }

  /** `basis` is the reading ruled on. */
  datatype Grounded = Grounded(outcome: Outcome, revalidated: bool, basis: Option<Reading>)

  function Judged(env: Env, got: Reading, signer: string, revalidated: bool): Grounded {
    var outcome := if !got.acknowledged then NotAcknowledged
                   else if !Agrees(env, got, signer) then Mismatch
                   else if got.stale then OkStale else Ok;
    Grounded(outcome, revalidated, Some(got))
  }

  /** groundSignerOnChain. */
  function Ground(env: Env, s: State, address: string, signer: string): (State, Grounded) {
    var s1 := Called(s);
    match env.read(s.calls, address)
    case None => (s1, Grounded(LookupFailed, false, None))
    case Some(got) =>
      if !got.cached || Agrees(env, got, signer) then (s1, Judged(env, got, signer, false))
      else
        var key, now := env.providerKey(address), env.now(s1.calls);
        var (asked, ok) := Ask(s.revalidate, key, REVALIDATE_WINDOW, now);
        var s2 := Called(s1);
        if !ok then (s2.(revalidate := asked), Judged(env, got, signer, false))
        else
          var done := Done(asked, key, now);
          match env.readLive(s2.calls, address)
          case None =>
            (Called(s2).(revalidate := BackedOff(done, key, env.now(s2.calls))), Grounded(LookupFailed, true, None))
          case Some(live) => (Called(s2).(revalidate := done), Judged(env, live, signer, true))
  }

  /** The error under enforce, none under warn. */
  function ErrorOf(env: Env, g: Grounded): Option<Error> {
    if env.onchainEnforce && !(g.outcome.Ok? || g.outcome.OkStale?) then Some(OnChain(g.outcome)) else None
  }

  /** onchainVerdictOf. */
  function VerdictOf(o: Outcome): Verdict {
    match o
    case Ok => Pass
    case OkStale => Pass
    case Mismatch => NoMatch
    case NotAcknowledged => NoMatch
    case LookupFailed => Unavailable
  }

  /** The conclusion that stood, and the quote it is about. */
  datatype Concluded = Concluded(s: State, quote: Quote, g: Grounded)

  /** The grounding of a verified quote, which a mismatch against a cached one has verified again. */
  function Conclude(env: Env, s: State, cand: Candidate, quote: Quote, cached: bool): Concluded {
    var (s1, g) := Ground(env, s, cand.address, quote.signer);
    if !(g.outcome.Mismatch? && cached) then Concluded(s1, quote, g)
    else
      match env.quoteURL(cand.endpoint)
      case None => Concluded(s1, quote, g)
      case Some(url) =>
        var (s2, again) := Reverified(env, s1, url);
        if again.Failure? || again.value.signer == quote.signer then Concluded(s2, quote, g)
        else
          var (s3, g3) := Ground(env, s2, cand.address, again.value.signer);
          Concluded(s3, again.value, g3.(revalidated := true))
  }

  // ---------------------------------------------------------------- Materializing a candidate

  datatype Materialized = Materialized(s: State, r: Result<Provider, Error>)

  function Sealable(cand: Candidate, encPub: string, signer: string): Provider {
    Provider(encPub, signer, cand.address, cand.endpoint, cand.canonicalID)
  }

  predicate Usable(env: Env, cand: Candidate) { env.isAddress(cand.address) && cand.endpoint != "" && cand.canonicalID != "" }

  /** The last steps, once it is known what the checks concluded. */
  function Admitted(env: Env, s: State, cand: Candidate, quote: Quote, verdict: Verdict, grounded: Option<Error>): Materialized {
    var s1 := if env.verifies then s.(recorded := s.recorded + [Record(cand.address, quote, verdict)]) else s;
    if grounded.Some? then Materialized(s1, Failure(grounded.value))
    else if env.verifies && env.providerEnforce then
      Materialized(Called(s1), if env.refuses(s1.calls, cand.address, quote.facts) then Failure(Refused)
                               else Success(Sealable(cand, quote.encPub, quote.signer)))
    else Materialized(s1, Success(Sealable(cand, quote.encPub, quote.signer)))
  }

  /** The key and the signer to go on with: of a verified quote, or what the endpoint says with verification off. */
  function Quoted(env: Env, s: State, endpoint: string, stale: Option<string>): Fetched {
    if env.verifies then Fresh(env, s, endpoint, stale)
    else
      match env.pubkey(s.calls, endpoint, stale)
      case None => Fetched(Called(s), Failure(NoPubkey), false)
      case Some((encPub, signer)) => Fetched(Called(s), Success(Quote(encPub, signer, "")), false)
  }

  /** What materialize gives back, and what it leaves behind. */
  function Materializing(env: Env, s: State, cand: Candidate, stale: Option<string>): Materialized {
    if !Usable(env, cand) then Materialized(s, Failure(BadCandidate))
    else
      var f := Quoted(env, s, cand.endpoint, stale);
      match f.r
      case Failure(e) => Materialized(f.s, Failure(e))
      case Success(q) =>
        if !env.registry then Admitted(env, f.s, cand, q, NotChecked, None)
        else
          var c := Conclude(env, f.s, cand, q, f.cached);
          Admitted(env, c.s, cand, c.quote, VerdictOf(c.g.outcome), ErrorOf(env, c.g))
  }

  /** materialize. */
  method Materialize(env: Env, before: State, cand: Candidate, stale: Option<string>) returns (m: Materialized)
    ensures m == Materializing(env, before, cand, stale)
  {
    hide Ground, Fresh, Reverified;
    var s := before;
    if !env.isAddress(cand.address) || cand.endpoint == "" || cand.canonicalID == "" {
      return Materialized(s, Failure(BadCandidate));
    }
    var encPub, signer, verified, quoteCached := "", "", Quote("", "", ""), false;
    if env.verifies {
      var f := Fresh(env, s, cand.endpoint, stale);
      s := f.s;
      if f.r.Failure? {
        return Materialized(s, Failure(f.r.error));
      }
      verified, quoteCached := f.r.value, f.cached;
      encPub, signer := verified.encPub, verified.signer;
    } else {
      var p := env.pubkey(s.calls, cand.endpoint, stale);
      s := Called(s);
      if p.None? {
        return Materialized(s, Failure(NoPubkey));
      }
      encPub, signer := p.value.0, p.value.1;
    }
    var verdict, grounded := NotChecked, None;
    if env.registry {
      var ground := Ground(env, s, cand.address, signer);
      s := ground.0;
      var g := ground.1;
      if g.outcome == Mismatch && quoteCached {
        var url := env.quoteURL(cand.endpoint);
        var again: Result<Quote, Error> := Failure(BadEndpoint);
        if url.Some? {
          var r := Reverified(env, s, url.value);
          s, again := r.0, r.1;
        }
        if again.Success? && again.value.signer != signer {
          verified := again.value;
          encPub, signer := verified.encPub, verified.signer;
          ground := Ground(env, s, cand.address, signer);
          s := ground.0;
          g := ground.1.(revalidated := true);
        }
      }
      verdict := VerdictOf(g.outcome);
      grounded := ErrorOf(env, g);
    }
    if env.verifies {
      s := s.(recorded := s.recorded + [Record(cand.address, verified, verdict)]);
    }
    if grounded.Some? {
      return Materialized(s, Failure(grounded.value));
    }
    if env.verifies && env.providerEnforce {
      var refused := env.refuses(s.calls, cand.address, verified.facts);
      s := Called(s);
      if refused {
        return Materialized(s, Failure(Refused));
      }
    }
    m := Materialized(s, Success(Sealable(cand, encPub, signer)));
  }

  // ---------------------------------------------------------------- What a provider returned rests on

  /** A live verification of the quote at url gave q. */
  ghost predicate LiveQuote(env: Env, url: string, q: Quote) { exists k :: env.verify(k, url) == Some(q) }

  /** One verification of the quote at this endpoint, live or from the cache, gave q. */
  ghost predicate FromOneQuote(env: Env, endpoint: string, q: Quote) {
    && env.quoteURL(endpoint).Some?
    && (LiveQuote(env, env.quoteURL(endpoint).value, q) || exists k :: env.cachedQuote(k, env.quoteURL(endpoint).value) == Some(q))
  }

  /** The limiter, as the grounding begun in s finds it, refuses a live read of the address. */
  predicate LiveReadRefused(env: Env, s: State, address: string) {
    !RateLimiters.Allowed(s.revalidate.next, env.providerKey(address), REVALIDATE_WINDOW, env.now(s.calls + 1)).1
  }

  /** The reading a negative rests on: read past the cache, or by a read that missed it, or the cached one when the limiter refused. */
  predicate LiveReading(env: Env, s: State, address: string, r: Reading) {
    || env.readLive(s.calls + 2, address) == Some(r)
    || (env.read(s.calls, address) == Some(r) && (!r.cached || LiveReadRefused(env, s, address)))
  }

  /** What a grounding begun in s rests on: a reading of that address it follows from, or a lookup that failed. */
  predicate Founded(env: Env, s: State, address: string, signer: string, g: Grounded) {
    match g.basis
    case None =>
      && g.outcome == LookupFailed
      && (env.read(s.calls, address) == None || (env.readLive(s.calls + 2, address) == None && !LiveReadRefused(env, s, address)))
    case Some(r) =>
      && (env.read(s.calls, address) == Some(r) || env.readLive(s.calls + 2, address) == Some(r))
      && (g.outcome.Ok? || g.outcome.OkStale? <==> Agrees(env, r, signer))
      && (g.outcome.OkStale? <==> Agrees(env, r, signer) && r.stale)
      && (g.outcome.NotAcknowledged? <==> !r.acknowledged)
      && (g.outcome.Mismatch? <==> r.acknowledged && !env.sameSigner(r.address, signer))
      && (!Agrees(env, r, signer) ==> LiveReading(env, s, address, r))
  }

  /** A live read is due: the cached reading disagrees, and the limiter lets one. */
  predicate LiveReadDue(env: Env, s: State, address: string, signer: string) {
    var got := env.read(s.calls, address);
    got.Some? && got.value.cached && !Agrees(env, got.value, signer) && !LiveReadRefused(env, s, address)
  }

  /** What a grounding concludes follows from one reading, the live one exactly when one is due. */
  lemma GroundIsFounded(env: Env, s: State, address: string, signer: string)
    ensures var (s1, g) := Ground(env, s, address, signer);
            && Founded(env, s, address, signer, g) && s1.recorded == s.recorded && s1.reverify == s.reverify
            && (g.revalidated <==> LiveReadDue(env, s, address, signer))
            && g.basis == if g.revalidated then env.readLive(s.calls + 2, address) else env.read(s.calls, address)
  {
    hide RateLimiters.Allowed, RateLimiters.Rescheduled;
  }

  /** A live read that failed is let again as soon as the backoff has passed. */
  lemma FailedReadIsRetried(env: Env, s: State, address: string, signer: string, now: int)
    requires LiveReadDue(env, s, address, signer) && env.readLive(s.calls + 2, address) == None
    requires now >= env.now(s.calls + 2) + FAILURE_BACKOFF
    ensures RateLimiters.Allowed(Ground(env, s, address, signer).0.revalidate.next, env.providerKey(address), REVALIDATE_WINDOW, now).1
  {
    hide RateLimiters.Allowed, RateLimiters.Rescheduled;
    var key := env.providerKey(address);
    var asked := Ask(s.revalidate, key, REVALIDATE_WINDOW, env.now(s.calls + 1)).0;
    RateLimiters.GrantStamps(s.revalidate.next, key, REVALIDATE_WINDOW, env.now(s.calls + 1));
    RateLimiters.RescheduleMeans(asked.next, key, FAILURE_BACKOFF, env.now(s.calls + 2), REVALIDATE_WINDOW, now);
  }

  /** Verifying the quote at url again, begun in s, was refused by the limiter or failed. */
  predicate RecheckFails(env: Env, s: State, url: string) {
    || !RateLimiters.Allowed(s.reverify.next, url, QuoteWindow(env), env.now(s.calls)).1
    || env.verify(s.calls + 1, url) == None
  }

  lemma ReverifiedMeans(env: Env, s: State, url: string)
    ensures var (s1, r) := Reverified(env, s, url);
            && s1.recorded == s.recorded && s1.revalidate == s.revalidate
            && (r.Failure? <==> RecheckFails(env, s, url))
            && (r == Failure(Throttled) <==> !RateLimiters.Allowed(s.reverify.next, url, QuoteWindow(env), env.now(s.calls)).1)
            && (r.Failure? ==> r.error == Throttled || r.error == Unverified)
            && (r.Success? ==> env.verify(s.calls + 1, url) == Some(r.value) && LiveQuote(env, url, r.value))
  {
    hide RateLimiters.Allowed, RateLimiters.Rescheduled;
    var q := env.verify(s.calls + 1, url);
    if q.Some? { assert LiveQuote(env, url, q.value); }
  }

  /** So is a verification that failed. */
  lemma FailedRecheckIsRetried(env: Env, s: State, url: string, now: int)
    requires Reverified(env, s, url).1 == Failure(Unverified) && now >= env.now(s.calls + 1) + FAILURE_BACKOFF
    ensures RateLimiters.Allowed(Reverified(env, s, url).0.reverify.next, url, QuoteWindow(env), now).1
  {
    hide RateLimiters.Allowed, RateLimiters.Rescheduled;
    var asked := Ask(s.reverify, url, QuoteWindow(env), env.now(s.calls)).0;
    RateLimiters.GrantStamps(s.reverify.next, url, QuoteWindow(env), env.now(s.calls));
    RateLimiters.RescheduleMeans(asked.next, url, FAILURE_BACKOFF, env.now(s.calls + 1), QuoteWindow(env), now);
  }

  /** The cache, looked at as call k, holds a quote with another key than the one rejected. */
  predicate CacheServes(env: Env, k: nat, url: string, stale: Option<string>) {
    env.cachedQuote(k, url).Some? && Some(env.cachedQuote(k, url).value.encPub) != stale
  }

  /**
   What is sealed to is one quote of the endpoint, past a key just rejected: from the cache exactly when it
   holds one, and else from a verification, which the limiter only rules on when the cache held the rejected key.
   */
  lemma FreshIsAQuote(env: Env, s: State, endpoint: string, stale: Option<string>)
    ensures var f := Fresh(env, s, endpoint, stale);
            && f.s.recorded == s.recorded && f.s.revalidate == s.revalidate
            && (f.r.Success? ==>
                  && FromOneQuote(env, endpoint, f.r.value)
                  && (!f.cached ==> LiveQuote(env, env.quoteURL(endpoint).value, f.r.value))
                  && (f.cached && stale.Some? ==> Some(f.r.value.encPub) != stale))
            && match env.quoteURL(endpoint)
               case None => f.r == Failure(BadEndpoint) && !f.cached
               case Some(url) =>
                 var first, again := CacheServes(env, s.calls, url, stale), CacheServes(env, s.calls + 1, url, stale);
                 var missed := env.cachedQuote(s.calls, url) == None;
                 && (f.cached <==> first || (!missed && again))
                 && (f.cached ==> f.r.Success? && Some(f.r.value) == env.cachedQuote(if first then s.calls else s.calls + 1, url))
                 && (missed ==>
                       && f.s.reverify == s.reverify
                       && f.r == match env.verify(s.calls + 1, url) case None => Failure(Unverified) case Some(q) => Success(q))
                 && (!missed && !f.cached ==> f.r == Reverified(env, Called(Called(s)), url).1)
                 && (f.cached ==> f.s.reverify == s.reverify)
  {
    hide Reverified, LiveQuote;
    if env.quoteURL(endpoint).Some? {
      var url := env.quoteURL(endpoint).value;
      VerifiedIsLive(env, url, s.calls + 1);
      ReverifiedMeans(env, Called(Called(s)), url);
    }
  }

  lemma VerifiedIsLive(env: Env, url: string, k: nat)
    ensures env.verify(k, url).Some? ==> LiveQuote(env, url, env.verify(k, url).value)
  {
  }

  /** Verifying the quote at url again, begun in s, gave this signer. */
  predicate RecheckAgrees(env: Env, s: State, url: string, signer: string) {
    env.verify(s.calls + 1, url).Some? && env.verify(s.calls + 1, url).value.signer == signer
  }

  /** What is known of the quote a mismatch stands on: live, or cached and rechecked in t in vain or to the same signer. */
  ghost predicate QuoteRechecked(env: Env, t: State, url: string, cached: bool, q: Quote) {
    || LiveQuote(env, url, q)
    || (cached && (RecheckFails(env, t, url) || RecheckAgrees(env, t, url, q.signer)))
  }

  /** Where the grounding that stood began: in s, or after the recheck that found another signer. */
  function Began(env: Env, s: State, cand: Candidate, quote: Quote, url: string, c: Concluded): State {
    if c.quote.signer == quote.signer then s else Reverified(env, Ground(env, s, cand.address, quote.signer).0, url).0
  }

  lemma ConcludeMeans(env: Env, s: State, cand: Candidate, quote: Quote, cached: bool)
    requires FromOneQuote(env, cand.endpoint, quote)
    requires !cached ==> LiveQuote(env, env.quoteURL(cand.endpoint).value, quote)
    ensures var c, url := Conclude(env, s, cand, quote, cached), env.quoteURL(cand.endpoint).value;
            && c.s.recorded == s.recorded
            && FromOneQuote(env, cand.endpoint, c.quote)
            && Founded(env, Began(env, s, cand, quote, url, c), cand.address, c.quote.signer, c.g)
            && (c.g.outcome.Mismatch? ==> QuoteRechecked(env, Ground(env, s, cand.address, quote.signer).0, url, cached, c.quote))
            && var (s1, g) := Ground(env, s, cand.address, quote.signer);
               var rotated := g.outcome.Mismatch? && cached && !RecheckFails(env, s1, url) && !RecheckAgrees(env, s1, url, quote.signer);
               && (rotated <==> c.quote.signer != quote.signer)
               && (if rotated then Some(c.quote) == env.verify(s1.calls + 1, url) && c.g.revalidated
                   else c.quote == quote && c.g == g)
               && (!(g.outcome.Mismatch? && cached) ==> c.s == s1)
  {
    hide Ground, Reverified, LiveQuote, Founded, RecheckFails;
    var url := env.quoteURL(cand.endpoint).value;
    var (s1, g) := Ground(env, s, cand.address, quote.signer);
    GroundIsFounded(env, s, cand.address, quote.signer);
    if g.outcome.Mismatch? && cached {
      ReverifiedMeans(env, s1, url);
      var (s2, again) := Reverified(env, s1, url);
      if again.Success? && again.value.signer != quote.signer {
        var (s3, g3) := Ground(env, s2, cand.address, again.value.signer);
        GroundIsFounded(env, s2, cand.address, again.value.signer);
        StillFounded(env, s2, cand.address, again.value.signer, g3);
      }
    }
  }

  lemma StillFounded(env: Env, s: State, address: string, signer: string, g: Grounded)
    requires Founded(env, s, address, signer, g)
    ensures Founded(env, s, address, signer, g.(revalidated := true))
  {
  }

  /** The chain gave this reading for the address, cached or live. */
  ghost predicate ChainSaid(env: Env, address: string, r: Reading) {
    exists k :: env.read(k, address) == Some(r) || env.readLive(k, address) == Some(r)
  }

  lemma FoundedOk(env: Env, s: State, address: string, signer: string, g: Grounded)
    requires Founded(env, s, address, signer, g) && (g.outcome.Ok? || g.outcome.OkStale?)
    ensures exists r :: ChainSaid(env, address, r) && Agrees(env, r, signer)
  {
    var r := g.basis.value;
    assert env.read(s.calls, address) == Some(r) || env.readLive(s.calls + 2, address) == Some(r);
    assert ChainSaid(env, address, r);
  }

  /**
   With quote verification on and the chain enforced, a provider that is returned has its key and its
   signer from one verified quote of its own endpoint, the signer is the acknowledged one of a reading
   of its own address, and the one record left of it is of that quote and says so.
   */
  lemma ReturnedIsGrounded(env: Env, s: State, cand: Candidate, stale: Option<string>)
    requires env.verifies && env.registry && env.onchainEnforce
    ensures var m := Materializing(env, s, cand, stale);
            m.r.Success? ==>
              var p := m.r.value;
              && p.address == cand.address && p.endpoint == cand.endpoint && p.model == cand.canonicalID
              && env.isAddress(p.address) && p.endpoint != "" && p.model != ""
              && |m.s.recorded| == |s.recorded| + 1 &&
              var rec := m.s.recorded[|s.recorded|];
              && m.s.recorded == s.recorded + [rec]
              && rec.address == p.address && rec.verdict == Pass && rec.quote.encPub == p.encPub && rec.quote.signer == p.signer
              && FromOneQuote(env, p.endpoint, rec.quote)
              && (env.providerEnforce ==> m.s.calls > 0 && !env.refuses(m.s.calls - 1, p.address, rec.quote.facts))
              && exists r :: ChainSaid(env, p.address, r) && Agrees(env, r, p.signer)
  {
    hide Fresh, Conclude, FromOneQuote, LiveQuote, ChainSaid, Agrees, Ground, Founded, Began, QuoteRechecked;
    FreshIsAQuote(env, s, cand.endpoint, stale);
    var f := Fresh(env, s, cand.endpoint, stale);
    var m := Materializing(env, s, cand, stale);
    if Usable(env, cand) && f.r.Success? && m.r.Success? {
      FreshHasURL(env, s, cand.endpoint, stale);
      ConcludeMeans(env, f.s, cand, f.r.value, f.cached);
      var c := Conclude(env, f.s, cand, f.r.value, f.cached);
      assert c.g.outcome.Ok? || c.g.outcome.OkStale?;
      FoundedOk(env, Began(env, f.s, cand, f.r.value, env.quoteURL(cand.endpoint).value, c), cand.address, c.quote.signer, c.g);
    }
  }

  lemma FoundedNegative(env: Env, s: State, address: string, signer: string, g: Grounded)
    requires Founded(env, s, address, signer, g) && (g.outcome.Mismatch? || g.outcome.NotAcknowledged?)
    ensures g.basis.Some? && !Agrees(env, g.basis.value, signer) && LiveReading(env, s, address, g.basis.value)
  {
    hide LiveReading;
  }

  /**
   A provider turned down, or reported as no match, for its signer was so on a reading past the cache, or
   on a cached one when the limiter, asked at that very call, refused a live read; and for a mismatch also
   on a quote verified live, unless verifying a cached one again was refused by the limiter, failed, or gave
   the same signer.
   */
  lemma RefusalRestsOnEvidence(env: Env, s: State, cand: Candidate, stale: Option<string>)
    requires env.verifies && env.registry && Usable(env, cand)
    ensures var m := Materializing(env, s, cand, stale);
            var f := Fresh(env, s, cand.endpoint, stale);
            f.r.Success? ==>
              var c, url := Conclude(env, f.s, cand, f.r.value, f.cached), env.quoteURL(cand.endpoint).value;
              && m.s.recorded == s.recorded + [Record(cand.address, c.quote, VerdictOf(c.g.outcome))]
              && (VerdictOf(c.g.outcome) == NoMatch ==>
                    && c.g.basis.Some? && !Agrees(env, c.g.basis.value, c.quote.signer)
                    && LiveReading(env, Began(env, f.s, cand, f.r.value, url, c), cand.address, c.g.basis.value))
              && (c.g.outcome.Mismatch? ==> QuoteRechecked(env, Ground(env, f.s, cand.address, f.r.value.signer).0, url, f.cached, c.quote))
              && (m.r.Failure? && m.r.error.OnChain? ==> env.onchainEnforce && m.r.error.outcome == c.g.outcome && VerdictOf(c.g.outcome) != Pass)
  {
    hide Fresh, Conclude, FromOneQuote, LiveQuote, LiveReading, Agrees, Ground, Founded, Began, QuoteRechecked;
    FreshIsAQuote(env, s, cand.endpoint, stale);
    var f := Fresh(env, s, cand.endpoint, stale);
    if f.r.Success? {
      FreshHasURL(env, s, cand.endpoint, stale);
      ConcludeMeans(env, f.s, cand, f.r.value, f.cached);
      var c := Conclude(env, f.s, cand, f.r.value, f.cached);
      if VerdictOf(c.g.outcome) == NoMatch {
        FoundedNegative(env, Began(env, f.s, cand, f.r.value, env.quoteURL(cand.endpoint).value, c), cand.address, c.quote.signer, c.g);
      }
    }
  }

  /** What a materialization has when it comes to a ruling: the quote, and what grounding it concluded if the chain is asked. */
  function Ruled(env: Env, s: State, cand: Candidate, stale: Option<string>): (r: (Quote, Option<Grounded>))
    requires Quoted(env, s, cand.endpoint, stale).r.Success?
  {
    var f := Quoted(env, s, cand.endpoint, stale);
    if !env.registry then (f.r.value, None)
    else
      var c := Conclude(env, f.s, cand, f.r.value, f.cached);
      (c.quote, Some(c.g))
  }

  /** With verification on, the quote had is a fresh one; with it off, what the endpoint says, never from the cache of quotes. */
  lemma QuotedMeans(env: Env, s: State, endpoint: string, stale: Option<string>)
    ensures var f := Quoted(env, s, endpoint, stale);
            && (env.verifies ==> f == Fresh(env, s, endpoint, stale))
            && (!env.verifies ==>
                  && !f.cached && f.s == s.(calls := s.calls + 1)
                  && match env.pubkey(s.calls, endpoint, stale)
                     case None => f.r == Failure(NoPubkey)
                     case Some((encPub, signer)) => f.r.Success? && f.r.value.encPub == encPub && f.r.value.signer == signer)
  {
    hide Fresh;
  }

  /** Under enforcement, the chain bars what is neither acknowledged nor passing for it. */
  predicate Barred(env: Env, g: Option<Grounded>) {
    g.Some? && env.onchainEnforce && !g.value.outcome.Ok? && !g.value.outcome.OkStale?
  }

  /** The record says what the chain check concluded: nothing, a match, no match, or that it could not be had. */
  predicate Says(v: Verdict, g: Option<Grounded>) {
    && (v.NotChecked? <==> g.None?)
    && (v.Pass? <==> g.Some? && (g.value.outcome.Ok? || g.value.outcome.OkStale?))
    && (v.NoMatch? <==> g.Some? && (g.value.outcome.Mismatch? || g.value.outcome.NotAcknowledged?))
    && (v.Unavailable? <==> g.Some? && g.value.outcome.LookupFailed?)
  }

  /**
   Which candidates become providers, with what key, and what is recorded: exactly those that are usable,
   whose quote was had, that the chain does not bar, and that are not refused when refusals are enforced.
   */
  lemma MaterializeMeans(env: Env, s: State, cand: Candidate, stale: Option<string>)
    ensures var m, f := Materializing(env, s, cand, stale), Quoted(env, s, cand.endpoint, stale);
            var usable := env.isAddress(cand.address) && cand.endpoint != "" && cand.canonicalID != "";
            if !usable then m == Materialized(s, Failure(BadCandidate))
            else if f.r.Failure? then m == Materialized(f.s, Failure(f.r.error))
            else
              var (quote, g) := Ruled(env, s, cand, stale);
              var asks := env.verifies && env.providerEnforce && !Barred(env, g);
              var refused := asks && m.s.calls > 0 && env.refuses(m.s.calls - 1, cand.address, quote.facts);
              && (asks ==> m.s.calls > 0)
              && (m.r.Success? <==> !Barred(env, g) && !refused)
              && (m.r == Failure(Refused) <==> refused)
              && (m.r.Failure? && !refused ==> m.r.error == OnChain(g.value.outcome))
              && (m.r.Success? ==> m.r.value == Provider(quote.encPub, quote.signer, cand.address, cand.endpoint, cand.canonicalID))
              && (if env.verifies then
                    exists v :: Says(v, g) && m.s.recorded == s.recorded + [Record(cand.address, quote, v)]
                  else m.s.recorded == s.recorded)
  {
    hide Conclude, Fresh;
    var f := Quoted(env, s, cand.endpoint, stale);
    if Usable(env, cand) && f.r.Success? {
      FreshRecords(env, s, cand.endpoint, stale);
      ConcludeRecords(env, f.s, cand, f.r.value, f.cached);
      var (quote, g) := Ruled(env, s, cand, stale);
      assert Says(if g.None? then NotChecked else VerdictOf(g.value.outcome), g);
    }
  }

  lemma FreshRecords(env: Env, s: State, endpoint: string, stale: Option<string>)
    ensures Quoted(env, s, endpoint, stale).s.recorded == s.recorded
  {
    FreshIsAQuote(env, s, endpoint, stale);
  }

  lemma ConcludeRecords(env: Env, s: State, cand: Candidate, quote: Quote, cached: bool)
    ensures Conclude(env, s, cand, quote, cached).s.recorded == s.recorded
  {
    hide RateLimiters.Allowed, RateLimiters.Rescheduled, Judged;
  }

  lemma FreshHasURL(env: Env, s: State, endpoint: string, stale: Option<string>)
    ensures Fresh(env, s, endpoint, stale).r.Success? ==> env.quoteURL(endpoint).Some?
  {
  }
}
