/**
 The fallback walk: Complete (client/core/client.go:700-794), CompleteStream (client/core/stream.go:36-137)
 and SubmitAsync (client/core/async.go:35-96) run the same loop over the candidates, with one budget
 (client/core/resolve.go:103-162), one re-key per candidate (client/core/keyrefresh.go:97-163) and one
 memory of what went wrong (client/core/client.go:115-154). Times are in milliseconds.
 */
module Walking {
  import opened Wrappers
  import opened Attempts

  const RESOLVE_BUDGET := 90_000

  const MATERIALIZE := 0
  const BUDGET := 1
  const ATTEMPT := 2

  datatype Mode = Buffered | Streaming | Async

  function Attempt(env: Env, mode: Mode, w: World, p: Provider): Tried {
    match mode
    case Buffered => CompleteOnce(env, w, p)
    case Streaming => StreamOnce(env, w, p)
    case Async => SubmitOnce(env, w, p)
  }

  // ---------------------------------------------------------------- The budget and the error kept

  function LimitOf(budget: int): (limit: int)
    ensures limit > 0 && (budget > 0 ==> limit == budget)
  {
    if budget > 0 then budget else RESOLVE_BUDGET
  }

  datatype Prepared = Prepared(w: World, spent: int, r: Result<Provider, Failure>)

  /** Books a call that took t.dur. */
  function Booked(w: World, spent: int, t: Timed<Result<Provider, Failure>>): Prepared {
    Prepared(Later(w, t.dur).(calls := w.calls + 1), spent + t.dur, t.value)
  }

  function Provided(env: Env, spent: int, w: World, i: nat): Prepared {
    var remaining := LimitOf(env.budget) - spent;
    if remaining <= 0 then Prepared(w, spent, Result.Failure(Upstream(BudgetSpent)))
    else Booked(w, spent, env.materialize(w.calls, i, remaining))
  }

  function Reread(env: Env, spent: int, w: World, i: nat, stale: Bytes): Prepared {
    var remaining := LimitOf(env.budget) - spent;
    if remaining <= 0 then Prepared(w, spent, Result.Failure(Upstream(BudgetSpent)))
    else Booked(w, spent, env.reread(w.calls, i, stale, remaining))
  }

  /** With nothing left, nobody is asked. */
  lemma NothingLeft(env: Env, spent: int, w: World, i: nat, stale: Bytes)
    ensures spent >= LimitOf(env.budget) <==> Provided(env, spent, w, i).w.calls == w.calls
    ensures spent >= LimitOf(env.budget) <==> Reread(env, spent, w, i, stale).w.calls == w.calls
    ensures spent >= LimitOf(env.budget) ==>
              Provided(env, spent, w, i) == Reread(env, spent, w, i, stale) == Prepared(w, spent, Result.Failure(Upstream(BudgetSpent)))
  {
  }

  class CandidateWalk {
    var spent: int
    const budget: int

    constructor (budget: int)
      ensures spent == 0 && this.budget == budget
    {
      spent := 0;
      this.budget := budget;
    }

    method Limit() returns (limit: int)
      ensures limit == LimitOf(budget)
    {
      limit := if budget > 0 then budget else RESOLVE_BUDGET;
    }

    method Provider(env: Env, w: World, i: nat) returns (w': World, r: Result<Attempts.Provider, Failure>)
      requires env.budget == budget
      modifies this
      ensures Prepared(w', spent, r) == Provided(env, old(spent), w, i)
    {
      var limit := Limit();
      var remaining := limit - spent;
      if remaining <= 0 {
        return w, Result.Failure(Upstream(BudgetSpent));
      }
      var p := env.materialize(w.calls, i, remaining);
      w' := Later(w, p.dur).(calls := w.calls + 1);
      spent := spent + p.dur;
      r := p.value;
    }

    method Refresh(env: Env, w: World, i: nat, stale: Bytes) returns (w': World, r: Result<Attempts.Provider, Failure>)
      requires env.budget == budget
      modifies this
      ensures Prepared(w', spent, r) == Reread(env, old(spent), w, i, stale)
    {
      var limit := Limit();
      var remaining := limit - spent;
      if remaining <= 0 {
        return w, Result.Failure(Upstream(BudgetSpent));
      }
      var p := env.reread(w.calls, i, stale, remaining);
      w' := Later(w, p.dur).(calls := w.calls + 1);
      spent := spent + p.dur;
      r := p.value;
    }

    method Charge(d: int)
      modifies this
      ensures spent == old(spent) + d
    {
      spent := spent + d;
    }

    method Exhausted() returns (b: bool)
      ensures b == (spent >= LimitOf(budget))
    {
      var limit := Limit();
      b := spent >= limit;
    }
  }

  datatype Held = Held(err: Option<Failure>, tier: nat)

  function Kept(h: Held, tier: nat, f: Failure): Held {
    if h.err.None? || tier >= h.tier then Held(Some(f), tier) else h
  }

  class WalkErr {
    var err: Option<Failure>
    var tier: nat

    constructor ()
      ensures Held(err, tier) == Held(None, 0)
    {
      err, tier := None, 0;
    }

    method Record(t: nat, f: Failure)
      modifies this
      ensures Held(err, tier) == Kept(old(Held(err, tier)), t, f)
    {
      if err.None? || t >= tier {
        err, tier := Some(f), t;
      }
    }
  }

  // ---------------------------------------------------------------- The walk as a function

  /** A candidate the list was asked for: as which call, and with how much of the budget left. */
  datatype Ask = Ask(candidate: nat, call: nat, left: int)

  /** An attempt that was made: of which candidate, sealed to whom, as which call, with what end, and what it left of the budget. */
  datatype Attempted = Attempted(candidate: nat, provider: Provider, call: nat, result: Result<Output, Failure>, left: int)

  /** `attempts` and `asked` are the walk's history. */
  datatype State = State(w: World, spent: int, held: Held, attempts: seq<Attempted>, asked: seq<Ask>)

  datatype Verdict = Verdict(s: State, retry: bool, result: Result<Output, Failure>)

  datatype Stop = Won | Terminal | Gone | OutOfBudget | RanOut

  datatype Outcome = Outcome(s: State, result: Result<Output, Failure>, why: Stop)

  predicate Exhausted(env: Env, s: State) { s.spent >= LimitOf(env.budget) }

  function Recorded(s: State, tier: nat, f: Failure): State { s.(held := Kept(s.held, tier, f)) }

  /** One attempt, charged and recorded if it failed. */
  function Tries(env: Env, mode: Mode, s: State, i: nat, p: Provider): Verdict {
    var t := Attempt(env, mode, s.w, p);
    var spent := if t.result.Success? then s.spent else s.spent + (t.w.now - s.w.now);
    var s1 := s.(w := t.w, spent := spent,
                 attempts := s.attempts + [Attempted(i, p, s.w.calls, t.result, LimitOf(env.budget) - spent)]);
    match t.result
    case Success(_) => Verdict(s1, false, t.result)
    case Failure(f) => Verdict(Recorded(s1, ATTEMPT, f), t.retry, t.result)
  }

  /** rekey: the provider to seal to again, when its key has changed. */
  function Rekeyed(env: Env, s: State, i: nat, stale: Provider): (State, Option<Provider>) {
    if !env.rereads then (s, None)
    else
      var r := Reread(env, s.spent, s.w, i, stale.encPubKey);
      var s1 := s.(w := r.w, spent := r.spent);
      if r.r.Failure? || r.r.value.encPubKey == stale.encPubKey then (s1, None) else (s1, Some(r.r.value))
  }

  function AttemptRekeying(env: Env, mode: Mode, s: State, i: nat, p: Provider, rekeyed: bool): Verdict
    decreases if rekeyed then 0 else 1
  {
    var v := Tries(env, mode, s, i, p);
    if v.result.Success? || !IsKeyMismatch(v.result.error) then v
    else if rekeyed || env.canceled(v.s.w.calls, Mismatched) || Exhausted(env, v.s) then v.(retry := true)
    else
      var (s1, renewed) := Rekeyed(env, v.s, i, p);
      if renewed.None? then Verdict(s1, true, v.result) else AttemptRekeying(env, mode, s1, i, renewed.value, true)
  }

  /** resolveErr. */
  function Resolve(f: Failure): Failure { if f.Fault? then f else Upstream(Resolving(f)) }

  function BudgetErr(env: Env, f: Failure): Failure { Upstream(OverBudget(LimitOf(env.budget), f)) }

  function GaveUp(s: State, why: Stop): Outcome {
    Outcome(s, Result.Failure(if s.held.err.None? then Upstream(NoCandidates) else s.held.err.value), why)
  }

  function Prepare(env: Env, s: State, i: nat): (State, Result<Provider, Failure>) {
    var r := Provided(env, s.spent, s.w, i);
    (s.(w := r.w, spent := r.spent, asked := s.asked + [Ask(i, s.w.calls, LimitOf(env.budget) - s.spent)]), r.r)
  }

  function WalkFrom(env: Env, mode: Mode, s: State, i: nat): Outcome
    requires i <= env.candidates
    decreases env.candidates - i
  {
    if i == env.candidates then GaveUp(s, RanOut)
    else
      var (s1, r) := Prepare(env, s, i);
      match r
      case Failure(f) =>
        if env.canceled(s1.w.calls, Preparing) then GaveUp(Recorded(s1, MATERIALIZE, Resolve(f)), Gone)
        else if Exhausted(env, s1) then GaveUp(Recorded(s1, BUDGET, BudgetErr(env, f)), OutOfBudget)
        else WalkFrom(env, mode, Recorded(s1, MATERIALIZE, Resolve(f)), i + 1)
      case Success(p) =>
        var v := AttemptRekeying(env, mode, s1, i, p, false);
        if v.result.Success? then Outcome(v.s, v.result, Won)
        else if !v.retry then Outcome(v.s, v.result, Terminal)
        else if env.canceled(v.s.w.calls, FallingBack) then GaveUp(v.s, Gone)
        else if Exhausted(env, v.s) then GaveUp(v.s, OutOfBudget)
        else WalkFrom(env, mode, v.s, i + 1)
  }

  function Start(now: int): State { State(World(now, 0, [], []), 0, Held(None, 0), [], []) }

  function Walk(env: Env, mode: Mode, now: int): Outcome { WalkFrom(env, mode, Start(now), 0) }

  // ---------------------------------------------------------------- The walk as the program runs it

  method RunAttempt(env: Env, mode: Mode, w: World, p: Provider) returns (t: Tried)
    ensures t == Attempt(env, mode, w, p)
  {
    if mode.Streaming? {
      t := Stream(env, w, p);
    } else {
      t := Attempt(env, mode, w, p);
    }
  }

  /** The state the fields of a walk and of its error stand for, with its history. */
  ghost predicate Shows(s: State, w: World, walk: CandidateWalk, fail: WalkErr)
    reads walk, fail
  {
    s.w == w && s.spent == walk.spent && s.held == Held(fail.err, fail.tier)
  }

  method Rekey(env: Env, ghost s: State, walk: CandidateWalk, fail: WalkErr, w: World, i: nat, stale: Provider)
    returns (w': World, renewed: Option<Provider>)
    requires Shows(s, w, walk, fail) && walk.budget == env.budget
    modifies walk
    ensures Shows(Rekeyed(env, s, i, stale).0, w', walk, fail) && renewed == Rekeyed(env, s, i, stale).1
  {
    if !env.rereads {
      return w, None;
    }
    var r;
    w', r := walk.Refresh(env, w, i, stale.encPubKey);
    if r.Failure? || r.value.encPubKey == stale.encPubKey {
      return w', None;
    }
    renewed := Some(r.value);
  }

  method RunRekeying(env: Env, mode: Mode, ghost before: State, walk: CandidateWalk, fail: WalkErr, w: World, i: nat, first: Provider)
    returns (w': World, retry: bool, result: Result<Output, Failure>, ghost after: State)
    requires Shows(before, w, walk, fail) && walk.budget == env.budget
    modifies walk, fail
    ensures Verdict(after, retry, result) == AttemptRekeying(env, mode, before, i, first, false)
    ensures Shows(after, w', walk, fail)
  {
    hide Attempt, Reread, Kept;
    var p, rekeyed := first, false;
    w', after := w, before;
    while true
      invariant Shows(after, w', walk, fail)
      invariant AttemptRekeying(env, mode, before, i, first, false) == AttemptRekeying(env, mode, after, i, p, rekeyed)
      decreases if rekeyed then 0 else 1
    {
      ghost var v := Tries(env, mode, after, i, p);
      var t := RunAttempt(env, mode, w', p);
      retry, result := t.retry, t.result;
      if result.Success? {
        w', after, retry := t.w, v.s, false;
        return;
      }
      walk.Charge(t.w.now - w'.now);
      fail.Record(ATTEMPT, result.error);
      w', after := t.w, v.s;
      if !IsKeyMismatch(result.error) {
        return;
      }
      var exhausted := walk.Exhausted();
      retry := true;
      if rekeyed || env.canceled(w'.calls, Mismatched) || exhausted {
        return;
      }
      ghost var r := Rekeyed(env, after, i, p);
      var renewed;
      w', renewed := Rekey(env, after, walk, fail, w', i, p);
      after := r.0;
      if renewed.None? {
        return;
      }
      p, rekeyed := renewed.value, true;
    }
  }

  /** The loop of Complete, CompleteStream and SubmitAsync. */
  method Run(env: Env, mode: Mode, now: int) returns (w: World, result: Result<Output, Failure>)
    ensures w == Walk(env, mode, now).s.w && result == Walk(env, mode, now).result
  {
    hide Provided, AttemptRekeying, Kept;
    var fail := new WalkErr();
    var walk := new CandidateWalk(env.budget);
    w := World(now, 0, [], []);
    ghost var s := Start(now);
    var i := 0;
    while i < env.candidates
      invariant 0 <= i <= env.candidates && Shows(s, w, walk, fail)
      invariant WalkFrom(env, mode, Start(now), 0) == WalkFrom(env, mode, s, i)
    {
      ghost var prepared := Prepare(env, s, i);
      var r;
      w, r := walk.Provider(env, w, i);
      s := prepared.0;
      var exhausted := walk.Exhausted();
      if r.Failure? {
        if env.canceled(w.calls, Preparing) {
          fail.Record(MATERIALIZE, Resolve(r.error));
          s := Recorded(s, MATERIALIZE, Resolve(r.error));
          break;
        }
        if exhausted {
          var limit := walk.Limit();
          fail.Record(BUDGET, Upstream(OverBudget(limit, r.error)));
          s := Recorded(s, BUDGET, BudgetErr(env, r.error));
          break;
        }
        fail.Record(MATERIALIZE, Resolve(r.error));
        s := Recorded(s, MATERIALIZE, Resolve(r.error));
      } else {
        var retry;
        w, retry, result, s := RunRekeying(env, mode, s, walk, fail, w, i, r.value);
        if result.Success? || !retry {
          return;
        }
        exhausted := walk.Exhausted();
        if env.canceled(w.calls, FallingBack) || exhausted {
          break;
        }
      }
      i := i + 1;
    }
    result := Result.Failure(if fail.err.None? then Upstream(NoCandidates) else fail.err.value);
  }
}
