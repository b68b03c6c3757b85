/** In what order a walk tries its candidates, what it reports, and how long it takes. */
module WalkOrder {
  import opened Wrappers
  import opened Attempts
  import opened Walking

  // ---------------------------------------------------------------- What an attempt leaves open

  /** On its reply, an attempt leaves the next candidate open. */
  ghost predicate FallsBack(env: Env, mode: Mode, k: nat, p: Provider) {
    match mode
    case Buffered => BufferedFallsBack(env, k, p)
    case Streaming => StreamingFallsBack(env, k, p)
    case Async => AsyncFallsBack(env, k, p)
  }

  /** On its failure, as attempt k, having delivered something or nothing. */
  predicate Recoverable(env: Env, mode: Mode, k: nat, silent: bool, f: Failure) {
    && Transient(f)
    && match mode
       case Buffered => true
       case Streaming => silent && (f.what.Aborted? ==> !env.canceled(k, Reading))
       case Async => f.what.Rejected?
  }

  /** An attempt asks for a fallback exactly over such a reply, which is exactly over such a failure. */
  lemma AttemptFallsBack(env: Env, mode: Mode, w: World, p: Provider)
    ensures var t := Attempt(env, mode, w, p); var silent := t.w.delivered == w.delivered;
            && (t.retry <==> FallsBack(env, mode, w.calls, p))
            && (t.retry <==> t.result.Failure? && Recoverable(env, mode, w.calls, silent, t.result.error))
            && (t.result.Failure? && silent && IsKeyMismatch(t.result.error) <==> RefusedAsStale(env, w.calls, p))
            && t.w.calls == w.calls + 1
  {
    hide CompleteOnce, StreamOnce, SubmitOnce, BufferedFallsBack, StreamingFallsBack, AsyncFallsBack, RefusedAsStale, Transient, IsKeyMismatch,
         EndsWell, Streams;
    match mode {
      case Buffered =>
        CompleteOnceFallsBack(env, w, p);
        CompleteOnceFrame(env, w, p);
      case Streaming =>
        StreamOnceFallsBack(env, w, p);
        var line, mine := StreamOnceDelivers(env, w, p);
      case Async =>
        SubmitOnceFallsBack(env, w, p);
        SubmitOnceMeans(env, w, p);
    }
  }

  // ---------------------------------------------------------------- Order

  /** What the list answered when it was asked. */
  ghost function Listed(env: Env, a: Ask): Result<Provider, Failure> { env.materialize(a.call, a.candidate, a.left).value }

  /** What it answers when the candidate of x is re-read, past the key of x, right after x. */
  ghost function RereadAfter(env: Env, x: Attempted): Result<Provider, Failure> {
    env.reread(x.call + 1, x.candidate, x.provider.encPubKey, x.left).value
  }

  ghost predicate Stale(x: Attempted) { x.result.Failure? && IsKeyMismatch(x.result.error) }

  /** x was refused for a stale key, the caller and the budget allow a re-read, and it gives another key. */
  ghost predicate CanRekey(env: Env, x: Attempted) {
    && Stale(x) && env.rereads && !env.canceled(x.call + 1, Mismatched) && x.left > 0
    && RereadAfter(env, x).Success? && RereadAfter(env, x).value.encPubKey != x.provider.encPubKey
  }

  /** y seals again, to the key re-read, what x was refused for. */
  ghost predicate IsRekeyOf(env: Env, y: Attempted, x: Attempted) {
    CanRekey(env, x) && y.candidate == x.candidate && y.call == x.call + 2 && RereadAfter(env, x) == Success(y.provider)
  }

  ghost predicate Failing(ats: seq<Attempted>) {
    forall a :: 0 <= a < |ats| ==> ats[a].result.Failure?
  }

  ghost predicate Before(ats: seq<Attempted>, i: nat) {
    forall a :: 0 <= a < |ats| ==> ats[a].candidate < i
  }

  /** Candidates come in order, the same one twice at most, and then as a re-key; only the last succeeds. */
  ghost predicate Ordered(env: Env, ats: seq<Attempted>) {
    forall a, b :: 0 <= a < b < |ats| ==>
      && ats[a].result.Failure?
      && ats[a].candidate <= ats[b].candidate
      && (ats[a].candidate == ats[b].candidate ==> b == a + 1 && IsRekeyOf(env, ats[b], ats[a]))
  }

  /** The candidates were asked for from the first, none skipped and none twice, each with budget left. */
  ghost predicate InOrder(asked: seq<Ask>) {
    forall j :: 0 <= j < |asked| ==> asked[j].candidate == j && asked[j].left > 0
  }

  /** Attempt a is the first of its candidate. */
  predicate First(ats: seq<Attempted>, a: nat)
    requires a < |ats|
  {
    a == 0 || ats[a - 1].candidate != ats[a].candidate
  }

  /** The first attempt at a candidate is sealed, at once, to what the list answered for it. */
  ghost predicate Sourced(env: Env, asked: seq<Ask>, x: Attempted) {
    x.candidate < |asked| &&
    var ask := asked[x.candidate];
    ask.candidate == x.candidate && x.call == ask.call + 1 && Listed(env, ask) == Success(x.provider)
  }

  /** The end noted is that of the attempt. */
  ghost predicate Made(env: Env, mode: Mode, a: Attempted) {
    exists w: World :: w.calls == a.call && Attempt(env, mode, w, a.provider).result == a.result
  }

  ghost predicate Honest(env: Env, mode: Mode, asked: seq<Ask>, ats: seq<Attempted>) {
    forall a :: 0 <= a < |ats| ==> Made(env, mode, ats[a]) && (First(ats, a) ==> Sourced(env, asked, ats[a]))
  }

  /** Attempt a is sealed to what the list gave for its candidate: prepared, or re-read past the key just refused. */
  ghost predicate SealedToListed(env: Env, asked: seq<Ask>, ats: seq<Attempted>, a: nat)
    requires a < |ats|
  {
    if First(ats, a) then Sourced(env, asked, ats[a]) else IsRekeyOf(env, ats[a], ats[a - 1])
  }

  ghost predicate WasTried(ats: seq<Attempted>, j: nat) { exists a :: 0 <= a < |ats| && ats[a].candidate == j }

  /** Every candidate that was prepared is tried, and every first attempt that allows a re-key is followed by one. */
  ghost predicate NoneLeftOut(env: Env, asked: seq<Ask>, ats: seq<Attempted>) {
    && (forall j :: 0 <= j < |asked| && Listed(env, asked[j]).Success? ==> WasTried(ats, j))
    && (forall a :: 0 <= a < |ats| && First(ats, a) && CanRekey(env, ats[a]) ==> a + 1 < |ats| && !First(ats, a + 1))
  }

  /** Where the caller is looked for before the candidate after j. */
  ghost function SiteAfter(ats: seq<Attempted>, j: nat): Site { if WasTried(ats, j) then FallingBack else Preparing }

  /** Each candidate but the first was asked for with the caller still there. */
  ghost predicate InCompany(env: Env, asked: seq<Ask>, ats: seq<Attempted>) {
    forall j :: 0 < j < |asked| ==> !env.canceled(asked[j].call, SiteAfter(ats, j - 1))
  }

  /** Another attempt may follow this one: its reply leaves the next candidate open, or was a stale key. */
  ghost predicate LeavesOpen(env: Env, mode: Mode, x: Attempted) {
    x.result.Failure? && (FallsBack(env, mode, x.call, x.provider) || Stale(x))
  }

  ghost predicate AllOpen(env: Env, mode: Mode, ats: seq<Attempted>) {
    forall a :: 0 <= a < |ats| ==> LeavesOpen(env, mode, ats[a])
  }

  /** A walk's history, up to a point where it may go on to the next candidate. */
  ghost predicate History(env: Env, mode: Mode, asked: seq<Ask>, ats: seq<Attempted>) {
    && InOrder(asked) && Ordered(env, ats) && Before(ats, |asked|) && Honest(env, mode, asked, ats)
    && NoneLeftOut(env, asked, ats) && InCompany(env, asked, ats)
  }

  /** What one candidate adds: nothing when it was not prepared, else one attempt, or two with the second a re-key. */
  ghost predicate Visit(env: Env, mode: Mode, ask: Ask, tries: seq<Attempted>) {
    match Listed(env, ask)
    case Failure(_) => tries == []
    case Success(p) =>
      && 1 <= |tries| <= 2 && (|tries| == 2 <==> CanRekey(env, tries[0]))
      && tries[0].candidate == ask.candidate && tries[0].call == ask.call + 1 && tries[0].provider == p
      && (|tries| == 2 ==> IsRekeyOf(env, tries[1], tries[0]))
      && forall a :: 0 <= a < |tries| ==> Made(env, mode, tries[a])
  }

  lemma VisitOrdered(env: Env, mode: Mode, ats: seq<Attempted>, ask: Ask, tries: seq<Attempted>)
    requires Ordered(env, ats) && Before(ats, ask.candidate) && Failing(ats) && Visit(env, mode, ask, tries)
    ensures Ordered(env, ats + tries) && Before(ats + tries, ask.candidate + 1)
  {
    hide Made, CanRekey, RereadAfter, Listed;
    var all := ats + tries;
    forall a, b | 0 <= a < b < |all|
      ensures && all[a].result.Failure? && all[a].candidate <= all[b].candidate
              && (all[a].candidate == all[b].candidate ==> b == a + 1 && IsRekeyOf(env, all[b], all[a]))
    {
      if b < |ats| {
        assert all[a] == ats[a] && all[b] == ats[b];
      } else if a < |ats| {
        assert all[a] == ats[a] && all[b] == tries[b - |ats|];
      } else {
        assert all[a] == tries[0] && all[b] == tries[1];
        RekeyMeans(env, tries[1], tries[0]);
      }
    }
  }

  lemma RekeyMeans(env: Env, y: Attempted, x: Attempted)
    requires IsRekeyOf(env, y, x)
    ensures x.result.Failure? && y.candidate == x.candidate
  {
  }

  lemma VisitHonest(env: Env, mode: Mode, asked: seq<Ask>, ats: seq<Attempted>, ask: Ask, tries: seq<Attempted>)
    requires InOrder(asked) && Before(ats, |asked|) && Honest(env, mode, asked, ats)
    requires ask.candidate == |asked| && Visit(env, mode, ask, tries)
    ensures Honest(env, mode, asked + [ask], ats + tries)
  {
    hide Made, CanRekey, RereadAfter, Listed;
    var all, asked' := ats + tries, asked + [ask];
    forall a | 0 <= a < |all| ensures Made(env, mode, all[a]) && (First(all, a) ==> Sourced(env, asked', all[a])) {
      if a < |ats| {
        assert all[a] == ats[a] && First(all, a) == First(ats, a);
        assert First(ats, a) ==> asked'[ats[a].candidate] == asked[ats[a].candidate];
      } else {
        assert all[a] == tries[a - |ats|] && asked'[|asked|] == ask;
        if a == |ats| + 1 {
          RekeyMeans(env, tries[1], tries[0]);
          assert all[a - 1] == tries[0];
        }
      }
    }
  }

  lemma TriedStays(ats: seq<Attempted>, tries: seq<Attempted>, j: nat)
    requires forall a :: 0 <= a < |tries| ==> tries[a].candidate != j
    ensures WasTried(ats + tries, j) == WasTried(ats, j)
  {
    var all := ats + tries;
    if WasTried(all, j) {
      var a :| 0 <= a < |all| && all[a].candidate == j;
      assert a < |ats| && ats[a] == all[a];
    }
    if WasTried(ats, j) {
      var a :| 0 <= a < |ats| && ats[a].candidate == j;
      assert all[a] == ats[a];
    }
  }

  lemma VisitCandidates(env: Env, mode: Mode, ask: Ask, tries: seq<Attempted>)
    requires Visit(env, mode, ask, tries)
    ensures forall a :: 0 <= a < |tries| ==> tries[a].candidate == ask.candidate
    ensures Listed(env, ask).Success? <==> tries != []
  {
  }

  lemma VisitLeavesNoneOut(env: Env, mode: Mode, asked: seq<Ask>, ats: seq<Attempted>, ask: Ask, tries: seq<Attempted>)
    requires Before(ats, |asked|) && NoneLeftOut(env, asked, ats)
    requires ask.candidate == |asked| && Visit(env, mode, ask, tries)
    ensures NoneLeftOut(env, asked + [ask], ats + tries)
  {
    hide Made, RereadAfter;
    VisitCandidates(env, mode, ask, tries);
    hide Listed, CanRekey;
    var all, asked' := ats + tries, asked + [ask];
    forall j | 0 <= j < |asked'| && Listed(env, asked'[j]).Success? ensures WasTried(all, j) {
      if j < |asked| {
        assert asked'[j] == asked[j];
        TriedStays(ats, tries, j);
      } else {
        assert all[|ats|] == tries[0];
      }
    }
    forall a | 0 <= a < |all| && First(all, a) && CanRekey(env, all[a]) ensures a + 1 < |all| && !First(all, a + 1) {
      if a < |ats| {
        assert all[a] == ats[a] && First(ats, a);
        assert a + 1 < |ats| && all[a + 1] == ats[a + 1] && !First(ats, a + 1);
        assert !First(all, a + 1);
      } else {
        assert all[a] == tries[a - |ats|];
        assert a == |ats| && all[a + 1] == tries[1];
        assert !First(all, a + 1);
      }
    }
  }

  lemma VisitInCompany(env: Env, mode: Mode, asked: seq<Ask>, ats: seq<Attempted>, ask: Ask, tries: seq<Attempted>)
    requires InCompany(env, asked, ats) && ask.candidate == |asked| && Visit(env, mode, ask, tries)
    requires asked != [] ==> !env.canceled(ask.call, SiteAfter(ats, |asked| - 1))
    ensures InCompany(env, asked + [ask], ats + tries)
  {
    VisitCandidates(env, mode, ask, tries);
    hide Visit, WasTried;
    var all, asked' := ats + tries, asked + [ask];
    forall j | 0 < j < |asked'| ensures !env.canceled(asked'[j].call, SiteAfter(all, j - 1)) {
      TriedStays(ats, tries, j - 1);
      assert j < |asked| ==> asked'[j] == asked[j];
    }
  }

  /** One more candidate keeps the history. */
  lemma VisitKeeps(env: Env, mode: Mode, asked: seq<Ask>, ats: seq<Attempted>, ask: Ask, tries: seq<Attempted>)
    requires History(env, mode, asked, ats) && Failing(ats)
    requires ask.candidate == |asked| && ask.left > 0 && Visit(env, mode, ask, tries)
    requires asked != [] ==> !env.canceled(ask.call, SiteAfter(ats, |asked| - 1))
    ensures History(env, mode, asked + [ask], ats + tries)
    ensures WasTried(ats + tries, |asked|) <==> tries != []
  {
    VisitCandidates(env, mode, ask, tries);
    hide Visit, Ordered, Honest, NoneLeftOut, InCompany, SiteAfter;
    VisitOrdered(env, mode, ats, ask, tries);
    VisitHonest(env, mode, asked, ats, ask, tries);
    VisitLeavesNoneOut(env, mode, asked, ats, ask, tries);
    VisitInCompany(env, mode, asked, ats, ask, tries);
    if tries != [] {
      assert (ats + tries)[|ats|] == tries[0];
    }
  }

  lemma TriesMakes(env: Env, mode: Mode, s: State, i: nat, p: Provider)
    ensures var v := Tries(env, mode, s, i, p); var x := Attempted(i, p, s.w.calls, v.result, LimitOf(env.budget) - v.s.spent);
            && v.s.attempts == s.attempts + [x] && v.s.asked == s.asked && v.s.w.calls == s.w.calls + 1
            && Made(env, mode, x)
            && (v.retry <==> v.result.Failure? && FallsBack(env, mode, x.call, p))
  {
    AttemptFallsBack(env, mode, s.w, p);
    hide Attempt, FallsBack, Recoverable, RefusedAsStale;
    var v := Tries(env, mode, s, i, p);
    assert v.result == Attempt(env, mode, s.w, p).result;
  }

  lemma RekeyedMeans(env: Env, s: State, i: nat, p: Provider)
    ensures var (s1, renewed) := Rekeyed(env, s, i, p); var left := LimitOf(env.budget) - s.spent;
            && s1.attempts == s.attempts && s1.asked == s.asked && s1.held == s.held
            && (renewed.Some? ==> s1.w.calls == s.w.calls + 1)
            && (left > 0 ==>
                  var r := env.reread(s.w.calls, i, p.encPubKey, left).value;
                  renewed == if env.rereads && r.Success? && r.value.encPubKey != p.encPubKey then Some(r.value) else None)
  {
  }

  /** What AttemptRekeying adds: one attempt, or two, the second exactly when the first allows a re-key. */
  lemma RekeyingOrder(env: Env, mode: Mode, s: State, i: nat, p: Provider, ask: Ask) returns (tries: seq<Attempted>)
    requires ask.candidate == i && s.w.calls == ask.call + 1 && Listed(env, ask) == Success(p)
    ensures var v := AttemptRekeying(env, mode, s, i, p, false);
            && Visit(env, mode, ask, tries) && tries != []
            && v.s.asked == s.asked && v.s.attempts == s.attempts + tries
            && v.result == tries[|tries| - 1].result
            && (v.result.Failure? ==> (v.retry <==> LeavesOpen(env, mode, tries[|tries| - 1])))
            && (|tries| == 2 ==> LeavesOpen(env, mode, tries[0]))
  {
    hide Tries, Rekeyed, Listed, Made, FallsBack, IsKeyMismatch;
    var v := Tries(env, mode, s, i, p);
    var x := Attempted(i, p, s.w.calls, v.result, LimitOf(env.budget) - v.s.spent);
    TriesMakes(env, mode, s, i, p);
    tries := [x];
    if v.result.Failure? && IsKeyMismatch(v.result.error) && !env.canceled(v.s.w.calls, Mismatched) && !Exhausted(env, v.s) {
      RekeyedMeans(env, v.s, i, p);
      var (s1, renewed) := Rekeyed(env, v.s, i, p);
      assert renewed.Some? <==> CanRekey(env, x);
      if renewed.Some? {
        var v2 := Tries(env, mode, s1, i, renewed.value);
        TriesMakes(env, mode, s1, i, renewed.value);
        var y := Attempted(i, renewed.value, s1.w.calls, v2.result, LimitOf(env.budget) - v2.s.spent);
        tries := [x, y];
        assert s.attempts + [x] + [y] == s.attempts + tries;
        assert AttemptRekeying(env, mode, s1, i, renewed.value, true).s.attempts == v2.s.attempts;
      }
    }
  }

  lemma PrepareMeans(env: Env, s: State, i: nat)
    requires !Exhausted(env, s)
    ensures var (s1, r) := Prepare(env, s, i); var ask := Ask(i, s.w.calls, LimitOf(env.budget) - s.spent);
            && s1.attempts == s.attempts && s1.asked == s.asked + [ask] && s1.held == s.held && s1.w.calls == s.w.calls + 1
            && ask.left > 0 && r == Listed(env, ask)
  {
  }

  /** Why a walk stopped after its last candidate: tried or not, open or not, and what the caller and the budget were then. */
  ghost predicate StopsFor(env: Env, mode: Mode, o: Outcome) {
    var ats, n := o.s.attempts, |o.s.asked|;
    var tried := n > 0 && WasTried(ats, n - 1);
    && (tried ==> ats[|ats| - 1].candidate == n - 1)
    && (o.why == Won <==> tried && ats[|ats| - 1].result.Success?)
    && (o.why == Terminal <==> tried && ats[|ats| - 1].result.Failure? && !LeavesOpen(env, mode, ats[|ats| - 1]))
    && (o.why == Won || o.why == Terminal ==> o.result == ats[|ats| - 1].result)
    && (o.why != Won && o.why != Terminal ==>
          var gone := n > 0 && env.canceled(o.s.w.calls, SiteAfter(ats, n - 1));
          && o.result.Failure?
          && (o.why == Gone <==> gone)
          && (o.why == OutOfBudget <==> !gone && Exhausted(env, o.s))
          && (o.why == RanOut ==> n == env.candidates))
  }

  ghost predicate WellOrdered(env: Env, mode: Mode, o: Outcome) {
    var ats, asked := o.s.attempts, o.s.asked;
    && |asked| <= env.candidates && History(env, mode, asked, ats)
    && (forall a :: 0 <= a < |ats| && (a < |ats| - 1 || ats[a].candidate < |asked| - 1) ==> LeavesOpen(env, mode, ats[a]))
    && StopsFor(env, mode, o)
  }

  lemma LastOfTried(env: Env, ats: seq<Attempted>, n: nat)
    requires Ordered(env, ats) && Before(ats, n + 1) && WasTried(ats, n)
    ensures ats != [] && ats[|ats| - 1].candidate == n
  {
    var a :| 0 <= a < |ats| && ats[a].candidate == n;
    if a < |ats| - 1 {
      assert ats[a].candidate <= ats[|ats| - 1].candidate;
    }
  }

  lemma NotTried(ats: seq<Attempted>, n: nat)
    requires Before(ats, n)
    ensures !WasTried(ats, n)
  {
  }

  lemma OpenFails(env: Env, mode: Mode, x: Attempted)
    ensures LeavesOpen(env, mode, x) ==> x.result.Failure?
  {
  }

  /** After a visit: only its last attempt may have succeeded, or not leave the walk open. */
  lemma VisitOpens(env: Env, mode: Mode, ats: seq<Attempted>, ask: Ask, tries: seq<Attempted>)
    requires Failing(ats) && AllOpen(env, mode, ats) && Visit(env, mode, ask, tries)
    requires |tries| == 2 ==> LeavesOpen(env, mode, tries[0])
    ensures forall a :: 0 <= a < |ats + tries| - 1 ==> LeavesOpen(env, mode, (ats + tries)[a])
    ensures tries == [] || LeavesOpen(env, mode, tries[|tries| - 1]) ==> Failing(ats + tries) && AllOpen(env, mode, ats + tries)
    ensures tries != [] ==> ats + tries != [] && (ats + tries)[|ats + tries| - 1] == tries[|tries| - 1]
                            && tries[|tries| - 1].candidate == ask.candidate
  {
    hide LeavesOpen, Visit, Listed;
    VisitCandidates(env, mode, ask, tries);
    VisitIsShort(env, mode, ask, tries);
    var all := ats + tries;
    if tries != [] {
      OpenFails(env, mode, tries[0]);
      OpenFails(env, mode, tries[|tries| - 1]);
    }
  }

  lemma VisitIsShort(env: Env, mode: Mode, ask: Ask, tries: seq<Attempted>)
    requires Visit(env, mode, ask, tries)
    ensures |tries| <= 2
  {
  }

  /** A walk may go on from here: it was not stopped after any candidate so far. */
  ghost predicate MayGoOn(env: Env, mode: Mode, s: State) {
    && History(env, mode, s.asked, s.attempts) && Failing(s.attempts) && AllOpen(env, mode, s.attempts)
    && !Exhausted(env, s) && (s.asked != [] ==> !env.canceled(s.w.calls, SiteAfter(s.attempts, |s.asked| - 1)))
  }

  lemma StopsAtTheEnd(env: Env, mode: Mode, s: State)
    requires MayGoOn(env, mode, s) && |s.asked| == env.candidates
    ensures WellOrdered(env, mode, GaveUp(s, RanOut))
  {
    hide Honest, InCompany, NoneLeftOut, LeavesOpen, WasTried, InOrder;
    if s.asked != [] && WasTried(s.attempts, |s.asked| - 1) {
      LastOfTried(env, s.attempts, |s.asked| - 1);
    }
  }

  /** A candidate that could not be prepared, and the walk stops there. */
  lemma StopsUnprepared(env: Env, mode: Mode, s: State, why: Stop)
    requires s.asked != [] && |s.asked| <= env.candidates && History(env, mode, s.asked, s.attempts)
    requires AllOpen(env, mode, s.attempts) && !WasTried(s.attempts, |s.asked| - 1)
    requires why == if env.canceled(s.w.calls, Preparing) then Gone else OutOfBudget
    requires why == OutOfBudget ==> Exhausted(env, s)
    ensures WellOrdered(env, mode, GaveUp(s, why))
  {
    hide History, LeavesOpen, WasTried;
  }

  /** The walk stops after trying a candidate. */
  lemma StopsTried(env: Env, mode: Mode, s: State, o: Outcome, last: Attempted)
    requires s.asked != [] && |s.asked| <= env.candidates && History(env, mode, s.asked, s.attempts) && o.s == s
    requires s.attempts != [] && last == s.attempts[|s.attempts| - 1] && last.candidate == |s.asked| - 1
    requires WasTried(s.attempts, |s.asked| - 1)
    requires forall a :: 0 <= a < |s.attempts| - 1 ==> LeavesOpen(env, mode, s.attempts[a])
    requires if last.result.Success? then o.result == last.result && o.why == Won
             else if !LeavesOpen(env, mode, last) then o.result == last.result && o.why == Terminal
             else o.result.Failure? && if env.canceled(s.w.calls, FallingBack) then o.why == Gone else o.why == OutOfBudget && Exhausted(env, s)
    ensures WellOrdered(env, mode, o)
  {
    hide History, LeavesOpen, WasTried;
    OpenFails(env, mode, last);
  }

  lemma MayGoOnMeans(env: Env, mode: Mode, s: State)
    requires MayGoOn(env, mode, s)
    ensures History(env, mode, s.asked, s.attempts) && Failing(s.attempts) && AllOpen(env, mode, s.attempts) && !Exhausted(env, s)
    ensures s.asked != [] ==> !env.canceled(s.w.calls, SiteAfter(s.attempts, |s.asked| - 1))
    ensures Before(s.attempts, |s.asked|)
  {
    hide InOrder, Ordered, Honest, NoneLeftOut, InCompany, LeavesOpen;
  }

  lemma GoesOn(env: Env, mode: Mode, s: State)
    requires History(env, mode, s.asked, s.attempts) && Failing(s.attempts) && AllOpen(env, mode, s.attempts) && !Exhausted(env, s)
    requires s.asked != [] ==> !env.canceled(s.w.calls, SiteAfter(s.attempts, |s.asked| - 1))
    ensures MayGoOn(env, mode, s)
  {
  }

  /** The walk goes on after a candidate that could not be prepared, or stops there. */
  lemma UnpreparedStep(env: Env, mode: Mode, s: State, i: nat)
    requires MayGoOn(env, mode, s) && i == |s.asked| < env.candidates && Prepare(env, s, i).1.Failure?
    ensures var (s1, r) := Prepare(env, s, i); var gone := env.canceled(s1.w.calls, Preparing);
            && (!gone && !Exhausted(env, s1) ==> MayGoOn(env, mode, Recorded(s1, MATERIALIZE, Resolve(r.error))))
            && (gone ==> WellOrdered(env, mode, GaveUp(Recorded(s1, MATERIALIZE, Resolve(r.error)), Gone)))
            && (!gone && Exhausted(env, s1) ==> WellOrdered(env, mode, GaveUp(Recorded(s1, BUDGET, BudgetErr(env, r.error)), OutOfBudget)))
  {
    hide Prepare, History, Listed, LeavesOpen, WasTried, MayGoOn, WellOrdered;
    MayGoOnMeans(env, mode, s);
    PrepareMeans(env, s, i);
    var (s1, r) := Prepare(env, s, i);
    var ask := Ask(i, s.w.calls, LimitOf(env.budget) - s.spent);
    assert Visit(env, mode, ask, []);
    VisitKeeps(env, mode, s.asked, s.attempts, ask, []);
    assert s.attempts + [] == s.attempts;
    var gone := env.canceled(s1.w.calls, Preparing);
    if gone {
      StopsUnprepared(env, mode, Recorded(s1, MATERIALIZE, Resolve(r.error)), Gone);
    } else if Exhausted(env, s1) {
      StopsUnprepared(env, mode, Recorded(s1, BUDGET, BudgetErr(env, r.error)), OutOfBudget);
    } else {
      GoesOn(env, mode, Recorded(s1, MATERIALIZE, Resolve(r.error)));
    }
  }

  /** The walk goes on after a candidate it tried, or stops there. */
  lemma TriedStep(env: Env, mode: Mode, s: State, i: nat)
    requires MayGoOn(env, mode, s) && i == |s.asked| < env.candidates && Prepare(env, s, i).1.Success?
    ensures var (s1, r) := Prepare(env, s, i); var v := AttemptRekeying(env, mode, s1, i, r.value, false);
            if v.result.Success? then WellOrdered(env, mode, Outcome(v.s, v.result, Won))
            else if !v.retry then WellOrdered(env, mode, Outcome(v.s, v.result, Terminal))
            else if env.canceled(v.s.w.calls, FallingBack) then WellOrdered(env, mode, GaveUp(v.s, Gone))
            else if Exhausted(env, v.s) then WellOrdered(env, mode, GaveUp(v.s, OutOfBudget))
            else MayGoOn(env, mode, v.s) && v.s.asked == s1.asked
  {
    hide Prepare, AttemptRekeying, Visit, History, Listed, LeavesOpen, WasTried, MayGoOn, WellOrdered, AllOpen, Failing;
    MayGoOnMeans(env, mode, s);
    PrepareMeans(env, s, i);
    var (s1, r) := Prepare(env, s, i);
    var ask := Ask(i, s.w.calls, LimitOf(env.budget) - s.spent);
    var tries := RekeyingOrder(env, mode, s1, i, r.value, ask);
    VisitKeeps(env, mode, s.asked, s.attempts, ask, tries);
    VisitOpens(env, mode, s.attempts, ask, tries);
    var v := AttemptRekeying(env, mode, s1, i, r.value, false);
    var last := tries[|tries| - 1];
    OpenFails(env, mode, last);
    if v.result.Success? {
      StopsTried(env, mode, v.s, Outcome(v.s, v.result, Won), last);
    } else if !v.retry {
      StopsTried(env, mode, v.s, Outcome(v.s, v.result, Terminal), last);
    } else if env.canceled(v.s.w.calls, FallingBack) {
      StopsTried(env, mode, v.s, GaveUp(v.s, Gone), last);
    } else if Exhausted(env, v.s) {
      StopsTried(env, mode, v.s, GaveUp(v.s, OutOfBudget), last);
    } else {
      GoesOn(env, mode, v.s);
    }
  }

  lemma {:induction false} WalkFromIsOrdered(env: Env, mode: Mode, s: State, i: nat)
    requires MayGoOn(env, mode, s) && i == |s.asked| <= env.candidates
    ensures WellOrdered(env, mode, WalkFrom(env, mode, s, i))
    decreases env.candidates - i
  {
    hide MayGoOn, Prepare, AttemptRekeying, WellOrdered;
    if i == env.candidates {
      StopsAtTheEnd(env, mode, s);
    } else {
      MayGoOnMeans(env, mode, s);
      PrepareMeans(env, s, i);
      var (s1, r) := Prepare(env, s, i);
      match r {
        case Failure(f) =>
          UnpreparedStep(env, mode, s, i);
          if !env.canceled(s1.w.calls, Preparing) && !Exhausted(env, s1) {
            WalkFromIsOrdered(env, mode, Recorded(s1, MATERIALIZE, Resolve(f)), i + 1);
          }
        case Success(p) =>
          TriedStep(env, mode, s, i);
          var v := AttemptRekeying(env, mode, s1, i, p, false);
          if v.result.Failure? && v.retry && !env.canceled(v.s.w.calls, FallingBack) && !Exhausted(env, v.s) {
            WalkFromIsOrdered(env, mode, v.s, i + 1);
          }
      }
    }
  }

  lemma StartMayGoOn(env: Env, mode: Mode, now: int)
    ensures MayGoOn(env, mode, Start(now))
  {
  }

  /**
   The whole course of a walk. Candidates are asked for in the order of the list, with budget left and the
   caller there; each that is prepared is tried, a second time exactly when a stale key allows it, and then
   under the key re-read; every attempt another one follows left the next candidate open by its reply or was
   refused for a stale key. A walk ends with the attempt that succeeded, or with one whose failure would recur,
   and else exactly because its caller was gone, its budget spent, or the list at its end.
   */
  lemma WalkIsOrdered(env: Env, mode: Mode, now: int)
    ensures WellOrdered(env, mode, Walk(env, mode, now))
  {
    StartMayGoOn(env, mode, now);
    WalkFromIsOrdered(env, mode, Start(now), 0);
  }

  /** Whatever is attempted is sealed to what the list gave, and its end is noted as it was. */
  lemma WalkSealsToListed(env: Env, mode: Mode, now: int)
    ensures var s := Walk(env, mode, now).s;
            forall a :: 0 <= a < |s.attempts| ==> SealedToListed(env, s.asked, s.attempts, a) && Made(env, mode, s.attempts[a])
  {
    hide Walk, Made, Sourced, IsRekeyOf, NoneLeftOut, InCompany, StopsFor, LeavesOpen;
    WalkIsOrdered(env, mode, now);
    var s := Walk(env, mode, now).s;
    forall a | 0 <= a < |s.attempts| && !First(s.attempts, a) ensures IsRekeyOf(env, s.attempts[a], s.attempts[a - 1]) {
      assert s.attempts[a - 1].candidate == s.attempts[a].candidate;
    }
  }

  /** Every attempt that another one follows left the next candidate open by its reply, or was a stale key. */
  lemma WalkMovesOnly(env: Env, mode: Mode, now: int)
    ensures var ats := Walk(env, mode, now).s.attempts;
            forall a :: 0 <= a < |ats| - 1 ==> LeavesOpen(env, mode, ats[a])
  {
    hide History, LeavesOpen, StopsFor, Walk;
    WalkIsOrdered(env, mode, now);
  }

  // ---------------------------------------------------------------- Which failure is reported

  /** f is the list's own failure to prepare the candidate, or wraps it if it names no stage. */
  ghost predicate CouldNotPrepare(env: Env, a: Ask, f: Failure) {
    Listed(env, a).Failure? && f == if Listed(env, a).error.Fault? then Listed(env, a).error else Upstream(Resolving(Listed(env, a).error))
  }

  /** Held is the latest answer of a provider, or, before there is one, the latest failure to prepare a candidate. */
  ghost predicate HoldsTheLast(env: Env, s: State) {
    if s.attempts != [] then
      var end := s.attempts[|s.attempts| - 1].result;
      end.Failure? && s.held == Held(Some(end.error), ATTEMPT)
    else if s.asked == [] then s.held.err.None?
    else
      var n := |s.asked| - 1;
      s.held.err.Some? && s.held.tier == MATERIALIZE && CouldNotPrepare(env, s.asked[n], s.held.err.value)
  }

  lemma RekeyingHolds(env: Env, mode: Mode, s: State, i: nat, p: Provider)
    requires s.held.err.None? || s.held.tier <= ATTEMPT
    ensures var v := AttemptRekeying(env, mode, s, i, p, false);
            v.result.Failure? ==> v.s.attempts != [] && HoldsTheLast(env, v.s) && v.s.held.err == Some(v.result.error)
  {
    hide Attempt, Rekeyed;
    var v := Tries(env, mode, s, i, p);
    if v.result.Failure? && IsKeyMismatch(v.result.error) && !env.canceled(v.s.w.calls, Mismatched) && !Exhausted(env, v.s) {
      RekeyedMeans(env, v.s, i, p);
      var (s1, renewed) := Rekeyed(env, v.s, i, p);
    }
  }

  /** A walk that fails reports the last provider that answered; with none, why the budget cut it or who could not be prepared. */
  ghost predicate ReportsTheBest(env: Env, o: Outcome) {
    o.result.Failure? ==>
      if o.s.attempts != [] then o.result == o.s.attempts[|o.s.attempts| - 1].result
      else if o.s.asked == [] then o.result.error == Upstream(NoCandidates)
      else
        var last := o.s.asked[|o.s.asked| - 1];
        if o.why == OutOfBudget then Listed(env, last).Failure? && o.result.error == BudgetErr(env, Listed(env, last).error)
        else CouldNotPrepare(env, last, o.result.error)
  }

  lemma {:induction false} WalkFromReports(env: Env, mode: Mode, s: State, i: nat)
    requires i <= env.candidates && HoldsTheLast(env, s) && !Exhausted(env, s)
    ensures ReportsTheBest(env, WalkFrom(env, mode, s, i))
    decreases env.candidates - i
  {
    hide Listed, Prepare, AttemptRekeying;
    if i < env.candidates {
      PrepareMeans(env, s, i);
      var (s1, r) := Prepare(env, s, i);
      match r {
        case Failure(f) =>
          var s2 := Recorded(s1, MATERIALIZE, Resolve(f));
          if !env.canceled(s1.w.calls, Preparing) && !Exhausted(env, s1) {
            WalkFromReports(env, mode, s2, i + 1);
          }
        case Success(p) =>
          RekeyingHolds(env, mode, s1, i, p);
          var v := AttemptRekeying(env, mode, s1, i, p, false);
          if v.result.Failure? && v.retry && !env.canceled(v.s.w.calls, FallingBack) && !Exhausted(env, v.s) {
            WalkFromReports(env, mode, v.s, i + 1);
          }
      }
    }
  }

  lemma WalkReports(env: Env, mode: Mode, now: int)
    ensures ReportsTheBest(env, Walk(env, mode, now))
  {
    WalkFromReports(env, mode, Start(now), 0);
  }

  /** Whatever the tiers, what is kept of a list of failures is the latest of the most telling tier among them. */
  function KeptOf(recs: seq<(nat, Failure)>): Held {
    if recs == [] then Held(None, 0)
    else Kept(KeptOf(recs[..|recs| - 1]), recs[|recs| - 1].0, recs[|recs| - 1].1)
  }

  lemma {:induction false} KeepsTheLatestOfTheBest(recs: seq<(nat, Failure)>) returns (k: nat)
    requires recs != []
    ensures k < |recs| && KeptOf(recs) == Held(Some(recs[k].1), recs[k].0)
    ensures forall j :: 0 <= j < |recs| ==> recs[j].0 <= recs[k].0
    ensures forall j :: k < j < |recs| ==> recs[j].0 < recs[k].0
  {
    var n := |recs| - 1;
    if n == 0 {
      k := 0;
    } else {
      k := KeepsTheLatestOfTheBest(recs[..n]);
      if recs[n].0 >= recs[k].0 {
        k := n;
      }
    }
  }

  // ---------------------------------------------------------------- Time

  /** Preparing and re-reading return by the deadline they are given. */
  ghost predicate KeepsDeadlines(env: Env) {
    && (forall k, i, left :: left > 0 ==> env.materialize(k, i, left).dur <= left)
    && (forall k, i, stale, left :: left > 0 ==> env.reread(k, i, stale, left).dur <= left)
  }

  /** No attempt takes longer than t. */
  ghost predicate AttemptsWithin(env: Env, mode: Mode, t: nat) {
    forall w, p :: Attempt(env, mode, w, p).w.now - w.now <= t
  }

  /** All the time a walk that has not ended has taken is charged to it. */
  ghost predicate Charged(env: Env, s: State, start: int) { s.w.now - start == s.spent }

  lemma PrepareTakes(env: Env, s: State, i: nat, start: int)
    requires KeepsDeadlines(env) && Charged(env, s, start) && !Exhausted(env, s)
    ensures var s1 := Prepare(env, s, i).0;
            Charged(env, s1, start) && s1.spent <= LimitOf(env.budget)
  {
  }

  lemma TriesTakes(env: Env, mode: Mode, s: State, i: nat, p: Provider, start: int, t: nat)
    requires AttemptsWithin(env, mode, t) && Charged(env, s, start) && s.spent <= LimitOf(env.budget)
    ensures var v := Tries(env, mode, s, i, p);
            v.s.w.now - start <= LimitOf(env.budget) + t && (v.result.Failure? ==> Charged(env, v.s, start))
  {
    hide Attempt;
    assert Attempt(env, mode, s.w, p).w.now - s.w.now <= t;
  }

  lemma RekeyedTakes(env: Env, s: State, i: nat, p: Provider, start: int)
    requires KeepsDeadlines(env) && Charged(env, s, start) && !Exhausted(env, s)
    ensures var s1 := Rekeyed(env, s, i, p).0;
            Charged(env, s1, start) && s1.spent <= LimitOf(env.budget)
  {
  }

  lemma RekeyingTakes(env: Env, mode: Mode, s: State, i: nat, p: Provider, start: int, t: nat)
    requires KeepsDeadlines(env) && AttemptsWithin(env, mode, t)
    requires Charged(env, s, start) && s.spent <= LimitOf(env.budget)
    ensures var v := AttemptRekeying(env, mode, s, i, p, false);
            v.s.w.now - start <= LimitOf(env.budget) + t && (v.result.Failure? ==> Charged(env, v.s, start))
  {
    hide Tries, Rekeyed, Charged, KeepsDeadlines, AttemptsWithin;
    var v := Tries(env, mode, s, i, p);
    TriesTakes(env, mode, s, i, p, start, t);
    if v.result.Failure? && IsKeyMismatch(v.result.error) && !env.canceled(v.s.w.calls, Mismatched) && !Exhausted(env, v.s) {
      RekeyedTakes(env, v.s, i, p, start);
      var (s1, renewed) := Rekeyed(env, v.s, i, p);
      if renewed.Some? {
        TriesTakes(env, mode, s1, i, renewed.value, start, t);
      } else {
        assert s1.w.now - start <= LimitOf(env.budget) by { ChargedMeans(env, s1, start); }
      }
    }
  }

  lemma ChargedMeans(env: Env, s: State, start: int)
    requires Charged(env, s, start)
    ensures s.w.now - start == s.spent
  {
  }

  lemma {:induction false} WalkFromTakes(env: Env, mode: Mode, s: State, i: nat, start: int, t: nat)
    requires KeepsDeadlines(env) && AttemptsWithin(env, mode, t)
    requires i <= env.candidates && Charged(env, s, start) && !Exhausted(env, s)
    ensures WalkFrom(env, mode, s, i).s.w.now - start <= LimitOf(env.budget) + t
    decreases env.candidates - i
  {
    hide KeepsDeadlines, AttemptsWithin, Prepare, AttemptRekeying;
    if i < env.candidates {
      PrepareTakes(env, s, i, start);
      var (s1, r) := Prepare(env, s, i);
      match r {
        case Failure(f) =>
          if !env.canceled(s1.w.calls, Preparing) && !Exhausted(env, s1) {
            WalkFromTakes(env, mode, Recorded(s1, MATERIALIZE, Resolve(f)), i + 1, start, t);
          }
        case Success(p) =>
          RekeyingTakes(env, mode, s1, i, p, start, t);
          var v := AttemptRekeying(env, mode, s1, i, p, false);
          if v.result.Failure? && v.retry && !env.canceled(v.s.w.calls, FallingBack) && !Exhausted(env, v.s) {
            WalkFromTakes(env, mode, v.s, i + 1, start, t);
          }
      }
    }
  }

  /** However long the list, a walk ends within its budget and one attempt. */
  lemma WalkTakesBudgetPlusOne(env: Env, mode: Mode, now: int, t: nat)
    requires KeepsDeadlines(env) && AttemptsWithin(env, mode, t)
    ensures Walk(env, mode, now).s.w.now - now <= LimitOf(env.budget) + t
  {
    WalkFromTakes(env, mode, Start(now), 0, now, t);
  }
}
