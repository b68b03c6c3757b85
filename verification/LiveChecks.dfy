/**
 Concurrent callers of one live check behind its limiter: the re-read of a signer
 (client/route/route.go:1465-1490) and the re-verification of a quote (client/route/route.go:1157-1188). A
 clock read, a section under the limiter's mutex and a return of the check are one step each; a run is any
 sequence of such steps, by any callers, over any keys.
 */
module LiveChecks {
  import opened Sweeping
  import opened Wrappers
  import RL = RateLimiters

  type Id = nat

  /** The limiter's window, the delay after a failed check, and how long a clock reading may wait for the lock. */
  datatype Config = Config(window: int, backoff: int, lag: nat)

  /** Where a caller is: about to ask, let by ask e, after a check that failed, or done. */
  datatype Pc = Starting | Asking(read: int) | Let(e: nat) | Missed | BackingOff(read: int) | Over

  datatype Caller = Caller(key: string, pc: Pc)

  /** `asks` is all the limiter was asked, `made` the asks on whose word a live check was made. */
  datatype System = System(clock: int, next: map<string, int>, asks: seq<RL.Event>, callers: map<Id, Caller>, made: set<nat>)

  datatype Move = Tick(d: nat) | Enter(id: Id, key: string) | Step(id: Id, ok: bool)

  function Init(clock: int): System { System(clock, map[], [], map[], {}) }

  function At(s: System, id: Id, pc: Pc): System
    requires id in s.callers
  {
    s.(callers := s.callers[id := s.callers[id].(pc := pc)])
  }

  /** A caller's next step; `ok` is how its check ends. None once it is done, or when the lock came later than the lag. */
  function AfterStep(cfg: Config, s: System, id: Id, ok: bool): Option<System>
    requires id in s.callers
  {
    var key := s.callers[id].key;
    match s.callers[id].pc
    case Starting => Some(At(s, id, Asking(s.clock)))
    case Asking(read) =>
      if s.clock - read > cfg.lag then None
      else
        var (next, granted) := RL.Allowed(s.next, key, cfg.window, read);
        Some(At(s.(next := next, asks := s.asks + [RL.Allow(key, cfg.window, read, s.clock)]), id, if granted then Let(|s.asks|) else Over))
    case Let(e) => Some(At(s.(made := s.made + {e}), id, if ok then Over else Missed))
    case Missed => Some(At(s, id, BackingOff(s.clock)))
    case BackingOff(read) =>
      if s.clock - read > cfg.lag then None
      else
        Some(At(s.(next := RL.Rescheduled(s.next, key, cfg.backoff, read),
                   asks := s.asks + [RL.Reschedule(key, cfg.backoff, read, s.clock)]), id, Over))
    case Over => None
  }

  function Next(cfg: Config, s: System, move: Move): Option<System> {
    match move
    case Tick(d) => Some(s.(clock := s.clock + d))
    case Enter(id, key) => if id in s.callers then None else Some(s.(callers := s.callers[id := Caller(key, Starting)]))
    case Step(id, ok) => if id in s.callers then AfterStep(cfg, s, id, ok) else None
  }

  function Run(cfg: Config, s: System, moves: seq<Move>): Option<System>
    decreases |moves|
  {
    if moves == [] then Some(s)
    else match Next(cfg, s, moves[0])
      case None => None
      case Some(s') => Run(cfg, s', moves[1..])
  }

  // ---------------------------------------------------------------- The invariant

  /** Ask e was granted. */
  predicate GrantAt(asks: seq<RL.Event>, e: nat) {
    e < |asks| && RL.Granted(RL.Final(map[], asks[..e]), asks[e], asks[e].key)
  }

  predicate CallerOk(s: System, c: Caller) {
    match c.pc
    case Asking(read) => read <= s.clock
    case BackingOff(read) => read <= s.clock
    case Let(e) => GrantAt(s.asks, e) && s.asks[e].key == c.key && e !in s.made
    case _ => true
  }

  /** No two callers go on the word of one ask. */
  ghost predicate OwnWords(s: System) {
    forall i, j :: i in s.callers && j in s.callers && i != j && s.callers[i].pc.Let? && s.callers[j].pc.Let? ==> s.callers[i].pc.e != s.callers[j].pc.e
  }

  ghost predicate LimiterOk(cfg: Config, s: System, from: int) {
    && s.next == RL.Final(map[], s.asks)
    && RL.Timely(from, s.asks, cfg.window, cfg.backoff, cfg.lag) && RL.EndsBy(from, s.asks, s.clock)
  }

  ghost predicate Inv(cfg: Config, s: System, from: int) {
    && LimiterOk(cfg, s, from)
    && (forall e :: e in s.made ==> GrantAt(s.asks, e))
    && (forall id :: id in s.callers ==> CallerOk(s, s.callers[id]))
    && OwnWords(s)
  }

  lemma GrantStays(asks: seq<RL.Event>, e: nat, x: RL.Event)
    requires GrantAt(asks, e)
    ensures GrantAt(asks + [x], e)
  {
    assert (asks + [x])[..e] == asks[..e];
  }

  /** The limiter's part of a step that asks it something. */
  lemma AskedLimiter(cfg: Config, s: System, from: int, x: RL.Event, next: map<string, int>)
    requires LimiterOk(cfg, s, from) && RL.Fits(x, cfg.window, cfg.backoff, cfg.lag) && x.at == s.clock
    requires next == RL.After(s.next, x)
    ensures LimiterOk(cfg, s.(next := next, asks := s.asks + [x]), from)
    ensures GrantAt(s.asks + [x], |s.asks|) <==> RL.Granted(s.next, x, x.key)
  {
    hide RL.Timely, RL.After, RL.Granted;
    RL.TimelyMore(from, s.asks, x, cfg.window, cfg.backoff, cfg.lag);
    RL.FinalMore(map[], s.asks, x);
    assert (s.asks + [x])[..|s.asks|] == s.asks;
  }

  /** A caller that asked goes on to pc; the others stay as they are. */
  lemma AskedKeeps(cfg: Config, s: System, s': System, from: int, id: Id, x: RL.Event, pc: Pc)
    requires Inv(cfg, s, from) && id in s.callers && LimiterOk(cfg, s', from)
    requires s' == At(s.(next := s'.next, asks := s.asks + [x]), id, pc)
    requires pc == Over || (pc == Let(|s.asks|) && GrantAt(s'.asks, |s.asks|) && x.key == s.callers[id].key)
    ensures Inv(cfg, s', from)
  {
    hide LimiterOk, GrantAt;
    forall e: nat | GrantAt(s.asks, e) ensures GrantAt(s'.asks, e) && e < |s.asks| && s'.asks[e] == s.asks[e] {
      GrantIsAsk(s.asks, e);
      GrantStays(s.asks, e, x);
    }
    forall i | i in s'.callers ensures CallerOk(s', s'.callers[i]) {
      assert CallerOk(s, s.callers[i]);
    }
  }

  lemma GrantIsAsk(asks: seq<RL.Event>, e: nat)
    requires GrantAt(asks, e)
    ensures e < |asks|
  {
  }

  lemma StepKeeps(cfg: Config, s: System, id: Id, ok: bool, from: int)
    requires Inv(cfg, s, from) && id in s.callers && AfterStep(cfg, s, id, ok).Some?
    ensures Inv(cfg, AfterStep(cfg, s, id, ok).value, from)
  {
    var s' := AfterStep(cfg, s, id, ok).value;
    var key := s.callers[id].key;
    assert CallerOk(s, s.callers[id]);
    hide LimiterOk, GrantAt, RL.Allowed, RL.Rescheduled;
    match s.callers[id].pc {
      case Asking(read) =>
        var x := RL.Allow(key, cfg.window, read, s.clock);
        AskedLimiter(cfg, s, from, x, s'.next);
        ClockOnly(cfg, s.(next := s'.next, asks := s'.asks), s', from);
        AskedKeeps(cfg, s, s', from, id, x, s'.callers[id].pc);
      case BackingOff(read) =>
        var x := RL.Reschedule(key, cfg.backoff, read, s.clock);
        AskedLimiter(cfg, s, from, x, s'.next);
        ClockOnly(cfg, s.(next := s'.next, asks := s'.asks), s', from);
        AskedKeeps(cfg, s, s', from, id, x, Over);
      case Starting => ReadKeeps(cfg, s, id, Asking(s.clock), from);
      case Missed => ReadKeeps(cfg, s, id, BackingOff(s.clock), from);
      case Let(_) => MakeKeeps(cfg, s, id, if ok then Over else Missed, from);
      case Over =>
    }
  }

  /** The limiter's part depends on the limiter and the clock. */
  lemma ClockOnly(cfg: Config, s: System, s': System, from: int)
    requires LimiterOk(cfg, s, from) && s'.next == s.next && s'.asks == s.asks && s'.clock >= s.clock
    ensures LimiterOk(cfg, s', from)
  {
  }

  /** A clock reading leaves the limiter and what was made alone. */
  lemma ReadKeeps(cfg: Config, s: System, id: Id, pc: Pc, from: int)
    requires Inv(cfg, s, from) && id in s.callers && (pc == Asking(s.clock) || pc == BackingOff(s.clock))
    ensures Inv(cfg, At(s, id, pc), from)
  {
    var s' := At(s, id, pc);
    ClockOnly(cfg, s, s', from);
    hide LimiterOk, GrantAt;
    forall i | i in s'.callers ensures CallerOk(s', s'.callers[i]) {
      assert CallerOk(s, s.callers[i]);
    }
  }

  /** A check that is made uses up its caller's word and no other's. */
  lemma MakeKeeps(cfg: Config, s: System, id: Id, pc: Pc, from: int)
    requires Inv(cfg, s, from) && id in s.callers && s.callers[id].pc.Let? && (pc == Over || pc == Missed)
    ensures Inv(cfg, At(s.(made := s.made + {s.callers[id].pc.e}), id, pc), from)
  {
    var s' := At(s.(made := s.made + {s.callers[id].pc.e}), id, pc);
    ClockOnly(cfg, s, s', from);
    hide LimiterOk, GrantAt;
    assert CallerOk(s, s.callers[id]);
    forall i | i in s'.callers ensures CallerOk(s', s'.callers[i]) {
      assert CallerOk(s, s.callers[i]);
    }
  }

  lemma NextKeeps(cfg: Config, s: System, move: Move, from: int)
    requires Inv(cfg, s, from) && Next(cfg, s, move).Some?
    ensures Inv(cfg, Next(cfg, s, move).value, from)
  {
    var s' := Next(cfg, s, move).value;
    match move {
      case Step(id, ok) => StepKeeps(cfg, s, id, ok, from);
      case _ =>
        ClockOnly(cfg, s, s', from);
        hide LimiterOk, GrantAt;
        forall i | i in s'.callers ensures CallerOk(s', s'.callers[i]) {
          assert i in s.callers ==> CallerOk(s, s.callers[i]);
        }
    }
  }

  lemma {:induction false} RunKeeps(cfg: Config, s: System, moves: seq<Move>, from: int)
    requires Inv(cfg, s, from) && Run(cfg, s, moves).Some?
    ensures Inv(cfg, Run(cfg, s, moves).value, from)
    decreases |moves|
  {
    hide Inv, Next;
    if moves != [] {
      NextKeeps(cfg, s, moves[0], from);
      RunKeeps(cfg, Next(cfg, s, moves[0]).value, moves[1..], from);
    }
  }

  lemma InitOk(cfg: Config, clock: int)
    ensures Inv(cfg, Init(clock), clock)
  {
  }

  // ---------------------------------------------------------------- How many checks are made

  /** A caller that makes its check does so on the word of an ask no check was made on yet. */
  lemma EachCheckHasItsOwnWord(cfg: Config, clock: int, moves: seq<Move>, id: Id, ok: bool)
    requires Run(cfg, Init(clock), moves).Some?
    requires var s := Run(cfg, Init(clock), moves).value; id in s.callers && s.callers[id].pc.Let?
    ensures var s := Run(cfg, Init(clock), moves).value;
            var s' := AfterStep(cfg, s, id, ok).value;
            var e := s.callers[id].pc.e;
            && |s'.made| == |s.made| + 1 && s'.made == s.made + {e}
            && e < |s.asks| && s.asks[e].key == s.callers[id].key
  {
    hide Run;
    InitOk(cfg, clock);
    RunKeeps(cfg, Init(clock), moves, clock);
    var s := Run(cfg, Init(clock), moves).value;
    assert CallerOk(s, s.callers[id]);
  }

  /** The asks for key that were granted in [at, at + span]. */
  ghost function GrantsIn(asks: seq<RL.Event>, key: string, at: int, span: int): set<nat> {
    set e: nat | e < |asks| && GrantAt(asks, e) && asks[e].key == key && at <= asks[e].at <= at + span
  }

  lemma {:induction false} WithinAppend(a: seq<int>, b: seq<int>, at: int, span: int)
    ensures RL.Within(a + b, at, span) == RL.Within(a, at, span) + RL.Within(b, at, span)
    decreases |a|
  {
    if a == [] {
      assert a + b == b && RL.Within(a, at, span) == [];
      assert [] + RL.Within(b, at, span) == RL.Within(b, at, span);
    } else {
      assert (a + b)[1..] == a[1..] + b;
      WithinAppend(a[1..], b, at, span);
      var first := if at <= a[0] <= at + span then [a[0]] else [];
      RL.Associates(first, RL.Within(a[1..], at, span), RL.Within(b, at, span));
    }
  }

  lemma GrantsInOneMore(asks: seq<RL.Event>, x: RL.Event, key: string, at: int, span: int)
    ensures var n := |asks|; var counts := GrantAt(asks + [x], n) && x.key == key && at <= x.at <= at + span;
            GrantsIn(asks + [x], key, at, span) == GrantsIn(asks, key, at, span) + if counts then {n} else {}
  {
    var all, n := asks + [x], |asks|;
    forall e: nat | e < n ensures GrantAt(all, e) == GrantAt(asks, e) && all[e] == asks[e] {
      assert all[..e] == asks[..e];
    }
    assert all[n] == x;
    hide GrantAt;
  }

  /** As many as the times at which the limiter granted key. */
  lemma {:induction false} GrantsAreCounted(asks: seq<RL.Event>, key: string, at: int, span: int)
    ensures |GrantsIn(asks, key, at, span)| == |RL.Within(RL.Grants(map[], asks, key), at, span)|
    decreases |asks|
  {
    if asks == [] {
      assert GrantsIn(asks, key, at, span) == {};
    } else {
      var n := |asks| - 1;
      var front, x := asks[..n], asks[n];
      assert front + [x] == asks;
      GrantsAreCounted(front, key, at, span);
      GrantsInOneMore(front, x, key, at, span);
      RL.OneMore(map[], front, x, key);
      assert asks[..n] == front;
      var last := if RL.Granted(RL.Final(map[], front), x, key) then [x.at] else [];
      WithinAppend(RL.Grants(map[], front, key), last, at, span);
      LastCounts(front, x, key, at, span);
      assert n !in GrantsIn(front, key, at, span);
    }
  }

  lemma LastCounts(front: seq<RL.Event>, x: RL.Event, key: string, at: int, span: int)
    ensures var last := if RL.Granted(RL.Final(map[], front), x, key) then [x.at] else [];
            |RL.Within(last, at, span)| == if GrantAt(front + [x], |front|) && x.key == key && at <= x.at <= at + span then 1 else 0
  {
    assert (front + [x])[..|front|] == front;
    var last := if RL.Granted(RL.Final(map[], front), x, key) then [x.at] else [];
    if last != [] { assert last[1..] == []; }
  }

  /** The live checks of key whose ask had the lock in [at, at + span]. */
  function MadeIn(s: System, key: string, at: int, span: int): set<nat> {
    set e | e in s.made && e < |s.asks| && s.asks[e].key == key && at <= s.asks[e].at <= at + span
  }

  /**
   In every interleaving of any callers, in any span of length L one key costs at most
   L div (min(window, backoff) - lag) + 1 live checks, each counted at the time its ask had the lock.
   */
  lemma LiveChecksAreRare(cfg: Config, clock: int, moves: seq<Move>, key: string, at: int, span: nat)
    requires RL.Spacing(cfg.window, cfg.backoff, cfg.lag) > 0 && Run(cfg, Init(clock), moves).Some?
    ensures var s := Run(cfg, Init(clock), moves).value;
            && |MadeIn(s, key, at, span)| <= span / RL.Spacing(cfg.window, cfg.backoff, cfg.lag) + 1
            && forall e :: e in s.made ==> e < |s.asks|
  {
    hide Run, RL.Spacing, RL.Timely, RL.Grants, RL.Within;
    InitOk(cfg, clock);
    RunKeeps(cfg, Init(clock), moves, clock);
    var s := Run(cfg, Init(clock), moves).value;
    RL.GrantsAreRare(map[], s.asks, key, cfg.window, cfg.backoff, cfg.lag, clock, at, span);
    GrantsAreCounted(s.asks, key, at, span);
    SmallerSet(MadeIn(s, key, at, span), GrantsIn(s.asks, key, at, span));
  }

  // ---------------------------------------------------------------- A caller gets its word, and its check

  lemma RunCons(cfg: Config, s: System, move: Move, rest: seq<Move>)
    ensures Run(cfg, s, [move] + rest) == match Next(cfg, s, move) case None => None case Some(s') => Run(cfg, s', rest)
  {
    hide Next;
    assert ([move] + rest)[1..] == rest;
  }

  /** Four moves of a caller: it asks by the clock, and makes its check exactly when the limiter grants the key. */
  lemma CheckedWhenDue(cfg: Config, s: System, id: Id, key: string, ok: bool)
    requires id !in s.callers
    ensures var granted := RL.Allowed(s.next, key, cfg.window, s.clock).1;
            var asked := Run(cfg, s, [Enter(id, key)] + ([Step(id, ok)] + ([Step(id, ok)] + [])));
            var done := Run(cfg, s, [Enter(id, key)] + ([Step(id, ok)] + ([Step(id, ok)] + ([Step(id, ok)] + []))));
            && asked.Some? && id in asked.value.callers && asked.value.made == s.made
            && asked.value.asks == s.asks + [RL.Allow(key, cfg.window, s.clock, s.clock)]
            && asked.value.callers[id].pc == (if granted then Let(|s.asks|) else Over)
            && (done.Some? <==> granted)
            && (granted ==>
                  && id in done.value.callers && done.value.made == s.made + {|s.asks|}
                  && done.value.callers[id].pc == if ok then Over else Missed)
  {
    hide RL.Allowed, Run;
    var e, step := Enter(id, key), Step(id, ok);
    var s1 := Next(cfg, s, e).value;
    var s2 := Next(cfg, s1, step).value;
    var s3 := Next(cfg, s2, step).value;
    RunCons(cfg, s, e, [step] + ([step] + []));
    RunCons(cfg, s1, step, [step] + []);
    RunCons(cfg, s2, step, []);
    NoMoves(cfg, s3);
    RunCons(cfg, s, e, [step] + ([step] + ([step] + [])));
    RunCons(cfg, s1, step, [step] + ([step] + []));
    RunCons(cfg, s2, step, [step] + []);
    RunCons(cfg, s3, step, []);
    var s4 := Next(cfg, s3, step);
    if s4.Some? { NoMoves(cfg, s4.value); }
  }

  lemma NoMoves(cfg: Config, s: System)
    ensures Run(cfg, s, []) == Some(s)
  {
  }

  /** After a check that failed, two moves bring the key forward: from then on it is granted when it would have been, or once the backoff has passed. */
  lemma FailureBringsForward(cfg: Config, s: System, id: Id, ok: bool, d: nat)
    requires id in s.callers && s.callers[id].pc.Missed? && s.callers[id].key in s.next
    ensures var key, r := s.callers[id].key, Run(cfg, s, [Step(id, ok)] + ([Tick(d)] + ([Step(id, ok)] + [])));
            && (r.Some? <==> d <= cfg.lag)
            && (r.Some? ==>
                  && id in r.value.callers && r.value.callers[id].pc == Over && r.value.clock == s.clock + d && r.value.made == s.made
                  && forall now :: RL.Allowed(r.value.next, key, cfg.window, now).1 <==>
                                   RL.Allowed(s.next, key, cfg.window, now).1 || now >= s.clock + cfg.backoff)
  {
    hide RL.Allowed, Run, RL.Rescheduled;
    var key, step := s.callers[id].key, Step(id, ok);
    var s1 := Next(cfg, s, step).value;
    var s2 := Next(cfg, s1, Tick(d)).value;
    RunCons(cfg, s, step, [Tick(d)] + ([step] + []));
    RunCons(cfg, s1, Tick(d), [step] + []);
    RunCons(cfg, s2, step, []);
    if d <= cfg.lag {
      NoMoves(cfg, Next(cfg, s2, step).value);
      forall now ensures RL.Allowed(RL.Rescheduled(s.next, key, cfg.backoff, s.clock), key, cfg.window, now).1 <==>
                         RL.Allowed(s.next, key, cfg.window, now).1 || now >= s.clock + cfg.backoff {
        RL.RescheduleMeans(s.next, key, cfg.backoff, s.clock, cfg.window, now);
      }
    }
  }
}
