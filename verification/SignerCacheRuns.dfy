/**
 Concurrent callers of the signer cache (client/chain/cache.go:97-303). Each section run under the
 mutex, each clock read, each channel receive and each step of the single-flighted lookup is one
 atomic step; a run is any sequence of such steps, by any callers, over any keys.
 */
module SignerCacheRuns {
  import opened Wrappers
  import opened Sweeping
  import opened SignerCache

  type Id = nat

  /** Where one single-flighted lookup is; `at` is the step that published its result. */
  datatype Phase =
    | Looking
    | Answered(reading: Reading)
    | Stamped(reading: Reading, stamp: int)
    | Stored(reading: Reading)
    | Cleared(reading: Reading)
    | Refused(err: Error)
    | Published(result: Result<Reading, Error>, at: nat)

  datatype Flight = Flight(key: Key, phase: Phase)

  /**
   What an answer rests on: the clock it was judged at, or the lookup it came from; for an error, that it
   was a live read, or what was held for the key at the last look, and the clock that was judged by.
   */
  datatype Basis = ByCache(now: int) | ByGrace(now: int) | ByFlight(f: Id) | LiveError | PastGrace(now: int, held: Option<Entry>)

  /** Where one caller is. The names say what it does next. */
  datatype Pc =
    | ReadClock
    | Load(now: int)
    | LookForFailure(now: int)
    | AnswerCooling(now: int, err: Error)
    | Join
    | Wait(f: Id)
    | ReadClockAgain(err: Error)
    | Note(now: int, err: Error)
    | FallBack(now: int, err: Error)
    | Done(result: Result<Signer, Error>, basis: Basis)

  /** A call: which method, the step and the clock it began at, and where it is. */
  datatype Caller = Caller(key: Key, live: bool, began: nat, since: int, pc: Pc)

  /**
   The whole system. log and errs hold what the inner registry has ever answered, stamps the clock
   reading each stored answer's expiry was computed from.
   */
  datatype System = System(
    clock: int, step: nat, cache: Cache,
    flights: map<Id, Flight>, current: map<Key, Id>, callers: map<Id, Caller>, gone: set<Id>,
    log: set<(Key, Reading)>, errs: set<(Key, Error)>, stamps: set<(Key, Reading, int)>)

  datatype Move =
    | Tick(d: nat)
    | Call(id: Id, key: Key, live: bool)
    | Cancel(id: Id)
    | Read(id: Id)
    | JoinFlight(id: Id, newFlight: Id)
    | NoteFailed(id: Id)
    | GiveUp(id: Id)
    | Fly(f: Id, answer: Result<Reading, Error>)

  const CANCELED: Error := "context canceled"

  function Init(clock: int): System {
    System(clock, 0, EMPTY, map[], map[], map[], {}, {}, {}, {})
  }

  function At(s: System, id: Id, pc: Pc): System
    requires id in s.callers
  {
    s.(callers := s.callers[id := s.callers[id].(pc := pc)])
  }

  /** Where a caller goes by reading only: the clock, the maps or a published result. */
  function AfterRead(cfg: Config, s: System, c: Caller): Option<Pc> {
    match c.pc
    case ReadClock => Some(Load(s.clock))
    case Load(now) =>
      (match Fresh(s.cache, c.key, now)
       case Some(r) => Some(Done(Success(Signer(r, true, false)), ByCache(now)))
       case None => Some(LookForFailure(now)))
    case LookForFailure(now) =>
      (match RecentFailure(cfg, s.cache, c.key, now)
       case Some(err) => Some(AnswerCooling(now, err))
       case None => Some(Join))
    case AnswerCooling(now, err) => Some(StaleOr(cfg, s, c.key, now, err))
    case Wait(f) =>
      if f !in s.flights || !s.flights[f].phase.Published? then None
      else
        (match s.flights[f].phase.result
         case Success(r) => Some(Done(Success(Signer(r, false, false)), ByFlight(f)))
         case Failure(err) => Some(ReadClockAgain(err)))
    case ReadClockAgain(err) => Some(Note(s.clock, err))
    case FallBack(now, err) => Some(StaleOr(cfg, s, c.key, now, err))
    case _ => None
  }

  /** DoChan: the caller joins the lookup under way for its key, or starts one. */
  function AfterJoin(s: System, id: Id, newFlight: Id): Option<System>
    requires id in s.callers
  {
    var key := s.callers[id].key;
    if key in s.current then Some(At(s, id, Wait(s.current[key])))
    else if newFlight in s.flights then None
    else Some(At(s.(flights := s.flights[newFlight := Flight(key, Looking)], current := s.current[key := newFlight]),
                 id, Wait(newFlight)))
  }

  /** noteFailure, skipped for a caller that has gone. */
  function AfterNote(cfg: Config, s: System, id: Id): System
    requires id in s.callers && s.callers[id].pc.Note?
  {
    var c := s.callers[id];
    var noted := if id in s.gone then s else s.(cache := RecordFailure(true, cfg, s.cache, c.key, c.pc.err, c.pc.now).0);
    At(noted, id, if c.live then Done(Failure(c.pc.err), LiveError) else FallBack(c.pc.now, c.pc.err))
  }

  /** What is held for a key. */
  function HeldFor(c: Cache, key: Key): Option<Entry> { if key in c.entries then Some(c.entries[key]) else None }

  /** The stale entry when it is inside the grace window, or the error. */
  function StaleOr(cfg: Config, s: System, key: Key, now: int, err: Error): Pc {
    match StaleWithinGrace(cfg, s.cache, key, now)
    case Some(r) => Done(Success(Signer(r, true, true)), ByGrace(now))
    case None => Done(Failure(err), PastGrace(now, HeldFor(s.cache, key)))
  }

  function InPhase(s: System, f: Id, phase: Phase): System
    requires f in s.flights
  {
    s.(flights := s.flights[f := s.flights[f].(phase := phase)])
  }

  /** The lookup's next step: the inner registry answers, the answer is stamped, stored and published. */
  function AdvanceFlight(cfg: Config, s: System, f: Id, answer: Result<Reading, Error>): Option<System>
    requires f in s.flights
  {
    var key := s.flights[f].key;
    match s.flights[f].phase
    case Looking =>
      (match answer
       case Success(r) => Some(InPhase(s.(log := s.log + {(key, r)}), f, Answered(r)))
       case Failure(err) => Some(InPhase(s.(errs := s.errs + {(key, err)}), f, Refused(err))))
    case Answered(r) => Some(InPhase(s.(stamps := s.stamps + {(key, r, s.clock)}), f, Stamped(r, s.clock)))
    case Stamped(r, stamp) =>
      Some(InPhase(s.(cache := Store(true, cfg, s.cache, key, Entry(r, stamp + cfg.ttl), s.clock).0), f, Stored(r)))
    case Stored(r) => Some(InPhase(s.(cache := ClearFailure(s.cache, key)), f, Cleared(r)))
    case Cleared(r) => Some(InPhase(s.(current := s.current - {key}), f, Published(Success(r), s.step)))
    case Refused(err) => Some(InPhase(s.(current := s.current - {key}), f, Published(Failure(err), s.step)))
    case Published(_, _) => None
  }

  function Act(cfg: Config, s: System, m: Move): Option<System> {
    match m
    case Tick(d) => Some(s.(clock := s.clock + d))
    case Call(id, key, live) =>
      if id in s.callers then None
      else Some(s.(callers := s.callers[id := Caller(key, live, s.step, s.clock, if live then Join else ReadClock)]))
    case Cancel(id) => Some(s.(gone := s.gone + {id}))
    case Read(id) =>
      if id !in s.callers then None
      else (match AfterRead(cfg, s, s.callers[id]) case None => None case Some(pc) => Some(At(s, id, pc)))
    case JoinFlight(id, newFlight) => if id !in s.callers || !s.callers[id].pc.Join? then None else AfterJoin(s, id, newFlight)
    case NoteFailed(id) => if id !in s.callers || !s.callers[id].pc.Note? then None else Some(AfterNote(cfg, s, id))
    case GiveUp(id) =>
      if id !in s.callers || id !in s.gone || !s.callers[id].pc.Wait? then None
      else Some(At(s, id, ReadClockAgain(CANCELED)))
    case Fly(f, answer) => if f !in s.flights then None else AdvanceFlight(cfg, s, f, answer)
  }

  /** One step of the system; None when the move is not possible. */
  function Next(cfg: Config, s: System, m: Move): Option<System> {
    match Act(cfg, s, m)
    case None => None
    case Some(s') => Some(s'.(step := s.step + 1))
  }

  function Run(cfg: Config, s: System, moves: seq<Move>): Option<System>
    decreases |moves|
  {
    if moves == [] then Some(s)
    else
      match Next(cfg, s, moves[0])
      case None => None
      case Some(s') => Run(cfg, s', moves[1..])
  }

  // ---------------------------------------------------------------- The invariant

  /** An error a caller may be told: one the chain gave for the key, or that it has itself departed. */
  predicate Excused(s: System, id: Id, key: Key, err: Error) {
    (key, err) in s.errs || (id in s.gone && err == CANCELED)
  }

  predicate InCall(s: System, c: Caller, now: int) { c.since <= now <= s.clock }

  /** A stored reading whose expiry, extended by slack, is still ahead of now. */
  ghost predicate StampedWithin(cfg: Config, s: System, key: Key, r: Reading, now: int, slack: int) {
    exists stamp :: (key, r, stamp) in s.stamps && now < stamp + cfg.ttl + slack
  }

  /** What every finished call may say. */
  ghost predicate AnswerOk(cfg: Config, s: System, id: Id, c: Caller, result: Result<Signer, Error>, basis: Basis) {
    match result
    case Failure(err) =>
      && Excused(s, id, c.key, err)
      && (if c.live then basis.LiveError?
          else basis.PastGrace? && InCall(s, c, basis.now)
               && (basis.held.Some? && cfg.grace > 0 ==> basis.now >= basis.held.value.expires + cfg.grace))
    case Success(sg) =>
      && (c.key, sg.reading) in s.log
      && (c.live ==> !sg.cached && !sg.stale)
      && (sg.stale ==> sg.cached)
      && (if !sg.cached then
            && basis.ByFlight? && basis.f in s.flights && s.flights[basis.f].key == c.key
            && s.flights[basis.f].phase.Published? && s.flights[basis.f].phase.result == Success(sg.reading)
            && c.began < s.flights[basis.f].phase.at
          else if !sg.stale then
            basis.ByCache? && InCall(s, c, basis.now) && StampedWithin(cfg, s, c.key, sg.reading, basis.now, 0)
          else
            basis.ByGrace? && InCall(s, c, basis.now) && StampedWithin(cfg, s, c.key, sg.reading, basis.now, cfg.grace))
  }

  ghost predicate CallerOk(cfg: Config, s: System, id: Id, c: Caller) {
    && c.began < s.step && c.since <= s.clock
    && match c.pc
       case ReadClock => !c.live
       case Load(now) => !c.live && InCall(s, c, now)
       case LookForFailure(now) => !c.live && InCall(s, c, now)
       case AnswerCooling(now, err) => !c.live && InCall(s, c, now) && Excused(s, id, c.key, err)
       case Join => true
       case Wait(f) =>
         && f in s.flights && s.flights[f].key == c.key
         && (s.flights[f].phase.Published? ==> c.began < s.flights[f].phase.at)
       case ReadClockAgain(err) => Excused(s, id, c.key, err)
       case Note(now, err) => InCall(s, c, now) && Excused(s, id, c.key, err)
       case FallBack(now, err) => !c.live && InCall(s, c, now) && Excused(s, id, c.key, err)
       case Done(result, basis) => AnswerOk(cfg, s, id, c, result, basis)
  }

  predicate FlightOk(s: System, f: Id, fl: Flight) {
    && (!fl.phase.Published? <==> fl.key in s.current && s.current[fl.key] == f)
    && match fl.phase
       case Looking => true
       case Answered(r) => (fl.key, r) in s.log
       case Stamped(r, stamp) => (fl.key, r) in s.log && (fl.key, r, stamp) in s.stamps
       case Stored(r) => (fl.key, r) in s.log
       case Cleared(r) => (fl.key, r) in s.log
       case Refused(err) => (fl.key, err) in s.errs
       case Published(result, at) =>
         at < s.step && (match result case Success(r) => (fl.key, r) in s.log case Failure(err) => (fl.key, err) in s.errs)
  }

  ghost predicate CallersOk(cfg: Config, s: System) { forall id :: id in s.callers ==> CallerOk(cfg, s, id, s.callers[id]) }

  ghost predicate FlightsOk(s: System) {
    && (forall f :: f in s.flights ==> FlightOk(s, f, s.flights[f]))
    && (forall k :: k in s.current ==> s.current[k] in s.flights && s.flights[s.current[k]].key == k)
  }

  /** Cached readings are stamped ones, remembered failures are the chain's own, and both maps are capped. */
  ghost predicate CacheOk(cfg: Config, s: System) {
    && (forall k :: k in s.cache.entries ==> (k, s.cache.entries[k].reading, s.cache.entries[k].expires - cfg.ttl) in s.stamps)
    && (forall k :: k in s.cache.failures ==> (k, s.cache.failures[k].err) in s.errs)
    && (forall k, r, stamp :: (k, r, stamp) in s.stamps ==> (k, r) in s.log && stamp <= s.clock)
    && |s.cache.entries| <= CAP && |s.cache.failures| <= CAP
  }

  ghost predicate Inv(cfg: Config, s: System) {
    CallersOk(cfg, s) && FlightsOk(s) && CacheOk(cfg, s)
  }

  /** What no step takes back. */
  ghost predicate Grows(s: System, s': System) {
    && s.clock <= s'.clock && s.step < s'.step
    && s.log <= s'.log && s.errs <= s'.errs && s.stamps <= s'.stamps && s.gone <= s'.gone
    && (forall f :: f in s.flights ==>
          && f in s'.flights && s'.flights[f].key == s.flights[f].key
          && (s.flights[f].phase.Published? ==> s'.flights[f].phase == s.flights[f].phase)
          && (!s.flights[f].phase.Published? && s'.flights[f].phase.Published? ==> s.step <= s'.flights[f].phase.at))
  }

  lemma CallerStaysOk(cfg: Config, s: System, s': System, id: Id, c: Caller)
    requires Grows(s, s') && CallerOk(cfg, s, id, c)
    ensures CallerOk(cfg, s', id, c)
  {
    match c.pc {
      case Done(result, basis) =>
        if result.Success? && result.value.cached {
          var slack := if result.value.stale then cfg.grace else 0;
          var stamp :| (c.key, result.value.reading, stamp) in s.stamps && basis.now < stamp + cfg.ttl + slack;
          assert (c.key, result.value.reading, stamp) in s'.stamps;
        }
      case _ =>
    }
  }

  lemma CallersStayOk(cfg: Config, s: System, s': System)
    requires Grows(s, s') && CallersOk(cfg, s)
    requires forall id :: id in s'.callers ==> (id in s.callers && s'.callers[id] == s.callers[id]) || CallerOk(cfg, s', id, s'.callers[id])
    ensures CallersOk(cfg, s')
  {
    hide CallerOk, Grows;
    forall id | id in s'.callers ensures CallerOk(cfg, s', id, s'.callers[id]) {
      if id in s.callers && s'.callers[id] == s.callers[id] {
        CallerStaysOk(cfg, s, s', id, s.callers[id]);
      }
    }
  }

  // ---------------------------------------------------------------- Every step keeps it

  /** A cached reading, judged by the clock of the call. */
  lemma FreshIsStamped(cfg: Config, s: System, key: Key, now: int)
    requires CacheOk(cfg, s)
    ensures Fresh(s.cache, key, now).Some? ==>
              (key, Fresh(s.cache, key, now).value) in s.log && StampedWithin(cfg, s, key, Fresh(s.cache, key, now).value, now, 0)
    ensures StaleWithinGrace(cfg, s.cache, key, now).Some? ==>
              (key, StaleWithinGrace(cfg, s.cache, key, now).value) in s.log
              && StampedWithin(cfg, s, key, StaleWithinGrace(cfg, s.cache, key, now).value, now, cfg.grace)
    ensures StaleWithinGrace(cfg, s.cache, key, now).None? ==>
              var held := HeldFor(s.cache, key); held.Some? && cfg.grace > 0 ==> now >= held.value.expires + cfg.grace
    ensures RecentFailure(cfg, s.cache, key, now).Some? ==> (key, RecentFailure(cfg, s.cache, key, now).value) in s.errs
  {
    if key in s.cache.entries {
      var e := s.cache.entries[key];
      assert (key, e.reading, e.expires - cfg.ttl) in s.stamps;
      assert e.expires == e.expires - cfg.ttl + cfg.ttl;
    }
  }

  lemma CacheStaysOk(cfg: Config, s: System, s': System)
    requires CacheOk(cfg, s) && s'.cache == s.cache && s.clock <= s'.clock
    requires s.log <= s'.log && s.errs <= s'.errs && s'.stamps == s.stamps
    ensures CacheOk(cfg, s')
  {
  }

  /** The caller id moves to pc; nothing else but the cache may change. */
  lemma CallerMoves(cfg: Config, s: System, s': System, id: Id, pc: Pc)
    requires Inv(cfg, s) && id in s.callers && CacheOk(cfg, s')
    requires s' == s.(callers := s.callers[id := s.callers[id].(pc := pc)], cache := s'.cache, step := s.step + 1)
    requires CallerOk(cfg, s', id, s'.callers[id])
    ensures Inv(cfg, s')
  {
    assert Grows(s, s');
    hide Grows, CacheOk, CallerOk;
    forall f | f in s'.flights ensures FlightOk(s', f, s'.flights[f]) {
      assert FlightOk(s, f, s.flights[f]);
    }
    hide FlightOk;
    CallersStayOk(cfg, s, s');
  }

  lemma ReadKeeps(cfg: Config, s: System, id: Id)
    requires Inv(cfg, s) && Next(cfg, s, Read(id)).Some?
    ensures Inv(cfg, Next(cfg, s, Read(id)).value)
  {
    var c := s.callers[id];
    var pc := AfterRead(cfg, s, c).value;
    var s' := Next(cfg, s, Read(id)).value;
    assert CallerOk(cfg, s, id, c);
    CacheStaysOk(cfg, s, s');
    hide CallersOk, CacheOk;
    ReadKeepsCaller(cfg, s, s', id, c);
    hide AfterRead, CallerOk, FlightsOk;
    CallerMoves(cfg, s, s', id, pc);
  }

  lemma ReadKeepsCaller(cfg: Config, s: System, s': System, id: Id, c: Caller)
    requires CacheOk(cfg, s) && FlightsOk(s) && CallerOk(cfg, s, id, c) && AfterRead(cfg, s, c).Some?
    requires s' == s.(callers := s'.callers, step := s.step + 1)
    ensures CallerOk(cfg, s', id, c.(pc := AfterRead(cfg, s, c).value))
  {
    hide Fresh, RecentFailure, StaleWithinGrace, CacheOk;
    match c.pc {
      case Load(now) =>
        FreshIsStamped(cfg, s, c.key, now);
        SameStamps(cfg, s, s');
      case LookForFailure(now) => FreshIsStamped(cfg, s, c.key, now);
      case AnswerCooling(now, err) =>
        FreshIsStamped(cfg, s, c.key, now);
        SameStamps(cfg, s, s');
      case FallBack(now, err) =>
        FreshIsStamped(cfg, s, c.key, now);
        SameStamps(cfg, s, s');
      case Wait(f) => assert FlightOk(s, f, s.flights[f]);
      case _ =>
    }
  }

  lemma SameStamps(cfg: Config, s: System, s': System)
    requires s.stamps == s'.stamps
    ensures forall key, r, now, slack :: StampedWithin(cfg, s, key, r, now, slack) ==> StampedWithin(cfg, s', key, r, now, slack)
  {
  }

  lemma JoinKeeps(cfg: Config, s: System, id: Id, newFlight: Id)
    requires Inv(cfg, s) && Next(cfg, s, JoinFlight(id, newFlight)).Some?
    ensures Inv(cfg, Next(cfg, s, JoinFlight(id, newFlight)).value)
  {
    hide Inv;
    var s' := Next(cfg, s, JoinFlight(id, newFlight)).value;
    if s.callers[id].key in s.current {
      JoinCurrent(cfg, s, s', id);
    } else {
      StartLookup(cfg, s, s', id, newFlight);
    }
  }

  lemma JoinCurrent(cfg: Config, s: System, s': System, id: Id)
    requires Inv(cfg, s) && id in s.callers && s.callers[id].pc.Join? && s.callers[id].key in s.current
    requires s' == s.(callers := s.callers[id := s.callers[id].(pc := Wait(s.current[s.callers[id].key]))], step := s.step + 1)
    ensures Inv(cfg, s')
  {
    var f := s.current[s.callers[id].key];
    assert CallerOk(cfg, s, id, s.callers[id]);
    assert FlightOk(s, f, s.flights[f]);
    CacheStaysOk(cfg, s, s');
    assert CallerOk(cfg, s', id, s'.callers[id]);
    hide CacheOk, CallersOk, FlightsOk;
    CallerMoves(cfg, s, s', id, Wait(f));
  }

  lemma StartLookup(cfg: Config, s: System, s': System, id: Id, f: Id)
    requires Inv(cfg, s) && id in s.callers && s.callers[id].pc.Join? && s.callers[id].key !in s.current && f !in s.flights
    requires s' == s.(flights := s.flights[f := Flight(s.callers[id].key, Looking)],
                      current := s.current[s.callers[id].key := f],
                      callers := s.callers[id := s.callers[id].(pc := Wait(f))], step := s.step + 1)
    ensures Inv(cfg, s')
  {
    hide CacheOk, CallersOk, FlightsOk, CallerOk, Grows;
    LookupFlights(s, s', f, s.callers[id].key);
    CacheStaysOk(cfg, s, s');
    StarterOk(cfg, s, s', id, f);
    CallersStayOk(cfg, s, s');
  }

  lemma StarterOk(cfg: Config, s: System, s': System, id: Id, f: Id)
    requires CallersOk(cfg, s) && id in s.callers && id in s'.callers && s.step < s'.step && s.clock <= s'.clock
    requires s'.callers[id] == s.callers[id].(pc := Wait(f)) && f in s'.flights && s'.flights[f] == Flight(s.callers[id].key, Looking)
    ensures CallerOk(cfg, s', id, s'.callers[id])
  {
    assert CallerOk(cfg, s, id, s.callers[id]);
  }

  lemma LookupFlights(s: System, s': System, f: Id, key: Key)
    requires FlightsOk(s) && key !in s.current && f !in s.flights
    requires s' == s.(flights := s.flights[f := Flight(key, Looking)], current := s.current[key := f],
                      callers := s'.callers, step := s.step + 1)
    ensures FlightsOk(s') && Grows(s, s')
  {
    forall g | g in s'.flights ensures FlightOk(s', g, s'.flights[g]) {
      if g != f { assert FlightOk(s, g, s.flights[g]); }
    }
  }

  lemma RecordKeepsCache(cfg: Config, s: System, s': System, key: Key, err: Error, now: int)
    requires CacheOk(cfg, s) && (key, err) in s.errs
    requires s'.cache == RecordFailure(true, cfg, s.cache, key, err, now).0
    requires s'.clock == s.clock && s'.stamps == s.stamps && s'.log == s.log && s'.errs == s.errs
    ensures CacheOk(cfg, s')
  {
  }

  /** Only a caller that is still there records its failure, and then the chain gave it. */
  lemma NoteKeepsCache(cfg: Config, s: System, s': System, id: Id, c: Caller)
    requires CacheOk(cfg, s) && id in s.callers && s.callers[id] == c && c.pc.Note? && Excused(s, id, c.key, c.pc.err)
    requires s' == AfterNote(cfg, s, id).(step := s.step + 1)
    ensures CacheOk(cfg, s')
  {
    hide RecordFailure, CacheOk;
    if id in s.gone {
      CacheStaysOk(cfg, s, s');
    } else {
      RecordKeepsCache(cfg, s, s', c.key, c.pc.err, c.pc.now);
    }
  }

  lemma NoteKeeps(cfg: Config, s: System, id: Id)
    requires Inv(cfg, s) && Next(cfg, s, NoteFailed(id)).Some?
    ensures Inv(cfg, Next(cfg, s, NoteFailed(id)).value)
  {
    hide Inv, RecordFailure;
    var s' := Next(cfg, s, NoteFailed(id)).value;
    var c := s.callers[id];
    var pc := if c.live then Done(Failure(c.pc.err), LiveError) else FallBack(c.pc.now, c.pc.err);
    assert s' == s.(callers := s.callers[id := c.(pc := pc)], cache := s'.cache, step := s.step + 1);
    NoteCaller(cfg, s, id, c);
    NoteKeepsCache(cfg, s, s', id, c);
    NotedIsOk(cfg, s', id, c, pc);
    hide Next, CallerOk, CacheOk, Excused, InCall;
    CallerMoves(cfg, s, s', id, pc);
  }

  lemma NotedIsOk(cfg: Config, s: System, id: Id, c: Caller, pc: Pc)
    requires c.pc.Note? && pc == if c.live then Done(Failure(c.pc.err), LiveError) else FallBack(c.pc.now, c.pc.err)
    requires Excused(s, id, c.key, c.pc.err) && InCall(s, c, c.pc.now) && c.began < s.step
    ensures CallerOk(cfg, s, id, c.(pc := pc))
  {
  }

  lemma NoteCaller(cfg: Config, s: System, id: Id, c: Caller)
    requires Inv(cfg, s) && id in s.callers && s.callers[id] == c && c.pc.Note?
    ensures Excused(s, id, c.key, c.pc.err) && InCall(s, c, c.pc.now) && c.began < s.step && CacheOk(cfg, s)
  {
    assert CallerOk(cfg, s, id, c);
  }

  /** A caller that has departed is told so. */
  lemma GaveUpOk(cfg: Config, s: System, s': System, id: Id, c: Caller)
    requires CallerOk(cfg, s, id, c) && id in s'.gone && s.clock <= s'.clock && s.step < s'.step
    ensures CallerOk(cfg, s', id, c.(pc := ReadClockAgain(CANCELED)))
  {
  }

  lemma GiveUpKeeps(cfg: Config, s: System, id: Id)
    requires Inv(cfg, s) && Next(cfg, s, GiveUp(id)).Some?
    ensures Inv(cfg, Next(cfg, s, GiveUp(id)).value)
  {
    hide CallerOk, CacheOk, FlightsOk;
    var s' := Next(cfg, s, GiveUp(id)).value;
    assert s' == s.(callers := s.callers[id := s.callers[id].(pc := ReadClockAgain(CANCELED))], step := s.step + 1);
    CacheStaysOk(cfg, s, s');
    assert CallerOk(cfg, s, id, s.callers[id]);
    GaveUpOk(cfg, s, s', id, s.callers[id]);
    hide Next, Inv;
    CallerMoves(cfg, s, s', id, ReadClockAgain(CANCELED));
  }

  lemma FlightStepKeeps(cfg: Config, s: System, f: Id, answer: Result<Reading, Error>)
    requires Inv(cfg, s) && f in s.flights && AdvanceFlight(cfg, s, f, answer).Some?
    ensures Inv(cfg, AdvanceFlight(cfg, s, f, answer).value.(step := s.step + 1))
  {
    assert FlightOk(s, f, s.flights[f]);
    hide AdvanceFlight, CallerOk, FlightOk, CacheOk, FlightsOk, Grows;
    var s' := AdvanceFlight(cfg, s, f, answer).value.(step := s.step + 1);
    FlightStepMoves(cfg, s, f, answer);
    MovedGrows(s, s', f);
    FlightStepKeepsCache(cfg, s, f, answer);
    FlightStepKeepsFlights(cfg, s, f, answer);
    CallersStayOk(cfg, s, s');
  }

  /** What a step of lookup f may change. */
  ghost predicate FlightMoved(s: System, s': System, f: Id) {
    && f in s.flights && f in s'.flights
    && s'.flights == s.flights[f := Flight(s.flights[f].key, s'.flights[f].phase)]
    && !s.flights[f].phase.Published?
    && (s'.flights[f].phase.Published? ==> s'.flights[f].phase.at == s.step)
    && s.log <= s'.log && s.errs <= s'.errs && s.stamps <= s'.stamps
    && s'.gone == s.gone && s'.clock == s.clock && s'.callers == s.callers && s'.step == s.step + 1
  }

  lemma FlightStepMoves(cfg: Config, s: System, f: Id, answer: Result<Reading, Error>)
    requires f in s.flights && AdvanceFlight(cfg, s, f, answer).Some?
    ensures FlightMoved(s, AdvanceFlight(cfg, s, f, answer).value.(step := s.step + 1), f)
  {
    hide Store, ClearFailure;
    var fl := s.flights[f];
    match fl.phase {
      case Looking =>
      case Answered(r) =>
      case Stamped(r, stamp) =>
      case Stored(r) =>
      case Cleared(r) =>
      case Refused(err) =>
      case Published(_, _) =>
    }
  }

  lemma MovedGrows(s: System, s': System, f: Id)
    requires FlightMoved(s, s', f)
    ensures Grows(s, s')
  {
  }

  /** What a lookup's next step does outside the lookup and the callers, phase by phase. */
  lemma StampStep(cfg: Config, s: System, f: Id, answer: Result<Reading, Error>)
    requires f in s.flights && s.flights[f].phase.Answered?
    ensures var s', key := AdvanceFlight(cfg, s, f, answer).value, s.flights[f].key;
            && s'.cache == s.cache && s'.clock == s.clock && s'.log == s.log && s'.errs == s.errs
            && s'.stamps == s.stamps + {(key, s.flights[f].phase.reading, s.clock)}
  {
  }

  lemma StoreStep(cfg: Config, s: System, f: Id, answer: Result<Reading, Error>)
    requires f in s.flights && s.flights[f].phase.Stamped?
    ensures var s', key := AdvanceFlight(cfg, s, f, answer).value, s.flights[f].key;
            var e := Entry(s.flights[f].phase.reading, s.flights[f].phase.stamp + cfg.ttl);
            && s'.clock == s.clock && s'.log == s.log && s'.errs == s.errs && s'.stamps == s.stamps
            && s'.cache == Store(true, cfg, s.cache, key, e, s.clock).0
  {
    hide Store;
  }

  lemma ClearStep(cfg: Config, s: System, f: Id, answer: Result<Reading, Error>)
    requires f in s.flights && s.flights[f].phase.Stored?
    ensures var s', key := AdvanceFlight(cfg, s, f, answer).value, s.flights[f].key;
            && s'.clock == s.clock && s'.log == s.log && s'.errs == s.errs && s'.stamps == s.stamps
            && s'.cache == ClearFailure(s.cache, key)
  {
    hide ClearFailure;
  }

  lemma QuietStep(cfg: Config, s: System, f: Id, answer: Result<Reading, Error>)
    requires f in s.flights && AdvanceFlight(cfg, s, f, answer).Some?
    requires var phase := s.flights[f].phase; !phase.Answered? && !phase.Stamped? && !phase.Stored?
    ensures var s' := AdvanceFlight(cfg, s, f, answer).value;
            && s'.cache == s.cache && s'.clock == s.clock && s'.stamps == s.stamps && s.log <= s'.log && s.errs <= s'.errs
  {
  }

  lemma FlightStepKeepsCache(cfg: Config, s: System, f: Id, answer: Result<Reading, Error>)
    requires CacheOk(cfg, s) && f in s.flights && AdvanceFlight(cfg, s, f, answer).Some? && FlightOk(s, f, s.flights[f])
    ensures CacheOk(cfg, AdvanceFlight(cfg, s, f, answer).value.(step := s.step + 1))
  {
    hide AdvanceFlight, Store, ClearFailure, CacheOk;
    var s' := AdvanceFlight(cfg, s, f, answer).value.(step := s.step + 1);
    var key := s.flights[f].key;
    match s.flights[f].phase {
      case Answered(r) =>
        StampStep(cfg, s, f, answer);
        StampKeepsCache(cfg, s, s', key, r);
      case Stamped(r, stamp) =>
        StoreStep(cfg, s, f, answer);
        StoreKeepsCache(cfg, s, s', key, Entry(r, stamp + cfg.ttl));
      case Stored(r) =>
        ClearStep(cfg, s, f, answer);
        ClearKeepsCache(cfg, s, s', key);
      case _ =>
        QuietStep(cfg, s, f, answer);
        CacheStaysOk(cfg, s, s');
    }
  }

  lemma StampKeepsCache(cfg: Config, s: System, s': System, key: Key, r: Reading)
    requires CacheOk(cfg, s) && (key, r) in s.log && s'.cache == s.cache
    requires s'.clock == s.clock && s'.stamps == s.stamps + {(key, r, s.clock)} && s'.log == s.log && s'.errs == s.errs
    ensures CacheOk(cfg, s')
  {
  }

  lemma ClearKeepsCache(cfg: Config, s: System, s': System, key: Key)
    requires CacheOk(cfg, s) && s'.cache == ClearFailure(s.cache, key)
    requires s'.clock == s.clock && s'.stamps == s.stamps && s'.log == s.log && s'.errs == s.errs
    ensures CacheOk(cfg, s')
  {
    SmallerDomain(s'.cache.failures, s.cache.failures);
  }

  /** A store adds its own entry, if any, and keeps within the cap. */
  lemma StoreMeans(cfg: Config, c: Cache, key: Key, e: Entry, now: int)
    requires |c.entries| <= CAP
    ensures var c' := Store(true, cfg, c, key, e, now).0;
            && |c'.entries| <= CAP && c'.failures == c.failures
            && forall k :: k in c'.entries ==> (k == key && c'.entries[k] == e) || (k in c.entries && c'.entries[k] == c.entries[k])
  {
  }

  lemma StoreKeepsCache(cfg: Config, s: System, s': System, key: Key, e: Entry)
    requires CacheOk(cfg, s) && (key, e.reading, e.expires - cfg.ttl) in s.stamps
    requires s'.cache == Store(true, cfg, s.cache, key, e, s.clock).0
    requires s'.clock == s.clock && s'.stamps == s.stamps && s'.log == s.log && s'.errs == s.errs
    ensures CacheOk(cfg, s')
  {
    hide Store;
    StoreMeans(cfg, s.cache, key, e, s.clock);
  }

  /** A lookup that publishes is no longer the current one for its key; no other step changes which is. */
  lemma FlightStepCurrent(cfg: Config, s: System, f: Id, answer: Result<Reading, Error>)
    requires f in s.flights && AdvanceFlight(cfg, s, f, answer).Some?
    ensures var s' := AdvanceFlight(cfg, s, f, answer).value;
            && f in s'.flights
            && s'.current == if s'.flights[f].phase.Published? then s.current - {s.flights[f].key} else s.current
  {
    hide Store, ClearFailure;
  }

  lemma MovedFlightOk(cfg: Config, s: System, f: Id, answer: Result<Reading, Error>)
    requires f in s.flights && FlightOk(s, f, s.flights[f]) && AdvanceFlight(cfg, s, f, answer).Some?
    ensures var s' := AdvanceFlight(cfg, s, f, answer).value.(step := s.step + 1);
            f in s'.flights && FlightOk(s', f, s'.flights[f])
  {
    hide Store, ClearFailure;
  }

  lemma OtherFlightOk(s: System, s': System, f: Id, g: Id)
    requires FlightMoved(s, s', f) && g in s.flights && g != f
    requires FlightOk(s, f, s.flights[f]) && FlightOk(s, g, s.flights[g])
    requires s'.current == if s'.flights[f].phase.Published? then s.current - {s.flights[f].key} else s.current
    ensures FlightOk(s', g, s'.flights[g])
  {
    assert s'.flights[g] == s.flights[g];
  }

  lemma FlightStepKeepsFlights(cfg: Config, s: System, f: Id, answer: Result<Reading, Error>)
    requires FlightsOk(s) && f in s.flights && AdvanceFlight(cfg, s, f, answer).Some?
    ensures FlightsOk(AdvanceFlight(cfg, s, f, answer).value.(step := s.step + 1))
  {
    hide AdvanceFlight;
    var s' := AdvanceFlight(cfg, s, f, answer).value.(step := s.step + 1);
    assert FlightOk(s, f, s.flights[f]);
    FlightStepMoves(cfg, s, f, answer);
    FlightStepCurrent(cfg, s, f, answer);
    MovedFlightOk(cfg, s, f, answer);
    forall g | g in s'.flights ensures FlightOk(s', g, s'.flights[g]) {
      if g != f {
        assert FlightOk(s, g, s.flights[g]);
        OtherFlightOk(s, s', f, g);
      }
    }
  }

  lemma NextKeeps(cfg: Config, s: System, m: Move)
    requires Inv(cfg, s) && Next(cfg, s, m).Some?
    ensures Inv(cfg, Next(cfg, s, m).value)
  {
    hide Inv, AdvanceFlight;
    match m {
      case Read(id) => ReadKeeps(cfg, s, id);
      case JoinFlight(id, newFlight) => JoinKeeps(cfg, s, id, newFlight);
      case NoteFailed(id) => NoteKeeps(cfg, s, id);
      case GiveUp(id) => GiveUpKeeps(cfg, s, id);
      case Fly(f, answer) => FlightStepKeeps(cfg, s, f, answer);
      case _ => OtherStepKeeps(cfg, s, m);
    }
  }

  /** Time passes, a caller arrives, or one departs. */
  lemma OtherStepKeeps(cfg: Config, s: System, m: Move)
    requires Inv(cfg, s) && Next(cfg, s, m).Some? && (m.Tick? || m.Call? || m.Cancel?)
    ensures Inv(cfg, Next(cfg, s, m).value)
  {
    hide Inv;
    var s' := Next(cfg, s, m).value;
    if m.Call? {
      var c := Caller(m.key, m.live, s.step, s.clock, if m.live then Join else ReadClock);
      assert s' == s.(callers := s.callers[m.id := c], step := s.step + 1);
      assert CallerOk(cfg, s', m.id, c);
    }
    OutsideMoves(cfg, s, s');
  }

  lemma OutsideMoves(cfg: Config, s: System, s': System)
    requires Inv(cfg, s) && s.clock <= s'.clock && s.gone <= s'.gone
    requires s' == s.(clock := s'.clock, gone := s'.gone, callers := s'.callers, step := s.step + 1)
    requires forall id :: id in s'.callers ==> (id in s.callers && s'.callers[id] == s.callers[id]) || CallerOk(cfg, s', id, s'.callers[id])
    ensures Inv(cfg, s')
  {
    assert Grows(s, s');
    CacheStaysOk(cfg, s, s');
    hide CacheOk, Grows, CallerOk, CallersOk;
    forall f | f in s'.flights ensures FlightOk(s', f, s'.flights[f]) {
      assert FlightOk(s, f, s.flights[f]);
    }
    hide FlightOk;
    CallersStayOk(cfg, s, s');
  }

  lemma {:induction false} RunKeeps(cfg: Config, s: System, moves: seq<Move>)
    requires Inv(cfg, s) && Run(cfg, s, moves).Some?
    ensures Inv(cfg, Run(cfg, s, moves).value)
    decreases |moves|
  {
    hide Inv, Next;
    if moves != [] {
      NextKeeps(cfg, s, moves[0]);
      RunKeeps(cfg, Next(cfg, s, moves[0]).value, moves[1..]);
    }
  }

  // ---------------------------------------------------------------- What callers may rely on

  /**
   In every interleaving of any callers: a reading returned for a key is one the chain gave for that
   key; one flagged neither cached nor stale was published by a lookup after the call began; one
   flagged cached alone was judged inside its time to live, one flagged stale inside the grace
   after it, both by a clock read during the call; RefreshSigner sets neither flag; an error is the
   chain's own for the key or the caller's departure.
   */
  lemma AnswersAreHonest(cfg: Config, clock: int, moves: seq<Move>, id: Id)
    requires Run(cfg, Init(clock), moves).Some?
    requires id in Run(cfg, Init(clock), moves).value.callers && Run(cfg, Init(clock), moves).value.callers[id].pc.Done?
    ensures var s := Run(cfg, Init(clock), moves).value;
            var c := s.callers[id];
            AnswerOk(cfg, s, id, c, c.pc.result, c.pc.basis)
  {
    hide Run, AnswerOk;
    RunKeeps(cfg, Init(clock), moves);
    var s := Run(cfg, Init(clock), moves).value;
    assert CallerOk(cfg, s, id, s.callers[id]);
  }

  /**
   What a caller does next, by what the maps hold at that very step: a reading held fresh is answered; a lookup
   is joined exactly when none is and no failure cools down; a reading in its grace is answered instead of an
   error; and an error names what was held.
   */
  lemma LooksMean(cfg: Config, s: System, id: Id)
    requires Inv(cfg, s) && Next(cfg, s, Read(id)).Some?
    ensures var c, pc := s.callers[id], Next(cfg, s, Read(id)).value.callers[id].pc;
            match c.pc
            case ReadClock => pc == Load(s.clock)
            case Load(now) =>
              if HoldsFresh(s.cache, c.key, now) then
                pc == Done(Success(Signer(s.cache.entries[c.key].reading, true, false)), ByCache(now))
              else pc == LookForFailure(now)
            case LookForFailure(now) =>
              if Cooling(cfg, s.cache, c.key, now) then pc == AnswerCooling(now, s.cache.failures[c.key].err) else pc == Join
            case AnswerCooling(now, err) => BridgesOr(cfg, s.cache, c.key, now, err, pc)
            case FallBack(now, err) => BridgesOr(cfg, s.cache, c.key, now, err, pc)
            case Wait(f) =>
              && f in s.flights && s.flights[f].phase.Published?
              && (match s.flights[f].phase.result
                  case Success(r) => pc == Done(Success(Signer(r, false, false)), ByFlight(f))
                  case Failure(err) => pc == ReadClockAgain(err))
            case ReadClockAgain(err) => pc == Note(s.clock, err)
            case _ => false
  {
    hide Inv;
  }

  /** The reading in its grace is answered, or else the error. */
  ghost predicate BridgesOr(cfg: Config, cache: Cache, key: Key, now: int, err: Error, pc: Pc) {
    if InGrace(cfg, cache, key, now) then pc == Done(Success(Signer(cache.entries[key].reading, true, true)), ByGrace(now))
    else
      && pc.Done? && pc.result == Failure(err) && pc.basis.PastGrace? && pc.basis.now == now
      && (pc.basis.held.Some? <==> key in cache.entries) && (pc.basis.held.Some? ==> pc.basis.held.value == cache.entries[key])
  }

  /**
   Nobody is stuck: a caller that has not finished can read, or join a lookup of its own key, or note a failure; one
   that waits can read exactly once its lookup is published, and until then that lookup can go on, or it can give up.
   */
  lemma CallersCanMove(cfg: Config, s: System, id: Id, newFlight: Id, answer: Result<Reading, Error>)
    requires Inv(cfg, s) && id in s.callers && newFlight !in s.flights
    ensures var c := s.callers[id]; var read, join, note := Next(cfg, s, Read(id)), Next(cfg, s, JoinFlight(id, newFlight)), Next(cfg, s, NoteFailed(id));
            match c.pc
            case Done(_, _) => read == None && join == None && note == None
            case Join => join.Some? && JoinsItsOwn(s, join.value, id, newFlight)
            case Note(now, err) =>
              note.Some? && note.value.callers[id].pc == if c.live then Done(Failure(err), LiveError) else FallBack(now, err)
            case Wait(f) =>
              && f in s.flights && (read.Some? <==> s.flights[f].phase.Published?)
              && (read.Some? <==> Next(cfg, s, Fly(f, answer)) == None)
              && (Next(cfg, s, GiveUp(id)).Some? <==> id in s.gone)
              && (id in s.gone ==> Next(cfg, s, GiveUp(id)).value.callers[id].pc == ReadClockAgain(CANCELED))
            case _ => read.Some?
  {
    hide CacheOk, FlightsOk, Store, ClearFailure, RecordFailure, Fresh, RecentFailure, StaleWithinGrace;
    assert CallerOk(cfg, s, id, s.callers[id]);
  }

  /** The caller waits for the lookup of its key: the one under way, or a new one if there is none. */
  ghost predicate JoinsItsOwn(s: System, s': System, id: Id, newFlight: Id)
    requires id in s.callers
  {
    var key := s.callers[id].key;
    && id in s'.callers
    && s'.callers[id].pc == Wait(if key in s.current then s.current[key] else newFlight)
    && s'.flights == (if key in s.current then s.flights else s.flights[newFlight := Flight(key, Looking)])
    && s'.current == (if key in s.current then s.current else s.current[key := newFlight])
  }

  // ---------------------------------------------------------------- A call that finds nothing gets the chain's answer

  lemma RunAppend(cfg: Config, s: System, a: seq<Move>, b: seq<Move>)
    requires Run(cfg, s, a).Some?
    ensures Run(cfg, s, a + b) == Run(cfg, Run(cfg, s, a).value, b)
    decreases |a|
  {
    hide Next;
    if a == [] {
      assert a + b == b;
    } else {
      assert (a + b)[1..] == a[1..] + b;
      RunAppend(cfg, Next(cfg, s, a[0]).value, a[1..], b);
    }
  }

  /** One more move at the end of a run that keeps the invariant. */
  lemma RunMore(cfg: Config, s: System, moves: seq<Move>, now: System, move: Move)
    requires Run(cfg, s, moves) == Some(now) && Inv(cfg, now) && Next(cfg, now, move).Some?
    ensures Run(cfg, s, moves + [move]) == Next(cfg, now, move) && Inv(cfg, Next(cfg, now, move).value)
  {
    hide Next, Inv;
    RunAppend(cfg, s, moves, [move]);
    assert [move][1..] == [];
    NextKeeps(cfg, now, move);
  }

  /** The next phase of a lookup, for each it can be in. */
  lemma FlightMeans(cfg: Config, s: System, f: Id, answer: Result<Reading, Error>)
    requires f in s.flights && !s.flights[f].phase.Published?
    ensures var r, key := Next(cfg, s, Fly(f, answer)), s.flights[f].key;
            && r.Some? && f in r.value.flights && r.value.flights[f].key == key && r.value.callers == s.callers && r.value.clock == s.clock
            && match s.flights[f].phase
               case Looking => r.value.flights[f].phase == (match answer case Success(x) => Answered(x) case Failure(err) => Refused(err))
               case Answered(x) => r.value.flights[f].phase == Stamped(x, s.clock)
               case Stamped(x, stamp) =>
                 r.value.flights[f].phase == Stored(x) && r.value.cache == Store(true, cfg, s.cache, key, Entry(x, stamp + cfg.ttl), s.clock).0
               case Stored(x) => r.value.flights[f].phase == Cleared(x) && r.value.cache == s.cache.(failures := s.cache.failures - {key})
               case Cleared(x) => r.value.flights[f].phase == Published(Success(x), s.step)
               case Refused(err) => r.value.flights[f].phase == Published(Failure(err), s.step)
  {
    hide Store;
  }

  /** A lookup the chain answers is published after five moves of its own. */
  lemma FlightLands(cfg: Config, s: System, moves: seq<Move>, now: System, f: Id, x: Reading) returns (landed: System)
    requires Run(cfg, s, moves) == Some(now) && Inv(cfg, now) && f in now.flights && now.flights[f].phase.Looking?
    ensures var fly := Fly(f, Success(x)); Run(cfg, s, moves + [fly, fly, fly, fly, fly]) == Some(landed)
    ensures Inv(cfg, landed) && landed.callers == now.callers && f in landed.flights
    ensures landed.flights[f].phase.Published? && landed.flights[f].phase.result == Success(x)
  {
    hide Next, Run, Inv, Store;
    var fly := Fly(f, Success(x));
    landed := now;
    ghost var so := moves;
    for n := 0 to 5
      invariant Run(cfg, s, so) == Some(landed) && Inv(cfg, landed) && landed.callers == now.callers && f in landed.flights
      invariant so == moves + [fly, fly, fly, fly, fly][..n]
      invariant var phase := landed.flights[f].phase;
                && (n == 0 ==> phase.Looking?) && (n == 1 ==> phase == Answered(x)) && (n == 2 ==> phase.Stamped? && phase.reading == x)
                && (n == 3 ==> phase == Stored(x)) && (n == 4 ==> phase == Cleared(x))
                && (n == 5 ==> phase.Published? && phase.result == Success(x))
    {
      FlightMeans(cfg, landed, f, Success(x));
      RunMore(cfg, s, so, landed, fly);
      assert so + [fly] == moves + [fly, fly, fly, fly, fly][..n + 1];
      so, landed := so + [fly], Next(cfg, landed, fly).value;
    }
    assert so == moves + [fly, fly, fly, fly, fly];
  }

  /** A caller that finds neither a reading nor a failure to answer by comes to wait for a new lookup. */
  lemma ColdCallLooks(cfg: Config, s: System, id: Id, key: Key, f: Id) returns (moves: seq<Move>, waits: System)
    requires Inv(cfg, s) && id !in s.callers && key !in s.current && f !in s.flights
    requires !HoldsFresh(s.cache, key, s.clock) && !Cooling(cfg, s.cache, key, s.clock)
    ensures moves == [Move.Call(id, key, false), Read(id), Read(id), Read(id), JoinFlight(id, f)] && Run(cfg, s, moves) == Some(waits) && Inv(cfg, waits)
    ensures id in waits.callers && waits.callers[id].pc == Wait(f) && waits.callers[id].key == key && !waits.callers[id].live
    ensures f in waits.flights && waits.flights[f] == Flight(key, Looking)
  {
    hide Inv, Run;
    moves := [];
    assert Run(cfg, s, []) == Some(s) by { NoMoves(cfg, s); }
    RunMore(cfg, s, [], s, Move.Call(id, key, false));
    var s1 := Next(cfg, s, Move.Call(id, key, false)).value;
    CallArrives(cfg, s, id, key);
    hide Next;
    moves := [] + [Move.Call(id, key, false)];
    var r1 := ReadMoves(cfg, s, moves, s1, id);
    var r2 := ReadMoves(cfg, s, moves + [Read(id)], r1, id);
    var r3 := ReadMoves(cfg, s, moves + [Read(id)] + [Read(id)], r2, id);
    CallersCanMove(cfg, r3, id, f, Failure(""));
    RunMore(cfg, s, moves + [Read(id)] + [Read(id)] + [Read(id)], r3, JoinFlight(id, f));
    waits := Next(cfg, r3, JoinFlight(id, f)).value;
    KeepsItsKey(cfg, r3, id, f);
    moves := moves + [Read(id)] + [Read(id)] + [Read(id)] + [JoinFlight(id, f)];
  }

  lemma NoMoves(cfg: Config, s: System)
    ensures Run(cfg, s, []) == Some(s)
  {
  }

  lemma CallArrives(cfg: Config, s: System, id: Id, key: Key)
    requires id !in s.callers
    ensures Next(cfg, s, Move.Call(id, key, false))
            == Some(s.(callers := s.callers[id := Caller(key, false, s.step, s.clock, ReadClock)], step := s.step + 1))
  {
  }

  lemma KeepsItsKey(cfg: Config, s: System, id: Id, f: Id)
    requires id in s.callers && Next(cfg, s, JoinFlight(id, f)).Some?
    ensures var s' := Next(cfg, s, JoinFlight(id, f)).value; id in s'.callers && s'.callers[id] == s.callers[id].(pc := s'.callers[id].pc)
  {
  }

  /** A read moves its caller only. */
  lemma ReadMoves(cfg: Config, s: System, moves: seq<Move>, now: System, id: Id) returns (read: System)
    requires Run(cfg, s, moves) == Some(now) && Inv(cfg, now) && id in now.callers
    requires now.callers[id].pc.ReadClock? || now.callers[id].pc.Load? || now.callers[id].pc.LookForFailure?
    ensures Run(cfg, s, moves + [Read(id)]) == Some(read) && Next(cfg, now, Read(id)) == Some(read) && Inv(cfg, read)
    ensures id in read.callers
    ensures read == now.(callers := now.callers[id := now.callers[id].(pc := read.callers[id].pc)], step := now.step + 1)
    ensures match now.callers[id].pc
            case ReadClock => read.callers[id].pc == Load(now.clock)
            case Load(t) => !HoldsFresh(now.cache, now.callers[id].key, t) ==> read.callers[id].pc == LookForFailure(t)
            case LookForFailure(t) => !Cooling(cfg, now.cache, now.callers[id].key, t) ==> read.callers[id].pc == Join
            case _ => true
  {
    hide Inv, Run;
    read := Next(cfg, now, Read(id)).value;
    LooksMean(cfg, now, id);
    RunMore(cfg, s, moves, now, Read(id));
  }

  /**
   A call that finds no fresh reading and no failure cooling down, with no lookup under way, starts one, and if the
   chain answers returns that very reading, unflagged, by the eleven moves named.
   */
  lemma ColdCallGetsTheAnswer(cfg: Config, s: System, id: Id, key: Key, f: Id, x: Reading) returns (moves: seq<Move>)
    requires Inv(cfg, s) && id !in s.callers && key !in s.current && f !in s.flights
    requires !HoldsFresh(s.cache, key, s.clock) && !Cooling(cfg, s.cache, key, s.clock)
    ensures var fly := Fly(f, Success(x));
            moves == [Move.Call(id, key, false), Read(id), Read(id), Read(id), JoinFlight(id, f)] + [fly, fly, fly, fly, fly] + [Read(id)]
    ensures Run(cfg, s, moves).Some? && id in Run(cfg, s, moves).value.callers
    ensures Run(cfg, s, moves).value.callers[id].pc == Done(Success(Signer(x, false, false)), ByFlight(f))
  {
    hide Inv, Run, Next;
    var asks, waits := ColdCallLooks(cfg, s, id, key, f);
    var landed := FlightLands(cfg, s, asks, waits, f, x);
    var fly := Fly(f, Success(x));
    moves := asks + [fly, fly, fly, fly, fly];
    ReadsPublished(cfg, landed, id, f);
    RunMore(cfg, s, moves, landed, Read(id));
    moves := moves + [Read(id)];
  }

  lemma ReadsPublished(cfg: Config, s: System, id: Id, f: Id)
    requires id in s.callers && s.callers[id].pc == Wait(f) && f in s.flights && s.flights[f].phase.Published? && s.flights[f].phase.result.Success?
    ensures var r := Next(cfg, s, Read(id));
            r.Some? && id in r.value.callers && r.value.callers[id].pc == Done(Success(Signer(s.flights[f].phase.result.value, false, false)), ByFlight(f))
  {
  }

  /** In every interleaving both maps stay within the cap, and hold only what the chain said. */
  lemma MapsStayBounded(cfg: Config, clock: int, moves: seq<Move>)
    requires Run(cfg, Init(clock), moves).Some?
    ensures var s := Run(cfg, Init(clock), moves).value;
            && |s.cache.entries| <= CAP && |s.cache.failures| <= CAP
            && (forall k :: k in s.cache.entries ==> (k, s.cache.entries[k].reading) in s.log)
            && (forall k :: k in s.cache.failures ==> (k, s.cache.failures[k].err) in s.errs)
  {
    hide Run;
    RunKeeps(cfg, Init(clock), moves);
  }

  /** In every interleaving at most one lookup per key is under way. */
  lemma OneLookupPerKey(cfg: Config, clock: int, moves: seq<Move>, f: Id, g: Id)
    requires Run(cfg, Init(clock), moves).Some?
    ensures var s := Run(cfg, Init(clock), moves).value;
            (&& f in s.flights && g in s.flights && s.flights[f].key == s.flights[g].key
             && !s.flights[f].phase.Published? && !s.flights[g].phase.Published?) ==> f == g
  {
    hide Run;
    RunKeeps(cfg, Init(clock), moves);
    var s := Run(cfg, Init(clock), moves).value;
    if f in s.flights && g in s.flights {
      assert FlightOk(s, f, s.flights[f]) && FlightOk(s, g, s.flights[g]);
    }
  }
}
