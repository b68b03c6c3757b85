/**
 The cache over the on-chain signer registry (client/chain/cache.go): a time to live, a grace
 window for failing refreshes, a cooldown after a failure, and maps that are capped and swept.
 A key is what chain.ProviderKey makes of a provider address.
 */
module SignerCache {
  import opened Wrappers
  import opened Sweeping

  type Error = string

  /** What the chain says of one provider. */
  datatype Reading = Reading(address: string, acknowledged: bool)

  /** A reading as handed to a caller, with where it came from. */
  datatype Signer = Signer(reading: Reading, cached: bool, stale: bool)

  datatype Entry = Entry(reading: Reading, expires: int)

  datatype Failed = Failed(at: int, err: Error)

  datatype Config = Config(ttl: int, grace: int, cooldown: int)

  datatype Cache = Cache(entries: map<Key, Entry>, failures: map<Key, Failed>)

  const EMPTY := Cache(map[], map[])

  // ---------------------------------------------------------------- The sections run under the lock

  /** When an entry goes inert: past it neither the time to live nor the grace window is open. */
  function EntryDeadline(cfg: Config): Entry -> int { (e: Entry) => e.expires + cfg.grace }

  function FailureDeadline(cfg: Config): Failed -> int { (f: Failed) => f.at + cfg.cooldown }

  function Fresh(c: Cache, key: Key, now: int): Option<Reading> {
    if key in c.entries && now < c.entries[key].expires then Some(c.entries[key].reading) else None
  }

  function RecentFailure(cfg: Config, c: Cache, key: Key, now: int): Option<Error> {
    if cfg.cooldown > 0 && key in c.failures && now < c.failures[key].at + cfg.cooldown then Some(c.failures[key].err) else None
  }

  function StaleWithinGrace(cfg: Config, c: Cache, key: Key, now: int): Option<Reading> {
    if cfg.grace > 0 && key in c.entries && now < c.entries[key].expires + cfg.grace then Some(c.entries[key].reading) else None
  }

  /** store, or its counterpart on a map with no cap that is never swept. */
  function Store(capped: bool, cfg: Config, c: Cache, key: Key, e: Entry, now: int): (Cache, bool) {
    if capped then
      var r := Insert(c.entries, key, e, now, EntryDeadline(cfg));
      (c.(entries := r.m), r.declined)
    else (c.(entries := c.entries[key := e]), false)
  }

  /** recordFailure, likewise. */
  function RecordFailure(capped: bool, cfg: Config, c: Cache, key: Key, err: Error, now: int): (Cache, bool) {
    if capped then
      var r := Insert(c.failures, key, Failed(now, err), now, FailureDeadline(cfg));
      (c.(failures := r.m), r.declined)
    else (c.(failures := c.failures[key := Failed(now, err)]), false)
  }

  function ClearFailure(c: Cache, key: Key): Cache { c.(failures := c.failures - {key}) }

  // ---------------------------------------------------------------- One call after another

  /**
   What the outside does during one call that does not overlap another: the clock when the call
   starts, what the live lookup would answer, the clock when its answer is stamped and stored, the
   clock after a failure, and whether the caller had gone by then.
   */
  datatype Outside = Outside(start: int, lookup: Result<Reading, Error>, stamped: int, stored: int, failed: int, gone: bool)

  /** What a call answers, whether a write of it was declined, and whether it asked the chain. */
  datatype Answer = Answer(result: Result<Signer, Error>, declined: bool, asked: bool)

  /** refresh: the live lookup, cached when it succeeds. */
  function Refresh(capped: bool, cfg: Config, c: Cache, key: Key, o: Outside): (Answer, Cache) {
    match o.lookup
    case Failure(err) => (Answer(Failure(err), false, true), c)
    case Success(reading) =>
      var (c', declined) := Store(capped, cfg, c, key, Entry(reading, o.stamped + cfg.ttl), o.stored);
      (Answer(Success(Signer(reading, false, false)), declined, true), ClearFailure(c', key))
  }

  function NoteFailure(capped: bool, cfg: Config, c: Cache, key: Key, err: Error, o: Outside): (Cache, bool) {
    if o.gone then (c, false) else RecordFailure(capped, cfg, c, key, err, o.failed)
  }

  function RefreshSigner(capped: bool, cfg: Config, c: Cache, key: Key, o: Outside): (Answer, Cache) {
    var (a, c') := Refresh(capped, cfg, c, key, o);
    match a.result
    case Success(_) => (a, c')
    case Failure(err) =>
      var (c'', declined) := NoteFailure(capped, cfg, c', key, err, o);
      (Answer(Failure(err), declined, true), c'')
  }

  function AcknowledgedSigner(capped: bool, cfg: Config, c: Cache, key: Key, o: Outside): (Answer, Cache) {
    match Fresh(c, key, o.start)
    case Some(reading) => (Answer(Success(Signer(reading, true, false)), false, false), c)
    case None =>
      match RecentFailure(cfg, c, key, o.start)
      case Some(err) =>
        (match StaleWithinGrace(cfg, c, key, o.start)
         case Some(reading) => (Answer(Success(Signer(reading, true, true)), false, false), c)
         case None => (Answer(Failure(err), false, false), c))
      case None =>
        var (a, c') := Refresh(capped, cfg, c, key, o);
        (match a.result
         case Success(_) => (a, c')
         case Failure(err) =>
           var (c'', declined) := NoteFailure(capped, cfg, c', key, err, o);
           match StaleWithinGrace(cfg, c'', key, o.failed)
           case Some(reading) => (Answer(Success(Signer(reading, true, true)), declined, true), c'')
           case None => (Answer(Failure(err), declined, true), c''))
  }

  /** cachedRegistry, as the Go type runs it when calls do not overlap. */
  class CachedRegistry {
    const cfg: Config
    var entries: map<Key, Entry>
    var failures: map<Key, Failed>

    function Contents(): Cache
      reads this
    {
      Cache(entries, failures)
    }

    constructor (ttl: int, grace: int, cooldown: int)
      ensures Contents() == EMPTY && cfg == Config(ttl, grace, cooldown)
    {
      cfg := Config(ttl, grace, cooldown);
      entries := map[];
      failures := map[];
    }

    /** store: one section under the lock. */
    method StoreEntry(key: Key, e: Entry, now: int)
      modifies this`entries
      ensures Contents() == Store(true, cfg, old(Contents()), key, e, now).0
    {
      if key !in entries && |entries| >= CAP {
        entries := SweepExpired(entries, now, EntryDeadline(cfg));
        if |entries| >= CAP {
          return;
        }
      }
      entries := entries[key := e];
    }

    /** recordFailure: one section under the lock. */
    method Record(key: Key, err: Error, now: int)
      modifies this`failures
      ensures Contents() == RecordFailure(true, cfg, old(Contents()), key, err, now).0
    {
      if key !in failures && |failures| >= CAP {
        failures := SweepExpired(failures, now, FailureDeadline(cfg));
        if |failures| >= CAP {
          return;
        }
      }
      failures := failures[key := Failed(now, err)];
    }

    method Clear(key: Key)
      modifies this`failures
      ensures Contents() == ClearFailure(old(Contents()), key)
    {
      failures := failures - {key};
    }

    /** refresh, led by this caller. */
    method Lookup(key: Key, o: Outside) returns (r: Result<Signer, Error>)
      modifies this`entries, this`failures
      ensures r == Refresh(true, cfg, old(Contents()), key, o).0.result
      ensures Contents() == Refresh(true, cfg, old(Contents()), key, o).1
    {
      hide Store, ClearFailure;
      match o.lookup {
        case Failure(err) => return Failure(err);
        case Success(reading) =>
          StoreEntry(key, Entry(reading, o.stamped + cfg.ttl), o.stored);
          Clear(key);
          return Success(Signer(reading, false, false));
      }
    }

    method Acknowledged(key: Key, o: Outside) returns (r: Result<Signer, Error>)
      modifies this`entries, this`failures
      ensures r == AcknowledgedSigner(true, cfg, old(Contents()), key, o).0.result
      ensures Contents() == AcknowledgedSigner(true, cfg, old(Contents()), key, o).1
    {
      if key in entries && o.start < entries[key].expires {
        return Success(Signer(entries[key].reading, true, false));
      }
      var recent := RecentFailure(cfg, Contents(), key, o.start);
      if recent.Some? {
        var stale := StaleWithinGrace(cfg, Contents(), key, o.start);
        return if stale.Some? then Success(Signer(stale.value, true, true)) else Failure(recent.value);
      }
      r := Lookup(key, o);
      if r.Failure? {
        if !o.gone {
          Record(key, r.error, o.failed);
        }
        var stale := StaleWithinGrace(cfg, Contents(), key, o.failed);
        if stale.Some? {
          return Success(Signer(stale.value, true, true));
        }
      }
    }

    method RefreshLive(key: Key, o: Outside) returns (r: Result<Signer, Error>)
      modifies this`entries, this`failures
      ensures r == RefreshSigner(true, cfg, old(Contents()), key, o).0.result
      ensures Contents() == RefreshSigner(true, cfg, old(Contents()), key, o).1
    {
      r := Lookup(key, o);
      if r.Failure? && !o.gone {
        Record(key, r.error, o.failed);
      }
    }
  }

  // ---------------------------------------------------------------- What a call is answered

  /** A reading is held whose time to live has not run out. */
  predicate HoldsFresh(c: Cache, key: Key, now: int) { key in c.entries && now < c.entries[key].expires }

  /** A reading is held, and a grace is set that has not run out after its time to live. */
  predicate InGrace(cfg: Config, c: Cache, key: Key, now: int) {
    key in c.entries && cfg.grace > 0 && now < c.entries[key].expires + cfg.grace
  }

  /** A failure is remembered, and a cooldown is set that has not run out after it. */
  predicate Cooling(cfg: Config, c: Cache, key: Key, now: int) {
    key in c.failures && cfg.cooldown > 0 && now < c.failures[key].at + cfg.cooldown
  }

  /**
   The chain is asked exactly when no fresh reading is held and no failure cools down. What it gives is
   answered without a flag; when it is not asked, or fails, the reading held is answered as long as the
   grace lasts, marked stale, and only past it an error.
   */
  lemma AcknowledgedMeans(capped: bool, cfg: Config, c: Cache, key: Key, o: Outside)
    ensures var (a, c') := AcknowledgedSigner(capped, cfg, c, key, o);
            var hit, judged := HoldsFresh(c, key, o.start), if a.asked then o.failed else o.start;
            && (a.asked <==> !hit && !Cooling(cfg, c, key, o.start))
            && (hit ==> a.result == Success(Signer(c.entries[key].reading, true, false)))
            && (a.asked && o.lookup.Success? ==> a.result == Success(Signer(o.lookup.value, false, false)))
            && (!hit && (!a.asked || o.lookup.Failure?) ==>
                  && (a.result.Success? <==> InGrace(cfg, c, key, judged))
                  && (a.result.Success? ==> a.result.value == Signer(c.entries[key].reading, true, true))
                  && (a.result.Failure? ==> a.result.error == if a.asked then o.lookup.error else c.failures[key].err))
            && (!a.asked ==> c' == c && !a.declined)
  {
    hide Store, RecordFailure;
    if o.lookup.Failure? {
      RecordKeepsEntries(capped, cfg, c, key, o.lookup.error, o.failed);
    }
  }

  lemma RecordKeepsEntries(capped: bool, cfg: Config, c: Cache, key: Key, err: Error, now: int)
    ensures RecordFailure(capped, cfg, c, key, err, now).0.entries == c.entries
  {
  }

  /** A live read answers what the chain gives, whatever is held. */
  lemma RefreshMeans(capped: bool, cfg: Config, c: Cache, key: Key, o: Outside)
    ensures var a := RefreshSigner(capped, cfg, c, key, o).0;
            a.asked && a.result == match o.lookup
                                   case Failure(err) => Failure(err)
                                   case Success(reading) => Success(Signer(reading, false, false))
  {
    hide Store, RecordFailure;
  }

  /**
   What a call that asked the chain leaves behind: its reading until ttl after it was stamped and no failure, or
   the failure as of when it was noted, unless the caller had gone. Other keys lose only what is past its deadline.
   */
  lemma ServeLeaves(cfg: Config, c: Cache, call: Call)
    requires Serve(true, cfg, c, call).0.asked
    ensures var (a, c') := Serve(true, cfg, c, call); var key, o := call.key, call.o;
            match o.lookup
            case Success(reading) =>
              && c'.failures == c.failures - {key}
              && (a.declined <==> key !in c'.entries)
              && (!a.declined ==> c'.entries[key] == Entry(reading, o.stamped + cfg.ttl))
              && (forall k :: k in c'.entries && k != key ==> k in c.entries && c'.entries[k] == c.entries[k])
              && (forall k :: k in c.entries && k !in c'.entries ==> c.entries[k].expires + cfg.grace <= o.stored)
            case Failure(err) =>
              && c'.entries == c.entries
              && (if o.gone then c'.failures == c.failures && !a.declined
                  else
                    && (a.declined <==> key !in c'.failures)
                    && (!a.declined ==> c'.failures[key] == Failed(o.failed, err)))
              && (forall k :: k in c'.failures && k != key ==> k in c.failures && c'.failures[k] == c.failures[k])
              && (forall k :: k in c.failures && k !in c'.failures ==> c.failures[k].at + cfg.cooldown <= o.failed)
  {
    hide Store, RecordFailure, Fresh, RecentFailure, StaleWithinGrace;
    match call.o.lookup {
      case Success(reading) => StoreLeaves(cfg, c, call.key, Entry(reading, call.o.stamped + cfg.ttl), call.o.stored);
      case Failure(err) => RecordLeaves(cfg, c, call.key, err, call.o.failed);
    }
  }

  lemma StoreLeaves(cfg: Config, c: Cache, key: Key, e: Entry, now: int)
    ensures var (c', declined) := Store(true, cfg, c, key, e, now);
            && c'.failures == c.failures
            && (declined <==> key !in c'.entries) && (!declined ==> c'.entries[key] == e)
            && (forall k :: k in c'.entries && k != key ==> k in c.entries && c'.entries[k] == c.entries[k])
            && (forall k :: k in c.entries && k !in c'.entries ==> c.entries[k].expires + cfg.grace <= now)
  {
  }

  lemma RecordLeaves(cfg: Config, c: Cache, key: Key, err: Error, now: int)
    ensures var (c', declined) := RecordFailure(true, cfg, c, key, err, now);
            && c'.entries == c.entries
            && (declined <==> key !in c'.failures) && (!declined ==> c'.failures[key] == Failed(now, err))
            && (forall k :: k in c'.failures && k != key ==> k in c.failures && c'.failures[k] == c.failures[k])
            && (forall k :: k in c.failures && k !in c'.failures ==> c.failures[k].at + cfg.cooldown <= now)
  {
  }

  // ---------------------------------------------------------------- The caps do not show

  datatype Call = Call(key: Key, live: bool, o: Outside)

  function Serve(capped: bool, cfg: Config, c: Cache, call: Call): (Answer, Cache) {
    if call.live then RefreshSigner(capped, cfg, c, call.key, call.o) else AcknowledgedSigner(capped, cfg, c, call.key, call.o)
  }

  /** The answers to a sequence of calls. */
  function Answers(capped: bool, cfg: Config, c: Cache, calls: seq<Call>): (answers: seq<Answer>)
    ensures |answers| == |calls|
    decreases |calls|
  {
    if calls == [] then []
    else
      var (a, c') := Serve(capped, cfg, c, calls[0]);
      [a] + Answers(capped, cfg, c', calls[1..])
  }

  /** The clock never goes back: within a call, or from one call to the next. */
  predicate Timely(from: int, calls: seq<Call>)
    decreases |calls|
  {
    calls == [] ||
    (var o := calls[0].o;
     && from <= o.start <= o.stamped <= o.stored && o.start <= o.failed
     && Timely(if o.stored <= o.failed then o.failed else o.stored, calls[1..]))
  }

  /** capped holds what uncapped holds, but for entries that are inert by now. */
  ghost predicate Agree<V>(capped: map<Key, V>, uncapped: map<Key, V>, deadline: V -> int, now: int) {
    && (forall k :: k in capped ==> k in uncapped && uncapped[k] == capped[k])
    && (forall k :: k in uncapped && k !in capped ==> deadline(uncapped[k]) <= now)
  }

  ghost predicate Simulates(cfg: Config, a: Cache, b: Cache, now: int) {
    && Agree(a.entries, b.entries, EntryDeadline(cfg), now)
    && Agree(a.failures, b.failures, FailureDeadline(cfg), now)
  }

  lemma AgreeInsert<V>(m: map<Key, V>, u: map<Key, V>, k: Key, v: V, deadline: V -> int, now: int)
    requires Agree(m, u, deadline, now) && !Insert(m, k, v, now, deadline).declined
    ensures Agree(Insert(m, k, v, now, deadline).m, u[k := v], deadline, now)
  {
  }

  lemma Later(cfg: Config, a: Cache, b: Cache, now: int, later: int)
    requires Simulates(cfg, a, b, now) && now <= later
    ensures Simulates(cfg, a, b, later)
  {
  }

  lemma SameReadings(cfg: Config, a: Cache, b: Cache, key: Key, now: int)
    requires Simulates(cfg, a, b, now) && cfg.grace >= 0
    ensures Fresh(a, key, now) == Fresh(b, key, now)
    ensures RecentFailure(cfg, a, key, now) == RecentFailure(cfg, b, key, now)
    ensures StaleWithinGrace(cfg, a, key, now) == StaleWithinGrace(cfg, b, key, now)
  {
  }

  lemma SameRefresh(cfg: Config, a: Cache, b: Cache, key: Key, o: Outside, now: int)
    requires Simulates(cfg, a, b, now) && now <= o.stored
    requires !Refresh(true, cfg, a, key, o).0.declined
    ensures Refresh(true, cfg, a, key, o).0 == Refresh(false, cfg, b, key, o).0
    ensures o.lookup.Success? ==> Simulates(cfg, Refresh(true, cfg, a, key, o).1, Refresh(false, cfg, b, key, o).1, o.stored)
    ensures o.lookup.Failure? ==> Refresh(true, cfg, a, key, o).1 == a && Refresh(false, cfg, b, key, o).1 == b
  {
    hide Insert, Agree;
    if o.lookup.Success? {
      Later(cfg, a, b, now, o.stored);
      AgreeInsert(a.entries, b.entries, key, Entry(o.lookup.value, o.stamped + cfg.ttl), EntryDeadline(cfg), o.stored);
      AgreeWithout(a.failures, b.failures, key, FailureDeadline(cfg), o.stored);
    }
  }

  lemma AgreeWithout<V>(m: map<Key, V>, u: map<Key, V>, k: Key, deadline: V -> int, now: int)
    requires Agree(m, u, deadline, now)
    ensures Agree(m - {k}, u - {k}, deadline, now)
  {
  }

  lemma SameNote(cfg: Config, a: Cache, b: Cache, key: Key, err: Error, o: Outside, now: int)
    requires Simulates(cfg, a, b, now) && now <= o.failed
    requires !NoteFailure(true, cfg, a, key, err, o).1
    ensures Simulates(cfg, NoteFailure(true, cfg, a, key, err, o).0, NoteFailure(false, cfg, b, key, err, o).0, o.failed)
    ensures !NoteFailure(false, cfg, b, key, err, o).1
  {
    Later(cfg, a, b, now, o.failed);
    if !o.gone {
      AgreeInsert(a.failures, b.failures, key, Failed(o.failed, err), FailureDeadline(cfg), o.failed);
    }
  }

  lemma SameServe(cfg: Config, a: Cache, b: Cache, call: Call, now: int)
    requires Simulates(cfg, a, b, now) && cfg.grace >= 0
    requires now <= call.o.start <= call.o.stamped <= call.o.stored && call.o.start <= call.o.failed
    requires !Serve(true, cfg, a, call).0.declined
    ensures Serve(true, cfg, a, call).0 == Serve(false, cfg, b, call).0
    ensures Simulates(cfg, Serve(true, cfg, a, call).1, Serve(false, cfg, b, call).1,
                      if call.o.stored <= call.o.failed then call.o.failed else call.o.stored)
  {
    hide Simulates, Fresh, RecentFailure, StaleWithinGrace, NoteFailure, Refresh;
    var o, key := call.o, call.key;
    var last := if o.stored <= o.failed then o.failed else o.stored;
    Later(cfg, a, b, now, o.start);
    Later(cfg, a, b, now, last);
    SameReadings(cfg, a, b, key, o.start);
    RefreshAnswers(true, cfg, a, key, o);
    RefreshAnswers(false, cfg, b, key, o);
    if call.live || (Fresh(a, key, o.start).None? && RecentFailure(cfg, a, key, o.start).None?) {
      SameRefresh(cfg, a, b, key, o, o.start);
      var a', b' := Refresh(true, cfg, a, key, o).1, Refresh(false, cfg, b, key, o).1;
      if o.lookup.Success? {
        Later(cfg, a', b', o.stored, last);
      } else {
        var err := o.lookup.error;
        SameNote(cfg, a', b', key, err, o, o.start);
        var a'', b'' := NoteFailure(true, cfg, a', key, err, o).0, NoteFailure(false, cfg, b', key, err, o).0;
        SameReadings(cfg, a'', b'', key, o.failed);
        Later(cfg, a'', b'', o.failed, last);
      }
    }
  }

  lemma RefreshAnswers(capped: bool, cfg: Config, c: Cache, key: Key, o: Outside)
    ensures Refresh(capped, cfg, c, key, o).0.result == (match o.lookup case Failure(err) => Failure(err) case Success(r) => Success(Signer(r, false, false)))
    ensures o.lookup.Failure? ==> !Refresh(capped, cfg, c, key, o).0.declined
  {
  }

  /**
   As long as no write has been declined, capping and sweeping the two maps never shows: every call
   is answered as by maps without a cap that are never swept.
   */
  lemma {:induction false} CapsDoNotShow(cfg: Config, a: Cache, b: Cache, now: int, calls: seq<Call>)
    requires cfg.grace >= 0 && Simulates(cfg, a, b, now) && Timely(now, calls)
    requires forall i :: 0 <= i < |calls| ==> !Answers(true, cfg, a, calls)[i].declined
    ensures Answers(true, cfg, a, calls) == Answers(false, cfg, b, calls)
    decreases |calls|
  {
    hide Simulates, Serve;
    if calls != [] {
      var (x, a') := Serve(true, cfg, a, calls[0]);
      var o := calls[0].o;
      var rest := Answers(true, cfg, a', calls[1..]);
      var all := Answers(true, cfg, a, calls);
      assert all == [x] + rest;
      assert all[0] == x && forall i :: 0 <= i < |rest| ==> rest[i] == all[i + 1];
      SameServe(cfg, a, b, calls[0], now);
      CapsDoNotShow(cfg, a', Serve(false, cfg, b, calls[0]).1, if o.stored <= o.failed then o.failed else o.stored, calls[1..]);
    }
  }

  /** From the empty cache. */
  lemma CappedRunIsUncappedRun(cfg: Config, now: int, calls: seq<Call>)
    requires cfg.grace >= 0 && Timely(now, calls)
    requires forall i :: 0 <= i < |calls| ==> !Answers(true, cfg, EMPTY, calls)[i].declined
    ensures Answers(true, cfg, EMPTY, calls) == Answers(false, cfg, EMPTY, calls)
  {
    CapsDoNotShow(cfg, EMPTY, EMPTY, now, calls);
  }

  /**
   The sign of the grace matters. With a negative one an entry is swept before its time to live has
   run out: storing a new key in a full map drops a reading that was fresh, and keeps it fresh in
   the map that is never swept.
   */
  lemma NegativeGraceShows(cfg: Config, c: Cache, key: Key, newKey: Key, e: Entry, now: int)
    requires cfg.grace < 0 && |c.entries| == CAP && newKey !in c.entries
    requires key in c.entries && c.entries[key].expires + cfg.grace <= now < c.entries[key].expires
    ensures var (a, declined) := Store(true, cfg, c, newKey, e, now);
            !declined && Fresh(a, key, now) == None
    ensures Fresh(Store(false, cfg, c, newKey, e, now).0, key, now) == Some(c.entries[key].reading)
  {
    var swept := Swept(c.entries, now, EntryDeadline(cfg));
    assert swept.Keys <= c.entries.Keys - {key};
    SmallerSet(swept.Keys, c.entries.Keys - {key});
    assert |swept| == |swept.Keys| && |c.entries| == |c.entries.Keys|;
  }

  // ---------------------------------------------------------------- An outage is bridged

  /** Until its deadline, the cache holds e for the key. */
  ghost predicate Keeps(cfg: Config, c: Cache, key: Key, e: Entry, now: int) {
    now < e.expires + cfg.grace ==> key in c.entries && c.entries[key] == e
  }

  /** Whatever is asked about the key, the chain fails. */
  ghost predicate Out(key: Key, calls: seq<Call>) {
    forall i :: 0 <= i < |calls| && calls[i].key == key ==> calls[i].o.lookup.Failure?
  }

  lemma ServeKeepsEntry(cfg: Config, c: Cache, call: Call, key: Key, e: Entry, now: int)
    requires Keeps(cfg, c, key, e, now) && (call.key == key ==> call.o.lookup.Failure?)
    requires now <= call.o.start <= call.o.stamped <= call.o.stored && call.o.start <= call.o.failed
    ensures Keeps(cfg, Serve(true, cfg, c, call).1, key, e, if call.o.stored <= call.o.failed then call.o.failed else call.o.stored)
  {
    hide Serve;
    if Serve(true, cfg, c, call).0.asked {
      ServeLeaves(cfg, c, call);
    } else if call.live {
      RefreshMeans(true, cfg, c, call.key, call.o);
      ServesLive(cfg, c, call);
    } else {
      AcknowledgedMeans(true, cfg, c, call.key, call.o);
      ServesLive(cfg, c, call);
    }
  }

  lemma ServesLive(cfg: Config, c: Cache, call: Call)
    ensures Serve(true, cfg, c, call) == if call.live then RefreshSigner(true, cfg, c, call.key, call.o) else AcknowledgedSigner(true, cfg, c, call.key, call.o)
  {
  }

  /** What one call reading through the cache is answered during an outage. */
  lemma ServeBridges(cfg: Config, c: Cache, call: Call, e: Entry, now: int)
    requires cfg.grace > 0 && Keeps(cfg, c, call.key, e, now) && now <= call.o.start <= call.o.failed
    requires !call.live && call.o.lookup.Failure? && call.o.failed < e.expires + cfg.grace
    ensures var r := Serve(true, cfg, c, call).0.result;
            r == Success(Signer(e.reading, true, call.o.start >= e.expires))
  {
    hide AcknowledgedSigner;
    AcknowledgedMeans(true, cfg, c, call.key, call.o);
  }

  /**
   However long a run, whatever it asks about other keys and however they are swept: while the chain fails for
   a key, every call that reads it through the cache is answered with the reading held, until the grace is over.
   */
  lemma {:induction false} OutageIsBridged(cfg: Config, c: Cache, key: Key, e: Entry, now: int, calls: seq<Call>, i: nat)
    requires cfg.grace > 0 && Keeps(cfg, c, key, e, now) && Timely(now, calls) && Out(key, calls)
    requires i < |calls| && calls[i].key == key && !calls[i].live && calls[i].o.failed < e.expires + cfg.grace
    ensures Answers(true, cfg, c, calls)[i].result == Success(Signer(e.reading, true, calls[i].o.start >= e.expires))
    decreases i
  {
    hide Serve, Keeps;
    var (x, c') := Serve(true, cfg, c, calls[0]);
    var o := calls[0].o;
    if i == 0 {
      ServeBridges(cfg, c, calls[0], e, now);
    } else {
      ServeKeepsEntry(cfg, c, calls[0], key, e, now);
      OutageIsBridged(cfg, c', key, e, if o.stored <= o.failed then o.failed else o.stored, calls[1..], i - 1);
    }
  }

  // ---------------------------------------------------------------- and only for a grace of at least zero

  /** The cache after a sequence of calls. */
  function After(capped: bool, cfg: Config, c: Cache, calls: seq<Call>): Cache
    decreases |calls|
  {
    if calls == [] then c else After(capped, cfg, Serve(capped, cfg, c, calls[0]).1, calls[1..])
  }

  lemma {:induction false} AnswersAppend(capped: bool, cfg: Config, c: Cache, xs: seq<Call>, ys: seq<Call>)
    ensures Answers(capped, cfg, c, xs + ys) == Answers(capped, cfg, c, xs) + Answers(capped, cfg, After(capped, cfg, c, xs), ys)
    ensures After(capped, cfg, c, xs + ys) == After(capped, cfg, After(capped, cfg, c, xs), ys)
    decreases |xs|
  {
    hide Serve;
    if xs == [] {
      assert xs + ys == ys;
    } else {
      assert (xs + ys)[1..] == xs[1..] + ys;
      AnswersAppend(capped, cfg, Serve(capped, cfg, c, xs[0]).1, xs[1..], ys);
    }
  }

  /** Distinct keys, one for each n. */
  function Name(n: nat): (s: string)
    ensures |s| == n
  {
    seq(n, i => 'a')
  }

  const SOME_READING := Reading("0x", true)

  function LiveCall(key: Key, now: int): Call {
    Call(key, true, Outside(now, Success(SOME_READING), now, now, now, false))
  }

  /** n live lookups of distinct keys at time 0. */
  function Fill(n: nat): (calls: seq<Call>)
    ensures |calls| == n
  {
    if n == 0 then [] else Fill(n - 1) + [LiveCall(Name(n - 1), 0)]
  }

  function Filled(cfg: Config, n: nat): map<Key, Entry> {
    if n == 0 then map[] else Filled(cfg, n - 1)[Name(n - 1) := Entry(SOME_READING, cfg.ttl)]
  }

  lemma {:induction false} FilledFacts(cfg: Config, n: nat)
    ensures |Filled(cfg, n)| == n
    ensures forall k :: k in Filled(cfg, n) ==> |k| < n && Filled(cfg, n)[k] == Entry(SOME_READING, cfg.ttl)
    ensures forall i :: 0 <= i < n ==> Name(i) in Filled(cfg, n)
  {
    if n > 0 {
      FilledFacts(cfg, n - 1);
    }
  }

  lemma FillStep(capped: bool, cfg: Config, n: nat)
    requires 0 < n <= CAP
    ensures var r := Serve(capped, cfg, Cache(Filled(cfg, n - 1), map[]), LiveCall(Name(n - 1), 0));
            !r.0.declined && r.1 == Cache(Filled(cfg, n), map[])
  {
    FilledFacts(cfg, n - 1);
    var c := Cache(Filled(cfg, n - 1), map[]);
    assert c.failures - {Name(n - 1)} == c.failures;
  }

  lemma OneAnswer(capped: bool, cfg: Config, c: Cache, x: Call)
    ensures Answers(capped, cfg, c, [x]) == [Serve(capped, cfg, c, x).0]
    ensures After(capped, cfg, c, [x]) == Serve(capped, cfg, c, x).1
  {
    hide Serve;
    assert [x][1..] == [];
  }

  lemma {:induction false} FillFills(capped: bool, cfg: Config, n: nat)
    requires n <= CAP
    ensures After(capped, cfg, EMPTY, Fill(n)) == Cache(Filled(cfg, n), map[])
    ensures forall i :: 0 <= i < n ==> !Answers(capped, cfg, EMPTY, Fill(n))[i].declined
  {
    if n > 0 {
      hide Serve, LiveCall, Answers, After;
      FillFills(capped, cfg, n - 1);
      FillStep(capped, cfg, n);
      var call := LiveCall(Name(n - 1), 0);
      AnswersAppend(capped, cfg, EMPTY, Fill(n - 1), [call]);
      OneAnswer(capped, cfg, Cache(Filled(cfg, n - 1), map[]), call);
    }
  }

  lemma {:induction false} FillTimely(n: nat, calls: seq<Call>)
    requires Timely(0, calls)
    ensures Timely(0, Fill(n) + calls)
    decreases n
  {
    if n == 0 {
      assert Fill(n) + calls == calls;
    } else {
      var more := [LiveCall(Name(n - 1), 0)] + calls;
      assert more[1..] == calls;
      FillTimely(n - 1, more);
      assert Fill(n) + calls == Fill(n - 1) + more;
    }
  }

  /** A run that tells the two apart when the grace is negative. */
  function Telling(cfg: Config): seq<Call> {
    var now := if cfg.ttl + cfg.grace <= 0 then 0 else cfg.ttl + cfg.grace;
    [LiveCall(Name(CAP), now), Call(Name(0), false, Outside(now, Success(SOME_READING), now, now, now, false))]
  }

  lemma TwoAnswers(capped: bool, cfg: Config, c: Cache, x: Call, y: Call)
    ensures Answers(capped, cfg, c, [x, y]) == [Serve(capped, cfg, c, x).0, Serve(capped, cfg, Serve(capped, cfg, c, x).1, y).0]
  {
    hide Serve;
    assert [x, y][1..] == [y] && [y][1..] == [];
  }

  /** A full cache of readings that expire at ttl. */
  ghost predicate IsFull(cfg: Config, c: Cache) {
    && |c.entries| == CAP && c.failures == map[]
    && (forall k :: k in c.entries ==> c.entries[k] == Entry(SOME_READING, cfg.ttl))
    && Name(0) in c.entries && Name(CAP) !in c.entries
  }

  lemma TellingTells(cfg: Config, c: Cache)
    requires cfg.ttl > 0 && cfg.grace < 0 && IsFull(cfg, c)
    ensures var a, b := Answers(true, cfg, c, Telling(cfg)), Answers(false, cfg, c, Telling(cfg));
            |a| == 2 && |b| == 2 && a[1] != b[1] && !a[0].declined && !a[1].declined
  {
    hide Answers;
    var x, y := Telling(cfg)[0], Telling(cfg)[1];
    var now := x.o.start;
    TwoAnswers(true, cfg, c, x, y);
    TwoAnswers(false, cfg, c, x, y);
    NegativeGraceShows(cfg, c, Name(0), Name(CAP), Entry(SOME_READING, now + cfg.ttl), now);
    var a, b := Serve(true, cfg, c, x).1, Serve(false, cfg, c, x).1;
    assert Fresh(a, Name(0), now) == None && RecentFailure(cfg, a, Name(0), now) == None;
    assert Fresh(b, Name(0), now) == Some(SOME_READING);
    SweepOfFull(cfg, c, now);
    SmallStoreIsAdmitted(cfg, a, Name(0), Entry(SOME_READING, now + cfg.ttl), now);
  }

  lemma SweepOfFull(cfg: Config, c: Cache, now: int)
    requires IsFull(cfg, c) && cfg.ttl + cfg.grace <= now
    ensures Store(true, cfg, c, Name(CAP), Entry(SOME_READING, now + cfg.ttl), now).0.entries
            == map[Name(CAP) := Entry(SOME_READING, now + cfg.ttl)]
  {
    assert Swept(c.entries, now, EntryDeadline(cfg)) == map[];
  }

  lemma SmallStoreIsAdmitted(cfg: Config, c: Cache, key: Key, e: Entry, now: int)
    requires |c.entries| < CAP
    ensures !Store(true, cfg, c, key, e, now).1
  {
  }

  /** Over every run in which no write is declined, the caps never show exactly when grace >= 0. */
  lemma CapsNeverShow(cfg: Config)
    requires cfg.ttl > 0
    ensures cfg.grace >= 0 <==>
            forall now: int, calls: seq<Call> ::
              Timely(now, calls) && (forall i :: 0 <= i < |calls| ==> !Answers(true, cfg, EMPTY, calls)[i].declined)
              ==> Answers(true, cfg, EMPTY, calls) == Answers(false, cfg, EMPTY, calls)
  {
    hide Answers, Timely, Telling, After, Fill, Filled;
    if cfg.grace >= 0 {
      forall now: int, calls: seq<Call> |
        Timely(now, calls) && (forall i :: 0 <= i < |calls| ==> !Answers(true, cfg, EMPTY, calls)[i].declined)
        ensures Answers(true, cfg, EMPTY, calls) == Answers(false, cfg, EMPTY, calls)
      {
        CappedRunIsUncappedRun(cfg, now, calls);
      }
    } else {
      TellingRun(cfg);
    }
  }

  lemma TellingRun(cfg: Config)
    requires cfg.ttl > 0 && cfg.grace < 0
    ensures var calls := Fill(CAP) + Telling(cfg);
            && Timely(0, calls)
            && (forall i :: 0 <= i < |calls| ==> !Answers(true, cfg, EMPTY, calls)[i].declined)
            && Answers(true, cfg, EMPTY, calls) != Answers(false, cfg, EMPTY, calls)
  {
    hide Answers, After, Fill, Filled, Serve, Timely, Telling;
    var tail := Telling(cfg);
    var calls := Fill(CAP) + tail;
    TellingIsTimely(cfg);
    FillTimely(CAP, tail);
    FillFills(true, cfg, CAP);
    FillFills(false, cfg, CAP);
    FilledFacts(cfg, CAP);
    AnswersAppend(true, cfg, EMPTY, Fill(CAP), tail);
    AnswersAppend(false, cfg, EMPTY, Fill(CAP), tail);
    var c := Cache(Filled(cfg, CAP), map[]);
    TellingTells(cfg, c);
    var a, b := Answers(true, cfg, EMPTY, calls), Answers(false, cfg, EMPTY, calls);
    assert a[CAP + 1] == Answers(true, cfg, c, tail)[1] && b[CAP + 1] == Answers(false, cfg, c, tail)[1];
    forall i | 0 <= i < |calls| ensures !a[i].declined {
      if i >= CAP {
        assert a[i] == Answers(true, cfg, c, tail)[i - CAP];
      } else {
        assert a[i] == Answers(true, cfg, EMPTY, Fill(CAP))[i];
      }
    }
  }

  lemma TellingIsTimely(cfg: Config)
    requires cfg.ttl > 0 && cfg.grace < 0
    ensures Timely(0, Telling(cfg)) && |Telling(cfg)| == 2
  {
    var x, y := Telling(cfg)[0], Telling(cfg)[1];
    var now := x.o.start;
    assert [y][1..] == [];
    assert Timely(now, [y]);
    assert Telling(cfg)[1..] == [y];
  }
}
