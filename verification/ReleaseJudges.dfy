/**
 The release judge (client/route/runtimerelease.go:184-333): verdicts per build, the bounded background
 checks that fetch them, and the callers that wait for one. A section under the mutex, a channel
 operation and a return of the verifier are one atomic step each. Times are in milliseconds.
 */
module ReleaseJudges {
  import opened Sweeping
  import opened Wrappers

  type Id = nat

  const MAX_CHECKS := 4
  const MAX_JUDGED := 1024
  const RECHECK := 60_000
  const AWAIT_RETRY := 50

  datatype Status = Accepted | Rejected | Unavailable

  datatype Verdict = Verdict(status: Status, reason: string)

  /** A judgedRelease; its verdict is held once there is one. `done` names a channel by the check that closes it. */
  datatype Entry = Entry(key: Key, verdict: Option<Verdict>, at: int, running: bool, done: Option<Id>)

  /** A check goroutine: asking the verifier, holding its answer, having stored it, and with its slot given back. */
  datatype Phase = Asking | Answered(v: Verdict) | Stored | Ended

  datatype Check = Check(key: Key, entry: Id, phase: Phase)

  /** Entries and checks are named by their place in the order they were made. */
  datatype Judge = Judge(m: map<Key, Id>, entries: seq<Entry>, slots: nat, checks: seq<Check>, closed: set<Id>, panicked: bool)

  const NEW := Judge(map[], [], 0, [], {}, false)

  function EntryAt(j: Judge, e: Id): Entry {
    if e < |j.entries| then j.entries[e] else Entry("", None, 0, false, None)
  }

  function HeldFor(j: Judge, key: Key): Option<Verdict> {
    if key in j.m then EntryAt(j, j.m[key]).verdict else None
  }

  predicate IsAccepted(v: Option<Verdict>) { v.Some? && v.value.status == Accepted }

  /** What makeRoomLocked may drop. */
  predicate Droppable(e: Entry) { !e.running && !IsAccepted(e.verdict) }

  function MadeRoom(j: Judge): Judge {
    if |j.m| < MAX_JUDGED then j
    else j.(m := map k | k in j.m && !Droppable(EntryAt(j, j.m[k])) :: j.m[k])
  }

  predicate Due(j: Judge, key: Key, now: int) {
    HeldFor(j, key).None? || (!IsAccepted(HeldFor(j, key)) && now - EntryAt(j, j.m[key]).at >= RECHECK)
  }

  /** Sends the entry for a check, when a slot is free. */
  function Sent(j: Judge, e: Id): Judge {
    if j.slots < MAX_CHECKS && e < |j.entries| then
      j.(slots := j.slots + 1,
         entries := j.entries[e := j.entries[e].(running := true, done := Some(|j.checks|))],
         checks := j.checks + [Check(j.entries[e].key, e, Asking)])
    else j
  }

  /** A new entry for key. */
  function Added(j: Judge, key: Key): Judge {
    j.(m := j.m[key := |j.entries|], entries := j.entries + [Entry(key, None, 0, false, None)])
  }

  /** verdict: what is held now, after sending for what is not there or due again. */
  function Asked(j: Judge, key: Key, start: bool, now: int): Judge {
    if !start || !Due(j, key, now) then j
    else if key in j.m then if EntryAt(j, j.m[key]).running then j else Sent(j, j.m[key])
    else
      var roomy := MadeRoom(j);
      if |roomy.m| >= MAX_JUDGED then roomy else Sent(Added(roomy, key), |roomy.entries|)
  }

  /** The locked section of check: the answer is stored and the channel the entry names is closed. */
  function Completed(j: Judge, c: Id, now: int): Judge
    requires c < |j.checks| && j.checks[c].phase.Answered?
  {
    var e := j.checks[c].entry;
    var entry := EntryAt(j, e);
    if e >= |j.entries| || entry.done.None? || entry.done.value in j.closed then j.(panicked := true)
    else
      j.(entries := j.entries[e := entry.(verdict := Some(j.checks[c].phase.v), at := now, running := false)],
         checks := j.checks[c := j.checks[c].(phase := Stored)],
         closed := j.closed + {entry.done.value})
  }

  /** The slot taken back. */
  function Released(j: Judge, c: Id): Judge
    requires c < |j.checks|
  {
    j.(checks := j.checks[c := j.checks[c].(phase := Ended)], slots := if j.slots > 0 then j.slots - 1 else 0)
  }

  class ReleaseJudge {
    var m: map<Key, Id>
    var entries: seq<Entry>
    var slots: nat
    var checks: seq<Check>
    var closed: set<Id>
    var panicked: bool

    function State(): Judge
      reads this
    {
      Judge(m, entries, slots, checks, closed, panicked)
    }

    constructor ()
      ensures State() == NEW
    {
      m, entries, slots, checks, closed, panicked := map[], [], 0, [], {}, false;
    }

    method MakeRoomLocked() returns (room: bool)
      modifies this
      ensures State() == MadeRoom(old(State())) && room == (|m| < MAX_JUDGED)
    {
      if |m| < MAX_JUDGED {
        return true;
      }
      var keys, before := m.Keys, m;
      while keys != {}
        invariant entries == old(entries) && slots == old(slots) && checks == old(checks) && closed == old(closed) && panicked == old(panicked)
        invariant keys <= before.Keys
        invariant forall k :: k in m <==> k in before && (k in keys || !Droppable(EntryAt(old(State()), before[k])))
        invariant forall k :: k in m ==> m[k] == before[k]
        decreases keys
      {
        var k :| k in keys;
        if Droppable(EntryAt(State(), before[k])) {
          m := m - {k};
        }
        keys := keys - {k};
      }
      assert m == MadeRoom(old(State())).m;
      room := |m| < MAX_JUDGED;
    }

    method Verdict(key: Key, start: bool, now: int) returns (v: Option<Verdict>)
      modifies this
      ensures State() == Asked(old(State()), key, start, now)
      ensures v == HeldFor(State(), key)
    {
      var due := key !in m || EntryAt(State(), m[key]).verdict.None?
                 || (EntryAt(State(), m[key]).verdict.value.status != Accepted && now - EntryAt(State(), m[key]).at >= RECHECK);
      if start && due && (key !in m || !EntryAt(State(), m[key]).running) {
        if key !in m {
          var room := MakeRoomLocked();
          if !room {
            return None;
          }
          m, entries := m[key := |entries|], entries + [Entry(key, None, 0, false, None)];
        }
        if slots < MAX_CHECKS && m[key] < |entries| {
          var e := m[key];
          slots := slots + 1;
          checks, entries := checks + [Check(entries[e].key, e, Asking)], entries[e := entries[e].(running := true, done := Some(|checks|))];
        }
      }
      v := if key in m then EntryAt(State(), m[key]).verdict else None;
    }

    /** The locked section of a check. */
    method Complete(c: Id, now: int)
      requires c < |checks| && checks[c].phase.Answered?
      modifies this
      ensures State() == Completed(old(State()), c, now)
    {
      var e := checks[c].entry;
      if e >= |entries| || entries[e].done.None? || entries[e].done.value in closed {
        panicked := true;
        return;
      }
      closed := closed + {entries[e].done.value};
      entries := entries[e := entries[e].(verdict := Some(checks[c].phase.v), at := now, running := false)];
      checks := checks[c := checks[c].(phase := Stored)];
    }
  }

  // ---------------------------------------------------------------- Runs

  /** Where an awaiting caller is; Returned tells the verdict it found held, or that its context ended. */
  datatype Pc = Ask | Look | Sleep(until: int) | Wait(c: Id) | Returned(found: Option<Verdict>)

  datatype Caller = Caller(key: Key, pc: Pc)

  /** `answers` is all the verifier has said. */
  datatype System = System(clock: int, j: Judge, callers: map<Id, Caller>, gone: set<Id>, answers: set<(Key, Verdict)>)

  datatype Move =
    | Tick(d: nat)
    | Observe(key: Key, start: bool)
    | Await(id: Id, key: Key)
    | Cancel(id: Id)
    | Step(id: Id)
    | Leave(id: Id)
    | Advance(c: Id, answer: Verdict)

  function Init(clock: int): System { System(clock, NEW, map[], {}, {}) }

  /** What a caller's look at the map makes it do. */
  function AfterLook(j: Judge, key: Key, now: int): Pc {
    if HeldFor(j, key).Some? then Returned(HeldFor(j, key))
    else if key in j.m && EntryAt(j, j.m[key]).running && EntryAt(j, j.m[key]).done.Some? then Wait(EntryAt(j, j.m[key]).done.value)
    else Sleep(now + AWAIT_RETRY)
  }

  function At(s: System, id: Id, pc: Pc): System
    requires id in s.callers
  {
    s.(callers := s.callers[id := s.callers[id].(pc := pc)])
  }

  /** The next step of await, none while it waits. */
  function AfterStep(s: System, id: Id): Option<System>
    requires id in s.callers
  {
    var c := s.callers[id];
    match c.pc
    case Ask => Some(At(s.(j := Asked(s.j, c.key, true, s.clock)), id, Look))
    case Look => Some(At(s, id, AfterLook(s.j, c.key, s.clock)))
    case Sleep(until) => if s.clock >= until then Some(At(s, id, Ask)) else None
    case Wait(done) => if done in s.j.closed then Some(At(s, id, Ask)) else None
    case Returned(_) => None
  }

  function AfterAdvance(s: System, c: Id, answer: Verdict): Option<System>
    requires c < |s.j.checks|
  {
    var check := s.j.checks[c];
    match check.phase
    case Asking =>
      Some(s.(j := s.j.(checks := s.j.checks[c := check.(phase := Answered(answer))]), answers := s.answers + {(check.key, answer)}))
    case Answered(_) => Some(s.(j := Completed(s.j, c, s.clock)))
    case Stored => Some(s.(j := Released(s.j, c)))
    case Ended => None
  }

  function Next(s: System, move: Move): Option<System> {
    match move
    case Tick(d) => Some(s.(clock := s.clock + d))
    case Observe(key, start) => Some(s.(j := Asked(s.j, key, start, s.clock)))
    case Await(id, key) => if id in s.callers then None else Some(s.(callers := s.callers[id := Caller(key, Ask)]))
    case Cancel(id) => Some(s.(gone := s.gone + {id}))
    case Step(id) => if id in s.callers then AfterStep(s, id) else None
    case Leave(id) =>
      if id in s.callers && id in s.gone && (s.callers[id].pc.Sleep? || s.callers[id].pc.Wait?) then Some(At(s, id, Returned(None))) else None
    case Advance(c, answer) => if c < |s.j.checks| then AfterAdvance(s, c, answer) else None
  }

  function Run(s: System, moves: seq<Move>): Option<System>
    decreases |moves|
  {
    if moves == [] then Some(s)
    else match Next(s, moves[0])
      case None => None
      case Some(s') => Run(s', moves[1..])
  }

  // ---------------------------------------------------------------- The invariant

  predicate Active(p: Phase) { p.Asking? || p.Answered? }

  /** The checks that hold a slot. */
  function Holding(checks: seq<Check>): set<Id> { set c | 0 <= c < |checks| && checks[c].phase != Ended }

  predicate MapOk(j: Judge) {
    && |j.m| <= MAX_JUDGED
    && forall k :: k in j.m ==> j.m[k] < |j.entries| && j.entries[j.m[k]].key == k
  }

  /** A running entry waits for an active check of its own; an accepted one for none. */
  predicate EntryOk(j: Judge, answers: set<(Key, Verdict)>, e: Id)
    requires e < |j.entries|
  {
    var x := j.entries[e];
    && (x.running ==> x.done.Some? && x.done.value < |j.checks| && j.checks[x.done.value].entry == e && Active(j.checks[x.done.value].phase))
    && (IsAccepted(x.verdict) ==> !x.running)
    && (x.verdict.Some? ==> (x.key, x.verdict.value) in answers)
  }

  /** An active check is the one its entry waits for, its entry is in the map, and its channel is open. */
  predicate CheckOk(j: Judge, answers: set<(Key, Verdict)>, c: Id)
    requires c < |j.checks|
  {
    var x := j.checks[c];
    && x.entry < |j.entries| && j.entries[x.entry].key == x.key
    && (Active(x.phase) ==> j.entries[x.entry].running && j.entries[x.entry].done == Some(c) && x.key in j.m && j.m[x.key] == x.entry)
    && (Active(x.phase) <==> c !in j.closed)
    && (x.phase.Answered? ==> (x.key, x.phase.v) in answers)
  }

  ghost predicate SlotsOk(j: Judge) { j.slots == |Holding(j.checks)| && j.slots <= MAX_CHECKS }

  ghost predicate JudgeOk(j: Judge, answers: set<(Key, Verdict)>) {
    && !j.panicked && MapOk(j) && SlotsOk(j)
    && (forall e :: 0 <= e < |j.entries| ==> EntryOk(j, answers, e))
    && (forall c :: 0 <= c < |j.checks| ==> CheckOk(j, answers, c))
    && (forall c :: c in j.closed ==> c < |j.checks|)
  }

  /** Who waits, waits for a check of its build; who returned with its context live found a verdict of the verifier's. */
  predicate CallerOk(s: System, id: Id, c: Caller) {
    match c.pc
    case Wait(done) => done < |s.j.checks| && s.j.checks[done].key == c.key
    case Returned(None) => id in s.gone
    case Returned(Some(v)) => (c.key, v) in s.answers && (v.status == Accepted ==> HeldFor(s.j, c.key) == Some(v))
    case _ => true
  }

  ghost predicate Inv(s: System) {
    && JudgeOk(s.j, s.answers)
    && forall id :: id in s.callers ==> CallerOk(s, id, s.callers[id])
  }

  /** Nothing accepted is replaced or dropped, no channel reopens, and checks keep their names. */
  ghost predicate Grows(j: Judge, j': Judge) {
    && (forall k :: IsAccepted(HeldFor(j, k)) ==> HeldFor(j', k) == HeldFor(j, k))
    && (forall c :: c in j.closed ==> c in j'.closed)
    && |j.checks| <= |j'.checks|
    && (forall c :: 0 <= c < |j.checks| ==> j'.checks[c].key == j.checks[c].key)
  }

  // ---------------------------------------------------------------- The judge's steps keep it

  lemma MadeRoomOk(j: Judge, answers: set<(Key, Verdict)>)
    requires JudgeOk(j, answers)
    ensures JudgeOk(MadeRoom(j), answers) && Grows(j, MadeRoom(j))
  {
    hide SlotsOk;
    var r := MadeRoom(j);
    assert SlotsOk(r) by { SlotsSame(j, r); }
    assert r.m.Keys <= j.m.Keys;
    SmallerDomain(r.m, j.m);
    forall c | 0 <= c < |r.checks| ensures CheckOk(r, answers, c) {
      assert CheckOk(j, answers, c);
    }
    forall e | 0 <= e < |r.entries| ensures EntryOk(r, answers, e) {
      assert EntryOk(j, answers, e);
    }
  }

  lemma SlotsSame(j: Judge, r: Judge)
    requires SlotsOk(j) && r.slots == j.slots && r.checks == j.checks
    ensures SlotsOk(r)
  {
  }

  lemma AddedOk(j: Judge, answers: set<(Key, Verdict)>, key: Key)
    requires JudgeOk(j, answers) && key !in j.m && |j.m| < MAX_JUDGED
    ensures JudgeOk(Added(j, key), answers) && Grows(j, Added(j, key))
  {
    hide SlotsOk;
    var r := Added(j, key);
    SlotsSame(j, r);
    assert |r.m| == |j.m| + 1;
    forall c | 0 <= c < |r.checks| ensures CheckOk(r, answers, c) {
      assert CheckOk(j, answers, c);
    }
    forall e | 0 <= e < |r.entries| ensures EntryOk(r, answers, e) {
      if e < |j.entries| { assert EntryOk(j, answers, e) && r.entries[e] == j.entries[e]; }
    }
  }

  lemma SentSlots(j: Judge, e: Id)
    requires SlotsOk(j)
    ensures SlotsOk(Sent(j, e))
  {
    var r := Sent(j, e);
    if r != j {
      assert Holding(r.checks) == Holding(j.checks) + {|j.checks|};
    }
  }

  lemma SentOk(j: Judge, answers: set<(Key, Verdict)>, key: Key)
    requires JudgeOk(j, answers) && key in j.m && !j.entries[j.m[key]].running && !IsAccepted(HeldFor(j, key))
    ensures JudgeOk(Sent(j, j.m[key]), answers) && Grows(j, Sent(j, j.m[key]))
  {
    hide SlotsOk;
    var e := j.m[key];
    var r := Sent(j, e);
    SentSlots(j, e);
    if r != j {
      forall c | 0 <= c < |r.checks| ensures CheckOk(r, answers, c) {
        if c < |j.checks| {
          assert CheckOk(j, answers, c) && r.checks[c] == j.checks[c];
        }
      }
      forall x | 0 <= x < |r.entries| ensures EntryOk(r, answers, x) {
        assert EntryOk(j, answers, x);
      }
    }
  }

  lemma GrowsTwice(a: Judge, b: Judge, c: Judge)
    requires Grows(a, b) && Grows(b, c)
    ensures Grows(a, c)
  {
  }

  lemma AskedOk(j: Judge, answers: set<(Key, Verdict)>, key: Key, start: bool, now: int)
    requires JudgeOk(j, answers)
    ensures JudgeOk(Asked(j, key, start, now), answers) && Grows(j, Asked(j, key, start, now))
  {
    hide Sent, Grows;
    assert Grows(j, j) by { GrowsItself(j); }
    if start && Due(j, key, now) {
      if key in j.m {
        if !EntryAt(j, j.m[key]).running {
          SentOk(j, answers, key);
        }
      } else {
        var roomy := MadeRoom(j);
        MadeRoomOk(j, answers);
        if |roomy.m| < MAX_JUDGED {
          var added := Added(roomy, key);
          AddedOk(roomy, answers, key);
          SentOk(added, answers, key);
          GrowsTwice(j, roomy, added);
          GrowsTwice(j, added, Sent(added, |roomy.entries|));
        }
      }
    }
  }

  lemma GrowsItself(j: Judge)
    ensures Grows(j, j)
  {
  }

  lemma AnsweredOk(j: Judge, answers: set<(Key, Verdict)>, c: Id, v: Verdict)
    requires JudgeOk(j, answers) && c < |j.checks| && j.checks[c].phase == Asking
    ensures var r := j.(checks := j.checks[c := j.checks[c].(phase := Answered(v))]);
            JudgeOk(r, answers + {(j.checks[c].key, v)}) && Grows(j, r)
  {
    var r := j.(checks := j.checks[c := j.checks[c].(phase := Answered(v))]);
    var more := answers + {(j.checks[c].key, v)};
    assert SlotsOk(r) by { assert Holding(r.checks) == Holding(j.checks); }
    hide SlotsOk;
    forall x | 0 <= x < |r.checks| ensures CheckOk(r, more, x) {
      assert CheckOk(j, answers, x);
    }
    forall e | 0 <= e < |r.entries| ensures EntryOk(r, more, e) {
      assert EntryOk(j, answers, e);
    }
  }

  /** The section under the lock: what it stores, that the channel it closes is its own and open, and nothing else changes. */
  lemma CompletedOk(j: Judge, answers: set<(Key, Verdict)>, c: Id, now: int)
    requires JudgeOk(j, answers) && c < |j.checks| && j.checks[c].phase.Answered?
    ensures var r := Completed(j, c, now); var key := j.checks[c].key;
            && JudgeOk(r, answers) && Grows(j, r)
            && r.closed == j.closed + {c} && c !in j.closed
            && HeldFor(r, key) == Some(j.checks[c].phase.v)
  {
    var r := Completed(j, c, now);
    assert CheckOk(j, answers, c);
    assert SlotsOk(r) by { assert Holding(r.checks) == Holding(j.checks); }
    hide SlotsOk;
    forall x | 0 <= x < |r.checks| ensures CheckOk(r, answers, x) {
      assert CheckOk(j, answers, x);
    }
    forall e | 0 <= e < |r.entries| ensures EntryOk(r, answers, e) {
      assert EntryOk(j, answers, e);
    }
    assert EntryOk(j, answers, j.checks[c].entry);
  }

  lemma ReleasedOk(j: Judge, answers: set<(Key, Verdict)>, c: Id)
    requires JudgeOk(j, answers) && c < |j.checks| && j.checks[c].phase == Stored
    ensures JudgeOk(Released(j, c), answers) && Grows(j, Released(j, c))
  {
    var r := Released(j, c);
    assert SlotsOk(r) by {
      assert c in Holding(j.checks);
      assert Holding(r.checks) == Holding(j.checks) - {c};
    }
    hide SlotsOk;
    forall x | 0 <= x < |r.checks| ensures CheckOk(r, answers, x) {
      assert CheckOk(j, answers, x);
    }
    forall e | 0 <= e < |r.entries| ensures EntryOk(r, answers, e) {
      assert EntryOk(j, answers, e);
    }
  }

  // ---------------------------------------------------------------- And so does every run

  /** Callers other than the one that moved stay right while the judge only grows. */
  lemma CallersStay(s: System, s': System, id: Id)
    requires Grows(s.j, s'.j) && s.answers <= s'.answers && s.gone <= s'.gone
    requires id in s.callers && CallerOk(s, id, s.callers[id])
    ensures CallerOk(s', id, s.callers[id])
  {
  }

  lemma AfterLookOk(s: System, id: Id)
    requires Inv(s) && id in s.callers
    ensures CallerOk(s, id, s.callers[id].(pc := AfterLook(s.j, s.callers[id].key, s.clock)))
  {
    var key := s.callers[id].key;
    if key in s.j.m {
      assert EntryOk(s.j, s.answers, s.j.m[key]);
      var x := s.j.entries[s.j.m[key]];
      if x.running {
        assert CheckOk(s.j, s.answers, x.done.value);
      }
    }
  }

  lemma JudgeStep(s: System, move: Move)
    requires Inv(s) && Next(s, move).Some?
    ensures var s' := Next(s, move).value;
            JudgeOk(s'.j, s'.answers) && Grows(s.j, s'.j) && s.answers <= s'.answers && s.gone <= s'.gone
  {
    hide JudgeOk, Grows, Asked, Completed, Released;
    GrowsItself(s.j);
    match move {
      case Observe(key, start) => AskedOk(s.j, s.answers, key, start, s.clock);
      case Step(id) => if s.callers[id].pc.Ask? { AskedOk(s.j, s.answers, s.callers[id].key, true, s.clock); }
      case Advance(c, answer) =>
        match s.j.checks[c].phase {
          case Asking => AnsweredOk(s.j, s.answers, c, answer);
          case Answered(_) => CompletedOk(s.j, s.answers, c, s.clock);
          case Stored => ReleasedOk(s.j, s.answers, c);
          case Ended =>
        }
      case _ =>
    }
  }

  lemma MovedCallerOk(s: System, move: Move, id: Id)
    requires Inv(s) && Next(s, move).Some? && id in Next(s, move).value.callers
    ensures var s' := Next(s, move).value;
            (id in s.callers && s'.callers[id] == s.callers[id]) || CallerOk(s', id, s'.callers[id])
  {
    hide JudgeOk, HeldFor, Asked;
    match move {
      case Step(x) => if x == id && s.callers[id].pc.Look? { AfterLookOk(s, id); }
      case _ =>
    }
  }

  lemma NextKeeps(s: System, move: Move)
    requires Inv(s) && Next(s, move).Some?
    ensures Inv(Next(s, move).value) && Grows(s.j, Next(s, move).value.j)
  {
    hide JudgeOk, Grows, CallerOk, Next;
    var s' := Next(s, move).value;
    JudgeStep(s, move);
    forall id | id in s'.callers ensures CallerOk(s', id, s'.callers[id]) {
      MovedCallerOk(s, move, id);
      if id in s.callers && s'.callers[id] == s.callers[id] {
        CallersStay(s, s', id);
      }
    }
  }

  lemma {:induction false} RunKeeps(s: System, moves: seq<Move>)
    requires Inv(s) && Run(s, moves).Some?
    ensures Inv(Run(s, moves).value) && Grows(s.j, Run(s, moves).value.j)
    decreases |moves|
  {
    hide Inv, Grows, Next;
    if moves == [] {
      GrowsItself(s.j);
    } else {
      NextKeeps(s, moves[0]);
      var s1 := Next(s, moves[0]).value;
      RunKeeps(s1, moves[1..]);
      GrowsTwice(s.j, s1.j, Run(s, moves).value.j);
    }
  }

  lemma InitOk(clock: int)
    ensures Inv(Init(clock))
  {
    assert Holding([]) == {};
  }

  // ---------------------------------------------------------------- What every run keeps

  /** A state some run comes to. */
  ghost predicate Reachable(s: System) {
    exists clock: int, moves: seq<Move> :: Run(Init(clock), moves) == Some(s)
  }

  lemma ReachableInv(s: System)
    requires Reachable(s)
    ensures Inv(s)
  {
    hide Inv, Run;
    var clock, moves :| Run(Init(clock), moves) == Some(s);
    InitOk(clock);
    RunKeeps(Init(clock), moves);
  }

  /**
   At most four checks at once and one per build; a build being checked is in the map and is not
   dropped; a channel is closed once, by its own check, when its answer is stored.
   */
  lemma ChecksAreBounded(s: System)
    requires Reachable(s)
    ensures |Holding(s.j.checks)| == s.j.slots <= MAX_CHECKS && |s.j.m| <= MAX_JUDGED
    ensures forall c, d :: 0 <= c < d < |s.j.checks| && Active(s.j.checks[c].phase) && Active(s.j.checks[d].phase) ==> s.j.checks[c].key != s.j.checks[d].key
    ensures forall c :: 0 <= c < |s.j.checks| && Active(s.j.checks[c].phase) ==> AwaitedByItsEntry(s.j, c)
    ensures !s.j.panicked
    ensures s.j.closed == set c | 0 <= c < |s.j.checks| && !Active(s.j.checks[c].phase)
  {
    ReachableInv(s);
    forall c, d | 0 <= c < d < |s.j.checks| && Active(s.j.checks[c].phase) && Active(s.j.checks[d].phase)
      ensures s.j.checks[c].key != s.j.checks[d].key
    {
      assert CheckOk(s.j, s.answers, c) && CheckOk(s.j, s.answers, d);
    }
    forall c | 0 <= c < |s.j.checks|
      ensures (c in s.j.closed <==> !Active(s.j.checks[c].phase)) && (Active(s.j.checks[c].phase) ==> AwaitedByItsEntry(s.j, c))
    {
      assert CheckOk(s.j, s.answers, c);
    }
  }

  /** The check's build is in the map, marked as being checked by it. */
  predicate AwaitedByItsEntry(j: Judge, c: Id)
    requires c < |j.checks|
  {
    var key := j.checks[c].key;
    key in j.m && EntryAt(j, j.m[key]).running && EntryAt(j, j.m[key]).done == Some(c)
  }

  /** Once a build is accepted, every later state holds that very verdict. */
  lemma AcceptedIsForGood(s: System, moves: seq<Move>, key: Key)
    requires Reachable(s) && Run(s, moves).Some? && IsAccepted(HeldFor(s.j, key))
    ensures HeldFor(Run(s, moves).value.j, key) == HeldFor(s.j, key)
  {
    hide Inv, HeldFor, Run;
    ReachableInv(s);
    RunKeeps(s, moves);
  }

  /** What is held for a build is what the verifier said of that build. */
  lemma HeldIsTheVerifiers(s: System, key: Key)
    requires Reachable(s) && HeldFor(s.j, key).Some?
    ensures (key, HeldFor(s.j, key).value) in s.answers
  {
    ReachableInv(s);
    assert EntryOk(s.j, s.answers, s.j.m[key]);
  }

  /** await comes back with its context live only having found a verdict, and an acceptance it found is still held. */
  lemma AwaitMeans(s: System, id: Id)
    requires Reachable(s) && id in s.callers && s.callers[id].pc.Returned? && id !in s.gone
    ensures var found := s.callers[id].pc.found;
            && found.Some? && (s.callers[id].key, found.value) in s.answers
            && (found.value.status == Accepted ==> HeldFor(s.j, s.callers[id].key) == found)
  {
    ReachableInv(s);
    assert CallerOk(s, id, s.callers[id]);
  }

  /**
   No wake-up is lost: a caller waits for a check of its own build, and either its channel is closed
   already or the verifier's answer is two steps from closing it and being held.
   */
  lemma WaitersAreWoken(s: System, id: Id, answer: Verdict)
    requires Reachable(s) && id in s.callers && s.callers[id].pc.Wait?
    ensures var c := s.callers[id].pc.c; var key := s.callers[id].key;
            && c < |s.j.checks| && s.j.checks[c].key == key
            && (c !in s.j.closed ==>
                  var moves := if s.j.checks[c].phase.Asking? then [Advance(c, answer), Advance(c, answer)] else [Advance(c, answer)];
                  && Run(s, moves).Some?
                  && var s' := Run(s, moves).value;
                     c in s'.j.closed && HeldFor(s'.j, key).Some? && Next(s', Step(id)).Some?)
  {
    ReachableInv(s);
    var c := s.callers[id].pc.c;
    assert CallerOk(s, id, s.callers[id]);
    assert CheckOk(s.j, s.answers, c);
    if c !in s.j.closed {
      hide JudgeOk, Inv, Completed, HeldFor;
      InvJudge(s);
      var move := Advance(c, answer);
      if s.j.checks[c].phase.Asking? {
        AnsweredOk(s.j, s.answers, c, answer);
        var s1 := Next(s, move).value;
        assert Next(s1, move).Some?;
        CompletedOk(s1.j, s1.answers, c, s1.clock);
        RunTwo(s, move, move);
      } else {
        CompletedOk(s.j, s.answers, c, s.clock);
        RunSingle(s, move);
      }
    }
  }

  /**
   What await does next, by what is held at that very step: it asks, looks, and returns a verdict exactly when one is
   held; with none it waits for the check under way for its build, or, with none, sleeps before it asks again.
   */
  lemma StepMeans(s: System, id: Id)
    requires Reachable(s) && id in s.callers
    ensures var c, r := s.callers[id], Next(s, Step(id)); var key := c.key;
            && (r.Some? ==> id in r.value.callers && r.value == s.(j := r.value.j, callers := s.callers[id := Caller(key, r.value.callers[id].pc)]))
            && (r.Some? && !c.pc.Ask? ==> r.value.j == s.j)
            && match c.pc
               case Ask => r.Some? && r.value.callers[id].pc == Look && r.value.j == Asked(s.j, key, true, s.clock)
               case Look =>
                 r.Some? &&
                 var pc := r.value.callers[id].pc;
                 if HeldFor(s.j, key).Some? then pc == Returned(HeldFor(s.j, key))
                 else if exists c :: UnderWay(s.j, key, c) then pc.Wait? && UnderWay(s.j, key, pc.c)
                 else pc == Sleep(s.clock + AWAIT_RETRY)
               case Sleep(until) => (r.Some? <==> s.clock >= until) && (r.Some? ==> r.value.callers[id].pc == Ask)
               case Wait(done) => (r.Some? <==> !UnderWay(s.j, key, done)) && (r.Some? ==> r.value.callers[id].pc == Ask)
               case Returned(_) => r.None?
  {
    hide Asked, Reachable;
    ReachableInv(s);
    assert CallerOk(s, id, s.callers[id]);
    if s.callers[id].pc.Wait? {
      assert CheckOk(s.j, s.answers, s.callers[id].pc.c);
    }
    if s.callers[id].pc.Look? {
      var key := s.callers[id].key;
      if key in s.j.m && s.j.entries[s.j.m[key]].running {
        assert EntryOk(s.j, s.answers, s.j.m[key]);
        assert CheckOk(s.j, s.answers, s.j.entries[s.j.m[key]].done.value);
        assert UnderWay(s.j, key, s.j.entries[s.j.m[key]].done.value);
      }
      forall c | UnderWay(s.j, key, c) ensures key in s.j.m && s.j.entries[s.j.m[key]].running {
        assert CheckOk(s.j, s.answers, c);
      }
    }
  }

  /** Check c is of this build, and not done. */
  predicate UnderWay(j: Judge, key: Key, c: Id) { c < |j.checks| && j.checks[c].key == key && Active(j.checks[c].phase) }

  /** A sleeping caller asks again when its time has come, and one whose context ends may leave its sleep or its wait. */
  lemma SleepersWake(s: System, id: Id)
    requires id in s.callers
    ensures s.callers[id].pc.Sleep? ==>
              forall d: nat :: d >= s.callers[id].pc.until - s.clock ==>
                Run(s, [Tick(d), Step(id)]) == Some(At(s.(clock := s.clock + d), id, Ask))
    ensures var r := Run(s, [Cancel(id), Leave(id)]);
            && (r.Some? <==> s.callers[id].pc.Sleep? || s.callers[id].pc.Wait?)
            && (r.Some? ==> r.value == s.(gone := s.gone + {id}, callers := s.callers[id := s.callers[id].(pc := Returned(None))]))
  {
    RunSingle(s, Cancel(id));
    RunMore(s, [Cancel(id)], Leave(id));
    assert [Cancel(id)] + [Leave(id)] == [Cancel(id), Leave(id)];
    forall d: nat | s.callers[id].pc.Sleep? && d >= s.callers[id].pc.until - s.clock
      ensures Run(s, [Tick(d), Step(id)]) == Some(At(s.(clock := s.clock + d), id, Ask))
    {
      RunTwo(s, Tick(d), Step(id));
    }
  }

  /** A completed check leaves its answer held, as of now, and the build free to be checked again; all else stays. */
  lemma CompletedMeans(s: System, c: Id, answer: Verdict)
    requires Reachable(s) && c < |s.j.checks| && s.j.checks[c].phase.Answered?
    ensures var r, key, v := Next(s, Advance(c, answer)), s.j.checks[c].key, s.j.checks[c].phase.v;
            && r.Some? && r.value.j.m == s.j.m && key in s.j.m && s.j.m[key] < |s.j.entries| && r.value.clock == s.clock
            && r.value.j.entries == s.j.entries[s.j.m[key] := Entry(key, Some(v), s.clock, false, Some(c))]
            && r.value.j.checks == s.j.checks[c := s.j.checks[c].(phase := Stored)] && r.value.callers == s.callers
            && HeldFor(r.value.j, key) == Some(v)
            && forall now :: Due(r.value.j, key, now) <==> v.status != Accepted && now - s.clock >= RECHECK
  {
    ReachableInv(s);
    assert CheckOk(s.j, s.answers, c);
  }

  /** What the verifier says is what a completed check answers; and a check that has stored it gives its slot back. */
  lemma AdvanceMeans(s: System, c: Id, answer: Verdict)
    requires Reachable(s) && c < |s.j.checks|
    ensures var r, x := Next(s, Advance(c, answer)), s.j.checks[c];
            && (x.phase.Asking? ==> r == Some(s.(j := s.j.(checks := s.j.checks[c := x.(phase := Answered(answer))]), answers := s.answers + {(x.key, answer)})))
            && (x.phase.Stored? ==> s.j.slots > 0 && r == Some(s.(j := s.j.(checks := s.j.checks[c := x.(phase := Ended)], slots := s.j.slots - 1))))
            && (x.phase.Ended? ==> r == None)
  {
    ReachableInv(s);
    if s.j.checks[c].phase.Stored? {
      assert c in Holding(s.j.checks);
    }
  }

  lemma RunMore(s: System, moves: seq<Move>, move: Move)
    requires Run(s, moves).Some?
    ensures Run(s, moves + [move]) == Next(Run(s, moves).value, move)
  {
    hide Next;
    RunAppend(s, moves, [move]);
    RunSingle(Run(s, moves).value, move);
  }

  lemma RunSingle(s: System, move: Move)
    ensures Run(s, [move]) == Next(s, move)
  {
    hide Next;
    assert [move][1..] == [];
  }

  lemma StillReachable(s: System, move: Move)
    requires Reachable(s) && Next(s, move).Some?
    ensures Reachable(Next(s, move).value)
  {
    hide Next;
    var clock, moves :| Run(Init(clock), moves) == Some(s);
    RunMore(Init(clock), moves, move);
    assert Run(Init(clock), moves + [move]) == Some(Next(s, move).value);
  }

  /** Asking for a build that nobody holds, with a slot and room free, puts a new check of it under way. */
  lemma AskStarts(s: System, key: Key)
    requires Reachable(s) && s.j.slots < MAX_CHECKS && HeldFor(s.j, key).None?
    requires if key in s.j.m then !EntryAt(s.j, s.j.m[key]).running else Room(s.j)
    ensures var j, c := Asked(s.j, key, true, s.clock), |s.j.checks|;
            && |j.checks| == c + 1 && j.checks[c].key == key && j.checks[c].phase.Asking? && HeldFor(j, key).None?
  {
    ReachableInv(s);
    RoomMeans(s.j);
    var roomy := MadeRoom(s.j);
    if key !in s.j.m {
      assert |roomy.m| < MAX_JUDGED && key !in roomy.m;
    }
  }

  lemma OneUnderWay(s: System, key: Key, c: Id, d: Id)
    requires Reachable(s) && UnderWay(s.j, key, c) && UnderWay(s.j, key, d)
    ensures c == d
  {
    ReachableInv(s);
    assert CheckOk(s.j, s.answers, c) && CheckOk(s.j, s.answers, d);
  }

  lemma NotDue(j: Judge, key: Key, now: int)
    requires !Due(j, key, now)
    ensures Asked(j, key, true, now) == j
  {
  }

  /** A caller that asks for such a build comes to wait for a new check of it. */
  lemma AwaitWaits(s: System, id: Id, key: Key) returns (moves: seq<Move>, s': System)
    requires Reachable(s) && id !in s.callers && s.j.slots < MAX_CHECKS && HeldFor(s.j, key).None?
    requires if key in s.j.m then !EntryAt(s.j, s.j.m[key]).running else Room(s.j)
    ensures Run(s, moves) == Some(s') && Reachable(s') && id in s'.callers
    ensures var c := |s.j.checks|; s'.callers[id] == Caller(key, Wait(c)) && c < |s'.j.checks| && s'.j.checks[c].key == key && s'.j.checks[c].phase.Asking?
    ensures moves == [Await(id, key), Step(id), Step(id)]
  {
    AskStarts(s, key);
    hide Asked, HeldFor, Reachable, Room, AfterStep, AfterAdvance, Run;
    var c := |s.j.checks|;
    var s1 := Next(s, Await(id, key)).value;
    StillReachable(s, Await(id, key));
    RunSingle(s, Await(id, key));
    hide Next;
    StepMeans(s1, id);
    var s2 := Next(s1, Step(id)).value;
    StillReachable(s1, Step(id));
    RunMore(s, [Await(id, key)], Step(id));
    StepMeans(s2, id);
    s' := Next(s2, Step(id)).value;
    StillReachable(s2, Step(id));
    RunMore(s, [Await(id, key)] + [Step(id)], Step(id));
    assert UnderWay(s2.j, key, c);
    OneUnderWay(s2, key, c, s'.callers[id].pc.c);
    moves := [Await(id, key)] + [Step(id)] + [Step(id)];
  }

  /** The verifier answers, and the check is completed. */
  lemma CheckCompletes(s: System, c: Id, answer: Verdict) returns (s': System)
    requires Reachable(s) && c < |s.j.checks| && s.j.checks[c].phase.Asking?
    ensures Run(s, [Advance(c, answer), Advance(c, answer)]) == Some(s') && Reachable(s') && s'.callers == s.callers
    ensures var key := s.j.checks[c].key; !UnderWay(s'.j, key, c) && HeldFor(s'.j, key) == Some(answer) && !Due(s'.j, key, s'.clock)
  {
    hide HeldFor, Reachable, AfterAdvance, Due;
    var move := Advance(c, answer);
    AdvanceMeans(s, c, answer);
    var s1 := Next(s, move).value;
    StillReachable(s, move);
    CompletedMeans(s1, c, answer);
    s' := Next(s1, move).value;
    StillReachable(s1, move);
    hide Next;
    RunTwo(s, move, move);
  }

  /** A caller whose check is done finds its verdict. */
  lemma WaitReturns(s: System, id: Id, answer: Verdict) returns (s': System)
    requires Reachable(s) && id in s.callers && s.callers[id].pc.Wait?
    requires var key := s.callers[id].key;
             !UnderWay(s.j, key, s.callers[id].pc.c) && HeldFor(s.j, key) == Some(answer) && !Due(s.j, key, s.clock)
    ensures Run(s, [Step(id), Step(id), Step(id)]) == Some(s')
    ensures id in s'.callers && s'.callers[id] == Caller(s.callers[id].key, Returned(Some(answer)))
  {
    hide Asked, HeldFor, Reachable, Next, Due, Run;
    var key := s.callers[id].key;
    StepMeans(s, id);
    StillReachable(s, Step(id));
    var s1 := Next(s, Step(id)).value;
    StepMeans(s1, id);
    StillReachable(s1, Step(id));
    NotDue(s1.j, key, s1.clock);
    var s2 := Next(s1, Step(id)).value;
    StepMeans(s2, id);
    s' := Next(s2, Step(id)).value;
    RunTwo(s, Step(id), Step(id));
    RunMore(s, [Step(id), Step(id)], Step(id));
    assert [Step(id), Step(id)] + [Step(id)] == [Step(id), Step(id), Step(id)];
  }

  /**
   So a caller that awaits a build nobody holds, with a slot and room free, gets the verifier's answer to its own
   check: after the steps that start it, the two that complete it, and the three it takes to look again.
   */
  lemma AwaitGetsTheAnswer(s: System, id: Id, key: Key, answer: Verdict) returns (moves: seq<Move>)
    requires Reachable(s) && id !in s.callers && s.j.slots < MAX_CHECKS && HeldFor(s.j, key).None?
    requires if key in s.j.m then !EntryAt(s.j, s.j.m[key]).running else Room(s.j)
    ensures var c := |s.j.checks|;
            moves == [Await(id, key), Step(id), Step(id)] + [Advance(c, answer), Advance(c, answer)] + [Step(id), Step(id), Step(id)]
    ensures Run(s, moves).Some? && id in Run(s, moves).value.callers
    ensures Run(s, moves).value.callers[id] == Caller(key, Returned(Some(answer)))
  {
    hide HeldFor, Reachable, Room, Run, Due, UnderWay;
    var c := |s.j.checks|;
    var asks, s1 := AwaitWaits(s, id, key);
    var s2 := CheckCompletes(s1, c, answer);
    var s3 := WaitReturns(s2, id, answer);
    RunAppend(s, asks, [Advance(c, answer), Advance(c, answer)]);
    RunAppend(s, asks + [Advance(c, answer), Advance(c, answer)], [Step(id), Step(id), Step(id)]);
    moves := asks + [Advance(c, answer), Advance(c, answer)] + [Step(id), Step(id), Step(id)];
  }

  lemma {:induction false} RunAppend(s: System, a: seq<Move>, b: seq<Move>)
    requires Run(s, a).Some?
    ensures Run(s, a + b) == Run(Run(s, a).value, b)
    decreases |a|
  {
    hide Next;
    if a == [] {
      assert a + b == b;
    } else {
      assert (a + b)[1..] == a[1..] + b;
      RunAppend(Next(s, a[0]).value, a[1..], b);
    }
  }

  lemma InvJudge(s: System)
    requires Inv(s)
    ensures JudgeOk(s.j, s.answers)
  {
  }

  lemma RunTwo(s: System, a: Move, b: Move)
    requires Next(s, a).Some? && Next(Next(s, a).value, b).Some?
    ensures Run(s, [a, b]) == Next(Next(s, a).value, b)
  {
    hide Next;
    assert [a, b][1..] == [b];
    RunSingle(Next(s, a).value, b);
  }

  // ---------------------------------------------------------------- When a build is sent for a check

  /** There is room for a new build below the bound, or when something can be dropped. */
  ghost predicate Room(j: Judge) {
    |j.m| < MAX_JUDGED || exists k :: k in j.m && Droppable(EntryAt(j, j.m[k]))
  }

  lemma RoomMeans(j: Judge)
    requires |j.m| <= MAX_JUDGED
    ensures |MadeRoom(j).m| < MAX_JUDGED <==> Room(j)
  {
    if |j.m| >= MAX_JUDGED {
      var r := MadeRoom(j);
      if k :| k in j.m && Droppable(EntryAt(j, j.m[k])) {
        assert r.m.Keys <= j.m.Keys - {k};
        SmallerSet(r.m.Keys, j.m.Keys - {k});
        assert |r.m| == |r.m.Keys| && |j.m| == |j.m.Keys|;
      } else {
        assert r.m == j.m;
      }
    }
  }

  /**
   verdict starts a check exactly when it is asked to, a slot is free, none is under way for the build,
   and the build has no verdict or one that is no acceptance and a minute old; a new build also needs room.
   */
  lemma CheckStartsWhen(j: Judge, answers: set<(Key, Verdict)>, key: Key, start: bool, now: int)
    requires JudgeOk(j, answers)
    ensures |Asked(j, key, start, now).checks| > |j.checks| <==>
            && start && j.slots < MAX_CHECKS
            && (if key in j.m then
                  var e := j.entries[j.m[key]];
                  !e.running && (e.verdict.None? || (e.verdict.value.status != Accepted && now - e.at >= RECHECK))
                else Room(j))
  {
    hide SlotsOk;
    RoomMeans(j);
  }

  lemma SentKeepsHeld(j: Judge, e: Id, k: Key)
    ensures HeldFor(Sent(j, e), k) == HeldFor(j, k)
  {
  }

  lemma AddedKeepsHeld(j: Judge, key: Key, k: Key)
    requires MapOk(j) && key !in j.m
    ensures HeldFor(Added(j, key), k) == HeldFor(j, k)
  {
  }

  lemma MadeRoomKeepsHeld(j: Judge, k: Key)
    requires |j.m| < MAX_JUDGED || IsAccepted(HeldFor(j, k))
    ensures HeldFor(MadeRoom(j), k) == HeldFor(j, k)
  {
  }

  /** Sending for one build leaves what is held for all others, except that at the bound all but acceptances may go. */
  lemma OthersAreKept(j: Judge, answers: set<(Key, Verdict)>, key: Key, start: bool, now: int, other: Key)
    requires JudgeOk(j, answers) && (|j.m| < MAX_JUDGED || key in j.m || IsAccepted(HeldFor(j, other)))
    ensures HeldFor(Asked(j, key, start, now), other) == HeldFor(j, other)
  {
    if start && Due(j, key, now) {
      if key in j.m {
        SentKeepsHeld(j, j.m[key], other);
      } else {
        var roomy := MadeRoom(j);
        MadeRoomKeepsHeld(j, other);
        MadeRoomOk(j, answers);
        if |roomy.m| < MAX_JUDGED {
          AddedKeepsHeld(roomy, key, other);
          SentKeepsHeld(Added(roomy, key), |roomy.entries|, other);
        }
      }
    }
  }
}
