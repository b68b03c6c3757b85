/**
 The record of what was verified about each provider (client/route/provideridentity.go:346-526): two
 writers, a shield between them, a cap and a lifetime. Each method is one step at the clock it read.
 record and delWarmed read it before they lock, so readings need not be in the order of the steps; a
 lemma that needs the times under the lock takes them beside the readings. Times are integers.
 */
module IdentityStores {
  import opened Wrappers
  import opened Sweeping

  const MAX_IDENTITIES := 1024

  /** A ProviderIdentity: the endpoint it describes and all else it says. */
  datatype Identity = Identity(quoteURL: string, facts: string)

  datatype Entry = Entry(id: Identity, exp: int, served: bool)

  type Records = map<Key, Entry>

  datatype Config = Config(ttl: int, max: int)

  function MaxOf(max: int): (m: int)
    ensures m > 0 && (max > 0 ==> m == max)
  {
    if max <= 0 then MAX_IDENTITIES else max
  }

  /** shieldedFrom: a served record of another endpoint, strictly before its expiry. */
  predicate ShieldedFrom(e: Entry, quoteURL: string, now: int) { e.served && now < e.exp && e.id.quoteURL != quoteURL }

  /** Not yet past its expiry: what a read returns and a sweep keeps. */
  predicate Alive(m: Records, k: Key, now: int) { k in m && now <= m[k].exp }

  const PAST_EXPIRY: Entry -> int := (e: Entry) => e.exp + 1

  function Unexpired(m: Records, now: int): Records { Swept(m, now, PAST_EXPIRY) }

  predicate Soonest(m: Records, k: Key) { k in m && forall x :: x in m ==> m[k].exp <= m[x].exp }

  /** makeRoomLocked: the expired go, and if that is not enough one of those closest to expiry. */
  ghost predicate RoomMade(max: int, m: Records, now: int, m': Records) {
    var kept := Unexpired(m, now);
    if |kept| < max then m' == kept else exists v :: Soonest(kept, v) && m' == kept - {v}
  }

  /** Whether record writes at all. */
  predicate Writes(cfg: Config, m: Records, key: Key, id: Identity, served: bool, now: int) {
    && key != "" && cfg.ttl > 0
    && !(!served && key in m && ShieldedFrom(m[key], id.quoteURL, now))
  }

  /** Room is made for a new key only, and only at the cap. */
  ghost predicate RoomFor(cfg: Config, m: Records, key: Key, now: int, roomy: Records) {
    if key !in m && |m| >= MaxOf(cfg.max) then RoomMade(MaxOf(cfg.max), m, now, roomy) else roomy == m
  }

  ghost predicate Recorded(cfg: Config, m: Records, key: Key, id: Identity, served: bool, now: int, m': Records) {
    if !Writes(cfg, m, key, id, served, now) then m' == m
    else
      exists roomy: Records :: RoomFor(cfg, m, key, now, roomy) && m' == roomy[key := Entry(id, now + cfg.ttl, served)]
  }

  function Deleted(m: Records, key: Key, quoteURL: string, now: int): Records {
    if key != "" && key in m && !ShieldedFrom(m[key], quoteURL, now) then m - {key} else m
  }

  function Read(m: Records, key: Key, now: int): Option<Identity> {
    if key != "" && Alive(m, key, now) then Some(m[key].id) else None
  }

  /** get drops what it finds expired. */
  function AfterRead(m: Records, key: Key, now: int): Records {
    if key != "" && key in m && now > m[key].exp then m - {key} else m
  }

  class IdentityStore {
    const cfg: Config
    var m: Records

    /** No key is empty: record drops those. */
    predicate Valid()
      reads this
    {
      "" !in m
    }

    constructor (ttl: int, max: int)
      ensures Valid() && m == map[] && cfg == Config(ttl, MaxOf(max))
    {
      cfg := Config(ttl, if max <= 0 then MAX_IDENTITIES else max);
      m := map[];
    }

    method MakeRoomLocked(now: int)
      requires Valid() && cfg.max > 0
      modifies this
      ensures Valid() && RoomMade(cfg.max, old(m), now, m)
    {
      m := SweepExpired(m, now, PAST_EXPIRY);
      if |m| < cfg.max {
        return;
      }
      var oldest, oldestExp, keys := "", 0, m.Keys;
      while keys != {}
        invariant m == Unexpired(old(m), now) && Valid() && keys <= m.Keys
        invariant oldest == "" ==> keys == m.Keys
        invariant oldest != "" ==> oldest in m && m[oldest].exp == oldestExp && forall x :: x in m && x !in keys ==> oldestExp <= m[x].exp
        decreases keys
      {
        var k :| k in keys;
        keys := keys - {k};
        if oldest == "" || m[k].exp < oldestExp {
          oldest, oldestExp := k, m[k].exp;
        }
      }
      assert |m| == |m.Keys| > 0;
      if oldest == "" {
        assert false;
      }
      assert Soonest(m, oldest);
      m := m - {oldest};
    }

    method Record(key: Key, id: Identity, served: bool, now: int)
      requires Valid() && cfg.max > 0
      modifies this
      ensures Valid() && Recorded(cfg, old(m), key, id, served, now, m)
    {
      if key == "" || cfg.ttl <= 0 {
        return;
      }
      if !served && key in m && ShieldedFrom(m[key], id.quoteURL, now) {
        return;
      }
      ghost var before := m;
      if key !in m && |m| >= cfg.max {
        MakeRoomLocked(now);
      }
      ghost var roomy := m;
      assert RoomFor(cfg, before, key, now, roomy);
      m := m[key := Entry(id, now + cfg.ttl, served)];
      assert m == roomy[key := Entry(id, now + cfg.ttl, served)];
    }

    method DelWarmed(key: Key, quoteURL: string, now: int)
      requires Valid()
      modifies this
      ensures Valid() && m == Deleted(old(m), key, quoteURL, now)
    {
      if key == "" {
        return;
      }
      if key in m && !ShieldedFrom(m[key], quoteURL, now) {
        m := m - {key};
      }
    }

    method Get(key: Key, now: int) returns (r: Option<Identity>)
      requires Valid()
      modifies this
      ensures Valid() && r == Read(old(m), key, now) && m == AfterRead(old(m), key, now)
    {
      if key == "" || key !in m {
        return None;
      }
      if now > m[key].exp {
        m := m - {key};
        return None;
      }
      r := Some(m[key].id);
    }
  }

  // ---------------------------------------------------------------- What each operation does

  /**
   What is recorded is read, by its own key, until it expires; and it is recorded unless it has no key or no
   lifetime, or comes from a sweep that finds a served record of another endpoint before its expiry.
   */
  lemma RecordMeans(cfg: Config, m: Records, key: Key, id: Identity, served: bool, now: int, m': Records, later: int)
    requires Recorded(cfg, m, key, id, served, now, m')
    ensures var shielded := !served && key in m && m[key].served && now < m[key].exp && m[key].id.quoteURL != id.quoteURL;
            if key != "" && cfg.ttl > 0 && !shielded then
              Read(m', key, later) == if later <= now + cfg.ttl then Some(id) else None
            else m' == m
    ensures forall k :: k in m' && k != key ==> k in m && m'[k] == m[k]
  {
  }

  /** A sweep's delete drops the record, unless it has no key or is a served one of another endpoint before its expiry. */
  lemma DeleteMeans(m: Records, key: Key, quoteURL: string, now: int)
    ensures var m' := Deleted(m, key, quoteURL, now);
            && (key in m' <==> key in m && (key == "" || (m[key].served && now < m[key].exp && m[key].id.quoteURL != quoteURL)))
            && m'.Keys - {key} == m.Keys - {key} && forall k :: k in m' ==> m'[k] == m[k]
  {
  }

  /** A read returns a record up to and at its expiry; what it drops is the one it found expired, and no read sees that. */
  lemma ReadMeans(m: Records, key: Key, id: Identity, now: int, other: Key, later: int)
    requires now <= later
    ensures Read(m, key, now) == Some(id) <==> key != "" && key in m && now <= m[key].exp && m[key].id == id
    ensures var m' := AfterRead(m, key, now);
            && (other in m && other !in m' <==> other in m && other == key != "" && now > m[key].exp)
            && (other in m' ==> other in m && m'[other] == m[other])
            && Read(m', other, later) == Read(m, other, later)
  {
  }

  // ---------------------------------------------------------------- Runs

  datatype Op =
    | Put(key: Key, id: Identity, now: int)
    | PutWarmed(key: Key, id: Identity, now: int)
    | DelWarmed(key: Key, quoteURL: string, now: int)
    | Get(key: Key, now: int)

  ghost predicate Step(cfg: Config, m: Records, op: Op, m': Records) {
    match op
    case Put(key, id, now) => Recorded(cfg, m, key, id, true, now, m')
    case PutWarmed(key, id, now) => Recorded(cfg, m, key, id, false, now, m')
    case DelWarmed(key, quoteURL, now) => m' == Deleted(m, key, quoteURL, now)
    case Get(key, now) => m' == AfterRead(m, key, now)
  }

  /** ms[i] is what the store holds before operation i. */
  ghost predicate IsRun(cfg: Config, ops: seq<Op>, ms: seq<Records>) {
    |ms| == |ops| + 1 && forall i :: 0 <= i < |ops| ==> Step(cfg, ms[i], ops[i], ms[i + 1])
  }

  // ---------------------------------------------------------------- The cap

  lemma MinusOne(m: Records, v: Key)
    requires v in m
    ensures |m - {v}| == |m| - 1
  {
    var r := m - {v};
    assert r.Keys == m.Keys - {v};
    assert |r| == |r.Keys| && |m| == |m.Keys|;
  }

  lemma RoomMadeHasRoom(max: int, m: Records, now: int, m': Records)
    requires 0 < max && |m| <= max && RoomMade(max, m, now, m')
    ensures |m'| < max
  {
    var kept := Unexpired(m, now);
    if |kept| >= max {
      var v :| Soonest(kept, v) && m' == kept - {v};
      MinusOne(kept, v);
    }
  }

  lemma StepKeepsCap(cfg: Config, m: Records, op: Op, m': Records)
    requires Step(cfg, m, op, m') && |m| <= MaxOf(cfg.max)
    ensures |m'| <= MaxOf(cfg.max)
  {
    match op {
      case Put(key, id, now) => RecordedKeepsCap(cfg, m, key, id, true, now, m');
      case PutWarmed(key, id, now) => RecordedKeepsCap(cfg, m, key, id, false, now, m');
      case DelWarmed(key, quoteURL, now) => SmallerDomain(m', m);
      case Get(key, now) => SmallerDomain(m', m);
    }
  }

  lemma RecordedKeepsCap(cfg: Config, m: Records, key: Key, id: Identity, served: bool, now: int, m': Records)
    requires Recorded(cfg, m, key, id, served, now, m') && |m| <= MaxOf(cfg.max)
    ensures |m'| <= MaxOf(cfg.max)
  {
    hide RoomMade;
    var max := MaxOf(cfg.max);
    if Writes(cfg, m, key, id, served, now) {
      var roomy: Records :| RoomFor(cfg, m, key, now, roomy) && m' == roomy[key := Entry(id, now + cfg.ttl, served)];
      if key !in m && |m| >= max {
        RoomMadeHasRoom(max, m, now, roomy);
      }
    }
  }

  /** Whatever is written, by whom and when, the store never exceeds its cap. */
  lemma {:induction false} StaysWithinCap(cfg: Config, ops: seq<Op>, ms: seq<Records>, n: nat)
    requires IsRun(cfg, ops, ms) && ms[0] == map[] && n <= |ops|
    ensures |ms[n]| <= MaxOf(cfg.max)
  {
    hide Step;
    if n > 0 {
      StaysWithinCap(cfg, ops, ms, n - 1);
      assert Step(cfg, ms[n - 1], ops[n - 1], ms[n - 1 + 1]);
      StepKeepsCap(cfg, ms[n - 1], ops[n - 1], ms[n]);
    }
  }

  // ---------------------------------------------------------------- Which records are lost to the cap

  ghost function LiveKeys(m: Records, now: int): set<Key> { set k | k in m && now <= m[k].exp }

  lemma LiveIsUnexpired(m: Records, now: int)
    ensures LiveKeys(m, now) == Unexpired(m, now).Keys && |LiveKeys(m, now)| == |Unexpired(m, now)|
  {
    var u := Unexpired(m, now);
    assert LiveKeys(m, now) == u.Keys;
    assert |u| == |u.Keys|;
  }

  /** A live record was let go. */
  ghost predicate LosesLive(m: Records, now: int, m': Records, except: Key) {
    exists k :: k != except && Alive(m, k, now) && k !in m'
  }

  /** What is kept is as it was, and what is let go of the live is soonest to expire. */
  ghost predicate LetsGoTheSoonest(m: Records, now: int, m': Records, except: Key) {
    && (forall k :: k != except && k in m' ==> k in m && m'[k] == m[k])
    && (forall k, x :: k != except && Alive(m, k, now) && k !in m' && Alive(m, x, now) ==> m[k].exp <= m[x].exp)
  }

  lemma RoomLoses(cfg: Config, m: Records, key: Key, now: int, roomy: Records)
    requires RoomFor(cfg, m, key, now, roomy) && |m| <= MaxOf(cfg.max)
    ensures LosesLive(m, now, roomy, key) <==> key !in m && |LiveKeys(m, now)| >= MaxOf(cfg.max)
    ensures LetsGoTheSoonest(m, now, roomy, key)
  {
    hide MaxOf;
    var max := MaxOf(cfg.max);
    LiveIsUnexpired(m, now);
    var kept := Unexpired(m, now);
    hide LiveKeys, Unexpired;
    assert KeptIs(m, now, kept) by { UnexpiredIs(m, now); }
    if key !in m && |m| >= max {
      if |kept| >= max {
        var v :| Soonest(kept, v) && roomy == kept - {v};
        assert v != key && Alive(m, v, now) && v !in roomy;
      }
    } else {
      SmallerDomain(kept, m);
    }
  }

  ghost predicate KeptIs(m: Records, now: int, kept: Records) {
    forall k :: (k in kept <==> Alive(m, k, now)) && (k in kept ==> kept[k] == m[k])
  }

  lemma UnexpiredIs(m: Records, now: int)
    ensures KeptIs(m, now, Unexpired(m, now))
  {
  }

  /** A write costs a live record of another provider exactly when it brings a new key to a store whose live keys fill the cap, and then one of those closest to expiry. */
  lemma EvictionMeans(cfg: Config, m: Records, key: Key, id: Identity, served: bool, now: int, m': Records)
    requires Recorded(cfg, m, key, id, served, now, m') && |m| <= MaxOf(cfg.max)
    ensures LosesLive(m, now, m', key) <==>
            Writes(cfg, m, key, id, served, now) && key !in m && |LiveKeys(m, now)| >= MaxOf(cfg.max)
    ensures LetsGoTheSoonest(m, now, m', key)
  {
    hide MaxOf, RoomFor, LiveKeys, Writes;
    if Writes(cfg, m, key, id, served, now) {
      var roomy: Records :| RoomFor(cfg, m, key, now, roomy) && m' == roomy[key := Entry(id, now + cfg.ttl, served)];
      RoomLoses(cfg, m, key, now, roomy);
      if k :| k != key && Alive(m, k, now) && k !in roomy { assert k !in m'; }
    }
  }

  // ---------------------------------------------------------------- The shield

  /** An operation of a sweep on k that is about another endpoint, or a read of it. */
  predicate CannotTouch(op: Op, k: Key, quoteURL: string) {
    match op
    case Put(key, _, _) => key != k
    case PutWarmed(key, id, _) => key == k ==> id.quoteURL != quoteURL
    case DelWarmed(key, url, _) => key == k ==> url != quoteURL
    case Get(_, _) => true
  }

  /** The operation brings a new key to a store whose keys alive at `at` fill the cap. */
  ghost predicate Crowds(cfg: Config, m: Records, op: Op, at: int) {
    (op.Put? || op.PutWarmed?) && op.key !in m && |LiveKeys(m, at)| >= MaxOf(cfg.max)
  }

  lemma ShieldHolds(cfg: Config, m: Records, op: Op, m': Records, k: Key)
    requires Step(cfg, m, op, m') && |m| <= MaxOf(cfg.max) && k in m && m[k].served
    requires op.now < m[k].exp && CannotTouch(op, k, m[k].id.quoteURL) && !Crowds(cfg, m, op, op.now)
    ensures k in m' && m'[k] == m[k]
  {
    hide Recorded;
    match op {
      case Put(key, id, now) =>
        EvictionMeans(cfg, m, key, id, true, now, m');
      case PutWarmed(key, id, now) =>
        EvictionMeans(cfg, m, key, id, false, now, m');
        if key == k { assert Recorded(cfg, m, key, id, false, now, m'); NoWrite(cfg, m, key, id, false, now, m'); }
      case DelWarmed(key, quoteURL, now) =>
      case Get(key, now) =>
    }
  }

  lemma NoWrite(cfg: Config, m: Records, key: Key, id: Identity, served: bool, now: int, m': Records)
    requires Recorded(cfg, m, key, id, served, now, m') && !Writes(cfg, m, key, id, served, now)
    ensures m' == m
  {
  }

  /**
   Strictly before its expiry, what a request recorded is exactly what is held, however sweeps of other
   endpoints write and delete that provider, whatever happens to others, and in whatever order the
   clock readings arrive, as long as nothing is evicted at the cap.
   */
  lemma {:induction false} ServedRecordStands(cfg: Config, ops: seq<Op>, ms: seq<Records>, k: Key, n: nat)
    requires IsRun(cfg, ops, ms) && n <= |ops| && |ms[0]| <= MaxOf(cfg.max)
    requires k in ms[0] && ms[0][k].served
    requires forall i :: 0 <= i < n ==> ops[i].now < ms[0][k].exp && CannotTouch(ops[i], k, ms[0][k].id.quoteURL) && !Crowds(cfg, ms[i], ops[i], ops[i].now)
    ensures |ms[n]| <= MaxOf(cfg.max) && k in ms[n] && ms[n][k] == ms[0][k]
  {
    hide Step, Crowds, CannotTouch;
    if n > 0 {
      ServedRecordStands(cfg, ops, ms, k, n - 1);
      assert Step(cfg, ms[n - 1], ops[n - 1], ms[n - 1 + 1]);
      StepKeepsCap(cfg, ms[n - 1], ops[n - 1], ms[n]);
      ShieldHolds(cfg, ms[n - 1], ops[n - 1], ms[n], k);
    }
  }

  // ---------------------------------------------------------------- The cap does not show

  /** The same operations on a store without a cap. */
  function Unbounded(cfg: Config, m: Records, op: Op): Records {
    match op
    case Put(key, id, now) => WrittenInFull(cfg, m, key, id, true, now)
    case PutWarmed(key, id, now) => WrittenInFull(cfg, m, key, id, false, now)
    case DelWarmed(key, quoteURL, now) => Deleted(m, key, quoteURL, now)
    case Get(key, now) => AfterRead(m, key, now)
  }

  function UnboundedRun(cfg: Config, ops: seq<Op>): Records {
    if ops == [] then map[] else Unbounded(cfg, UnboundedRun(cfg, ops[..|ops| - 1]), ops[|ops| - 1])
  }

  /** What is held is part of the full record, and all of it that is alive. */
  ghost predicate Mirrors(m: Records, full: Records, now: int) {
    && (forall k :: k in m ==> k in full && m[k] == full[k])
    && (forall k :: Alive(full, k, now) ==> k in m)
  }

  /** Room made by an old reading lets go of nothing alive under the lock, unless the keys alive then fill the cap. */
  lemma RoomKeepsLive(cfg: Config, m: Records, key: Key, now: int, at: int, roomy: Records)
    requires RoomFor(cfg, m, key, now, roomy) && now <= at && |m| <= MaxOf(cfg.max)
    requires key !in m ==> |LiveKeys(m, at)| < MaxOf(cfg.max)
    ensures forall k :: k in roomy ==> k in m && roomy[k] == m[k]
    ensures forall k :: Alive(m, k, at) ==> k in roomy
  {
    hide MaxOf;
    var max, kept := MaxOf(cfg.max), Unexpired(m, now);
    UnexpiredIs(m, now);
    hide Unexpired;
    if key !in m && |m| >= max && |kept| >= max {
      var v :| Soonest(kept, v) && roomy == kept - {v};
      assert |kept| == |kept.Keys|;
      if Alive(m, v, at) {
        assert kept.Keys <= LiveKeys(m, at);
        SmallerSet(kept.Keys, LiveKeys(m, at));
      }
    }
  }

  lemma RecordedMirrors(cfg: Config, m: Records, full: Records, key: Key, id: Identity, served: bool, now: int, at: int, m': Records)
    requires Mirrors(m, full, at) && now <= at && |m| <= MaxOf(cfg.max)
    requires Recorded(cfg, m, key, id, served, now, m') && Writes(cfg, m, key, id, served, now)
    requires key !in m ==> |LiveKeys(m, at)| < MaxOf(cfg.max)
    ensures Mirrors(m', full[key := Entry(id, now + cfg.ttl, served)], at)
  {
    hide Writes, LiveKeys, RoomFor;
    var entry := Entry(id, now + cfg.ttl, served);
    var roomy: Records :| RoomFor(cfg, m, key, now, roomy) && m' == roomy[key := entry];
    RoomKeepsLive(cfg, m, key, now, at, roomy);
    forall k | Alive(full[key := entry], k, at) ensures k in m' {
      if k != key { assert Alive(full, k, at) && Alive(m, k, at); }
    }
  }

  /** A sweep's write read the clock before a shielded record's expiry and got the lock after it. */
  predicate Straddles(full: Records, op: Op, at: int) {
    op.PutWarmed? && ExpiredShield(full, op.key, op.id, false, op.now, at)
  }

  /** A write of a key that is held, or that is shielded in neither store, is made by both or by neither. */
  lemma WritesAlike(cfg: Config, m: Records, full: Records, key: Key, id: Identity, served: bool, now: int, at: int)
    requires Mirrors(m, full, at) && now <= at
    requires key in m || !ExpiredShield(full, key, id, served, now, at)
    ensures Writes(cfg, m, key, id, served, now) == Writes(cfg, full, key, id, served, now)
  {
    assert key in full && key !in m ==> !Alive(full, key, at);
  }

  /** To the clock that was read the key's record is shielded from this write, and by the lock's it has expired. */
  predicate ExpiredShield(full: Records, key: Key, id: Identity, served: bool, now: int, at: int) {
    !served && key in full && ShieldedFrom(full[key], id.quoteURL, now) && full[key].exp < at
  }

  lemma WriteMeans(cfg: Config, m: Records, key: Key, id: Identity, served: bool, now: int, m': Records)
    requires Recorded(cfg, m, key, id, served, now, m') && Writes(cfg, m, key, id, served, now)
    ensures key in m' && m'[key] == Entry(id, now + cfg.ttl, served)
  {
  }

  /** The full record after a write. */
  function WrittenInFull(cfg: Config, full: Records, key: Key, id: Identity, served: bool, now: int): Records {
    if Writes(cfg, full, key, id, served, now) then full[key := Entry(id, now + cfg.ttl, served)] else full
  }

  lemma RecordMirrors(cfg: Config, m: Records, full: Records, key: Key, id: Identity, served: bool, now: int, at: int, m': Records)
    requires Mirrors(m, full, at) && now <= at && |m| <= MaxOf(cfg.max)
    requires Recorded(cfg, m, key, id, served, now, m')
    requires key != "" && cfg.ttl > 0 && key !in m ==> |LiveKeys(m, at)| < MaxOf(cfg.max)
    requires key != "" && cfg.ttl > 0 && key !in m ==> !ExpiredShield(full, key, id, served, now, at)
    ensures Mirrors(m', WrittenInFull(cfg, full, key, id, served, now), at)
  {
    if key == "" || cfg.ttl <= 0 {
      NoWrite(cfg, m, key, id, served, now, m');
    } else {
      WritesAlike(cfg, m, full, key, id, served, now, at);
      hide Recorded, Writes, LiveKeys, Mirrors;
      if Writes(cfg, m, key, id, served, now) {
        RecordedMirrors(cfg, m, full, key, id, served, now, at, m');
      } else {
        NoWrite(cfg, m, key, id, served, now, m');
      }
    }
  }

  lemma SameSize(a: set<Key>, b: set<Key>)
    requires a <= b && |a| >= |b|
    ensures a == b
  {
    if k :| k in b && k !in a {
      SmallerSet(a + {k}, b);
    }
  }

  /** Keys alive under the lock that fill the cap are all there is, to an older reading too. */
  lemma AllAreLive(cfg: Config, m: Records, now: int, at: int)
    requires now <= at && |m| <= MaxOf(cfg.max) <= |LiveKeys(m, at)|
    ensures |m| == MaxOf(cfg.max) && Unexpired(m, now) == m && forall k :: k in m ==> Alive(m, k, at)
  {
    hide MaxOf;
    var live := LiveKeys(m, at);
    assert live <= m.Keys && |m| == |m.Keys|;
    SmallerSet(live, m.Keys);
    assert live == m.Keys by { SameSize(live, m.Keys); }
    assert forall k :: k in m ==> k in m.Keys && k in live;
  }

  /** A new key in a store whose live keys fill the cap costs one of them, which the full record keeps. */
  lemma CrowdingLoses(cfg: Config, m: Records, full: Records, key: Key, id: Identity, served: bool, now: int, at: int, m': Records)
    returns (v: Key)
    requires Mirrors(m, full, at) && now <= at && |m| <= MaxOf(cfg.max) <= |LiveKeys(m, at)|
    requires Recorded(cfg, m, key, id, served, now, m') && key != "" && cfg.ttl > 0 && key !in m
    ensures v in m && v !in m' && Alive(WrittenInFull(cfg, full, key, id, served, now), v, at)
  {
    AllAreLive(cfg, m, now, at);
    hide LiveKeys, Unexpired, MaxOf;
    var roomy: Records :| RoomFor(cfg, m, key, now, roomy) && m' == roomy[key := Entry(id, now + cfg.ttl, served)];
    v :| Soonest(m, v) && roomy == m - {v};
  }

  /** A write that finds no record writes where the full record's shield would stop it. */
  lemma StraddlingWrites(cfg: Config, m: Records, full: Records, key: Key, id: Identity, served: bool, now: int, at: int, m': Records)
    requires Recorded(cfg, m, key, id, served, now, m') && key != "" && cfg.ttl > 0 && key !in m
    requires ExpiredShield(full, key, id, served, now, at)
    ensures WrittenInFull(cfg, full, key, id, served, now) == full && full[key].served && full[key].exp < at
    ensures key in m' && m'[key] == Entry(id, now + cfg.ttl, false)
  {
    WriteMeans(cfg, m, key, id, served, now, m');
  }

  lemma DeletedMirrors(m: Records, full: Records, key: Key, quoteURL: string, now: int, at: int)
    requires Mirrors(m, full, at)
    ensures Mirrors(Deleted(m, key, quoteURL, now), Deleted(full, key, quoteURL, now), at)
  {
  }

  lemma ReadMirrors(m: Records, full: Records, key: Key, now: int)
    requires Mirrors(m, full, now)
    ensures Mirrors(AfterRead(m, key, now), AfterRead(full, key, now), now) && Read(m, key, now) == Read(full, key, now)
  {
  }

  /** The operation had the lock at `at`: after it read the clock, and get reads it there. */
  predicate Locked(op: Op, at: int) { op.now <= at && (op.Get? ==> op.now == at) }

  /** The times the operations had the lock are in the order of the steps. */
  ghost predicate LockedAt(ops: seq<Op>, at: seq<int>) {
    && |at| == |ops|
    && (forall i :: 0 <= i < |ops| ==> Locked(ops[i], at[i]))
    && (forall i, j :: 0 <= i < j < |at| ==> at[i] <= at[j])
  }

  /** A write that brings a key the store does not hold. */
  predicate BringsKey(cfg: Config, m: Records, op: Op) {
    (op.Put? || op.PutWarmed?) && op.key != "" && cfg.ttl > 0 && op.key !in m
  }

  /** Such a write finds the cap filled with live keys, or straddles the expiry of a record the store has let go of. */
  ghost predicate Disturbs(cfg: Config, m: Records, full: Records, op: Op, at: int) {
    BringsKey(cfg, m, op) && (|LiveKeys(m, at)| >= MaxOf(cfg.max) || Straddles(full, op, at))
  }

  lemma StepMirrors(cfg: Config, m: Records, full: Records, op: Op, at: int, m': Records)
    requires Mirrors(m, full, at) && |m| <= MaxOf(cfg.max) && Step(cfg, m, op, m')
    requires Locked(op, at) && !Disturbs(cfg, m, full, op, at)
    ensures Mirrors(m', Unbounded(cfg, full, op), at)
  {
    hide Recorded, Writes, LiveKeys, MaxOf, Mirrors, Deleted, AfterRead, ShieldedFrom;
    match op {
      case Put(key, id, now) => RecordMirrors(cfg, m, full, key, id, true, now, at, m');
      case PutWarmed(key, id, now) => RecordMirrors(cfg, m, full, key, id, false, now, at, m');
      case DelWarmed(key, quoteURL, now) => DeletedMirrors(m, full, key, quoteURL, now, at);
      case Get(key, now) => ReadMirrors(m, full, key, now);
    }
  }

  lemma MirrorsHave(m: Records, full: Records, at: int, k: Key)
    requires Mirrors(m, full, at)
    ensures k in m ==> k in full && m[k] == full[k]
    ensures Alive(full, k, at) ==> k in m
  {
  }

  /** A write that disturbs breaks the mirror at once. */
  lemma DisturbingBreaks(cfg: Config, m: Records, full: Records, op: Op, at: int, m': Records)
    requires Mirrors(m, full, at) && |m| <= MaxOf(cfg.max) && Step(cfg, m, op, m')
    requires Locked(op, at) && Disturbs(cfg, m, full, op, at)
    ensures !Mirrors(m', Unbounded(cfg, full, op), at)
  {
    hide Recorded, Writes, LiveKeys, MaxOf, Mirrors, ShieldedFrom, ExpiredShield;
    var full' := Unbounded(cfg, full, op);
    if Mirrors(m', full', at) {
      if |LiveKeys(m, at)| >= MaxOf(cfg.max) {
        var v := CrowdingLoses(cfg, m, full, op.key, op.id, op.Put?, op.now, at, m');
        MirrorsHave(m', full', at, v);
      } else {
        StraddlingWrites(cfg, m, full, op.key, op.id, false, op.now, at, m');
        MirrorsHave(m', full', at, op.key);
      }
    }
  }

  /** Before operation i, what is held mirrors the full record. */
  ghost predicate MirrorsAt(cfg: Config, ops: seq<Op>, at: seq<int>, ms: seq<Records>, i: nat)
    requires i <= |ops| == |at| && |ms| == |ops| + 1
  {
    i > 0 ==> Mirrors(ms[i], UnboundedRun(cfg, ops[..i]), at[i - 1])
  }

  ghost predicate DisturbsAt(cfg: Config, ops: seq<Op>, at: seq<int>, ms: seq<Records>, i: nat)
    requires i < |ops| == |at| && |ms| == |ops| + 1
  {
    Disturbs(cfg, ms[i], UnboundedRun(cfg, ops[..i]), ops[i], at[i])
  }

  lemma MirrorsLater(m: Records, full: Records, at: int, later: int)
    requires Mirrors(m, full, at) && at <= later
    ensures Mirrors(m, full, later)
  {
  }

  /** From a mirror, operation i leaves one exactly when it does not disturb. */
  lemma StepIsExact(cfg: Config, ops: seq<Op>, at: seq<int>, ms: seq<Records>, i: nat)
    requires IsRun(cfg, ops, ms) && ms[0] == map[] && i < |ops| && LockedAt(ops, at)
    requires MirrorsAt(cfg, ops, at, ms, i)
    ensures Mirrors(ms[i], UnboundedRun(cfg, ops[..i]), at[i])
    ensures MirrorsAt(cfg, ops, at, ms, i + 1) <==> !DisturbsAt(cfg, ops, at, ms, i)
  {
    hide Step, Disturbs, Unbounded, Mirrors;
    var full := UnboundedRun(cfg, ops[..i]);
    assert Mirrors(ms[i], full, at[i]) by {
      if i == 0 { EmptyMirrors(at[0]); } else { MirrorsLater(ms[i], full, at[i - 1], at[i]); }
    }
    StaysWithinCap(cfg, ops, ms, i);
    assert Step(cfg, ms[i], ops[i], ms[i + 1]) && Locked(ops[i], at[i]);
    assert ops[..i + 1][..i] == ops[..i];
    if Disturbs(cfg, ms[i], full, ops[i], at[i]) {
      DisturbingBreaks(cfg, ms[i], full, ops[i], at[i], ms[i + 1]);
    } else {
      StepMirrors(cfg, ms[i], full, ops[i], at[i], ms[i + 1]);
    }
  }

  lemma EmptyMirrors(at: int)
    ensures Mirrors(map[], map[], at)
  {
  }

  /** What is held mirrors the full record after each of the first n operations. */
  ghost predicate MirrorsThrough(cfg: Config, ops: seq<Op>, at: seq<int>, ms: seq<Records>, n: nat)
    requires n <= |ops| == |at| && |ms| == |ops| + 1
  {
    forall i :: 0 < i <= n ==> MirrorsAt(cfg, ops, at, ms, i)
  }

  /** None of the first n operations disturbs. */
  ghost predicate UndisturbedThrough(cfg: Config, ops: seq<Op>, at: seq<int>, ms: seq<Records>, n: nat)
    requires n <= |ops| == |at| && |ms| == |ops| + 1
  {
    forall i :: 0 <= i < n ==> !DisturbsAt(cfg, ops, at, ms, i)
  }

  lemma ShapeOf(cfg: Config, ops: seq<Op>, at: seq<int>, ms: seq<Records>)
    requires IsRun(cfg, ops, ms) && LockedAt(ops, at)
    ensures |ms| == |ops| + 1 && |at| == |ops|
  {
  }

  lemma ThroughNone(cfg: Config, ops: seq<Op>, at: seq<int>, ms: seq<Records>)
    requires |ops| == |at| && |ms| == |ops| + 1
    ensures MirrorsThrough(cfg, ops, at, ms, 0) && UndisturbedThrough(cfg, ops, at, ms, 0)
  {
  }

  lemma ThroughOneMore(cfg: Config, ops: seq<Op>, at: seq<int>, ms: seq<Records>, n: nat)
    requires n < |ops| == |at| && |ms| == |ops| + 1
    ensures MirrorsThrough(cfg, ops, at, ms, n + 1) <==> MirrorsThrough(cfg, ops, at, ms, n) && MirrorsAt(cfg, ops, at, ms, n + 1)
    ensures UndisturbedThrough(cfg, ops, at, ms, n + 1) <==> UndisturbedThrough(cfg, ops, at, ms, n) && !DisturbsAt(cfg, ops, at, ms, n)
    ensures MirrorsThrough(cfg, ops, at, ms, n) ==> MirrorsAt(cfg, ops, at, ms, n)
  {
    StartMirrors(cfg, ops, at, ms);
    hide MirrorsAt, DisturbsAt;
  }

  /**
   In whatever order the readings arrive: the store mirrors one without a cap after each of the first n
   operations exactly when none of them disturbs, that is, brings a key the store does not hold while its
   live keys fill the cap, or reads the clock before the expiry of a shielded record that the store has let
   go of and has the lock after it.
   */
  lemma {:induction false} CapDoesNotShow(cfg: Config, ops: seq<Op>, at: seq<int>, ms: seq<Records>, n: nat)
    requires IsRun(cfg, ops, ms) && ms[0] == map[] && n <= |ops| && LockedAt(ops, at)
    ensures MirrorsThrough(cfg, ops, at, ms, n) <==> UndisturbedThrough(cfg, ops, at, ms, n)
  {
    hide IsRun, LockedAt, MirrorsThrough, UndisturbedThrough, MirrorsAt, DisturbsAt, Mirrors, UnboundedRun;
    ShapeOf(cfg, ops, at, ms);
    if n == 0 {
      ThroughNone(cfg, ops, at, ms);
    } else {
      CapDoesNotShow(cfg, ops, at, ms, n - 1);
      ThroughOneMore(cfg, ops, at, ms, n - 1);
      if MirrorsAt(cfg, ops, at, ms, n - 1) {
        StepIsExact(cfg, ops, at, ms, n - 1);
      }
    }
  }

  lemma StartMirrors(cfg: Config, ops: seq<Op>, at: seq<int>, ms: seq<Records>)
    requires |ops| == |at| && |ms| == |ops| + 1
    ensures MirrorsAt(cfg, ops, at, ms, 0)
  {
  }

  /** And as long as none does, every get answers as a store without a cap would. */
  lemma ReadsAlike(cfg: Config, ops: seq<Op>, at: seq<int>, ms: seq<Records>, n: nat)
    requires IsRun(cfg, ops, ms) && ms[0] == map[] && n < |ops| && LockedAt(ops, at) && ops[n].Get?
    requires UndisturbedThrough(cfg, ops, at, ms, n)
    ensures Read(ms[n], ops[n].key, ops[n].now) == Read(UnboundedRun(cfg, ops[..n]), ops[n].key, ops[n].now)
  {
    hide IsRun, MirrorsThrough, UndisturbedThrough, MirrorsAt, DisturbsAt, AfterRead, Read;
    ShapeOf(cfg, ops, at, ms);
    CapDoesNotShow(cfg, ops, at, ms, n);
    ThroughOneMore(cfg, ops, at, ms, n);
    StepIsExact(cfg, ops, at, ms, n);
    assert Locked(ops[n], at[n]);
    ReadMirrors(ms[n], UnboundedRun(cfg, ops[..n]), ops[n].key, at[n]);
  }

  // ---------------------------------------------------------------- When a disturbance can be read

  /** No read at the lock's time can tell the stores apart. */
  ghost predicate ReadAlikeAt(m: Records, full: Records, at: int) {
    forall k :: Read(m, k, at) == Read(full, k, at)
  }

  lemma MirrorsRead(m: Records, full: Records, at: int)
    requires Mirrors(m, full, at)
    ensures ReadAlikeAt(m, full, at)
  {
    forall k ensures Read(m, k, at) == Read(full, k, at) {
      ReadMirrors(m, full, k, at);
    }
  }

  /** A straddling write into a store with room: only its own key can be told apart, while its record lives. */
  lemma StraddlingReads(cfg: Config, m: Records, full: Records, key: Key, id: Identity, now: int, at: int, m': Records)
    requires Mirrors(m, full, at) && now <= at && |m| <= MaxOf(cfg.max) && |LiveKeys(m, at)| < MaxOf(cfg.max)
    requires Recorded(cfg, m, key, id, false, now, m') && key != "" && cfg.ttl > 0 && key !in m
    requires ExpiredShield(full, key, id, false, now, at)
    ensures ReadAlikeAt(m', full, at) <==> at > now + cfg.ttl
  {
    StraddlingWrites(cfg, m, full, key, id, false, now, at, m');
    hide LiveKeys, Writes, ExpiredShield, MaxOf;
    var entry := Entry(id, now + cfg.ttl, false);
    var roomy: Records :| RoomFor(cfg, m, key, now, roomy) && m' == roomy[key := entry];
    RoomKeepsLive(cfg, m, key, now, at, roomy);
    hide RoomFor, Recorded;
    forall k | k != key ensures Read(m', k, at) == Read(full, k, at) {
      MirrorsHave(m, full, at, k);
      if Alive(full, k, at) { assert Alive(m, k, at); }
    }
    assert Read(full, key, at) == None;
    assert Read(m', key, at) == if at <= now + cfg.ttl then Some(id) else None;
  }

  /**
   After an operation on a mirror, some read at the lock's time tells the two apart exactly when the
   operation brings a key while live keys fill the cap, or straddles an expiry and its own record is not
   past by then.
   */
  lemma DisturbanceIsRead(cfg: Config, m: Records, full: Records, op: Op, at: int, m': Records)
    requires Mirrors(m, full, at) && "" !in m && |m| <= MaxOf(cfg.max) && Step(cfg, m, op, m') && Locked(op, at)
    ensures !ReadAlikeAt(m', Unbounded(cfg, full, op), at) <==>
            BringsKey(cfg, m, op) && (|LiveKeys(m, at)| >= MaxOf(cfg.max) || (Straddles(full, op, at) && at <= op.now + cfg.ttl))
  {
    hide Recorded, Writes, LiveKeys, MaxOf, Mirrors, ShieldedFrom, ReadAlikeAt, ExpiredShield;
    var full' := Unbounded(cfg, full, op);
    if !Disturbs(cfg, m, full, op, at) {
      StepMirrors(cfg, m, full, op, at, m');
      MirrorsRead(m', full', at);
    } else if |LiveKeys(m, at)| >= MaxOf(cfg.max) {
      var v := CrowdingLoses(cfg, m, full, op.key, op.id, op.Put?, op.now, at, m');
      LostIsRead(m', full', v, at);
    } else {
      StraddlingWrites(cfg, m, full, op.key, op.id, false, op.now, at, m');
      StraddlingReads(cfg, m, full, op.key, op.id, op.now, at, m');
    }
  }

  lemma LostIsRead(m: Records, full: Records, v: Key, at: int)
    requires v != "" && v !in m && Alive(full, v, at)
    ensures !ReadAlikeAt(m, full, at)
  {
    assert Read(m, v, at) != Read(full, v, at);
  }

  // ---------------------------------------------------------------- A write that straddles an expiry shows

  const SERVED := Identity("https://a/quote", "")
  const SWEPT := Identity("https://b/quote", "")

  /** Two served records expire and are swept for a third; a sweep's write of the first was waiting for the lock. */
  function Straddling(ttl: int): seq<Op> {
    [Put("k", SERVED, 0), Put("i", SERVED, 0), Put("j", SERVED, ttl + 1), PutWarmed("k", SWEPT, ttl - 1), Get("k", ttl + 1)]
  }

  /** What a store of two holds before each of them. */
  function StraddlingStates(ttl: int): seq<Records> {
    var served, late, swept := Entry(SERVED, ttl, true), Entry(SERVED, ttl + 1 + ttl, true), Entry(SWEPT, ttl - 1 + ttl, false);
    [map[], map["k" := served], map["k" := served, "i" := served], map["j" := late], map["j" := late, "k" := swept],
     map["j" := late, "k" := swept]]
  }

  /** A new key with room to spare. */
  lemma WrittenWithRoom(cfg: Config, m: Records, key: Key, id: Identity, served: bool, now: int)
    requires key != "" && cfg.ttl > 0 && key !in m && |m| < MaxOf(cfg.max)
    ensures Recorded(cfg, m, key, id, served, now, m[key := Entry(id, now + cfg.ttl, served)])
  {
    assert RoomFor(cfg, m, key, now, m);
  }

  /** A new key in a full store of expired records. */
  lemma WrittenOverExpired(cfg: Config, m: Records, key: Key, id: Identity, now: int)
    requires key != "" && cfg.ttl > 0 && key !in m && |m| >= MaxOf(cfg.max) && forall k :: k in m ==> m[k].exp < now
    ensures Recorded(cfg, m, key, id, true, now, map[key := Entry(id, now + cfg.ttl, true)])
  {
    assert Unexpired(m, now) == map[];
    assert RoomFor(cfg, m, key, now, map[]);
  }

  lemma FewLive(m: Records, at: int)
    ensures |LiveKeys(m, at)| <= |m|
  {
    LiveIsUnexpired(m, at);
  }

  lemma StraddlingRuns(ttl: int)
    requires ttl >= 2
    ensures IsRun(Config(ttl, 2), Straddling(ttl), StraddlingStates(ttl))
  {
    hide Recorded, RoomFor, ShieldedFrom;
    var cfg, ops, ms := Config(ttl, 2), Straddling(ttl), StraddlingStates(ttl);
    assert Step(cfg, ms[0], ops[0], ms[1]) by { WrittenWithRoom(cfg, ms[0], "k", SERVED, true, 0); }
    assert Step(cfg, ms[1], ops[1], ms[2]) by { WrittenWithRoom(cfg, ms[1], "i", SERVED, true, 0); }
    assert Step(cfg, ms[2], ops[2], ms[3]) by { WrittenOverExpired(cfg, ms[2], "j", SERVED, ttl + 1); }
    assert Step(cfg, ms[3], ops[3], ms[4]) by { WrittenWithRoom(cfg, ms[3], "k", SWEPT, false, ttl - 1); }
    assert Step(cfg, ms[4], ops[4], ms[5]);
  }

  /** None of them finds a store of two crowded. */
  lemma StraddlingFits(ttl: int, i: nat)
    requires ttl >= 2 && i < 5
    ensures !Crowds(Config(ttl, 2), StraddlingStates(ttl)[i], Straddling(ttl)[i], if i < 2 then 0 else ttl + 1)
  {
    var m := StraddlingStates(ttl)[i];
    if i == 2 {
      assert LiveKeys(m, ttl + 1) == {};
    } else if i < 4 {
      hide LiveKeys;
      FewLive(m, if i < 2 then 0 else ttl + 1);
    }
  }

  /** Without a cap the first record is shielded from the late write, and expired when it is read. */
  lemma StraddlingUnbounded(ttl: int)
    requires ttl >= 2
    ensures Read(UnboundedRun(Config(ttl, 2), Straddling(ttl)[..4]), "k", ttl + 1) == None
  {
    var cfg, ops := Config(ttl, 2), Straddling(ttl);
    var served := Entry(SERVED, ttl, true);
    assert ops[..4][..3] == ops[..3] && ops[..3][..2] == ops[..2] && ops[..2][..1] == ops[..1] && ops[..1][..0] == [];
    assert UnboundedRun(cfg, ops[..1]) == map["k" := served];
    assert UnboundedRun(cfg, ops[..2]) == map["k" := served, "i" := served];
    var three := UnboundedRun(cfg, ops[..3]);
    assert three["k"] == served;
    assert SERVED.quoteURL[8] != SWEPT.quoteURL[8];
    assert UnboundedRun(cfg, ops[..4]) == three;
  }

  /** The full record still holds and shields what the capped store has swept, so the two answer differently. */
  lemma StraddlingShows(ttl: int)
    requires ttl >= 2
    ensures var cfg, ops, ms := Config(ttl, 2), Straddling(ttl), StraddlingStates(ttl);
            var at := [0, 0, ttl + 1, ttl + 1, ttl + 1];
            && IsRun(cfg, ops, ms) && LockedAt(ops, at)
            && (forall i :: 0 <= i < |ops| ==> !Crowds(cfg, ms[i], ops[i], at[i]))
            && Read(ms[4], "k", ttl + 1) == Some(SWEPT)
            && Read(UnboundedRun(cfg, ops[..4]), "k", ttl + 1) == None
  {
    hide IsRun, Crowds, UnboundedRun;
    StraddlingRuns(ttl);
    StraddlingUnbounded(ttl);
    var at := [0, 0, ttl + 1, ttl + 1, ttl + 1];
    forall i | 0 <= i < 5 ensures !Crowds(Config(ttl, 2), StraddlingStates(ttl)[i], Straddling(ttl)[i], at[i]) {
      StraddlingFits(ttl, i);
    }
  }
}
