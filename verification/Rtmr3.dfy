/**
 Replaying an event log to RTMR3 (client/evidence/rtmr3.go:158-252). The hash is ideal: a digest is
 the free term of what was hashed, so distinct inputs have distinct digests and no digest is the
 zero register the replay starts from.
 */
module Rtmr3 {
  import opened Wrappers
  import opened Text
  import Utf8

  type uint32 = n: nat | n < 0x1_0000_0000

  /** One entry as served: its payload is a hex string. */
  datatype EventEntry = EventEntry(imr: int, eventType: uint32, event: string, payloadHex: string)

  /** One RTMR3 entry with its payload decoded. */
  datatype Entry = Entry(eventType: uint32, event: string, payload: string)

  /** The event that ends the boot: what comes before it is the guest's own, what comes after is the runtime's. */
  const SYSTEM_READY := "system-ready"

  /** The position of the first system-ready entry, or |log|. */
  function ReadyAt(log: seq<Entry>): (i: nat)
    ensures i <= |log| && (i < |log| ==> log[i].event == SYSTEM_READY)
    ensures forall j :: 0 <= j < i ==> log[j].event != SYSTEM_READY
  {
    if log == [] || log[0].event == SYSTEM_READY then 0
    else
      var i := ReadyAt(log[1..]);
      assert forall j :: 0 < j < i + 1 ==> log[j] == log[1..][j - 1];
      i + 1
  }

  datatype EventHash = EventHash(preimage: string)

  datatype Register = Zeros | Extended(before: Register, digest: EventHash)

  datatype ReplayError = PayloadNotHex(index: nat) | DoesNotReplay

  /** binary.LittleEndian.PutUint32. */
  function LittleEndian(n: uint32): (b: string)
    ensures |b| == 4
  {
    var n1 := n / 256;
    var n2 := n1 / 256;
    var n3 := n2 / 256;
    [(n % 256) as char, (n1 % 256) as char, (n2 % 256) as char, n3 as char]
  }

  function Preimage(e: Entry): string {
    LittleEndian(e.eventType) + ":" + e.event + ":" + e.payload
  }

  function EventDigest(e: Entry): EventHash { EventHash(Preimage(e)) }

  /** The register after extending zero with each entry in turn. */
  function Replayed(log: seq<Entry>): Register {
    if log == [] then Zeros
    else Extended(Replayed(log[..|log| - 1]), EventDigest(log[|log| - 1]))
  }

  /** The RTMR3 entries among the first n of the served log, decoded, or the first that does not decode. */
  function Decoded(served: seq<EventEntry>, n: nat): Result<seq<Entry>, ReplayError>
    requires n <= |served|
  {
    if n == 0 then Success([])
    else
      match Decoded(served, n - 1)
      case Failure(why) => Failure(why)
      case Success(log) =>
        var e := served[n - 1];
        if e.imr != 3 then Success(log)
        else
          match HexDecode(e.payloadHex)
          case None => Failure(PayloadNotHex(n - 1))
          case Some(payload) => Success(log + [Entry(e.eventType, e.event, payload)])
  }

  function Replay(served: seq<EventEntry>, rtmr3: Register): Result<seq<Entry>, ReplayError> {
    match Decoded(served, |served|)
    case Failure(why) => Failure(why)
    case Success(log) => if Replayed(log) != rtmr3 then Failure(DoesNotReplay) else Success(log)
  }

  lemma {:induction false} DecodeFailureSticks(served: seq<EventEntry>, m: nat, n: nat)
    requires m <= n <= |served| && Decoded(served, m).Failure?
    ensures Decoded(served, n) == Decoded(served, m)
  {
    if m < n {
      DecodeFailureSticks(served, m, n - 1);
    }
  }

  /** replayRTMR3: one pass that extends the register and collects the entries. */
  method ReplayRtmr3(served: seq<EventEntry>, rtmr3: Register) returns (r: Result<seq<Entry>, ReplayError>)
    ensures r == Replay(served, rtmr3)
  {
    var mr := Zeros;
    var log: seq<Entry> := [];
    for i := 0 to |served|
      invariant Decoded(served, i) == Success(log)
      invariant mr == Replayed(log)
    {
      var e := served[i];
      if e.imr == 3 {
        match HexDecode(e.payloadHex) {
          case None =>
            DecodeFailureSticks(served, i + 1, |served|);
            return Failure(PayloadNotHex(i));
          case Some(payload) =>
            var entry := Entry(e.eventType, e.event, payload);
            mr := Extended(mr, EventDigest(entry));
            assert (log + [entry])[..|log|] == log;
            log := log + [entry];
        }
      }
    }
    if mr != rtmr3 {
      return Failure(DoesNotReplay);
    }
    r := Success(log);
  }

  // ---------------------------------------------------------------- What a replay reads

  /** at picks, in order, exactly the RTMR3 entries among the first n. */
  ghost predicate PicksRtmr3(served: seq<EventEntry>, n: nat, at: seq<nat>)
    requires n <= |served|
  {
    && (forall k :: 0 <= k < |at| ==> at[k] < n && served[at[k]].imr == 3)
    && (forall k, l :: 0 <= k < l < |at| ==> at[k] < at[l])
    && (forall i: nat :: i < n && served[i].imr == 3 ==> i in at)
  }

  predicate DecodesTo(e: EventEntry, d: Entry) {
    d.eventType == e.eventType && d.event == e.event && HexDecode(e.payloadHex) == Some(d.payload)
  }

  /** log is those entries, decoded. */
  ghost predicate ReadAs(served: seq<EventEntry>, at: seq<nat>, log: seq<Entry>) {
    |log| == |at| && forall k :: 0 <= k < |at| ==> at[k] < |served| && DecodesTo(served[at[k]], log[k])
  }

  lemma PicksMore(served: seq<EventEntry>, n: nat, at: seq<nat>)
    requires n < |served| && PicksRtmr3(served, n, at)
    ensures PicksRtmr3(served, n + 1, if served[n].imr == 3 then at + [n] else at)
  {
    var more := if served[n].imr == 3 then at + [n] else at;
    forall i: nat | i < n + 1 && served[i].imr == 3 ensures i in more {
      if i == n {
        assert more[|at|] == n;
      } else {
        assert i in at;
      }
    }
  }

  lemma PicksLess(served: seq<EventEntry>, n: nat, at: seq<nat>)
    requires n < |served| && PicksRtmr3(served, n + 1, at)
    ensures served[n].imr != 3 ==> PicksRtmr3(served, n, at)
    ensures served[n].imr == 3 ==> at != [] && at[|at| - 1] == n && PicksRtmr3(served, n, at[..|at| - 1])
  {
    if served[n].imr == 3 {
      assert n in at;
      var k :| 0 <= k < |at| && at[k] == n;
      assert at[|at| - 1] <= n;
      var front := at[..|at| - 1];
      forall i: nat | i < n && served[i].imr == 3 ensures i in front {
        assert i in at;
        var l :| 0 <= l < |at| && at[l] == i;
        assert front[l] == i;
      }
    }
  }

  lemma ReadLess(served: seq<EventEntry>, at: seq<nat>, log: seq<Entry>)
    requires ReadAs(served, at, log) && at != []
    ensures var k := |at| - 1;
            && |log| == k + 1 && at[k] < |served| && DecodesTo(served[at[k]], log[k])
            && ReadAs(served, at[..k], log[..k]) && log == log[..k] + [log[k]]
  {
    hide DecodesTo;
  }

  lemma DecodedNext(served: seq<EventEntry>, n: nat, log: seq<Entry>, d: Entry)
    requires n < |served| && served[n].imr == 3 && Decoded(served, n) == Success(log) && DecodesTo(served[n], d)
    ensures Decoded(served, n + 1) == Success(log + [d])
  {
    hide HexDecode;
  }

  lemma {:induction false} PickedIsDecoded(served: seq<EventEntry>, n: nat, at: seq<nat>, log: seq<Entry>)
    requires n <= |served| && PicksRtmr3(served, n, at) && ReadAs(served, at, log)
    ensures Decoded(served, n) == Success(log)
  {
    if n == 0 {
      assert log == [];
    } else {
      hide PicksRtmr3, HexDecode, ReadAs, DecodesTo;
      PicksLess(served, n - 1, at);
      if served[n - 1].imr != 3 {
        PickedIsDecoded(served, n - 1, at, log);
      } else {
        var k := |at| - 1;
        ReadLess(served, at, log);
        PickedIsDecoded(served, n - 1, at[..k], log[..k]);
        DecodedNext(served, n - 1, log[..k], log[k]);
      }
    }
  }

  lemma ReadMore(served: seq<EventEntry>, at: seq<nat>, log: seq<Entry>, i: nat, d: Entry)
    requires ReadAs(served, at, log) && i < |served| && DecodesTo(served[i], d)
    ensures ReadAs(served, at + [i], log + [d])
  {
    hide DecodesTo;
  }

  lemma NothingPicked(served: seq<EventEntry>)
    ensures PicksRtmr3(served, 0, []) && ReadAs(served, [], [])
  {
  }

  lemma {:induction false} DecodedIsPicked(served: seq<EventEntry>, n: nat) returns (at: seq<nat>)
    requires n <= |served| && Decoded(served, n).Success?
    ensures PicksRtmr3(served, n, at) && ReadAs(served, at, Decoded(served, n).value)
  {
    hide PicksRtmr3, HexDecode, ReadAs;
    if n == 0 {
      at := [];
      NothingPicked(served);
    } else {
      at := DecodedIsPicked(served, n - 1);
      PicksMore(served, n - 1, at);
      var e := served[n - 1];
      if e.imr == 3 {
        ReadMore(served, at, Decoded(served, n - 1).value, n - 1, Entry(e.eventType, e.event, HexDecode(e.payloadHex).value));
        at := at + [n - 1];
      }
    }
  }

  /** Entry i is the first of RTMR3 whose payload is not hex. */
  predicate FirstNotHex(served: seq<EventEntry>, i: nat) {
    && i < |served| && served[i].imr == 3 && HexDecode(served[i].payloadHex) == None
    && forall j :: 0 <= j < i && served[j].imr == 3 ==> HexDecode(served[j].payloadHex).Some?
  }

  lemma {:induction false} DecodeFails(served: seq<EventEntry>, n: nat, i: nat)
    requires n <= |served|
    ensures Decoded(served, n).Failure? ==> Decoded(served, n).error.PayloadNotHex?
    ensures Decoded(served, n) == Failure(PayloadNotHex(i)) <==> i < n && FirstNotHex(served, i)
  {
    if n > 0 {
      DecodeFails(served, n - 1, i);
      match Decoded(served, n - 1) {
        case Failure(why) => DecodeFails(served, n - 1, why.index);
        case Success(_) =>
          forall j: nat | j < n - 1 ensures !FirstNotHex(served, j) {
            DecodeFails(served, n - 1, j);
          }
          AllHex(served, n - 1);
      }
    }
  }

  lemma {:induction false} AllHex(served: seq<EventEntry>, n: nat)
    requires n <= |served| && Decoded(served, n).Success?
    ensures forall j :: 0 <= j < n && served[j].imr == 3 ==> HexDecode(served[j].payloadHex).Some?
  {
    if n > 0 {
      AllHex(served, n - 1);
    }
  }

  /**
   What a replay reads: exactly the RTMR3 entries, all of them in order and decoded, when they hash to the
   register; and what it reports otherwise.
   */
  lemma ReplayMeans(served: seq<EventEntry>, rtmr3: Register, log: seq<Entry>, i: nat)
    ensures Replay(served, rtmr3) == Success(log) <==>
            Replayed(log) == rtmr3 && exists at :: PicksRtmr3(served, |served|, at) && ReadAs(served, at, log)
    ensures Replay(served, rtmr3) == Failure(PayloadNotHex(i)) <==> FirstNotHex(served, i)
    ensures Replay(served, rtmr3) == Failure(DoesNotReplay) <==>
            exists other, at :: PicksRtmr3(served, |served|, at) && ReadAs(served, at, other) && Replayed(other) != rtmr3
  {
    hide PicksRtmr3, ReadAs, Decoded;
    var n := |served|;
    DecodeFails(served, n, i);
    match Decoded(served, n) {
      case Success(read) => var at := DecodedIsPicked(served, n);
      case Failure(_) =>
    }
    forall other, at | PicksRtmr3(served, n, at) && ReadAs(served, at, other) ensures Decoded(served, n) == Success(other) {
      PickedIsDecoded(served, n, at, other);
    }
  }

  // ---------------------------------------------------------------- What a register determines

  lemma LittleEndianInjective(m: uint32, n: uint32)
    requires LittleEndian(m) == LittleEndian(n)
    ensures m == n
  {
    var m1, n1 := m / 256, n / 256;
    var m2, n2 := m1 / 256, n1 / 256;
    var m3, n3 := m2 / 256, n2 / 256;
    var a, b := LittleEndian(m), LittleEndian(n);
    assert a[0] == b[0] && a[1] == b[1] && a[2] == b[2] && a[3] == b[3];
    assert a[0] as int == m % 256 && a[1] as int == m1 % 256 && a[2] as int == m2 % 256 && a[3] as int == m3;
    assert b[0] as int == n % 256 && b[1] as int == n1 % 256 && b[2] as int == n2 % 256 && b[3] as int == n3;
  }

  /** Two logs replay to one register exactly when their entries hash the same bytes, one by one. */
  lemma {:induction false} ReplayedInjective(a: seq<Entry>, b: seq<Entry>)
    ensures Replayed(a) == Replayed(b) <==>
            |a| == |b| && forall i :: 0 <= i < |a| ==> Preimage(a[i]) == Preimage(b[i])
  {
    hide Preimage;
    if a != [] && b != [] {
      var a', b' := a[..|a| - 1], b[..|b| - 1];
      ReplayedInjective(a', b');
      if |a| == |b| && forall i :: 0 <= i < |a| ==> Preimage(a[i]) == Preimage(b[i]) {
        forall i | 0 <= i < |a'| ensures Preimage(a'[i]) == Preimage(b'[i]) {
          assert a'[i] == a[i] && b'[i] == b[i];
        }
      }
      if Replayed(a) == Replayed(b) {
        forall i | 0 <= i < |a| ensures Preimage(a[i]) == Preimage(b[i]) {
          if i < |a'| {
            assert a'[i] == a[i] && b'[i] == b[i];
          }
        }
      }
    }
  }

  /** What follows the event type in the hashed bytes. */
  function Body(e: Entry): string { e.event + ":" + e.payload }

  lemma PreimageBody(a: Entry, b: Entry)
    ensures Preimage(a) == Preimage(b) <==> a.eventType == b.eventType && Body(a) == Body(b)
  {
    var pa, pb := Preimage(a), Preimage(b);
    assert pa == LittleEndian(a.eventType) + ":" + Body(a);
    assert pb == LittleEndian(b.eventType) + ":" + Body(b);
    if pa == pb {
      assert pa[..4] == LittleEndian(a.eventType) && pb[..4] == LittleEndian(b.eventType);
      assert pa[5..] == Body(a) && pb[5..] == Body(b);
      LittleEndianInjective(a.eventType, b.eventType);
    }
  }

  /** A colon-free event name ends at the first colon, so the hashed bytes name one entry. */
  lemma PreimageInjective(a: Entry, b: Entry)
    requires ':' !in a.event && ':' !in b.event && Preimage(a) == Preimage(b)
    ensures a == b
  {
    PreimageBody(a, b);
    var s := Body(a);
    assert s[|a.event|] == ':' && s[|b.event|] == ':';
    assert forall i :: 0 <= i < |a.event| ==> s[i] == a.event[i];
    assert forall i :: 0 <= i < |b.event| ==> s[i] == b.event[i];
    assert |a.event| == |b.event|;
    assert a.event == s[..|a.event|] && b.event == s[..|b.event|];
    assert a.payload == s[|a.event| + 1..] && b.payload == s[|b.event| + 1..];
  }

  predicate ColonFreeNames(log: seq<Entry>) {
    forall i :: 0 <= i < |log| ==> ':' !in log[i].event
  }

  /** A log whose event names hold no colon is the only such log that replays to its register. */
  lemma SameRegisterSameLog(a: seq<Entry>, b: seq<Entry>)
    requires Replayed(a) == Replayed(b)
    requires ColonFreeNames(a) && ColonFreeNames(b)
    ensures a == b
  {
    ReplayedInjective(a, b);
    forall i | 0 <= i < |a| ensures a[i] == b[i] {
      PreimageInjective(a[i], b[i]);
    }
  }

  /**
   The same for the logs as served: whatever they hold for other registers and however they spell
   the hex of a payload, two that replay to one register give the same entries.
   */
  lemma ServedLogsAgree(a: seq<EventEntry>, b: seq<EventEntry>, rtmr3: Register)
    requires Replay(a, rtmr3).Success? && Replay(b, rtmr3).Success?
    requires forall i :: 0 <= i < |a| && a[i].imr == 3 ==> ':' !in a[i].event
    requires forall i :: 0 <= i < |b| && b[i].imr == 3 ==> ':' !in b[i].event
    ensures Replay(a, rtmr3) == Replay(b, rtmr3)
  {
    NamesStayColonFree(a, |a|);
    NamesStayColonFree(b, |b|);
    SameRegisterSameLog(Replay(a, rtmr3).value, Replay(b, rtmr3).value);
  }

  lemma {:induction false} NamesStayColonFree(served: seq<EventEntry>, n: nat)
    requires n <= |served| && Decoded(served, n).Success?
    requires forall i :: 0 <= i < n && served[i].imr == 3 ==> ':' !in served[i].event
    ensures ColonFreeNames(Decoded(served, n).value)
  {
    if n > 0 {
      NamesStayColonFree(served, n - 1);
    }
  }

  /**
   Without the condition on names the register does not determine the log: a colon can be read as
   the boundary or as part of either side.
   */
  lemma ColonMovesTheBoundary()
    ensures var a := Entry(0, "zg-image-update:repo@sha256", "ab");
            var b := Entry(0, "zg-image-update", "repo@sha256:ab");
            a != b && Replayed([a]) == Replayed([b])
  {
    var a := Entry(0, "zg-image-update:repo@sha256", "ab");
    var b := Entry(0, "zg-image-update", "repo@sha256:ab");
    assert Body(a) == Body(b);
    PreimageBody(a, b);
    ReplayedInjective([a], [b]);
  }

  /** As byte strings, exactly the logs with no colon in any name or payload are the only log of their register. */
  lemma OnlyLogOfItsRegister(log: seq<Entry>)
    ensures (forall other: seq<Entry> :: Replayed(other) == Replayed(log) ==> other == log)
            <==> forall i :: 0 <= i < |log| ==> ':' !in log[i].event && ':' !in log[i].payload
  {
    hide Replayed, Body, Preimage;
    if forall i :: 0 <= i < |log| ==> ':' !in log[i].event && ':' !in log[i].payload {
      forall other: seq<Entry> | Replayed(other) == Replayed(log) ensures other == log {
        ReplayedInjective(other, log);
        forall i | 0 <= i < |log| ensures other[i] == log[i] {
          OneColonOneEntry(log[i], other[i]);
        }
      }
    } else {
      var i :| 0 <= i < |log| && (':' in log[i].event || ':' in log[i].payload);
      var moved := OtherReading(log[i]);
      var other := log[i := moved];
      ReplayedInjective(other, log);
      assert other[i] != log[i];
    }
  }

  /** The entry that puts the boundary at another colon of e's body. */
  lemma OtherReading(e: Entry) returns (moved: Entry)
    requires ':' in e.event || ':' in e.payload
    ensures moved != e && Preimage(moved) == Preimage(e)
  {
    var k := SecondBoundary(e);
    moved := Entry(e.eventType, Body(e)[..k], Body(e)[k + 1..]);
    assert Body(moved) == Body(e);
    PreimageBody(moved, e);
    assert |moved.event| == k;
  }

  lemma OneColonOneEntry(e: Entry, f: Entry)
    requires ':' !in e.event && ':' !in e.payload && Preimage(f) == Preimage(e)
    ensures f == e
  {
    PreimageBody(f, e);
    var s := Body(e);
    assert forall i :: 0 <= i < |s| && s[i] == ':' ==> i == |e.event|;
    assert Body(f)[|f.event|] == ':';
    assert f.event == s[..|f.event|] && f.payload == s[|f.event| + 1..];
    assert e.event == s[..|e.event|] && e.payload == s[|e.event| + 1..];
  }

  /** A colon of e's body other than the one that separates the name from the payload. */
  lemma SecondBoundary(e: Entry) returns (k: nat)
    requires ':' in e.event || ':' in e.payload
    ensures k < |Body(e)| && Body(e)[k] == ':' && k != |e.event|
  {
    if ':' in e.event {
      k :| 0 <= k < |e.event| && e.event[k] == ':';
    } else {
      var j :| 0 <= j < |e.payload| && e.payload[j] == ':';
      k := |e.event| + 1 + j;
    }
  }

  // ---------------------------------------------------------------- Names that can be served

  /** A served name was decoded from JSON, so it is valid UTF-8; a payload is any bytes. */
  ghost predicate Servable(log: seq<Entry>) {
    forall i :: 0 <= i < |log| ==> Utf8.Valid(log[i].event)
  }

  /** No colon but the one that separates them could end a name that can be served. */
  ghost predicate OneBoundary(e: Entry) {
    ':' !in e.event && forall j :: 0 <= j < |e.payload| && e.payload[j] == ':' ==> !Utf8.Valid(e.payload[..j])
  }

  /** A name that takes in the colon and the first j bytes of the payload can be served when those bytes are valid. */
  lemma LongerName(e: Entry, j: nat)
    requires Utf8.Valid(e.event) && j <= |e.payload|
    ensures Utf8.Valid(e.event + ":" + e.payload[..j]) <==> Utf8.Valid(e.payload[..j])
  {
    Utf8.AsciiIsValid(':');
    Utf8.ValidAppend(":", e.payload[..j]);
    Utf8.ValidAppend(e.event, ":" + e.payload[..j]);
    assert e.event + (":" + e.payload[..j]) == e.event + ":" + e.payload[..j];
  }

  /** Two splits of one body: the longer name takes in the other's boundary and the start of its payload. */
  lemma LongerSplit(e: Entry, f: Entry)
    requires Body(e) == Body(f) && |e.event| < |f.event|
    ensures var j := |f.event| - |e.event| - 1;
            j < |e.payload| && e.payload[j] == ':' && f.event == e.event + ":" + e.payload[..j] && ':' in f.event
  {
    var s, j := Body(e), |f.event| - |e.event| - 1;
    assert s[|f.event|] == ':' && s[|f.event|] == e.payload[j];
    assert f.event == s[..|f.event|];
    assert f.event[|e.event|] == s[|e.event|] == ':';
  }

  lemma SameSplit(e: Entry, f: Entry)
    requires Body(e) == Body(f) && |e.event| == |f.event|
    ensures e.event == f.event && e.payload == f.payload
  {
    var s, n := Body(e), |e.event|;
    assert e.event == s[..n] && e.payload == s[n + 1..];
    assert f.event == s[..n] && f.payload == s[n + 1..];
  }

  /** With one boundary, the hashed bytes name one entry that can be served. */
  lemma OneBoundaryOneEntry(e: Entry, f: Entry)
    requires Utf8.Valid(e.event) && Utf8.Valid(f.event) && OneBoundary(e) && Preimage(f) == Preimage(e)
    ensures f == e
  {
    hide Preimage, Body, Utf8.Valid;
    PreimageBody(f, e);
    if |f.event| < |e.event| {
      LongerSplit(f, e);
    } else if |f.event| > |e.event| {
      LongerSplit(e, f);
      LongerName(e, |f.event| - |e.event| - 1);
    } else {
      SameSplit(e, f);
    }
  }

  /** The entry with the boundary at another colon of the body. */
  lemma MovedBoundary(e: Entry, k: nat)
    requires k < |Body(e)| && Body(e)[k] == ':'
    ensures Preimage(Entry(e.eventType, Body(e)[..k], Body(e)[k + 1..])) == Preimage(e)
  {
    var moved := Entry(e.eventType, Body(e)[..k], Body(e)[k + 1..]);
    assert Body(moved) == Body(e);
    PreimageBody(moved, e);
  }

  lemma BoundaryInName(e: Entry, k: nat)
    requires Utf8.Valid(e.event) && k < |e.event| && e.event[k] == ':'
    ensures Body(e)[k] == ':' && Utf8.Valid(Body(e)[..k])
  {
    assert e.event == e.event[..k] + [':'] + e.event[k + 1..];
    Utf8.ValidBefore(e.event[..k], ':', e.event[k + 1..]);
    assert Body(e)[..k] == e.event[..k];
  }

  lemma BoundaryInPayload(e: Entry, j: nat)
    requires Utf8.Valid(e.event) && j < |e.payload| && e.payload[j] == ':' && Utf8.Valid(e.payload[..j])
    ensures var k := |e.event| + 1 + j; k < |Body(e)| && Body(e)[k] == ':' && Utf8.Valid(Body(e)[..k])
  {
    LongerName(e, j);
    assert Body(e)[..|e.event| + 1 + j] == e.event + ":" + e.payload[..j];
  }

  /** With another, they name a second one. */
  lemma OtherServable(e: Entry) returns (moved: Entry)
    requires Utf8.Valid(e.event) && !OneBoundary(e)
    ensures moved != e && Preimage(moved) == Preimage(e) && Utf8.Valid(moved.event)
  {
    hide Preimage, Utf8.Valid;
    var k: nat;
    if ':' in e.event {
      k :| 0 <= k < |e.event| && e.event[k] == ':';
      BoundaryInName(e, k);
    } else {
      var j :| 0 <= j < |e.payload| && e.payload[j] == ':' && Utf8.Valid(e.payload[..j]);
      k := |e.event| + 1 + j;
      BoundaryInPayload(e, j);
    }
    MovedBoundary(e, k);
    moved := Entry(e.eventType, Body(e)[..k], Body(e)[k + 1..]);
    assert |moved.event| == k != |e.event|;
  }

  /**
   Among the logs that can be served, one is the only one of its register exactly when no name in it holds
   a colon and no payload has one after a valid beginning.
   */
  lemma OnlyServableLogOfItsRegister(log: seq<Entry>)
    requires Servable(log)
    ensures (forall other: seq<Entry> :: Servable(other) && Replayed(other) == Replayed(log) ==> other == log)
            <==> forall i :: 0 <= i < |log| ==> OneBoundary(log[i])
  {
    hide Replayed, Preimage, OneBoundary, Utf8.Valid;
    if forall i :: 0 <= i < |log| ==> OneBoundary(log[i]) {
      forall other: seq<Entry> | Servable(other) && Replayed(other) == Replayed(log) ensures other == log {
        ReplayedInjective(other, log);
        forall i | 0 <= i < |log| ensures other[i] == log[i] {
          OneBoundaryOneEntry(log[i], other[i]);
        }
      }
    } else {
      var i :| 0 <= i < |log| && !OneBoundary(log[i]);
      var moved := OtherServable(log[i]);
      var other := log[i := moved];
      ReplayedInjective(other, log);
      assert other[i] != log[i];
    }
  }
}
