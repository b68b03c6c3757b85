/**
 Reading what a CVM runs now out of its replayed event log (client/evidence/rtmr3.go:174-290,
 340-364) and judging it (rtmr3.go:530-582).
 */
module RuntimeStates {
  import opened Wrappers
  import opened Text
  import opened Rtmr3
  import opened UpstreamSets

  const RUNTIME_EVENT_TYPE: uint32 := 0x0800_0001
  const ZG := "zg-"
  const IMAGE_UPDATE := "zg-image-update"
  const CONFIG_UPDATE := "zg-config-update"
  const UPSTREAM_SET := "zg-upstream-set"
  const ENGINE_SET := "zg-engine-set"
  const INSTANCE_CONFIG_UPDATE := "zg-instance-config-update"

  /** One image record: the reference split at its '@', and the keys derived for the image. */
  datatype ImageRecord = ImageRecord(repository: string, digest: string, signer: string, encPub: string, index: nat)

  datatype RuntimeState = RuntimeState(
    entries: nat, runtime: nat, ignored: seq<string>,
    image: Option<ImageRecord>, imageUpdates: nat, configUpdates: nat, lastConfig: string,
    upstreams: Option<UpstreamSet>, engines: nat, instances: map<string, string>, unknown: seq<string>)

  datatype ReadError =
    | NotReplayed(why: ReplayError) | NoSystemReady
    | WrongEventType(n: nat) | BadRecord(n: nat)

  predicate IsZg(name: string) { ZG <= name }

  predicate IsKnown(name: string) {
    name == IMAGE_UPDATE || name == CONFIG_UPDATE || name == UPSTREAM_SET || name == ENGINE_SET || name == INSTANCE_CONFIG_UPDATE
  }

  predicate IsUnknownZg(name: string) { IsZg(name) && !IsKnown(name) }

  // ---------------------------------------------------------------- Single records

  /** strings.Cut: the text before and after the first c. */
  function Cut(s: string, c: char): Option<(string, string)> {
    if s == "" then None
    else if s[0] == c then Some(("", s[1..]))
    else match Cut(s[1..], c) case None => None case Some((before, after)) => Some(([s[0]] + before, after))
  }

  const DIGEST_TAG := "sha256:"

  /** parseImageUpdate: <repo>@sha256:<64 hex> <0x + 40 hex> <64 hex>. */
  function ParseImage(payload: string): Option<ImageRecord> {
    var f := Split(payload, ' ');
    if |f| != 3 then None
    else
      match Cut(f[0], '@')
      case None => None
      case Some((repo, digest)) =>
        if repo == "" || '@' in repo || '\t' in repo || '\n' in repo then None
        else if !(DIGEST_TAG <= digest && IsLowerHex(digest[|DIGEST_TAG|..], 64)) then None
        else if !IsAddress(f[1]) then None
        else if !IsLowerHex(f[2], 64) then None
        else
          match HexDecode(f[2])
          case None => None
          case Some(key) => Some(ImageRecord(repo, digest, f[1], key, 0))
  }

  /** The instance and value of an instance record. */
  function ParseInstance(payload: string): Option<(string, string)> {
    match Cut(payload, ' ')
    case None => None
    case Some((inst, value)) =>
      if inst == "" || ' ' in inst || '\t' in inst || '\n' in inst then None
      else if value != "unknown" && !IsLowerHex(value, 64) then None
      else Some((inst, value))
  }

  /** The writer of image records. */
  function PrintImage(rec: ImageRecord): string
    requires IsBytes(rec.encPub)
  {
    Join([rec.repository + "@" + rec.digest, rec.signer, HexEncode(rec.encPub)], ' ')
  }

  predicate WellFormedImage(rec: ImageRecord) {
    && rec.repository != "" && (forall c :: c in rec.repository ==> c != '@' && c != ' ' && c != '\t' && c != '\n')
    && DIGEST_TAG <= rec.digest && IsLowerHex(rec.digest[|DIGEST_TAG|..], 64)
    && IsAddress(rec.signer)
    && IsBytes(rec.encPub) && |rec.encPub| == 32
    && rec.index == 0
  }

  lemma {:induction false} CutIs(s: string, c: char)
    ensures Cut(s, c).Some? ==> s == Cut(s, c).value.0 + [c] + Cut(s, c).value.1 && c !in Cut(s, c).value.0
    ensures Cut(s, c).None? ==> c !in s
  {
    if s != "" && s[0] != c {
      CutIs(s[1..], c);
      assert s == [s[0]] + s[1..];
    }
  }

  lemma {:induction false} CutJoined(before: string, c: char, after: string)
    requires c !in before
    ensures Cut(before + [c] + after, c) == Some((before, after))
  {
    var s := before + [c] + after;
    if before != "" {
      assert s[1..] == before[1..] + [c] + after;
      CutJoined(before[1..], c, after);
      assert before == [before[0]] + before[1..];
    } else {
      assert s[1..] == after;
    }
  }

  lemma DigestHasNoSpace(digest: string)
    requires DIGEST_TAG <= digest && IsLowerHex(digest[|DIGEST_TAG|..], 64)
    ensures ' ' !in digest
  {
    assert digest == DIGEST_TAG + digest[|DIGEST_TAG|..];
    assert ' ' !in DIGEST_TAG && !IsLowerHexDigit(' ');
  }

  /** An image record reads back as written. */
  lemma ParsePrintedImage(rec: ImageRecord)
    requires WellFormedImage(rec)
    ensures ParseImage(PrintImage(rec)) == Some(rec)
  {
    hide Split, Join, Cut, HexDecode, HexEncode, IsLowerHex;
    var reference := rec.repository + "@" + rec.digest;
    var f := [reference, rec.signer, HexEncode(rec.encPub)];
    DigestHasNoSpace(rec.digest);
    AddressHasNoSeparator(rec.signer);
    LowerHexEncoded(rec.encPub);
    forall p | p in f ensures ' ' !in p {
    }
    SplitJoin(f, ' ');
    assert reference == rec.repository + ['@'] + rec.digest;
    CutJoined(rec.repository, '@', rec.digest);
    HexRoundTrip(rec.encPub);
  }

  lemma LowerHexEncoded(b: string)
    requires IsBytes(b)
    ensures IsLowerHex(HexEncode(b), 2 * |b|) && ' ' !in HexEncode(b)
  {
    assert !IsLowerHexDigit(' ');
  }

  /** Two lowercase digits are the ones their byte is written with. */
  lemma LowerHexPair(a: char, b: char)
    requires IsLowerHexDigit(a) && IsLowerHexDigit(b)
    ensures HexValue(a).Some? && HexValue(b).Some?
    ensures var byte := HexValue(a).value * 16 + HexValue(b).value;
            byte < 256 && HexDigit(byte / 16) == a && HexDigit(byte % 16) == b
  {
    var hi, lo := HexValue(a).value, HexValue(b).value;
    assert (hi * 16 + lo) / 16 == hi && (hi * 16 + lo) % 16 == lo;
  }

  lemma LowerHexFront(s: string, n: nat)
    requires IsLowerHex(s, 2 * n)
    ensures |s| == 2 * n
    ensures n > 0 ==> IsLowerHexDigit(s[0]) && IsLowerHexDigit(s[1]) && IsLowerHex(s[2..], 2 * (n - 1))
  {
    hide IsLowerHexDigit;
  }

  /** Two digits more. */
  lemma EncodedPair(a: char, b: char, rest: string)
    requires IsLowerHexDigit(a) && IsLowerHexDigit(b) && HexDecode(rest).Some? && HexEncode(HexDecode(rest).value) == rest
    ensures var r := HexDecode([a, b] + rest); r.Some? && |r.value| == |HexDecode(rest).value| + 1 && HexEncode(r.value) == [a, b] + rest
  {
    LowerHexPair(a, b);
    hide IsLowerHexDigit, HexValue, HexDigit;
    var s := [a, b] + rest;
    assert s[2..] == rest;
    assert HexDecode(s).value[1..] == HexDecode(rest).value;
  }

  lemma {:induction false} LowerHexIsEncoded(s: string, n: nat)
    requires IsLowerHex(s, 2 * n)
    ensures HexDecode(s).Some? && |HexDecode(s).value| == n && HexEncode(HexDecode(s).value) == s
  {
    hide IsLowerHex, IsLowerHexDigit, HexValue, HexDigit;
    LowerHexFront(s, n);
    if n > 0 {
      LowerHexIsEncoded(s[2..], n - 1);
      assert s == [s[0], s[1]] + s[2..];
      EncodedPair(s[0], s[1], s[2..]);
    }
  }

  /** The image records the reader accepts are exactly the ones its writer prints. */
  lemma ParseImageAccepts(payload: string)
    ensures ParseImage(payload).Some? <==> exists rec :: WellFormedImage(rec) && PrintImage(rec) == payload
    ensures ParseImage(payload).Some? ==>
              WellFormedImage(ParseImage(payload).value) && PrintImage(ParseImage(payload).value) == payload
  {
    if ParseImage(payload).Some? {
      ParsedImageIsPrinted(payload);
    }
    forall rec | WellFormedImage(rec) && PrintImage(rec) == payload ensures ParseImage(payload).Some? {
      ParsePrintedImage(rec);
    }
  }

  lemma ParsedImageIsPrinted(payload: string)
    requires ParseImage(payload).Some?
    ensures WellFormedImage(ParseImage(payload).value) && PrintImage(ParseImage(payload).value) == payload
  {
    hide Split, Join, Cut, HexDecode, HexEncode, IsLowerHex;
    var f := Split(payload, ' ');
    JoinSplit(payload, ' ');
    var rec := ParseImage(payload).value;
    CutIs(f[0], '@');
    LowerHexIsEncoded(f[2], 32);
    assert f[0] == rec.repository + "@" + rec.digest;
    assert f == [f[0], f[1], f[2]];
    assert ' ' !in f[0];
    forall c | c in rec.repository ensures c != ' ' {
      assert c in f[0];
    }
  }

  /** Lowercase hex digits. */
  predicate LowerHexDigits(s: string) { forall i :: 0 <= i < |s| ==> '0' <= s[i] <= '9' || 'a' <= s[i] <= 'f' }

  /** The instance records that are read: a name without blanks, one space, and a config hash or "unknown". */
  lemma ParseInstanceAccepts(payload: string, inst: string, value: string)
    ensures ParseInstance(payload) == Some((inst, value)) <==>
            && payload == inst + " " + value && inst != "" && (forall i :: 0 <= i < |inst| ==> inst[i] != ' ' && inst[i] != '\t' && inst[i] != '\n')
            && (value == "unknown" || (|value| == 64 && LowerHexDigits(value)))
  {
    hide Cut;
    CutIs(payload, ' ');
    LowerHexMeans(value);
    if payload == inst + " " + value && forall i :: 0 <= i < |inst| ==> inst[i] != ' ' {
      CutJoined(inst, ' ', value);
      assert inst + " " + value == inst + [' '] + value;
    }
  }

  lemma LowerHexMeans(s: string)
    ensures IsLowerHex(s, 64) <==> |s| == 64 && LowerHexDigits(s)
  {
    assert forall i :: 0 <= i < |s| ==> s[i] in s;
    if |s| == 64 && LowerHexDigits(s) {
      forall c | c in s ensures IsLowerHexDigit(c) {
        var i :| 0 <= i < |s| && s[i] == c;
      }
    }
  }

  // ---------------------------------------------------------------- The fold

  /** One record read into the state; n is its position among the runtime entries, from 1. */
  function Apply(st: RuntimeState, n: nat, name: string, payload: string, parses: string -> bool): Option<RuntimeState> {
    if name == IMAGE_UPDATE then
      match ParseImage(payload)
      case None => None
      case Some(rec) => Some(st.(image := Some(rec.(index := n)), imageUpdates := st.imageUpdates + 1))
    else if name == CONFIG_UPDATE then
      if !IsLowerHex(payload, 64) then None
      else Some(st.(lastConfig := payload, configUpdates := st.configUpdates + 1))
    else if name == UPSTREAM_SET then
      match Parse(payload, parses)
      case Failure(_) => None
      case Success(set') => Some(st.(upstreams := Some(set')))
    else if name == ENGINE_SET then
      Some(st.(engines := st.engines + 1))
    else if name == INSTANCE_CONFIG_UPDATE then
      match ParseInstance(payload)
      case None => None
      case Some((inst, value)) => Some(st.(instances := st.instances[inst := value]))
    else
      Some(st.(unknown := st.unknown + [name]))
  }

  /** One runtime entry: counted, skipped unless it is a 0G record, and otherwise applied. */
  function Step(st: RuntimeState, n: nat, e: Entry, parses: string -> bool): Result<RuntimeState, ReadError> {
    var counted := st.(runtime := st.runtime + 1);
    if !IsZg(e.event) then Success(counted)
    else if e.eventType != RUNTIME_EVENT_TYPE then Failure(WrongEventType(n))
    else
      match Apply(counted, n, e.event, e.payload, parses)
      case None => Failure(BadRecord(n))
      case Some(next) => Success(next)
  }

  /** The state after the runtime entries rt, starting from st. */
  function ReadRecords(st: RuntimeState, rt: seq<Entry>, parses: string -> bool): Result<RuntimeState, ReadError>
    decreases |rt|
  {
    if rt == [] then Success(st)
    else
      match ReadRecords(st, rt[..|rt| - 1], parses)
      case Failure(why) => Failure(why)
      case Success(before) => Step(before, |rt|, rt[|rt| - 1], parses)
  }

  /** The 0G names among the entries, in order. */
  function ZgNames(log: seq<Entry>): seq<string> {
    if log == [] then []
    else ZgNames(log[..|log| - 1]) + if IsZg(log[|log| - 1].event) then [log[|log| - 1].event] else []
  }

  function Blank(entries: nat, ignored: seq<string>): RuntimeState {
    RuntimeState(entries, 0, ignored, None, 0, 0, "", None, 0, map[], [])
  }

  function ReadLog(log: seq<Entry>, parses: string -> bool): Result<RuntimeState, ReadError> {
    var ready := ReadyAt(log);
    if ready == |log| then Failure(NoSystemReady)
    else ReadRecords(Blank(|log|, ZgNames(log[..ready])), log[ready + 1..], parses)
  }

  function ReadServed(served: seq<EventEntry>, rtmr3: Register, parses: string -> bool): Result<RuntimeState, ReadError> {
    match Replay(served, rtmr3)
    case Failure(why) => Failure(NotReplayed(why))
    case Success(log) => ReadLog(log, parses)
  }

  lemma {:induction false} ReadFailureSticks(st: RuntimeState, rt: seq<Entry>, m: nat, parses: string -> bool)
    requires m <= |rt| && ReadRecords(st, rt[..m], parses).Failure?
    ensures ReadRecords(st, rt, parses) == ReadRecords(st, rt[..m], parses)
    decreases |rt|
  {
    hide Step;
    if m < |rt| {
      var front := rt[..|rt| - 1];
      assert front[..m] == rt[..m];
      ReadFailureSticks(st, front, m, parses);
    } else {
      assert rt[..m] == rt;
    }
  }

  /** The reader's state, updated in place record by record. */
  class Reader {
    var st: RuntimeState

    constructor (entries: nat, ignored: seq<string>)
      ensures st == Blank(entries, ignored)
    {
      st := Blank(entries, ignored);
    }

    /** apply: reads one record into the state, or refuses it and leaves the state alone. */
    method ApplyRecord(n: nat, name: string, payload: string, parses: string -> bool) returns (ok: bool)
      modifies this
      ensures ok == Apply(old(st), n, name, payload, parses).Some?
      ensures st == if ok then Apply(old(st), n, name, payload, parses).value else old(st)
    {
      if name == IMAGE_UPDATE {
        var rec := ParseImage(payload);
        if rec.None? { return false; }
        st := st.(image := Some(rec.value.(index := n)), imageUpdates := st.imageUpdates + 1);
      } else if name == CONFIG_UPDATE {
        if !IsLowerHex(payload, 64) { return false; }
        st := st.(lastConfig := payload, configUpdates := st.configUpdates + 1);
      } else if name == UPSTREAM_SET {
        var parsed := ParseUpstreamSet(payload, parses);
        if parsed.Failure? { return false; }
        st := st.(upstreams := Some(parsed.value));
      } else if name == ENGINE_SET {
        st := st.(engines := st.engines + 1);
      } else if name == INSTANCE_CONFIG_UPDATE {
        var parsed := ParseInstance(payload);
        if parsed.None? { return false; }
        st := st.(instances := st.instances[parsed.value.0 := parsed.value.1]);
      } else {
        st := st.(unknown := st.unknown + [name]);
      }
      ok := true;
    }

    method CountEntry()
      modifies this
      ensures st == old(st).(runtime := old(st).runtime + 1)
    {
      st := st.(runtime := st.runtime + 1);
    }
  }

  lemma ReadNext(st: RuntimeState, rt: seq<Entry>, i: nat, parses: string -> bool)
    requires i < |rt| && ReadRecords(st, rt[..i], parses).Success?
    ensures ReadRecords(st, rt[..i + 1], parses) == Step(ReadRecords(st, rt[..i], parses).value, i + 1, rt[i], parses)
  {
    assert rt[..i + 1][..i] == rt[..i];
  }

  /** ReadRuntimeState's second loop: the runtime entries into the reader. */
  method ReadRuntimeEntries(rt: seq<Entry>, entries: nat, ignored: seq<string>, parses: string -> bool)
    returns (r: Result<RuntimeState, ReadError>)
    ensures r == ReadRecords(Blank(entries, ignored), rt, parses)
  {
    hide Apply, ReadRecords;
    var reader := new Reader(entries, ignored);
    ghost var start := Blank(entries, ignored);
    assert ReadRecords(start, rt[..0], parses) == Success(start) by { ReadNone(start, rt, parses); }
    for i := 0 to |rt|
      invariant ReadRecords(start, rt[..i], parses) == Success(reader.st)
    {
      var e := rt[i];
      ReadNext(start, rt, i, parses);
      reader.CountEntry();
      if IsZg(e.event) {
        if e.eventType != RUNTIME_EVENT_TYPE {
          ReadFailureSticks(start, rt, i + 1, parses);
          return Failure(WrongEventType(i + 1));
        }
        var ok := reader.ApplyRecord(i + 1, e.event, e.payload, parses);
        if !ok {
          ReadFailureSticks(start, rt, i + 1, parses);
          return Failure(BadRecord(i + 1));
        }
      }
    }
    assert rt[..|rt|] == rt;
    r := Success(reader.st);
  }

  lemma ReadNone(st: RuntimeState, rt: seq<Entry>, parses: string -> bool)
    ensures ReadRecords(st, rt[..0], parses) == Success(st)
  {
  }

  /** ReadRuntimeState, from the decoded event log on. */
  method ReadRuntimeState(served: seq<EventEntry>, rtmr3: Register, parses: string -> bool)
    returns (r: Result<RuntimeState, ReadError>)
    ensures r == ReadServed(served, rtmr3, parses)
  {
    hide Replay, ReadRecords;
    var replayed := ReplayRtmr3(served, rtmr3);
    if replayed.Failure? {
      return Failure(NotReplayed(replayed.error));
    }
    var log := replayed.value;
    var ready := 0;
    var ignored: seq<string> := [];
    while ready < |log| && log[ready].event != SYSTEM_READY
      invariant ready <= ReadyAt(log)
      invariant ignored == ZgNames(log[..ready])
    {
      assert log[..ready + 1][..ready] == log[..ready];
      if IsZg(log[ready].event) {
        ignored := ignored + [log[ready].event];
      }
      ready := ready + 1;
    }
    if ready == |log| {
      return Failure(NoSystemReady);
    }
    r := ReadRuntimeEntries(log[ready + 1..], |log|, ignored, parses);
  }

  // ---------------------------------------------------------------- What the fold computes

  /** Record i is the last of its name. */
  predicate IsLast(rt: seq<Entry>, name: string, i: int) {
    && 0 <= i < |rt| && rt[i].event == name
    && forall j :: i < j < |rt| ==> rt[j].event != name
  }

  predicate IsInstanceRecord(e: Entry, inst: string) {
    && e.event == INSTANCE_CONFIG_UPDATE
    && ParseInstance(e.payload).Some? && ParseInstance(e.payload).value.0 == inst
  }

  predicate IsLastFor(rt: seq<Entry>, inst: string, i: int) {
    && 0 <= i < |rt| && IsInstanceRecord(rt[i], inst)
    && forall j :: i < j < |rt| ==> !IsInstanceRecord(rt[j], inst)
  }

  function Names(rt: seq<Entry>): (names: seq<string>)
    ensures |names| == |rt| && forall i :: 0 <= i < |rt| ==> names[i] == rt[i].event
  {
    seq(|rt|, i requires 0 <= i < |rt| => rt[i].event)
  }

  function Count(rt: seq<Entry>, name: string): nat { multiset(Names(rt))[name] }

  /** The names of unknown records, in order. */
  function UnknownNames(rt: seq<Entry>): seq<string> {
    if rt == [] then []
    else (if IsUnknownZg(rt[0].event) then [rt[0].event] else []) + UnknownNames(rt[1..])
  }

  /** A runtime entry the reader accepts: not a 0G record, or one of the runtime type that parses. */
  predicate Acceptable(e: Entry, parses: string -> bool) {
    IsZg(e.event) ==>
      && e.eventType == RUNTIME_EVENT_TYPE
      && (e.event == IMAGE_UPDATE ==> ParseImage(e.payload).Some?)
      && (e.event == CONFIG_UPDATE ==> IsLowerHex(e.payload, 64))
      && (e.event == UPSTREAM_SET ==> Parse(e.payload, parses).Success?)
      && (e.event == INSTANCE_CONFIG_UPDATE ==> ParseInstance(e.payload).Some?)
  }

  /** What the image field says: the last image record, or that there is none. */
  ghost predicate ImageIs(rt: seq<Entry>, image: Option<ImageRecord>) {
    && (image.None? <==> forall i :: 0 <= i < |rt| ==> rt[i].event != IMAGE_UPDATE)
    && (forall i :: IsLast(rt, IMAGE_UPDATE, i) ==>
          ParseImage(rt[i].payload).Some? && image == Some(ParseImage(rt[i].payload).value.(index := i + 1)))
  }

  ghost predicate ConfigIs(rt: seq<Entry>, config: string) {
    && ((forall i :: 0 <= i < |rt| ==> rt[i].event != CONFIG_UPDATE) ==> config == "")
    && (forall i :: IsLast(rt, CONFIG_UPDATE, i) ==> config == rt[i].payload)
  }

  ghost predicate UpstreamsAre(rt: seq<Entry>, upstreams: Option<UpstreamSet>, parses: string -> bool) {
    && (upstreams.None? <==> forall i :: 0 <= i < |rt| ==> rt[i].event != UPSTREAM_SET)
    && (forall i :: IsLast(rt, UPSTREAM_SET, i) ==>
          Parse(rt[i].payload, parses).Success? && upstreams == Some(Parse(rt[i].payload, parses).value))
  }

  ghost predicate InstancesAre(rt: seq<Entry>, instances: map<string, string>) {
    && (forall inst :: inst in instances <==> exists i :: 0 <= i < |rt| && IsInstanceRecord(rt[i], inst))
    && (forall inst, i :: IsLastFor(rt, inst, i) ==>
          inst in instances && instances[inst] == ParseInstance(rt[i].payload).value.1)
  }

  /** The declarative reading of the runtime entries: last record of each kind, exact counts. */
  ghost predicate Describes(rt: seq<Entry>, st: RuntimeState, parses: string -> bool) {
    && st.runtime == |rt|
    && ImageIs(rt, st.image) && st.imageUpdates == Count(rt, IMAGE_UPDATE)
    && ConfigIs(rt, st.lastConfig) && st.configUpdates == Count(rt, CONFIG_UPDATE)
    && UpstreamsAre(rt, st.upstreams, parses)
    && st.engines == Count(rt, ENGINE_SET)
    && InstancesAre(rt, st.instances)
    && st.unknown == UnknownNames(rt)
  }

  lemma CountSnoc(rt: seq<Entry>, e: Entry, name: string)
    ensures Count(rt + [e], name) == Count(rt, name) + if e.event == name then 1 else 0
  {
    assert Names(rt + [e]) == Names(rt) + [e.event];
  }

  lemma {:induction false} UnknownSnoc(rt: seq<Entry>, e: Entry)
    ensures UnknownNames(rt + [e]) == UnknownNames(rt) + if IsUnknownZg(e.event) then [e.event] else []
  {
    if rt == [] {
      assert [e][1..] == [];
    } else {
      UnknownSnoc(rt[1..], e);
      assert (rt + [e])[1..] == rt[1..] + [e];
    }
  }

  lemma ImageSnoc(rt: seq<Entry>, e: Entry, image: Option<ImageRecord>)
    requires ImageIs(rt, image) && (e.event == IMAGE_UPDATE ==> ParseImage(e.payload).Some?)
    ensures ImageIs(rt + [e], if e.event == IMAGE_UPDATE
                              then Some(ParseImage(e.payload).value.(index := |rt| + 1)) else image)
  {
    hide ParseImage;
    var all := rt + [e];
    assert all[|rt|] == e;
    forall i | IsLast(all, IMAGE_UPDATE, i) ensures i == |rt| || (e.event != IMAGE_UPDATE && IsLast(rt, IMAGE_UPDATE, i)) {
      assert forall j :: i < j < |rt| ==> all[j] == rt[j];
    }
    assert forall i :: 0 <= i < |rt| ==> all[i] == rt[i];
  }

  lemma ConfigSnoc(rt: seq<Entry>, e: Entry, config: string)
    requires ConfigIs(rt, config)
    ensures ConfigIs(rt + [e], if e.event == CONFIG_UPDATE then e.payload else config)
  {
    var all := rt + [e];
    assert all[|rt|] == e && forall i :: 0 <= i < |rt| ==> all[i] == rt[i];
    forall i | IsLast(all, CONFIG_UPDATE, i) ensures i == |rt| || (e.event != CONFIG_UPDATE && IsLast(rt, CONFIG_UPDATE, i)) {
    }
  }

  lemma UpstreamsSnoc(rt: seq<Entry>, e: Entry, upstreams: Option<UpstreamSet>, parses: string -> bool)
    requires UpstreamsAre(rt, upstreams, parses) && (e.event == UPSTREAM_SET ==> Parse(e.payload, parses).Success?)
    ensures UpstreamsAre(rt + [e], if e.event == UPSTREAM_SET then Some(Parse(e.payload, parses).value) else upstreams, parses)
  {
    hide Parse;
    var all := rt + [e];
    assert all[|rt|] == e && forall i :: 0 <= i < |rt| ==> all[i] == rt[i];
    forall i | IsLast(all, UPSTREAM_SET, i) ensures i == |rt| || (e.event != UPSTREAM_SET && IsLast(rt, UPSTREAM_SET, i)) {
    }
  }

  lemma InstancesSnoc(rt: seq<Entry>, e: Entry, instances: map<string, string>)
    requires InstancesAre(rt, instances) && (e.event == INSTANCE_CONFIG_UPDATE ==> ParseInstance(e.payload).Some?)
    ensures InstancesAre(rt + [e], if e.event == INSTANCE_CONFIG_UPDATE
                                   then instances[ParseInstance(e.payload).value.0 := ParseInstance(e.payload).value.1]
                                   else instances)
  {
    hide ParseInstance;
    var all := rt + [e];
    var after := if e.event == INSTANCE_CONFIG_UPDATE
                 then instances[ParseInstance(e.payload).value.0 := ParseInstance(e.payload).value.1] else instances;
    assert all[|rt|] == e && forall i :: 0 <= i < |rt| ==> all[i] == rt[i];
    forall inst ensures inst in after <==> exists i :: 0 <= i < |all| && IsInstanceRecord(all[i], inst) {
      if inst in after {
        if IsInstanceRecord(e, inst) {
          assert IsInstanceRecord(all[|rt|], inst);
        } else {
          var i :| 0 <= i < |rt| && IsInstanceRecord(rt[i], inst);
          assert IsInstanceRecord(all[i], inst);
        }
      }
    }
    forall inst, i | IsLastFor(all, inst, i)
      ensures inst in after && after[inst] == ParseInstance(all[i].payload).value.1
    {
      if i < |rt| {
        assert !IsInstanceRecord(all[|rt|], inst);
        assert IsLastFor(rt, inst, i);
      }
    }
  }

  /** One more entry keeps the reading, and is accepted exactly when it is acceptable. */
  lemma DescribesSnoc(rt: seq<Entry>, e: Entry, st: RuntimeState, parses: string -> bool)
    requires Describes(rt, st, parses)
    ensures Step(st, |rt| + 1, e, parses).Success? <==> Acceptable(e, parses)
    ensures Acceptable(e, parses) ==> Describes(rt + [e], Step(st, |rt| + 1, e, parses).value, parses)
  {
    hide ParseImage, ParseInstance, Parse, IsLowerHex, ImageIs, ConfigIs, UpstreamsAre, InstancesAre, Count, UnknownNames;
    assert IsZg(IMAGE_UPDATE) && IsZg(CONFIG_UPDATE) && IsZg(UPSTREAM_SET) && IsZg(ENGINE_SET) && IsZg(INSTANCE_CONFIG_UPDATE);
    if Acceptable(e, parses) {
      CountSnoc(rt, e, IMAGE_UPDATE);
      CountSnoc(rt, e, CONFIG_UPDATE);
      CountSnoc(rt, e, ENGINE_SET);
      UnknownSnoc(rt, e);
      ImageSnoc(rt, e, st.image);
      ConfigSnoc(rt, e, st.lastConfig);
      UpstreamsSnoc(rt, e, st.upstreams, parses);
      InstancesSnoc(rt, e, st.instances);
    }
  }

  lemma {:induction false} ReadRecordsDescribes(entries: nat, ignored: seq<string>, rt: seq<Entry>, parses: string -> bool)
    ensures var r := ReadRecords(Blank(entries, ignored), rt, parses);
            && (r.Success? <==> forall i :: 0 <= i < |rt| ==> Acceptable(rt[i], parses))
            && (r.Success? ==> Describes(rt, r.value, parses) && r.value.entries == entries && r.value.ignored == ignored)
    decreases |rt|
  {
    hide Describes, Acceptable, Step;
    if rt == [] {
      BlankDescribes(entries, ignored, parses);
    } else {
      var front, e := rt[..|rt| - 1], rt[|rt| - 1];
      ReadRecordsDescribes(entries, ignored, front, parses);
      assert rt == front + [e];
      assert (forall i :: 0 <= i < |rt| ==> Acceptable(rt[i], parses))
             <==> (forall i :: 0 <= i < |front| ==> Acceptable(front[i], parses)) && Acceptable(e, parses) by {
        assert forall i :: 0 <= i < |front| ==> front[i] == rt[i];
      }
      var before := ReadRecords(Blank(entries, ignored), front, parses);
      if before.Success? {
        DescribesSnoc(front, e, before.value, parses);
        StepKeepsHeader(before.value, |rt|, e, parses);
      }
    }
  }

  lemma StepKeepsHeader(st: RuntimeState, n: nat, e: Entry, parses: string -> bool)
    ensures Step(st, n, e, parses).Success? ==>
              Step(st, n, e, parses).value.entries == st.entries && Step(st, n, e, parses).value.ignored == st.ignored
  {
  }

  lemma BlankDescribes(entries: nat, ignored: seq<string>, parses: string -> bool)
    ensures Describes([], Blank(entries, ignored), parses)
  {
  }

  /**
   ReadRuntimeState's answer, declaratively: a log is read exactly when it has a system-ready entry
   and every entry after the first one is acceptable; then the state holds the last record of each
   kind after it, exact counts, and the earlier 0G names only as ignored.
   */
  lemma ReadLogDescribes(log: seq<Entry>, parses: string -> bool)
    ensures ReadLog(log, parses).Success? <==>
            ReadyAt(log) < |log| && forall i :: ReadyAt(log) < i < |log| ==> Acceptable(log[i], parses)
    ensures ReadLog(log, parses).Success? ==>
              var st := ReadLog(log, parses).value;
              && st.entries == |log| && st.ignored == ZgNames(log[..ReadyAt(log)])
              && Describes(log[ReadyAt(log) + 1..], st, parses)
  {
    hide Acceptable, Describes, ReadyAt, ReadRecords, ZgNames;
    var ready := ReadyAt(log);
    if ready < |log| {
      ReadRecordsDescribes(|log|, ZgNames(log[..ready]), log[ready + 1..], parses);
      AcceptableAfter(log, ready, parses);
    }
  }

  /** The entries after one, counted in the log or from there. */
  lemma AcceptableAfter(log: seq<Entry>, ready: nat, parses: string -> bool)
    requires ready < |log|
    ensures var rt := log[ready + 1..];
            (forall i :: ready < i < |log| ==> Acceptable(log[i], parses)) <==> forall i :: 0 <= i < |rt| ==> Acceptable(rt[i], parses)
  {
    hide Acceptable;
    var rt := log[ready + 1..];
    assert forall i :: ready < i < |log| ==> log[i] == rt[i - ready - 1];
    assert forall i :: 0 <= i < |rt| ==> rt[i] == log[i + ready + 1];
  }

  /** Entry k is the first that is not acceptable. */
  predicate FirstBad(rt: seq<Entry>, k: nat, parses: string -> bool) {
    k < |rt| && !Acceptable(rt[k], parses) && forall i :: 0 <= i < k ==> Acceptable(rt[i], parses)
  }

  lemma FirstBadFront(rt: seq<Entry>, k: nat, parses: string -> bool)
    requires rt != []
    ensures k < |rt| - 1 ==> (FirstBad(rt, k, parses) <==> FirstBad(rt[..|rt| - 1], k, parses))
  {
    hide Acceptable;
    assert forall i :: 0 <= i < |rt| - 1 ==> rt[..|rt| - 1][i] == rt[i];
  }

  lemma StepRefuses(st: RuntimeState, n: nat, e: Entry, parses: string -> bool)
    ensures Step(st, n, e, parses).Failure? ==>
              Step(st, n, e, parses).error == if e.eventType != RUNTIME_EVENT_TYPE then WrongEventType(n) else BadRecord(n)
  {
    hide Apply;
  }

  /** The error names the first entry that is not acceptable, by its place from 1, and whether its type or its record is at fault. */
  ghost predicate Blames(rt: seq<Entry>, why: ReadError, parses: string -> bool) {
    exists k: nat :: FirstBad(rt, k, parses)
                     && why == if rt[k].eventType != RUNTIME_EVENT_TYPE then WrongEventType(k + 1) else BadRecord(k + 1)
  }

  /** What is to blame among the entries before stays so, and a last one that is refused is to blame. */
  lemma BlamesMore(rt: seq<Entry>, why: ReadError, parses: string -> bool)
    requires rt != []
    ensures Blames(rt[..|rt| - 1], why, parses) ==> Blames(rt, why, parses)
  {
    hide Acceptable;
    var front := rt[..|rt| - 1];
    if Blames(front, why, parses) {
      var k: nat :| FirstBad(front, k, parses)
               && why == if front[k].eventType != RUNTIME_EVENT_TYPE then WrongEventType(k + 1) else BadRecord(k + 1);
      FirstBadFront(rt, k, parses);
      assert rt[k] == front[k];
    }
  }

  lemma LastIsBad(rt: seq<Entry>, parses: string -> bool)
    requires rt != [] && !Acceptable(rt[|rt| - 1], parses) && forall i :: 0 <= i < |rt| - 1 ==> Acceptable(rt[i], parses)
    ensures var e, n := rt[|rt| - 1], |rt|; Blames(rt, if e.eventType != RUNTIME_EVENT_TYPE then WrongEventType(n) else BadRecord(n), parses)
  {
    hide Acceptable;
    assert FirstBad(rt, |rt| - 1, parses);
  }

  lemma {:induction false} ReadRefuses(entries: nat, ignored: seq<string>, rt: seq<Entry>, parses: string -> bool)
    ensures var r := ReadRecords(Blank(entries, ignored), rt, parses);
            r.Failure? ==> Blames(rt, r.error, parses)
    decreases |rt|
  {
    hide Acceptable, Step, Blames, Blank, Describes;
    if rt != [] {
      var front, n := rt[..|rt| - 1], |rt| - 1;
      ReadRefuses(entries, ignored, front, parses);
      var before := ReadRecords(Blank(entries, ignored), front, parses);
      if before.Failure? {
        BlamesMore(rt, before.error, parses);
      } else if ReadRecords(Blank(entries, ignored), rt, parses).Failure? {
        ReadRecordsDescribes(entries, ignored, front, parses);
        ReadRecordsDescribes(entries, ignored, rt, parses);
        assert forall i :: 0 <= i < n ==> front[i] == rt[i];
        StepRefuses(before.value, |rt|, rt[n], parses);
        LastIsBad(rt, parses);
      }
    }
  }

  /** Which entry a refused log is refused for: the first after system-ready that is not acceptable, and why. */
  lemma ReadLogRefuses(log: seq<Entry>, parses: string -> bool)
    ensures ReadLog(log, parses).Failure? ==>
              if ReadyAt(log) == |log| then ReadLog(log, parses).error == NoSystemReady
              else Blames(log[ReadyAt(log) + 1..], ReadLog(log, parses).error, parses)
  {
    hide Blames, ReadRecords, ReadyAt, ZgNames, Blank;
    if ReadyAt(log) < |log| {
      ReadRefuses(|log|, ZgNames(log[..ReadyAt(log)]), log[ReadyAt(log) + 1..], parses);
    }
  }

  lemma ImageUnique(rt: seq<Entry>, a: Option<ImageRecord>, b: Option<ImageRecord>)
    requires ImageIs(rt, a) && ImageIs(rt, b)
    ensures a == b
  {
    hide ParseImage;
    LastOf(rt, IMAGE_UPDATE);
  }

  lemma ConfigUnique(rt: seq<Entry>, a: string, b: string)
    requires ConfigIs(rt, a) && ConfigIs(rt, b)
    ensures a == b
  {
    LastOf(rt, CONFIG_UPDATE);
  }

  lemma UpstreamsUnique(rt: seq<Entry>, a: Option<UpstreamSet>, b: Option<UpstreamSet>, parses: string -> bool)
    requires UpstreamsAre(rt, a, parses) && UpstreamsAre(rt, b, parses)
    ensures a == b
  {
    hide Parse;
    LastOf(rt, UPSTREAM_SET);
  }

  lemma InstancesUnique(rt: seq<Entry>, a: map<string, string>, b: map<string, string>)
    requires InstancesAre(rt, a) && InstancesAre(rt, b)
    ensures a == b
  {
    hide ParseInstance;
    assert a.Keys == b.Keys by {
      assert forall inst :: inst in a <==> inst in b;
    }
    forall inst | inst in a ensures a[inst] == b[inst] {
      var i :| 0 <= i < |rt| && IsInstanceRecord(rt[i], inst);
      var k := LastForFrom(rt, inst, i);
    }
  }

  /** The reading leaves nothing open: two states that both describe the entries are the same but for the header. */
  lemma DescribesUnique(rt: seq<Entry>, a: RuntimeState, b: RuntimeState, parses: string -> bool)
    requires Describes(rt, a, parses) && Describes(rt, b, parses)
    ensures a.(entries := b.entries, ignored := b.ignored) == b
  {
    hide ImageIs, ConfigIs, UpstreamsAre, InstancesAre, Count, UnknownNames;
    ImageUnique(rt, a.image, b.image);
    ConfigUnique(rt, a.lastConfig, b.lastConfig);
    UpstreamsUnique(rt, a.upstreams, b.upstreams, parses);
    InstancesUnique(rt, a.instances, b.instances);
  }

  lemma {:induction false} LastOf(rt: seq<Entry>, name: string)
    ensures (forall i :: 0 <= i < |rt| ==> rt[i].event != name) || exists i :: IsLast(rt, name, i)
  {
    if rt != [] {
      var front := rt[..|rt| - 1];
      if rt[|rt| - 1].event == name {
        assert IsLast(rt, name, |rt| - 1);
      } else {
        LastOf(front, name);
        if i :| IsLast(front, name, i) {
          assert IsLast(rt, name, i);
        } else {
          forall i | 0 <= i < |rt| ensures rt[i].event != name {
            assert i < |front| ==> front[i] == rt[i];
          }
        }
      }
    }
  }

  lemma LastForFrom(rt: seq<Entry>, inst: string, i: nat) returns (k: nat)
    requires i < |rt| && IsInstanceRecord(rt[i], inst)
    ensures IsLastFor(rt, inst, k)
    decreases |rt| - i
  {
    if j :| i < j < |rt| && IsInstanceRecord(rt[j], inst) {
      k := LastForFrom(rt, inst, j);
    } else {
      k := i;
    }
  }

  /** Logs that replay to one register and whose names hold no colon give one answer. */
  lemma SameRegisterSameState(a: seq<EventEntry>, b: seq<EventEntry>, rtmr3: Register, parses: string -> bool)
    requires Replay(a, rtmr3).Success? && Replay(b, rtmr3).Success?
    requires forall i :: 0 <= i < |a| && a[i].imr == 3 ==> ':' !in a[i].event
    requires forall i :: 0 <= i < |b| && b[i].imr == 3 ==> ':' !in b[i].event
    ensures ReadServed(a, rtmr3, parses) == ReadServed(b, rtmr3, parses)
  {
    ServedLogsAgree(a, b, rtmr3);
  }

  // ---------------------------------------------------------------- The judgement

  datatype ReleaseStatus = Accepted | Rejected | Unavailable

  datatype Finding = NotARelease | SignerDiffers | EncPubDiffers | EngineRecords(count: nat)

  datatype Gap = ReleaseUnchecked | UnknownRecords(names: seq<string>) | UpstreamsInvalidated | InstanceUnknown(inst: string)

  datatype RuntimeCheck = RuntimeCheck(release: Option<ReleaseStatus>, keysBound: bool, failures: set<Finding>, unverified: set<Gap>)

  /** ASCII case folding, which is all of strings.EqualFold on a lowercase hex address. */
  function Fold(s: string): (f: string)
    ensures |f| == |s|
  {
    seq(|s|, i requires 0 <= i < |s| => if 'A' <= s[i] <= 'Z' then s[i] - 'A' + 'a' else s[i])
  }

  function Dedupe(names: seq<string>): seq<string> {
    if names == [] then []
    else
      var rest := Dedupe(names[..|names| - 1]);
      if names[|names| - 1] in rest then rest else rest + [names[|names| - 1]]
  }

  /** CheckRuntime. The order of the report lines is not kept. */
  function CheckRuntime(st: RuntimeState, rels: (string, string) -> ReleaseStatus, signer: string, encPub: string): RuntimeCheck {
    var release := if st.image.None? then None else Some(rels(st.image.value.repository, st.image.value.digest));
    var signerOk := st.image.Some? && Fold(st.image.value.signer) == Fold(signer);
    var encPubOk := st.image.Some? && st.image.value.encPub == encPub;
    RuntimeCheck(
      release,
      signerOk && encPubOk,
      (if release == Some(Rejected) then {NotARelease} else {})
      + (if st.image.Some? && !signerOk then {SignerDiffers} else {})
      + (if st.image.Some? && !encPubOk then {EncPubDiffers} else {})
      + (if st.engines > 0 then {EngineRecords(st.engines)} else {}),
      (if release == Some(Unavailable) then {ReleaseUnchecked} else {})
      + (if st.unknown != [] then {UnknownRecords(Dedupe(st.unknown))} else {})
      + (if st.upstreams.Some? && st.upstreams.value.invalidated then {UpstreamsInvalidated} else {})
      + (set inst | inst in st.instances && st.instances[inst] == "unknown" :: InstanceUnknown(inst)))
  }

  /** The keys of report_data are the running image's. */
  predicate KeysMatch(image: ImageRecord, signer: string, encPub: string) {
    Fold(image.signer) == Fold(signer) && image.encPub == encPub
  }

  /** An accepted log that has grown by more accepted records. */
  ghost predicate Grows(log: seq<Entry>, more: seq<Entry>, parses: string -> bool) {
    ReadLog(log, parses).Success? && ReadLog(log + more, parses).Success?
  }

  lemma {:induction false} ReadyAtStays(log: seq<Entry>, more: seq<Entry>)
    requires ReadyAt(log) < |log|
    ensures ReadyAt(log + more) == ReadyAt(log)
  {
    var all := log + more;
    var r, s := ReadyAt(log), ReadyAt(all);
    assert forall j :: 0 <= j < |log| ==> all[j] == log[j];
    assert s <= r;
  }

  lemma {:induction false} UnknownAppend(a: seq<Entry>, b: seq<Entry>)
    ensures UnknownNames(a + b) == UnknownNames(a) + UnknownNames(b)
    decreases |a|
  {
    hide IsUnknownZg;
    if a == [] {
      assert a + b == b;
    } else {
      UnknownAppend(a[1..], b);
      assert (a + b)[1..] == a[1..] + b;
    }
  }

  lemma CountAppend(a: seq<Entry>, b: seq<Entry>, name: string)
    ensures Count(a + b, name) == Count(a, name) + Count(b, name)
  {
    assert Names(a + b) == Names(a) + Names(b);
  }

  lemma {:induction false} DedupeEmpty(names: seq<string>)
    ensures forall n :: n in names <==> n in Dedupe(names)
  {
    if names != [] {
      DedupeEmpty(names[..|names| - 1]);
      assert names == names[..|names| - 1] + [names[|names| - 1]];
    }
  }

  /**
   What an appended record can and cannot undo. Growing an accepted log never lowers the engine
   count nor drops an unknown name, whatever is appended; so a log that was refused for an engine
   record stays refused, and one with a gap for an unknown record keeps that gap with at least the
   same names.
   */
  lemma AppendingKeepsFindings(log: seq<Entry>, more: seq<Entry>, parses: string -> bool,
                               rels: (string, string) -> ReleaseStatus, signer: string, encPub: string)
    requires Grows(log, more, parses)
    ensures var st, st' := ReadLog(log, parses).value, ReadLog(log + more, parses).value;
            var c, c' := CheckRuntime(st, rels, signer, encPub), CheckRuntime(st', rels, signer, encPub);
            && st'.ignored == st.ignored
            && st.engines <= st'.engines && st.unknown <= st'.unknown
            && (forall n :: EngineRecords(n) in c.failures ==> exists n' :: n <= n' && EngineRecords(n') in c'.failures)
            && (forall ns :: UnknownRecords(ns) in c.unverified ==>
                  exists ns' :: UnknownRecords(ns') in c'.unverified && forall x :: x in ns ==> x in ns')
  {
    hide Describes, Acceptable, ReadRecords, Count, UnknownNames, ZgNames, Dedupe, Fold, IsLowerHex;
    ReadLogDescribes(log, parses);
    ReadLogDescribes(log + more, parses);
    ReadyAtStays(log, more);
    var ready := ReadyAt(log);
    var rt := log[ready + 1..];
    assert (log + more)[ready + 1..] == rt + more;
    assert (log + more)[..ready] == log[..ready];
    var st, st' := ReadLog(log, parses).value, ReadLog(log + more, parses).value;
    DescribedCounts(rt, st, parses);
    DescribedCounts(rt + more, st', parses);
    CountAppend(rt, more, ENGINE_SET);
    UnknownAppend(rt, more);
    DedupeEmpty(st.unknown);
    DedupeEmpty(st'.unknown);
    var c' := CheckRuntime(st', rels, signer, encPub);
    if st.engines > 0 {
      assert EngineRecords(st'.engines) in c'.failures;
    }
    if st.unknown != [] {
      assert UnknownRecords(Dedupe(st'.unknown)) in c'.unverified;
    }
  }

  lemma DescribedCounts(rt: seq<Entry>, st: RuntimeState, parses: string -> bool)
    requires Describes(rt, st, parses)
    ensures st.engines == Count(rt, ENGINE_SET) && st.unknown == UnknownNames(rt)
  {
  }

  lemma CountZero(rt: seq<Entry>, name: string)
    ensures Count(rt, name) == 0 <==> forall i :: 0 <= i < |rt| ==> rt[i].event != name
  {
    assert Count(rt, name) > 0 <==> name in Names(rt);
    if name in Names(rt) {
      var i :| 0 <= i < |rt| && Names(rt)[i] == name;
    }
    forall i | 0 <= i < |rt| && rt[i].event == name ensures name in Names(rt) {
      assert Names(rt)[i] == name;
    }
  }

  lemma {:induction false} UnknownEmpty(rt: seq<Entry>)
    ensures UnknownNames(rt) == [] <==> forall i :: 0 <= i < |rt| ==> !IsUnknownZg(rt[i].event)
  {
    if rt != [] {
      UnknownEmpty(rt[1..]);
      assert forall i :: 0 < i < |rt| ==> rt[i] == rt[1..][i - 1];
      assert forall i :: 0 <= i < |rt| - 1 ==> rt[1..][i] == rt[i + 1];
    }
  }

  /** The last upstream set, if any, is the one the controller could not state. */
  ghost predicate LastUpstreamsInvalidated(rt: seq<Entry>, parses: string -> bool) {
    exists i :: IsLast(rt, UPSTREAM_SET, i) && Parse(rt[i].payload, parses) == Success(UpstreamSet(true, []))
  }

  lemma UpstreamsClean(rt: seq<Entry>, upstreams: Option<UpstreamSet>, parses: string -> bool)
    requires UpstreamsAre(rt, upstreams, parses)
    ensures upstreams.Some? && upstreams.value.invalidated <==> LastUpstreamsInvalidated(rt, parses)
  {
    hide ParseLines;
    LastOf(rt, UPSTREAM_SET);
    if upstreams.Some? && upstreams.value.invalidated {
      var i :| IsLast(rt, UPSTREAM_SET, i);
      ParseAccepts(rt[i].payload, parses);
      assert Parse(rt[i].payload, parses).value == UpstreamSet(true, []);
    }
  }

  /** Some instance's last change aborted. */
  ghost predicate SomeInstanceAborted(rt: seq<Entry>) {
    exists inst, i :: IsLastFor(rt, inst, i) && ParseInstance(rt[i].payload) == Some((inst, "unknown"))
  }

  lemma InstancesClean(rt: seq<Entry>, instances: map<string, string>)
    requires InstancesAre(rt, instances)
    ensures (exists inst :: inst in instances && instances[inst] == "unknown") <==> SomeInstanceAborted(rt)
  {
    hide ParseInstance;
    if inst :| inst in instances && instances[inst] == "unknown" {
      var i :| 0 <= i < |rt| && IsInstanceRecord(rt[i], inst);
      var k := LastForFrom(rt, inst, i);
      assert IsLastFor(rt, inst, k) && ParseInstance(rt[k].payload) == Some((inst, "unknown"));
    }
  }

  /** The last image record, if any, names an accepted release under the quote's own keys. */
  ghost predicate LastImageIsGood(rt: seq<Entry>, rels: (string, string) -> ReleaseStatus, signer: string, encPub: string) {
    forall i :: IsLast(rt, IMAGE_UPDATE, i) ==>
      match ParseImage(rt[i].payload)
      case None => false
      case Some(rec) => rels(rec.repository, rec.digest) == Accepted && KeysMatch(rec, signer, encPub)
  }

  lemma ImageClean(rt: seq<Entry>, image: Option<ImageRecord>, rels: (string, string) -> ReleaseStatus, signer: string, encPub: string)
    requires ImageIs(rt, image)
    ensures (image.Some? ==> rels(image.value.repository, image.value.digest) == Accepted && KeysMatch(image.value, signer, encPub))
            <==> LastImageIsGood(rt, rels, signer, encPub)
  {
    hide ParseImage;
    LastOf(rt, IMAGE_UPDATE);
    if i :| IsLast(rt, IMAGE_UPDATE, i) {
      assert image == Some(ParseImage(rt[i].payload).value.(index := i + 1));
      assert forall j :: IsLast(rt, IMAGE_UPDATE, j) ==> j == i;
    }
  }

  /** What each finding and each gap says of the state. */
  lemma CheckOfState(st: RuntimeState, rels: (string, string) -> ReleaseStatus, signer: string, encPub: string)
    ensures var c, im := CheckRuntime(st, rels, signer, encPub), st.image;
            && c.release == (if im.None? then None else Some(rels(im.value.repository, im.value.digest)))
            && (c.keysBound <==> im.Some? && KeysMatch(im.value, signer, encPub))
            && (NotARelease in c.failures <==> c.release == Some(Rejected))
            && (ReleaseUnchecked in c.unverified <==> c.release == Some(Unavailable))
            && (SignerDiffers in c.failures <==> im.Some? && Fold(im.value.signer) != Fold(signer))
            && (EncPubDiffers in c.failures <==> im.Some? && im.value.encPub != encPub)
            && (forall n :: EngineRecords(n) in c.failures <==> n == st.engines > 0)
            && (forall names :: UnknownRecords(names) in c.unverified <==> st.unknown != [] && names == Dedupe(st.unknown))
            && (UpstreamsInvalidated in c.unverified <==> st.upstreams.Some? && st.upstreams.value.invalidated)
            && (forall inst :: InstanceUnknown(inst) in c.unverified <==> inst in st.instances && st.instances[inst] == "unknown")
  {
    hide Fold, Dedupe;
  }

  /** The last image record is rec: this is what runs. */
  ghost predicate Runs(rt: seq<Entry>, rec: ImageRecord) {
    exists i :: IsLast(rt, IMAGE_UPDATE, i) && ParseImage(rt[i].payload) == Some(rec)
  }

  /** What runs, with the judgement of its release. */
  ghost predicate RunsAs(rt: seq<Entry>, rels: (string, string) -> ReleaseStatus, status: ReleaseStatus) {
    exists rec :: Runs(rt, rec) && rels(rec.repository, rec.digest) == status
  }

  ghost predicate RunsUnderSigner(rt: seq<Entry>, signer: string) { exists rec :: Runs(rt, rec) && SameLetters(rec.signer, signer) }

  ghost predicate RunsUnderKey(rt: seq<Entry>, encPub: string) { exists rec :: Runs(rt, rec) && rec.encPub == encPub }

  /** Equal but for the case of ASCII letters. */
  predicate SameLetters(a: string, b: string) {
    && |a| == |b|
    && forall i :: 0 <= i < |a| ==>
        || a[i] == b[i]
        || ('A' <= a[i] <= 'Z' && b[i] == a[i] + ' ')
        || ('A' <= b[i] <= 'Z' && a[i] == b[i] + ' ')
  }

  lemma FoldMeans(a: string, b: string)
    ensures Fold(a) == Fold(b) <==> SameLetters(a, b)
  {
    if SameLetters(a, b) {
      assert forall i :: 0 <= i < |a| ==> Fold(a)[i] == Fold(b)[i];
    } else if |a| == |b| {
      var i :| 0 <= i < |a| && !(|| a[i] == b[i]
                                 || ('A' <= a[i] <= 'Z' && b[i] == a[i] + ' ')
                                 || ('A' <= b[i] <= 'Z' && a[i] == b[i] + ' '));
      assert Fold(a)[i] != Fold(b)[i];
    }
  }

  lemma ImageRuns(rt: seq<Entry>, image: Option<ImageRecord>)
    requires ImageIs(rt, image)
    ensures image.None? ==> forall rec :: !Runs(rt, rec)
    ensures image.Some? ==> exists rec :: Runs(rt, rec) && image.value == rec.(index := image.value.index)
    ensures forall a, b :: Runs(rt, a) && Runs(rt, b) ==> a == b
  {
    hide ParseImage;
    LastOf(rt, IMAGE_UPDATE);
    if i :| IsLast(rt, IMAGE_UPDATE, i) {
      assert Runs(rt, ParseImage(rt[i].payload).value);
      assert forall j :: IsLast(rt, IMAGE_UPDATE, j) ==> j == i;
    }
  }

  /** The instance's last change aborted. */
  ghost predicate Aborted(rt: seq<Entry>, inst: string) {
    exists i :: IsLastFor(rt, inst, i) && ParseInstance(rt[i].payload) == Some((inst, "unknown"))
  }

  lemma InstanceAborted(rt: seq<Entry>, instances: map<string, string>, inst: string)
    requires InstancesAre(rt, instances)
    ensures inst in instances && instances[inst] == "unknown" <==> Aborted(rt, inst)
  {
    hide ParseInstance;
    if inst in instances {
      var i :| 0 <= i < |rt| && IsInstanceRecord(rt[i], inst);
      var k := LastForFrom(rt, inst, i);
      assert ParseInstance(rt[k].payload).value.0 == inst;
    }
  }

  /** Occurrence i is the first of its name. */
  predicate IsFirst(names: seq<string>, i: nat) {
    i < |names| && forall j :: 0 <= j < i ==> names[j] != names[i]
  }

  /** at picks the first occurrence of every name, in order. */
  ghost predicate PicksFirsts(names: seq<string>, at: seq<nat>) {
    && (forall k :: 0 <= k < |at| ==> IsFirst(names, at[k]))
    && (forall k, l :: 0 <= k < l < |at| ==> at[k] < at[l])
    && (forall i: nat :: IsFirst(names, i) ==> i in at)
  }

  lemma FirstStays(front: seq<string>, name: string, i: nat)
    ensures i < |front| ==> (IsFirst(front + [name], i) <==> IsFirst(front, i))
    ensures IsFirst(front + [name], |front|) <==> name !in front
    ensures i > |front| ==> !IsFirst(front + [name], i)
  {
    var names := front + [name];
    if name in front {
      var j :| 0 <= j < |front| && front[j] == name;
      assert names[j] == name && names[|front|] == name;
    }
    assert forall j :: 0 <= j < |front| ==> names[j] == front[j];
  }

  lemma PicksMore(front: seq<string>, name: string, at: seq<nat>)
    requires PicksFirsts(front, at)
    ensures PicksFirsts(front + [name], if name in front then at else at + [|front|])
  {
    hide IsFirst;
    var names, at' := front + [name], if name in front then at else at + [|front|];
    forall k | 0 <= k < |at'| ensures IsFirst(names, at'[k]) {
      FirstStays(front, name, at'[k]);
      InRange(front, at, k);
    }
    forall k, l | 0 <= k < l < |at'| ensures at'[k] < at'[l] {
      InRange(front, at, k);
    }
    forall i: nat | IsFirst(names, i) ensures i in at' {
      FirstStays(front, name, i);
      if i < |front| {
        assert i in at;
      } else {
        assert at'[|at|] == i;
      }
    }
  }

  lemma InRange(names: seq<string>, at: seq<nat>, k: nat)
    requires PicksFirsts(names, at)
    ensures k < |at| ==> at[k] < |names|
  {
  }

  /** dedupe keeps the first occurrence of every name, in order. */
  lemma {:induction false} DedupeMeans(names: seq<string>) returns (at: seq<nat>)
    ensures PicksFirsts(names, at)
    ensures |at| == |Dedupe(names)| && forall k :: 0 <= k < |at| ==> at[k] < |names| && Dedupe(names)[k] == names[at[k]]
  {
    hide PicksFirsts;
    if names == [] {
      at := [];
      NoneToPick();
    } else {
      var front, name := names[..|names| - 1], names[|names| - 1];
      assert names == front + [name];
      var before := DedupeMeans(front);
      DedupeEmpty(front);
      PicksMore(front, name, before);
      at := if name in front then before else before + [|front|];
    }
  }

  lemma NoneToPick()
    ensures PicksFirsts([], [])
  {
  }

  /**
   The whole report, on the log's own last records: what is known of the running build and its keys, and
   every finding and every gap exactly when there is cause for it.
   */
  lemma ReportMeans(log: seq<Entry>, parses: string -> bool, rels: (string, string) -> ReleaseStatus, signer: string, encPub: string)
    requires ReadLog(log, parses).Success?
    ensures var c := CheckRuntime(ReadLog(log, parses).value, rels, signer, encPub);
            var rt := log[ReadyAt(log) + 1..];
            && (c.release == None <==> forall rec :: !Runs(rt, rec))
            && (forall status :: c.release == Some(status) <==> RunsAs(rt, rels, status))
            && (c.keysBound <==> RunsUnderSigner(rt, signer) && RunsUnderKey(rt, encPub))
            && (NotARelease in c.failures <==> RunsAs(rt, rels, Rejected))
            && (SignerDiffers in c.failures <==> c.release != None && !RunsUnderSigner(rt, signer))
            && (EncPubDiffers in c.failures <==> c.release != None && !RunsUnderKey(rt, encPub))
            && (forall n :: EngineRecords(n) in c.failures <==> n == Count(rt, ENGINE_SET) > 0)
            && (ReleaseUnchecked in c.unverified <==> RunsAs(rt, rels, Unavailable))
            && (forall names :: UnknownRecords(names) in c.unverified <==> UnknownNames(rt) != [] && names == Dedupe(UnknownNames(rt)))
            && (UpstreamsInvalidated in c.unverified <==> LastUpstreamsInvalidated(rt, parses))
            && (forall inst :: InstanceUnknown(inst) in c.unverified <==> Aborted(rt, inst))
  {
    hide ParseImage, ParseInstance, Parse, Count, UnknownNames, ImageIs, UpstreamsAre, InstancesAre, ConfigIs, CheckRuntime, ReadRecords,
         Runs, Aborted, LastUpstreamsInvalidated, Acceptable, Fold, SameLetters, Dedupe;
    ReadLogDescribes(log, parses);
    var rt := log[ReadyAt(log) + 1..];
    var st := ReadLog(log, parses).value;
    CheckOfState(st, rels, signer, encPub);
    ImageRuns(rt, st.image);
    UpstreamsClean(rt, st.upstreams, parses);
    forall inst ensures inst in st.instances && st.instances[inst] == "unknown" <==> Aborted(rt, inst) {
      InstanceAborted(rt, st.instances, inst);
    }
    if st.image.Some? {
      var rec :| Runs(rt, rec) && st.image.value == rec.(index := st.image.value.index);
      FoldMeans(rec.signer, signer);
    }
  }

  /** What leaves CheckRuntime's report empty, as a condition on the state. */
  lemma EmptyReport(st: RuntimeState, rels: (string, string) -> ReleaseStatus, signer: string, encPub: string)
    ensures var c := CheckRuntime(st, rels, signer, encPub);
            c.failures == {} && c.unverified == {} <==>
            && st.engines == 0 && st.unknown == []
            && (st.image.Some? ==> rels(st.image.value.repository, st.image.value.digest) == Accepted
                                   && KeysMatch(st.image.value, signer, encPub))
            && !(st.upstreams.Some? && st.upstreams.value.invalidated)
            && !(exists inst :: inst in st.instances && st.instances[inst] == "unknown")
  {
    hide Fold, Dedupe;
    var c := CheckRuntime(st, rels, signer, encPub);
    assert NotARelease in c.failures <==> st.image.Some? && rels(st.image.value.repository, st.image.value.digest) == Rejected;
    assert ReleaseUnchecked in c.unverified <==> st.image.Some? && rels(st.image.value.repository, st.image.value.digest) == Unavailable;
    assert EngineRecords(st.engines) in c.failures <==> st.engines > 0;
    assert UpstreamsInvalidated in c.unverified <==> st.upstreams.Some? && st.upstreams.value.invalidated;
    assert UnknownRecords(Dedupe(st.unknown)) in c.unverified <==> st.unknown != [];
    assert SignerDiffers in c.failures || EncPubDiffers in c.failures <==> st.image.Some? && !KeysMatch(st.image.value, signer, encPub);
    assert forall inst :: InstanceUnknown(inst) in c.unverified <==> inst in st.instances && st.instances[inst] == "unknown";
  }

  /**
   A clean judgement means: no engine record and no unknown one anywhere, the last image record (if
   any) names an accepted release under the quote's own keys, the last upstream set is stated, and
   no instance's last change aborted.
   */
  lemma CleanMeans(log: seq<Entry>, parses: string -> bool, rels: (string, string) -> ReleaseStatus, signer: string, encPub: string)
    requires ReadLog(log, parses).Success?
    ensures var c := CheckRuntime(ReadLog(log, parses).value, rels, signer, encPub);
            var rt := log[ReadyAt(log) + 1..];
            c.failures == {} && c.unverified == {} <==>
            && (forall i :: 0 <= i < |rt| ==> rt[i].event != ENGINE_SET)
            && (forall i :: 0 <= i < |rt| ==> !IsUnknownZg(rt[i].event))
            && LastImageIsGood(rt, rels, signer, encPub)
            && !LastUpstreamsInvalidated(rt, parses)
            && !SomeInstanceAborted(rt)
  {
    hide ParseImage, ParseInstance, Parse, Count, UnknownNames, ImageIs, UpstreamsAre, InstancesAre, ConfigIs, CheckRuntime, ReadRecords,
         KeysMatch, LastImageIsGood, LastUpstreamsInvalidated, SomeInstanceAborted, Acceptable;
    ReadLogDescribes(log, parses);
    var rt := log[ReadyAt(log) + 1..];
    var st := ReadLog(log, parses).value;
    EmptyReport(st, rels, signer, encPub);
    CountZero(rt, ENGINE_SET);
    UnknownEmpty(rt);
    ImageClean(rt, st.image, rels, signer, encPub);
    UpstreamsClean(rt, st.upstreams, parses);
    InstancesClean(rt, st.instances);
  }
}
