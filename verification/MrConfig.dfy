/**
 The compose hash a version 3 mr_config_id commits to (client/evidence/mrconfig.go:72-230): the
 launch document is rebuilt from the boot events of the replayed log, one candidate for each
 choice of optional fields, and recognised by its hash. The hash is ideal, as in Rtmr3.
 */
module MrConfig {
  import opened Wrappers
  import opened Text
  import opened Json
  import R = Rtmr3

  const APP_ID := "app-id"
  const COMPOSE_HASH := "compose-hash"
  const INIT_SCRIPT_HASH := "init-script-hash"
  const GPU_POLICY_HASH := "gpu-policy-hash"
  const INSTANCE_ID := "instance-id"
  const KEY_PROVIDER := "key-provider"
  const COMPOSE_HASH_LEN := 32

  datatype BootLog = BootLog(
    appId: string, composeHash: string, gpuPolicyHash: Option<string>, instanceId: string,
    initScripts: seq<string>, keyProvider: string, keyProviderId: string)

  datatype Refusal =
    | NotReplayed(why: R.ReplayError) | NoSystemReady | Twice(event: string)
    | BadKeyProvider | BadComposeHash | NoKeyProvider | NoDocumentMatches | OtherVersionRefused

  /** What the key-provider event's JSON holds, when it is JSON: its name and id. */
  type KeyProviderJson = string -> Option<(string, string)>

  /** The document's name for the provider the event names. */
  function KeyProviderKind(name: string): Option<string> {
    if name == "none" then Some("none")
    else if name == "kms" then Some("kms")
    else if name == "local-sgx" then Some("local")
    else if name == "tpm" then Some("tpm")
    else None
  }

  /** The provider kind and id of a key-provider event. */
  function ReadKeyProvider(payload: string, json: KeyProviderJson): Option<(string, string)> {
    match json(payload)
    case None => None
    case Some((name, id)) =>
      match KeyProviderKind(name)
      case None => None
      case Some(kind) => if HexDecode(id).None? then None else Some((kind, id))
  }

  /** What an event names its provider, and what the document does. */
  const KINDS := map["none" := "none", "kms" := "kms", "local-sgx" := "local", "tpm" := "tpm"]

  /** The event is read when it is JSON, names a provider that is known, and its id is hex. */
  lemma KeyProviderMeans(payload: string, json: KeyProviderJson, kind: string, id: string)
    ensures ReadKeyProvider(payload, json) == Some((kind, id)) <==>
            && json(payload).Some? && json(payload).value.0 in KINDS && KINDS[json(payload).value.0] == kind
            && json(payload).value.1 == id && HexDecode(id).Some?
  {
    hide HexDecode;
  }

  // ---------------------------------------------------------------- The boot events

  /** The events a boot writes at most once. */
  predicate IsOnce(event: string) {
    event == APP_ID || event == COMPOSE_HASH || event == GPU_POLICY_HASH || event == INSTANCE_ID || event == KEY_PROVIDER
  }

  datatype Progress = Progress(b: BootLog, seen: set<string>)

  const START := Progress(BootLog("", "", None, "", [], "", ""), {})

  function ReadBootEvent(p: Progress, e: R.Entry, json: KeyProviderJson): Result<Progress, Refusal> {
    if IsOnce(e.event) && e.event in p.seen then Failure(Twice(e.event))
    else
      var q := if IsOnce(e.event) then p.(seen := p.seen + {e.event}) else p;
      if e.event == APP_ID then Success(q.(b := q.b.(appId := e.payload)))
      else if e.event == COMPOSE_HASH then Success(q.(b := q.b.(composeHash := e.payload)))
      else if e.event == GPU_POLICY_HASH then Success(q.(b := q.b.(gpuPolicyHash := Some(e.payload))))
      else if e.event == INSTANCE_ID then Success(q.(b := q.b.(instanceId := e.payload)))
      else if e.event == INIT_SCRIPT_HASH then Success(q.(b := q.b.(initScripts := q.b.initScripts + [e.payload])))
      else if e.event == KEY_PROVIDER then
        match ReadKeyProvider(e.payload, json)
        case None => Failure(BadKeyProvider)
        case Some((kind, id)) => Success(q.(b := q.b.(keyProvider := kind, keyProviderId := id)))
      else Success(q)
  }

  /** The boot events up to system-ready, from p on. */
  function ReadBoot(p: Progress, log: seq<R.Entry>, json: KeyProviderJson): Result<BootLog, Refusal>
    decreases |log|
  {
    if log == [] then Failure(NoSystemReady)
    else if log[0].event == R.SYSTEM_READY then
      if |p.b.composeHash| != COMPOSE_HASH_LEN then Failure(BadComposeHash)
      else if p.b.keyProvider == "" then Failure(NoKeyProvider)
      else Success(p.b)
    else
      match ReadBootEvent(p, log[0], json)
      case Failure(why) => Failure(why)
      case Success(q) => ReadBoot(q, log[1..], json)
  }

  /** bootEvents: one pass up to system-ready. */
  method BootEvents(log: seq<R.Entry>, json: KeyProviderJson) returns (r: Result<BootLog, Refusal>)
    ensures r == ReadBoot(START, log, json)
  {
    var p := START;
    for i := 0 to |log|
      invariant ReadBoot(p, log[i..], json) == ReadBoot(START, log, json)
    {
      assert log[i..][0] == log[i] && log[i..][1..] == log[i + 1..];
      if log[i].event == R.SYSTEM_READY {
        if |p.b.composeHash| != COMPOSE_HASH_LEN {
          return Failure(BadComposeHash);
        }
        if p.b.keyProvider == "" {
          return Failure(NoKeyProvider);
        }
        return Success(p.b);
      }
      match ReadBootEvent(p, log[i], json) {
        case Failure(why) => return Failure(why);
        case Success(q) => p := q;
      }
    }
    r := Failure(NoSystemReady);
  }

  /** A text field: the payload of the event of that name, or empty when there is none. */
  predicate FieldIs(done: seq<R.Entry>, event: string, value: string) {
    && (forall i :: 0 <= i < |done| && done[i].event == event ==> value == done[i].payload)
    && ((forall i :: 0 <= i < |done| ==> done[i].event != event) ==> value == "")
  }

  predicate PolicyIs(done: seq<R.Entry>, value: Option<string>) {
    && (forall i :: 0 <= i < |done| && done[i].event == GPU_POLICY_HASH ==> value == Some(done[i].payload))
    && ((forall i :: 0 <= i < |done| ==> done[i].event != GPU_POLICY_HASH) ==> value == None)
  }

  predicate KeyProviderIs(done: seq<R.Entry>, kind: string, id: string, json: KeyProviderJson) {
    && (forall i :: 0 <= i < |done| && done[i].event == KEY_PROVIDER ==> ReadKeyProvider(done[i].payload, json) == Some((kind, id)))
    && ((forall i :: 0 <= i < |done| ==> done[i].event != KEY_PROVIDER) ==> kind == "" && id == "")
  }

  /** The payloads of the init-script events, in order. */
  function ScriptsOf(done: seq<R.Entry>): seq<string> {
    if done == [] then []
    else ScriptsOf(done[..|done| - 1]) + if done[|done| - 1].event == INIT_SCRIPT_HASH then [done[|done| - 1].payload] else []
  }

  predicate NoneTwice(done: seq<R.Entry>) {
    forall i, j :: 0 <= i < j < |done| && IsOnce(done[i].event) ==> done[i].event != done[j].event
  }

  /** The declarative reading of the entries before system-ready. */
  ghost predicate BootIs(done: seq<R.Entry>, b: BootLog, json: KeyProviderJson) {
    && NoneTwice(done)
    && FieldIs(done, APP_ID, b.appId) && FieldIs(done, COMPOSE_HASH, b.composeHash) && FieldIs(done, INSTANCE_ID, b.instanceId)
    && PolicyIs(done, b.gpuPolicyHash)
    && b.initScripts == ScriptsOf(done)
    && KeyProviderIs(done, b.keyProvider, b.keyProviderId, json)
  }

  predicate SeenIs(done: seq<R.Entry>, seen: set<string>) {
    && (forall i :: 0 <= i < |done| && IsOnce(done[i].event) ==> done[i].event in seen)
    && (forall e :: e in seen ==> exists i :: 0 <= i < |done| && done[i].event == e && IsOnce(e))
  }

  /** One more entry: read exactly when it repeats nothing and, if it is the key provider's, parses. */
  lemma BootStep(done: seq<R.Entry>, p: Progress, e: R.Entry, json: KeyProviderJson)
    requires BootIs(done, p.b, json) && SeenIs(done, p.seen)
    ensures ReadBootEvent(p, e, json).Success? <==>
            NoneTwice(done + [e]) && (e.event == KEY_PROVIDER ==> ReadKeyProvider(e.payload, json).Some?)
    ensures ReadBootEvent(p, e, json).Success? ==>
              var q := ReadBootEvent(p, e, json).value; BootIs(done + [e], q.b, json) && SeenIs(done + [e], q.seen)
  {
    hide ReadKeyProvider, IsOnce, FieldIs, PolicyIs, KeyProviderIs, ScriptsOf, NoneTwice, SeenIs;
    BootStepSeen(done, p, e);
    if ReadBootEvent(p, e, json).Success? {
      BootStepFields(done, p, e, json);
    }
  }

  lemma BootStepSeen(done: seq<R.Entry>, p: Progress, e: R.Entry)
    requires NoneTwice(done) && SeenIs(done, p.seen)
    ensures IsOnce(e.event) && e.event in p.seen <==> !NoneTwice(done + [e])
    ensures NoneTwice(done + [e]) ==> SeenIs(done + [e], if IsOnce(e.event) then p.seen + {e.event} else p.seen)
  {
    hide IsOnce;
    var all := done + [e];
    assert all[|done|] == e && forall i :: 0 <= i < |done| ==> all[i] == done[i];
    if IsOnce(e.event) && e.event in p.seen {
      var i :| 0 <= i < |done| && done[i].event == e.event;
      assert all[i].event == all[|done|].event;
    }
    if NoneTwice(all) {
      var seen := if IsOnce(e.event) then p.seen + {e.event} else p.seen;
      forall x | x in seen ensures exists i :: 0 <= i < |all| && all[i].event == x && IsOnce(x) {
        if x in p.seen {
          var i :| 0 <= i < |done| && done[i].event == x;
          assert all[i].event == x;
        } else {
          assert all[|done|].event == x;
        }
      }
    }
  }

  lemma FieldSnoc(done: seq<R.Entry>, e: R.Entry, event: string, value: string)
    requires FieldIs(done, event, value)
    requires e.event == event ==> forall i :: 0 <= i < |done| ==> done[i].event != event
    ensures FieldIs(done + [e], event, if e.event == event then e.payload else value)
  {
    var all := done + [e];
    assert all[|done|] == e && forall i :: 0 <= i < |done| ==> all[i] == done[i];
  }

  lemma PolicySnoc(done: seq<R.Entry>, e: R.Entry, value: Option<string>)
    requires PolicyIs(done, value)
    requires e.event == GPU_POLICY_HASH ==> forall i :: 0 <= i < |done| ==> done[i].event != GPU_POLICY_HASH
    ensures PolicyIs(done + [e], if e.event == GPU_POLICY_HASH then Some(e.payload) else value)
  {
    var all := done + [e];
    assert all[|done|] == e && forall i :: 0 <= i < |done| ==> all[i] == done[i];
  }

  lemma KeyProviderSnoc(done: seq<R.Entry>, e: R.Entry, kind: string, id: string, json: KeyProviderJson)
    requires KeyProviderIs(done, kind, id, json)
    requires e.event == KEY_PROVIDER ==> ReadKeyProvider(e.payload, json).Some?
    requires e.event == KEY_PROVIDER ==> forall i :: 0 <= i < |done| ==> done[i].event != KEY_PROVIDER
    ensures e.event != KEY_PROVIDER ==> KeyProviderIs(done + [e], kind, id, json)
    ensures e.event == KEY_PROVIDER ==>
              KeyProviderIs(done + [e], ReadKeyProvider(e.payload, json).value.0, ReadKeyProvider(e.payload, json).value.1, json)
  {
    hide ReadKeyProvider;
    var all := done + [e];
    assert all[|done|] == e && forall i :: 0 <= i < |done| ==> all[i] == done[i];
  }

  lemma BootStepFields(done: seq<R.Entry>, p: Progress, e: R.Entry, json: KeyProviderJson)
    requires BootIs(done, p.b, json) && SeenIs(done, p.seen) && NoneTwice(done + [e])
    requires ReadBootEvent(p, e, json).Success?
    ensures BootIs(done + [e], ReadBootEvent(p, e, json).value.b, json)
  {
    var all := done + [e];
    assert all[|done|] == e && all[..|done|] == done;
    forall i | 0 <= i < |done| && IsOnce(e.event) ensures done[i].event != e.event {
      assert all[i] == done[i] && all[i].event != all[|done|].event;
    }
    hide ReadKeyProvider, FieldIs, PolicyIs, KeyProviderIs, NoneTwice, SeenIs;
    FieldSnoc(done, e, APP_ID, p.b.appId);
    FieldSnoc(done, e, COMPOSE_HASH, p.b.composeHash);
    FieldSnoc(done, e, INSTANCE_ID, p.b.instanceId);
    PolicySnoc(done, e, p.b.gpuPolicyHash);
    KeyProviderSnoc(done, e, p.b.keyProvider, p.b.keyProviderId, json);
    assert ScriptsOf(all) == ScriptsOf(done) + if e.event == INIT_SCRIPT_HASH then [e.payload] else [];
  }

  /** Two boots that both describe the entries are one, so BootIs says all there is to say. */
  lemma BootIsUnique(done: seq<R.Entry>, a: BootLog, b: BootLog, json: KeyProviderJson)
    requires BootIs(done, a, json) && BootIs(done, b, json)
    ensures a == b
  {
    hide ReadKeyProvider;
  }

  lemma {:induction false} ReadBootFrom(done: seq<R.Entry>, p: Progress, log: seq<R.Entry>, json: KeyProviderJson, b: BootLog)
    requires BootIs(done, p.b, json) && SeenIs(done, p.seen)
    ensures ReadBoot(p, log, json) == Success(b) <==>
            && R.ReadyAt(log) < |log| && BootIs(done + log[..R.ReadyAt(log)], b, json)
            && |b.composeHash| == COMPOSE_HASH_LEN && b.keyProvider != ""
    decreases |log|
  {
    hide SeenIs, ReadBootEvent, BootIs;
    if log != [] {
      if log[0].event == R.SYSTEM_READY {
        assert done + log[..0] == done;
        if BootIs(done, b, json) {
          BootIsUnique(done, p.b, b, json);
        }
      } else {
        BootStep(done, p, log[0], json);
        var n := R.ReadyAt(log);
        assert (done + [log[0]]) + log[1..][..n - 1] == done + log[..n];
        match ReadBootEvent(p, log[0], json) {
          case Success(q) => ReadBootFrom(done + [log[0]], q, log[1..], json, b);
          case Failure(_) =>
            if n < |log| {
              assert done + log[..n] == (done + [log[0]]) + log[1..n];
              BootIsNoFailure(done, log[0], log[1..n], b, json);
            }
        }
      }
    }
  }

  /** A reading of more entries rules out what would have made the reader stop at e. */
  lemma BootIsNoFailure(done: seq<R.Entry>, e: R.Entry, more: seq<R.Entry>, b: BootLog, json: KeyProviderJson)
    ensures BootIs(done + [e] + more, b, json) ==>
              NoneTwice(done + [e]) && (e.event == KEY_PROVIDER ==> ReadKeyProvider(e.payload, json).Some?)
  {
    hide ReadKeyProvider, IsOnce;
    var all := done + [e] + more;
    assert all[|done|] == e;
    assert forall i :: 0 <= i <= |done| ==> (done + [e])[i] == all[i];
  }

  lemma StartBoot(json: KeyProviderJson)
    ensures BootIs([], START.b, json) && SeenIs([], START.seen)
  {
  }

  /**
   bootEvents, declaratively: it returns b exactly when the log has a system-ready entry, no
   once-only event comes twice before it, the key-provider event is there and parses, the
   compose-hash is 32 bytes, and b holds what those entries say.
   */
  lemma ReadBootMeans(log: seq<R.Entry>, json: KeyProviderJson, b: BootLog)
    ensures ReadBoot(START, log, json) == Success(b) <==>
            && R.ReadyAt(log) < |log| && BootIs(log[..R.ReadyAt(log)], b, json)
            && |b.composeHash| == COMPOSE_HASH_LEN && b.keyProvider != ""
  {
    hide BootIs, SeenIs;
    StartBoot(json);
    assert [] + log[..R.ReadyAt(log)] == log[..R.ReadyAt(log)];
    ReadBootFrom([], START, log, json, b);
  }

  // ---------------------------------------------------------------- The candidate documents

  /** The fields every candidate has. */
  function Mandatory(b: BootLog): Document
    requires BytesBoot(b)
  {
    var base := map["version" := Number(3), "compose_hash" := Str(HexEncode(b.composeHash)), "key_provider" := Str(b.keyProvider)];
    if b.instanceId == "" then base else base["instance_id" := Str(HexEncode(b.instanceId))]
  }

  function Scripts(hashes: seq<string>): (items: seq<string>)
    requires forall i :: 0 <= i < |hashes| ==> IsBytes(hashes[i])
    ensures |items| == |hashes| && forall i :: 0 <= i < |items| ==> items[i] == HexEncode(hashes[i])
  {
    seq(|hashes|, i requires 0 <= i < |hashes| => HexEncode(hashes[i]))
  }

  /** The fields a candidate may have, with the only value the guest would have accepted. */
  function Optional(b: BootLog): (fields: seq<(string, Value)>)
    requires BytesBoot(b)
    ensures 1 <= |fields| <= 4
  {
    (if b.appId == "" then [] else [("app_id", Str(HexEncode(b.appId)))])
    + (match b.gpuPolicyHash case None => [] case Some(h) => [("gpu_policy_hash", Str(HexEncode(h)))])
    + (if b.keyProviderId == "" then [] else [("key_provider_id", Str(b.keyProviderId))])
    + [("init_script_hashes", List(Scripts(b.initScripts)))]
  }

  /** The logged values are byte strings. */
  predicate BytesBoot(b: BootLog) {
    && IsBytes(b.appId) && IsBytes(b.composeHash) && IsBytes(b.instanceId)
    && (b.gpuPolicyHash.Some? ==> IsBytes(b.gpuPolicyHash.value))
    && forall i :: 0 <= i < |b.initScripts| ==> IsBytes(b.initScripts[i])
  }

  function Pow2(n: nat): nat { if n == 0 then 1 else 2 * Pow2(n - 1) }

  /** mask & (1 << i) is not zero. */
  predicate Bit(mask: nat, i: nat) {
    if i == 0 then mask % 2 == 1 else Bit(mask / 2, i - 1)
  }

  /** base with those of the first n fields whose bit is set. */
  function Chosen(base: Document, fields: seq<(string, Value)>, n: nat, mask: nat): Document
    requires n <= |fields|
  {
    if n == 0 then base
    else
      var doc := Chosen(base, fields, n - 1, mask);
      if Bit(mask, n - 1) then doc[fields[n - 1].0 := fields[n - 1].1] else doc
  }

  function Candidate(b: BootLog, mask: nat): Document
    requires BytesBoot(b)
  {
    Chosen(Mandatory(b), Optional(b), |Optional(b)|, mask)
  }

  /** One document: the base with the fields of the mask. */
  method Assemble(base: Document, fields: seq<(string, Value)>, mask: nat) returns (doc: Document)
    ensures doc == Chosen(base, fields, |fields|, mask)
  {
    hide Bit;
    doc := base;
    for i := 0 to |fields|
      invariant doc == Chosen(base, fields, i, mask)
    {
      if Bit(mask, i) {
        doc := doc[fields[i].0 := fields[i].1];
      }
    }
  }

  /** v3Candidates: one document for each mask of optional fields, in JCS. */
  method V3Candidates(b: BootLog) returns (docs: seq<string>)
    requires BytesBoot(b)
    ensures |docs| == Pow2(|Optional(b)|)
    ensures forall mask :: 0 <= mask < |docs| ==> docs[mask] == Jcs(Candidate(b, mask))
  {
    hide Mandatory, Optional, Chosen, Jcs, Pow2, BytesBoot;
    docs := [];
    for mask := 0 to Pow2(|Optional(b)|)
      invariant |docs| == mask
      invariant forall m :: 0 <= m < mask ==> docs[m] == Jcs(Candidate(b, m))
    {
      var doc := Assemble(Mandatory(b), Optional(b), mask);
      docs := docs + [Jcs(doc)];
    }
  }

  // ---------------------------------------------------------------- The search

  const DOMAIN := "dstack-mr-config-v3:"

  /** The ideal SHA-256 of the domain separator, a zero byte and the document. */
  datatype DocumentHash = DocumentHash(preimage: string)

  /** mr_config_id: version 3 is a digest and zero padding, or some other bytes after the 3. */
  datatype MrConfigId = OtherVersion(bytes: string) | V3(digest: DocumentHash) | V3Other(bytes: string)

  function MrConfigIdV3(document: string): MrConfigId {
    V3(DocumentHash(DOMAIN + ['\0'] + document))
  }

  /** ComposeHashOf; `other` is how another version's id is read (attest.ComposeHashFromMRConfigID). */
  method ComposeHashOf(id: MrConfigId, served: seq<R.EventEntry>, rtmr3: R.Register, json: KeyProviderJson,
                       other: string -> Option<string>)
    returns (r: Result<string, Refusal>)
    ensures r == match id
                 case OtherVersion(bytes) => OtherVersionAnswer(other(bytes))
                 case _ => Established(id, served, rtmr3, json)
  {
    if id.OtherVersion? {
      return OtherVersionAnswer(other(id.bytes));
    }
    hide Candidate, Optional, Jcs, ReadBoot, BytesBoot, Pow2, Matches;
    var replayed := R.ReplayRtmr3(served, rtmr3);
    if replayed.Failure? {
      return Failure(NotReplayed(replayed.error));
    }
    var boot := BootEvents(replayed.value, json);
    if boot.Failure? {
      return Failure(boot.error);
    }
    ReplayedBytes(served, |served|);
    BootBytes(START, replayed.value, json);
    var docs := V3Candidates(boot.value);
    var found := AnyReproduces(id, boot.value, docs);
    r := if found then Success(boot.value.composeHash) else Failure(NoDocumentMatches);
  }

  /** ComposeHashOf's search loop. */
  method AnyReproduces(id: MrConfigId, b: BootLog, docs: seq<string>) returns (found: bool)
    requires BytesBoot(b) && |docs| == Pow2(|Optional(b)|)
    requires forall mask :: 0 <= mask < |docs| ==> docs[mask] == Jcs(Candidate(b, mask))
    ensures found <==> exists mask: nat :: mask < Pow2(|Optional(b)|) && Matches(id, b, mask)
  {
    hide Candidate, Optional, Jcs, BytesBoot, Pow2, MrConfigIdV3;
    for i := 0 to |docs|
      invariant forall mask :: 0 <= mask < i ==> !Matches(id, b, mask)
    {
      if MrConfigIdV3(docs[i]) == id {
        assert Matches(id, b, i);
        return true;
      }
    }
    found := false;
  }

  function OtherVersionAnswer(answer: Option<string>): Result<string, Refusal> {
    match answer case None => Failure(OtherVersionRefused) case Some(c) => Success(c)
  }

  predicate Matches(id: MrConfigId, b: BootLog, mask: nat)
    requires BytesBoot(b)
  {
    MrConfigIdV3(Jcs(Candidate(b, mask))) == id
  }

  /** The answer for version 3: the logged compose hash, when a candidate reproduces the id. */
  ghost function Established(id: MrConfigId, served: seq<R.EventEntry>, rtmr3: R.Register, json: KeyProviderJson): Result<string, Refusal> {
    match R.Replay(served, rtmr3)
    case Failure(why) => Failure(NotReplayed(why))
    case Success(log) =>
      ReplayedBytes(served, |served|);
      match ReadBoot(START, log, json)
      case Failure(why) => Failure(why)
      case Success(b) =>
        BootBytes(START, log, json);
        if exists mask: nat :: mask < Pow2(|Optional(b)|) && Matches(id, b, mask) then Success(b.composeHash)
        else Failure(NoDocumentMatches)
  }

  predicate BytesLog(log: seq<R.Entry>) {
    forall i :: 0 <= i < |log| ==> IsBytes(log[i].payload)
  }

  lemma {:induction false} ReplayedBytes(served: seq<R.EventEntry>, n: nat)
    requires n <= |served|
    ensures R.Decoded(served, n).Success? ==> BytesLog(R.Decoded(served, n).value)
  {
    if n > 0 {
      ReplayedBytes(served, n - 1);
    }
  }

  lemma {:induction false} BootBytes(p: Progress, log: seq<R.Entry>, json: KeyProviderJson)
    requires BytesBoot(p.b) && BytesLog(log)
    ensures ReadBoot(p, log, json).Success? ==> BytesBoot(ReadBoot(p, log, json).value)
    decreases |log|
  {
    if log != [] && log[0].event != R.SYSTEM_READY {
      var q := ReadBootEvent(p, log[0], json);
      if q.Success? {
        assert BytesLog(log[1..]);
        BootBytes(q.value, log[1..], json);
      }
    }
  }

  // ---------------------------------------------------------------- The candidates are the allowed documents

  /**
   A document the guest would have accepted for this boot: the mandatory fields, and of the others
   only optional ones with the logged value.
   */
  ghost predicate Allowed(doc: Document, b: BootLog)
    requires BytesBoot(b)
  {
    && (forall k :: k in Mandatory(b) ==> k in doc && doc[k] == Mandatory(b)[k])
    && (forall k :: k in doc && k !in Mandatory(b) ==> (k, doc[k]) in Optional(b))
  }

  /** No two fields share a key, and none has a key of base. */
  predicate Fresh(base: Document, fields: seq<(string, Value)>) {
    && (forall i :: 0 <= i < |fields| ==> fields[i].0 !in base)
    && (forall i, j :: 0 <= i < j < |fields| ==> fields[i].0 != fields[j].0)
  }

  lemma OptionalIsFresh(b: BootLog)
    requires BytesBoot(b)
    ensures Fresh(Mandatory(b), Optional(b))
  {
    hide HexEncode, Scripts;
    assert "key_provider_id"[0] != "gpu_policy_hash"[0];
    assert "instance_id"[0] != "app_id"[0];
    forall i | 0 <= i < |Optional(b)|
      ensures Optional(b)[i].0 in {"app_id", "gpu_policy_hash", "key_provider_id", "init_script_hashes"}
    {
    }
    forall k | k in Mandatory(b) ensures k in {"version", "compose_hash", "key_provider", "instance_id"} {
    }
  }

  lemma {:induction false} ChosenHas(base: Document, fields: seq<(string, Value)>, n: nat, mask: nat, k: string)
    requires n <= |fields| && Fresh(base, fields)
    ensures var doc := Chosen(base, fields, n, mask);
            && (k in base ==> k in doc && doc[k] == base[k])
            && (k in doc && k !in base ==> exists i :: 0 <= i < n && fields[i] == (k, doc[k]))
            && (forall i :: 0 <= i < n && fields[i].0 == k ==> (k in doc <==> Bit(mask, i)) && (k in doc ==> doc[k] == fields[i].1))
  {
    if n > 0 {
      ChosenHas(base, fields, n - 1, mask, k);
    }
  }

  /** The mask of the fields whose key the document has. */
  function MaskOf(doc: Document, fields: seq<(string, Value)>): nat {
    if fields == [] then 0
    else (if fields[0].0 in doc then 1 else 0) + 2 * MaskOf(doc, fields[1..])
  }

  /** The bits of a mask with one more in front. */
  lemma BitOfLonger(first: bool, mask: nat, i: nat)
    ensures Bit((if first then 1 else 0) + 2 * mask, i) <==> if i == 0 then first else Bit(mask, i - 1)
  {
    var longer := (if first then 1 else 0) + 2 * mask;
    assert longer / 2 == mask && (longer % 2 == 1 <==> first);
  }

  lemma {:induction false} MaskOfBits(doc: Document, fields: seq<(string, Value)>)
    ensures MaskOf(doc, fields) < Pow2(|fields|)
    ensures forall i :: 0 <= i < |fields| ==> (Bit(MaskOf(doc, fields), i) <==> fields[i].0 in doc)
  {
    hide Bit;
    if fields != [] {
      var rest := fields[1..];
      MaskOfBits(doc, rest);
      forall i | 0 <= i < |fields| ensures Bit(MaskOf(doc, fields), i) <==> fields[i].0 in doc {
        BitOfLonger(fields[0].0 in doc, MaskOf(doc, rest), i);
        if i > 0 { assert fields[i] == rest[i - 1]; }
      }
    }
  }

  /** Two masks of n bits that agree on every bit are one mask. */
  lemma {:induction false} BitsDetermine(m: nat, n: nat, bits: nat)
    requires m < Pow2(bits) && n < Pow2(bits)
    requires forall i :: 0 <= i < bits ==> Bit(m, i) == Bit(n, i)
    ensures m == n
  {
    if bits > 0 {
      assert Bit(m, 0) == Bit(n, 0);
      forall i | 0 <= i < bits - 1 ensures Bit(m / 2, i) == Bit(n / 2, i) {
        assert Bit(m, i + 1) == Bit(n, i + 1);
      }
      BitsDetermine(m / 2, n / 2, bits - 1);
    }
  }

  /** The masks list exactly the allowed documents. */
  lemma CandidatesAreAllowed(b: BootLog, doc: Document)
    requires BytesBoot(b)
    ensures Allowed(doc, b) <==> exists mask: nat :: mask < Pow2(|Optional(b)|) && Candidate(b, mask) == doc
  {
    hide Mandatory, Optional, Pow2, Bit, MaskOf;
    OptionalIsFresh(b);
    var base, fields := Mandatory(b), Optional(b);
    if Allowed(doc, b) {
      var mask := MaskOf(doc, fields);
      MaskOfBits(doc, fields);
      var built := Candidate(b, mask);
      forall k ensures (k in built <==> k in doc) && (k in doc ==> built[k] == doc[k]) {
        ChosenHas(base, fields, |fields|, mask, k);
        if k in doc && k !in base {
          var i :| 0 <= i < |fields| && fields[i] == (k, doc[k]);
          assert Bit(mask, i);
        }
        if k in built && k !in base {
          var i :| 0 <= i < |fields| && fields[i] == (k, built[k]);
          assert Bit(mask, i);
        }
      }
      assert built.Keys == doc.Keys;
      assert built == doc;
    }
    forall mask: nat | mask < Pow2(|fields|) && Candidate(b, mask) == doc ensures Allowed(doc, b) {
      forall k ensures (k in base ==> k in doc && doc[k] == base[k]) && (k in doc && k !in base ==> (k, doc[k]) in fields) {
        ChosenHas(base, fields, |fields|, mask, k);
      }
    }
  }

  /** Different masks give different documents. */
  lemma CandidatesAreDistinct(b: BootLog, m: nat, n: nat)
    requires BytesBoot(b) && m < Pow2(|Optional(b)|) && n < Pow2(|Optional(b)|)
    requires Candidate(b, m) == Candidate(b, n)
    ensures m == n
  {
    hide Mandatory, Optional, Pow2, Bit;
    OptionalIsFresh(b);
    var base, fields := Mandatory(b), Optional(b);
    forall i | 0 <= i < |fields| ensures Bit(m, i) == Bit(n, i) {
      ChosenHas(base, fields, |fields|, m, fields[i].0);
      ChosenHas(base, fields, |fields|, n, fields[i].0);
    }
    BitsDetermine(m, n, |fields|);
  }

  /** The values the log supplies need no escaping. */
  predicate PlainBoot(b: BootLog) { Plain(b.keyProvider) && Plain(b.keyProviderId) }

  lemma HexIsPlain(s: string)
    requires IsBytes(s)
    ensures Plain(HexEncode(s))
  {
    assert !IsLowerHexDigit('"');
  }

  lemma {:induction false} HexTextIsPlain(s: string)
    requires HexDecode(s).Some?
    ensures Plain(s)
  {
    assert HexValue('"').None?;
    if |s| >= 2 {
      HexTextIsPlain(s[2..]);
      assert s == [s[0], s[1]] + s[2..];
    }
  }

  lemma {:induction false} BootIsPlain(p: Progress, log: seq<R.Entry>, json: KeyProviderJson)
    requires PlainBoot(p.b)
    ensures ReadBoot(p, log, json).Success? ==> PlainBoot(ReadBoot(p, log, json).value)
    decreases |log|
  {
    hide HexDecode;
    if log != [] && log[0].event != R.SYSTEM_READY {
      var q := ReadBootEvent(p, log[0], json);
      if q.Success? {
        if log[0].event == KEY_PROVIDER {
          var (kind, id) := ReadKeyProvider(log[0].payload, json).value;
          HexTextIsPlain(id);
          assert Plain(kind);
        }
        BootIsPlain(q.value, log[1..], json);
      }
    }
  }

  lemma AllowedIsPlain(doc: Document, b: BootLog)
    requires BytesBoot(b) && PlainBoot(b) && Allowed(doc, b)
    ensures PlainDocument(doc)
  {
    hide HexEncode;
    HexIsPlain(b.composeHash);
    HexIsPlain(b.instanceId);
    MandatoryIsPlain(b);
    OptionalIsPlain(b);
    forall k | k in doc ensures Plain(k) && PlainValue(doc[k]) {
      if k in Mandatory(b) {
        assert doc[k] == Mandatory(b)[k];
      } else {
        var i :| 0 <= i < |Optional(b)| && Optional(b)[i] == (k, doc[k]);
      }
    }
  }

  lemma MandatoryIsPlain(b: BootLog)
    requires BytesBoot(b) && PlainBoot(b)
    ensures forall k :: k in Mandatory(b) ==> Plain(k) && PlainValue(Mandatory(b)[k])
  {
    hide HexEncode;
    HexIsPlain(b.composeHash);
    HexIsPlain(b.instanceId);
    assert Plain("version") && Plain("compose_hash") && Plain("key_provider") && Plain("instance_id");
  }

  lemma OptionalIsPlain(b: BootLog)
    requires BytesBoot(b) && PlainBoot(b)
    ensures forall i :: 0 <= i < |Optional(b)| ==> Plain(Optional(b)[i].0) && PlainValue(Optional(b)[i].1)
  {
    hide HexEncode;
    HexIsPlain(b.appId);
    if b.gpuPolicyHash.Some? { HexIsPlain(b.gpuPolicyHash.value); }
    forall i | 0 <= i < |b.initScripts| ensures Plain(Scripts(b.initScripts)[i]) {
      HexIsPlain(b.initScripts[i]);
    }
    assert Plain("app_id") && Plain("gpu_policy_hash") && Plain("key_provider_id") && Plain("init_script_hashes");
  }

  /** The candidates' texts: at most sixteen, and no two alike. */
  lemma CandidateTexts(b: BootLog, m: nat, n: nat)
    requires BytesBoot(b) && PlainBoot(b) && m < Pow2(|Optional(b)|) && n < Pow2(|Optional(b)|)
    ensures Pow2(|Optional(b)|) <= 16
    ensures Jcs(Candidate(b, m)) == Jcs(Candidate(b, n)) ==> m == n
  {
    hide Optional, Jcs;
    PowersUpToSixteen(|Optional(b)|);
    if Jcs(Candidate(b, m)) == Jcs(Candidate(b, n)) {
      CandidatesAreAllowed(b, Candidate(b, m));
      CandidatesAreAllowed(b, Candidate(b, n));
      AllowedIsPlain(Candidate(b, m), b);
      AllowedIsPlain(Candidate(b, n), b);
      JcsInjective(Candidate(b, m), Candidate(b, n));
      CandidatesAreDistinct(b, m, n);
    }
  }

  lemma PowersUpToSixteen(n: nat)
    requires n <= 4
    ensures Pow2(n) <= 16
  {
    assert Pow2(4) == 16 && Pow2(3) == 8 && Pow2(2) == 4 && Pow2(1) == 2;
  }

  // ---------------------------------------------------------------- What an established hash means

  /** The replayed log's boot events, when both steps succeed. */
  ghost predicate Boots(served: seq<R.EventEntry>, rtmr3: R.Register, json: KeyProviderJson, b: BootLog) {
    && R.Replay(served, rtmr3).Success?
    && ReadBoot(START, R.Replay(served, rtmr3).value, json) == Success(b)
  }

  lemma BootsFacts(served: seq<R.EventEntry>, rtmr3: R.Register, json: KeyProviderJson, b: BootLog)
    requires Boots(served, rtmr3, json, b)
    ensures BytesBoot(b) && PlainBoot(b)
  {
    ReplayedBytes(served, |served|);
    BootBytes(START, R.Replay(served, rtmr3).value, json);
    BootIsPlain(START, R.Replay(served, rtmr3).value, json);
  }

  /** The id is the hash of the document, under a boot the document is allowed for. */
  ghost predicate Commits(id: MrConfigId, b: BootLog, doc: Document)
    requires BytesBoot(b)
  {
    Allowed(doc, b) && id == MrConfigIdV3(Jcs(doc))
  }

  /** A hash is established exactly when an allowed document reproduces the id, and it is the logged one. */
  lemma EstablishedMeans(id: MrConfigId, served: seq<R.EventEntry>, rtmr3: R.Register, json: KeyProviderJson, c: string)
    ensures Established(id, served, rtmr3, json) == Success(c) <==>
            exists b :: Boots(served, rtmr3, json, b) && BytesBoot(b) && c == b.composeHash && exists doc :: Commits(id, b, doc)
  {
    hide Allowed, Jcs, ReadBoot, Candidate, Optional, BytesBoot, Pow2;
    forall b | Boots(served, rtmr3, json, b)
      ensures BytesBoot(b)
      ensures (exists mask: nat :: mask < Pow2(|Optional(b)|) && Matches(id, b, mask)) <==> exists doc :: Commits(id, b, doc)
    {
      BootsFacts(served, rtmr3, json, b);
      if mask: nat :| mask < Pow2(|Optional(b)|) && Matches(id, b, mask) {
        CandidatesAreAllowed(b, Candidate(b, mask));
        assert Commits(id, b, Candidate(b, mask));
      }
      if doc :| Commits(id, b, doc) {
        CandidatesAreAllowed(b, doc);
        var mask: nat :| mask < Pow2(|Optional(b)|) && Candidate(b, mask) == doc;
        assert Matches(id, b, mask);
      }
    }
  }

  /** An mr_config_id commits to one compose hash, whichever logs it is established from. */
  lemma OneIdOneComposeHash(id: MrConfigId, json: KeyProviderJson,
                            served1: seq<R.EventEntry>, rtmr1: R.Register,
                            served2: seq<R.EventEntry>, rtmr2: R.Register)
    ensures var r1, r2 := Established(id, served1, rtmr1, json), Established(id, served2, rtmr2, json);
            r1.Success? && r2.Success? ==> r1 == r2
  {
    hide Established;
    var r1, r2 := Established(id, served1, rtmr1, json), Established(id, served2, rtmr2, json);
    if r1.Success? && r2.Success? {
      SameIdSameComposeHash(id, json, served1, rtmr1, r1.value, served2, rtmr2, r2.value);
    }
  }

  lemma SameIdSameComposeHash(id: MrConfigId, json: KeyProviderJson,
                              served1: seq<R.EventEntry>, rtmr1: R.Register, c1: string,
                              served2: seq<R.EventEntry>, rtmr2: R.Register, c2: string)
    requires Established(id, served1, rtmr1, json) == Success(c1)
    requires Established(id, served2, rtmr2, json) == Success(c2)
    ensures c1 == c2
  {
    hide Established, ReadBoot, Allowed, Jcs, BytesBoot, PlainBoot;
    EstablishedMeans(id, served1, rtmr1, json, c1);
    EstablishedMeans(id, served2, rtmr2, json, c2);
    var b1 :| Boots(served1, rtmr1, json, b1) && BytesBoot(b1) && c1 == b1.composeHash && exists doc :: Commits(id, b1, doc);
    var b2 :| Boots(served2, rtmr2, json, b2) && BytesBoot(b2) && c2 == b2.composeHash && exists doc :: Commits(id, b2, doc);
    BootsFacts(served1, rtmr1, json, b1);
    BootsFacts(served2, rtmr2, json, b2);
    var d1 :| Commits(id, b1, d1);
    var d2 :| Commits(id, b2, d2);
    SameIdSameText(Jcs(d1), Jcs(d2));
    AllowedIsPlain(d1, b1);
    AllowedIsPlain(d2, b2);
    JcsInjective(d1, d2);
    AllowedHash(d1, b1);
    AllowedHash(d2, b2);
    HexInjective(b1.composeHash, b2.composeHash);
  }

  lemma SameIdSameText(a: string, b: string)
    requires MrConfigIdV3(a) == MrConfigIdV3(b)
    ensures a == b
  {
    var prefix := DOMAIN + ['\0'];
    assert (prefix + a)[|prefix|..] == a && (prefix + b)[|prefix|..] == b;
  }

  lemma AllowedHash(doc: Document, b: BootLog)
    requires BytesBoot(b) && Allowed(doc, b)
    ensures IsBytes(b.composeHash)
    ensures "compose_hash" in doc && doc["compose_hash"] == Str(HexEncode(b.composeHash))
  {
    assert "compose_hash" != "instance_id" && "compose_hash" != "key_provider";
    assert "compose_hash" in Mandatory(b);
  }
}
