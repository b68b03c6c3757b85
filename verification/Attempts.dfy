/**
 One attempt of the client against one provider: buffered (client/core/client.go:805-896), streaming
 (client/core/stream.go:113-119, 139-332) and asynchronous submit (client/core/async.go:100-192).

 What lies outside the client is an `Env`: one total function per question the client asks, given the
 number of the call that asks it, so that nothing is assumed about how answers hang together.
 */
module Attempts {
  import opened Wrappers

  type Bytes = string

  datatype Provider = Provider(encPubKey: Bytes, signerAddr: string, address: string, bindResponse: bool)

  // ---------------------------------------------------------------- Errors

  datatype Stage = AtRequest | AtUpstream | AtInternal

  /**
   The "error" field of a reply body. `Object` carries its "message", where absent and null read as
   none; `Other` is a field of another type, or an object whose message is not a string.
   */
  datatype ErrorField = Missing | Text(msg: string) | Object(message: Option<string>) | Other

  datatype What =
    | Sealing | Posting | Rejected | NotAStream | BodyDropped | Undecodable | Unopenable | Binding
    | Truncated | Aborted | ReadBroken | Unverified | NotAJob
    | BudgetSpent | NoCandidates | Resolving(cause: Failure) | OverBudget(limit: int, cut: Failure)

  /** core.Error, or an error with none in its chain. */
  datatype Failure = Fault(stage: Stage, status: int, body: ErrorField, what: What) | Foreign(id: nat)

  function Upstream(what: What): Failure { Fault(AtUpstream, 0, Missing, what) }

  const KEY_MISMATCH := "e2ee_key_mismatch"
  const CONFLICT := 409

  /** isKeyMismatch: a 409 whose message starts with the token, in either shape of the field. */
  predicate IsKeyMismatch(f: Failure) {
    f.Fault? && f.status == CONFLICT &&
    match f.body
    case Text(msg) => KEY_MISMATCH <= msg
    case Object(Some(msg)) => KEY_MISMATCH <= msg
    case _ => false
  }

  predicate RetryableStatus(status: int) { status == 429 || 500 <= status <= 599 }

  // ---------------------------------------------------------------- The outside

  datatype Timed<+T> = Timed(dur: nat, value: T)

  /** How a stream's reads end: cleanly, or with an error while the attempt's context is done or not. */
  datatype Ending = Eof | Broken(ctxDone: bool)

  /** A submit answer's field: its string, or None for a value that is not a string. */
  type Fields = map<string, Option<string>>

  /** A reply, with its body as each reader would find it. */
  datatype Reply =
    | NoAnswer
    | Answer(status: int, resKey: string, error: ErrorField,
             body: Option<Bytes>, eventStream: bool, events: seq<Timed<Bytes>>, end: Timed<Ending>,
             oversized: bool, fields: Option<Fields>)

  /** Where the caller's context is asked whether it is done. */
  datatype Site = Preparing | Mismatched | FallingBack | Reading

  datatype Env = Env(
    candidates: nat,
    rereads: bool,
    budget: int,
    profileBinds: bool,
    verifies: bool,
    materialize: (nat, nat, int) -> Timed<Result<Provider, Failure>>,
    reread: (nat, nat, Bytes, int) -> Timed<Result<Provider, Failure>>,
    canceled: (nat, Site) -> bool,
    seal: (nat, Provider) -> Option<Bytes>,
    post: (nat, Provider, Bytes) -> Timed<Reply>,
    decode: Bytes -> Option<Bytes>,
    isDone: Bytes -> bool,
    final: Bytes -> Option<bool>,
    setsUp: (bool, Bytes) -> bool,
    openFrame: (bool, Bytes, nat, Bytes) -> Option<Bytes>,
    openReply: (bool, Bytes) -> Option<Bytes>,
    binds: Bytes -> bool,
    adds: Bytes -> bool,
    streamText: (Bytes, seq<Bytes>) -> Option<Bytes>,
    replyText: (Bytes, Bytes) -> Bytes,
    signature: (nat, Provider, string) -> Timed<Option<Bytes>>,
    signs: (Bytes, Bytes, string) -> bool,
    onFrame: seq<Bytes> -> Timed<Option<Failure>>,
    samePin: (string, string) -> bool,
    userJobID: (nat, string) -> Option<string>)

  /** A frame handed to onFrame: the call that got it, as received and as opened. */
  datatype Delivery = Delivery(call: nat, sealed: Bytes, plain: Bytes)

  /** The clock and what has been observed so far. */
  datatype World = World(now: int, calls: nat, delivered: seq<Delivery>, accepted: seq<nat>)

  datatype Output = Plain(text: Bytes) | Streamed | Job(status: int, fields: Fields)

  datatype Tried = Tried(w: World, retry: bool, result: Result<Output, Failure>)

  function Failed(w: World, retry: bool, f: Failure): Tried { Tried(w, retry, Result.Failure(f)) }

  function Later(w: World, d: nat): World { w.(now := w.now + d) }

  /** bindsResponse. */
  predicate BindsResponse(env: Env, p: Provider) { p.bindResponse && env.profileBinds }

  /** fetchSig and the check of what it fetched, over `text` and against the provider's signer. */
  function Verified(env: Env, k: nat, w: World, p: Provider, resKey: string, text: Bytes): (World, bool) {
    if resKey == "" then (w, false)
    else
      var sig := env.signature(k, p, resKey);
      var w1 := Later(w, sig.dur);
      match sig.value
      case None => (w1, false)
      case Some(s) => (w1, env.signs(text, s, p.signerAddr))
  }

  // ---------------------------------------------------------------- Buffered

  function CompleteOnce(env: Env, before: World, p: Provider): Tried {
    var k := before.calls;
    var w := before.(calls := k + 1);
    match env.seal(k, p)
    case None => Failed(w, false, Fault(AtRequest, 0, Missing, Sealing))
    case Some(envelope) =>
      var reply := env.post(k, p, envelope);
      var w1 := Later(w, reply.dur);
      match reply.value
      case NoAnswer => Failed(w1, false, Upstream(Posting))
      case Answer(status, resKey, error, body, _, _, _, _, _) =>
        if status != 200 then Failed(w1, RetryableStatus(status), Fault(AtUpstream, status, error, Rejected))
        else if body.None? then Failed(w1, true, Upstream(BodyDropped))
        else if env.decode(body.value).None? then Failed(w1, true, Upstream(Undecodable))
        else
          var frame := env.decode(body.value).value;
          match env.openReply(BindsResponse(env, p), frame)
          case None => Failed(w1, true, Upstream(Unopenable))
          case Some(out) =>
            if !env.verifies then Tried(w1, false, Success(Plain(out)))
            else
              var v := Verified(env, k, w1, p, resKey, env.replyText(envelope, frame));
              if v.1 then Tried(v.0, false, Success(Plain(out))) else Failed(v.0, false, Upstream(Unverified))
  }

  // ---------------------------------------------------------------- Streaming

  /** What the receive loop of one attempt is reading. */
  datatype Line = Line(call: nat, provider: Provider, envelope: Bytes, resKey: string)

  /** The receive loop's variables: `opener` is the frame that set the opener up, `bound` the binder. */
  datatype Pumping = Pumping(committed: bool, sawFinal: bool, opener: Option<Bytes>, bound: seq<Bytes>, index: nat)

  const IDLE := Pumping(false, false, None, [], 0)

  datatype Taken = Stopped(t: Tried) | Going(w: World, st: Pumping)

  function Plains(ds: seq<Delivery>): seq<Bytes> { seq(|ds|, i requires 0 <= i < |ds| => ds[i].plain) }

  function Seals(ds: seq<Delivery>): seq<Bytes> { seq(|ds|, i requires 0 <= i < |ds| => ds[i].sealed) }

  /** One data payload: decode, open, bind, deliver. */
  function Take(env: Env, line: Line, w: World, st: Pumping, data: Bytes): Taken {
    match env.decode(data)
    case None => Stopped(Failed(w, !st.committed, Upstream(Undecodable)))
    case Some(frame) =>
      if env.final(frame).None? then Stopped(Failed(w, !st.committed, Upstream(Undecodable)))
      else
        var binds := BindsResponse(env, line.provider);
        if st.opener.None? && !env.setsUp(binds, frame) then Stopped(Failed(w, !st.committed, Upstream(Unopenable)))
        else
          var opener := if st.opener.None? then frame else st.opener.value;
          match env.openFrame(binds, opener, st.index, frame)
          case None => Stopped(Failed(w, !st.committed, Upstream(Unopenable)))
          case Some(plain) =>
            if env.verifies && !env.adds(frame) then Stopped(Failed(w, !st.committed, Upstream(Undecodable)))
            else Deliver(env, line, w, st, opener, frame, plain)
  }

  function Deliver(env: Env, line: Line, w: World, st: Pumping, opener: Bytes, frame: Bytes, plain: Bytes): Taken
    requires env.final(frame).Some?
  {
    var w1 := w.(delivered := w.delivered + [Delivery(line.call, frame, plain)]);
    var handled := env.onFrame(Plains(w1.delivered));
    var w2 := Later(w1, handled.dur);
    match handled.value
    case Some(f) => Stopped(Failed(w2, false, f))
    case None =>
      Going(w2, Pumping(true, st.sawFinal || env.final(frame).value, Some(opener),
                        if env.verifies then st.bound + [frame] else st.bound, st.index + 1))
  }

  /** At EOF and at [DONE]. */
  function Finished(env: Env, line: Line, w: World, st: Pumping): Tried {
    if !st.sawFinal then Failed(w, !st.committed, Upstream(Truncated))
    else if !env.verifies then Tried(w, false, Success(Streamed))
    else
      match env.streamText(line.envelope, st.bound)
      case None => Failed(w, false, Upstream(Unverified))
      case Some(text) =>
        var v := Verified(env, line.call, w, line.provider, line.resKey, text);
        if v.1 then Tried(v.0, false, Success(Streamed)) else Failed(v.0, false, Upstream(Unverified))
  }

  function Ended(env: Env, line: Line, end: Ending, w: World, st: Pumping): Tried {
    match end
    case Eof => Finished(env, line, w, st)
    case Broken(ctxDone) =>
      if ctxDone then Failed(w, !env.canceled(line.call, Reading) && !st.committed, Upstream(Aborted))
      else Failed(w, !st.committed, Upstream(ReadBroken))
  }

  /** The receive loop, as a recursion over the payloads still to come. */
  function Pump(env: Env, line: Line, events: seq<Timed<Bytes>>, end: Timed<Ending>, w: World, st: Pumping): Tried
    decreases |events|
  {
    if events == [] then Ended(env, line, end.value, Later(w, end.dur), st)
    else
      var w1 := Later(w, events[0].dur);
      if env.isDone(events[0].value) then Finished(env, line, w1, st)
      else
        match Take(env, line, w1, st, events[0].value)
        case Stopped(t) => t
        case Going(w2, st2) => Pump(env, line, events[1..], end, w2, st2)
  }

  /** The receive loop of streamOnce. */
  method Receive(env: Env, line: Line, events: seq<Timed<Bytes>>, end: Timed<Ending>, before: World) returns (t: Tried)
    ensures t == Pump(env, line, events, end, before, IDLE)
  {
    hide Take, Finished;
    var w, st, n := before, IDLE, 0;
    while n < |events|
      invariant 0 <= n <= |events|
      invariant Pump(env, line, events, end, before, IDLE) == Pump(env, line, events[n..], end, w, st)
    {
      assert events[n..][0] == events[n] && events[n..][1..] == events[n + 1..];
      w := Later(w, events[n].dur);
      if env.isDone(events[n].value) {
        t := Finished(env, line, w, st);
        return;
      }
      var taken := TakeFrame(env, line, w, st, events[n].value);
      if taken.Stopped? {
        t := taken.t;
        return;
      }
      w, st, n := taken.w, taken.st, n + 1;
    }
    t := Ended(env, line, end.value, Later(w, end.dur), st);
  }

  /** The body of the loop for one frame. */
  method TakeFrame(env: Env, line: Line, before: World, st: Pumping, data: Bytes) returns (taken: Taken)
    ensures taken == Take(env, line, before, st, data)
  {
    var decoded := env.decode(data);
    if decoded.None? || env.final(decoded.value).None? {
      return Stopped(Failed(before, !st.committed, Upstream(Undecodable)));
    }
    var frame, binds, opener := decoded.value, BindsResponse(env, line.provider), st.opener;
    if opener.None? {
      if !env.setsUp(binds, frame) {
        return Stopped(Failed(before, !st.committed, Upstream(Unopenable)));
      }
      opener := Some(frame);
    }
    var out := env.openFrame(binds, opener.value, st.index, frame);
    if out.None? {
      return Stopped(Failed(before, !st.committed, Upstream(Unopenable)));
    }
    var bound := st.bound;
    if env.verifies {
      if !env.adds(frame) {
        return Stopped(Failed(before, !st.committed, Upstream(Undecodable)));
      }
      bound := bound + [frame];
    }
    var w := before.(delivered := before.delivered + [Delivery(line.call, frame, out.value)]);
    var handled := env.onFrame(Plains(w.delivered));
    w := Later(w, handled.dur);
    if handled.value.Some? {
      return Stopped(Failed(w, false, handled.value.value));
    }
    taken := Going(w, Pumping(true, st.sawFinal || env.final(frame).value, opener, bound, st.index + 1));
  }

  function StreamOnce(env: Env, before: World, p: Provider): Tried {
    var k := before.calls;
    var w := before.(calls := k + 1);
    match env.seal(k, p)
    case None => Failed(w, false, Fault(AtRequest, 0, Missing, Sealing))
    case Some(envelope) =>
      var reply := env.post(k, p, envelope);
      var w1 := Later(w, reply.dur);
      match reply.value
      case NoAnswer => Failed(w1, false, Upstream(Posting))
      case Answer(status, resKey, error, _, eventStream, events, end, _, _) =>
        if status != 200 then Failed(w1, RetryableStatus(status), Fault(AtUpstream, status, error, Rejected))
        else if !eventStream then Failed(w1, true, Upstream(NotAStream))
        else if env.verifies && !env.binds(envelope) then Failed(w1, false, Fault(AtInternal, 0, Missing, Binding))
        else Pump(env, Line(k, p, envelope, resKey), events, end, w1, IDLE)
  }

  method Stream(env: Env, before: World, p: Provider) returns (t: Tried)
    ensures t == StreamOnce(env, before, p)
  {
    hide Pump;
    var k := before.calls;
    var w := before.(calls := k + 1);
    var envelope := env.seal(k, p);
    if envelope.None? {
      return Failed(w, false, Fault(AtRequest, 0, Missing, Sealing));
    }
    var posted := env.post(k, p, envelope.value);
    w := Later(w, posted.dur);
    var reply := posted.value;
    if reply.NoAnswer? {
      return Failed(w, false, Upstream(Posting));
    }
    if reply.status != 200 {
      return Failed(w, RetryableStatus(reply.status), Fault(AtUpstream, reply.status, reply.error, Rejected));
    }
    if !reply.eventStream {
      return Failed(w, true, Upstream(NotAStream));
    }
    if env.verifies && !env.binds(envelope.value) {
      return Failed(w, false, Fault(AtInternal, 0, Missing, Binding));
    }
    t := Receive(env, Line(k, p, envelope.value, reply.resKey), reply.events, reply.end, w);
  }

  // ---------------------------------------------------------------- Asynchronous submit

  /** A field read into a string: empty when absent or of another type. */
  function TextOf(fields: Fields, f: string): string {
    if f in fields && fields[f].Some? then fields[f].value else ""
  }

  /** userJobResponse: the checks on a 2xx submit answer, and the rewrite of its jobId. */
  function UserJobResponse(env: Env, k: nat, reply: Reply, p: Provider): Option<Fields>
    requires reply.Answer?
  {
    if reply.oversized || reply.fields.None? then None
    else
      var fields := reply.fields.value;
      if "_e2ee" in fields then None
      else if TextOf(fields, "jobId") == "" then None
      else if p.address != "" && !env.samePin(TextOf(fields, "provider_address"), p.address) then None
      else
        match env.userJobID(k, TextOf(fields, "jobId"))
        case None => None
        case Some(id) => Some(fields["jobId" := Some(id)])
  }

  /** submitOnce. `accepted` notes the calls whose answer was a 2xx: a job exists upstream. */
  function SubmitOnce(env: Env, before: World, p: Provider): Tried {
    var k := before.calls;
    var w := before.(calls := k + 1);
    match env.seal(k, p)
    case None => Failed(w, false, Fault(AtRequest, 0, Missing, Sealing))
    case Some(envelope) =>
      var reply := env.post(k, p, envelope);
      var w1 := Later(w, reply.dur);
      match reply.value
      case NoAnswer => Failed(w1, false, Upstream(Posting))
      case Answer(status, _, error, body, _, _, _, _, _) =>
        if !(200 <= status <= 299) then Failed(w1, RetryableStatus(status), Fault(AtUpstream, status, error, Rejected))
        else
          var w2 := w1.(accepted := w1.accepted + [k]);
          if body.None? then Failed(w2, false, Upstream(BodyDropped))
          else
            match UserJobResponse(env, k, reply.value, p)
            case None => Failed(w2, false, Upstream(NotAJob))
            case Some(fields) => Tried(w2, false, Success(Job(status, fields)))
  }

  // ---------------------------------------------------------------- What a stream delivers

  /** Payload `data` is d, the frame after `sofar`: it decodes, opens at its own number under what the first frame set up, and binds. */
  ghost predicate IsFrame(env: Env, line: Line, sofar: seq<Delivery>, data: Bytes, d: Delivery) {
    var binds := line.provider.bindResponse && env.profileBinds;
    && d.call == line.call
    && !env.isDone(data) && env.decode(data) == Some(d.sealed) && env.final(d.sealed).Some?
    && (sofar == [] ==> env.setsUp(binds, d.sealed))
    && env.openFrame(binds, if sofar == [] then d.sealed else sofar[0].sealed, |sofar|, d.sealed) == Some(d.plain)
    && (env.verifies ==> env.adds(d.sealed))
  }

  /** Payload `data` decodes, and does not open as the frame after `sofar`. */
  ghost predicate DoesNotOpen(env: Env, line: Line, sofar: seq<Delivery>, data: Bytes) {
    var binds := line.provider.bindResponse && env.profileBinds;
    && env.decode(data).Some? && env.final(env.decode(data).value).Some?
    && var sealed := env.decode(data).value;
       || (sofar == [] && !env.setsUp(binds, sealed))
       || env.openFrame(binds, if sofar == [] then sealed else sofar[0].sealed, |sofar|, sealed).None?
  }

  /** The frames are the stream's leading payloads, in their order and none skipped. */
  ghost predicate Faithful(env: Env, line: Line, all: seq<Timed<Bytes>>, mine: seq<Delivery>) {
    |mine| <= |all| && forall i :: 0 <= i < |mine| ==> IsFrame(env, line, mine[..i], all[i].value, mine[i])
  }

  /** With `base` delivered before, the handler took the first n frames of mine. */
  ghost predicate Handled(env: Env, base: seq<Delivery>, mine: seq<Delivery>, n: nat) {
    n <= |mine| && forall i :: 0 < i <= n ==> env.onFrame(Plains(base + mine[..i])).value.None?
  }

  ghost predicate HasFinal(env: Env, mine: seq<Delivery>) {
    exists i :: 0 <= i < |mine| && env.final(mine[i].sealed) == Some(true)
  }

  /** The payloads after mine begin with EOF or [DONE]. */
  ghost predicate AllRead(env: Env, all: seq<Timed<Bytes>>, end: Ending, mine: seq<Delivery>) {
    if |mine| < |all| then env.isDone(all[|mine|].value) else end == Eof
  }

  /** The signature fetched for the reply is the provider's, over exactly the sealed frames of mine. */
  ghost predicate SignedFor(env: Env, line: Line, mine: seq<Delivery>) {
    && line.resKey != "" && env.streamText(line.envelope, Seals(mine)).Some?
    && var sig := env.signature(line.call, line.provider, line.resKey).value;
       sig.Some? && env.signs(env.streamText(line.envelope, Seals(mine)).value, sig.value, line.provider.signerAddr)
  }

  /** How long the frames of mine took to come and to be handled. */
  ghost function TimeOf(env: Env, all: seq<Timed<Bytes>>, base: seq<Delivery>, mine: seq<Delivery>): nat
    requires |mine| <= |all|
  {
    if mine == [] then 0
    else
      var n := |mine| - 1;
      TimeOf(env, all, base, mine[..n]) + all[n].dur + env.onFrame(Plains(base + mine)).dur
  }

  /** How long the signature took, for a stream that ended with its final frame. */
  ghost function SignatureTime(env: Env, line: Line, mine: seq<Delivery>): nat {
    if env.verifies && env.streamText(line.envelope, Seals(mine)).Some? && line.resKey != ""
    then env.signature(line.call, line.provider, line.resKey).dur
    else 0
  }

  /** The loop's variables say what this attempt has delivered on top of `base`, all of it taken, since `began`. */
  ghost predicate Fits(env: Env, line: Line, all: seq<Timed<Bytes>>, base: seq<Delivery>, began: int, mine: seq<Delivery>, w: World, st: Pumping) {
    && w.delivered == base + mine
    && Faithful(env, line, all, mine) && Handled(env, base, mine, |mine|)
    && w.now == began + TimeOf(env, all, base, mine)
    && st.index == |mine|
    && (st.committed <==> mine != [])
    && (st.opener == if mine == [] then None else Some(mine[0].sealed))
    && (st.sawFinal <==> HasFinal(env, mine))
    && (env.verifies ==> st.bound == Seals(mine))
  }

  /** The last frame of mine is one the handler refused. */
  ghost predicate LastRefused(env: Env, base: seq<Delivery>, mine: seq<Delivery>) {
    mine != [] && env.onFrame(Plains(base + mine)).value.Some?
  }

  /**
   An attempt that delivered mine, on top of `base` and since `began`, and ended as t. The handler refused
   the last frame; or the payload after mine is none that can be delivered; or the reads broke; or the
   stream ended, short of its final frame or not. A fallback is open until the first frame only.
   */
  ghost predicate EndsWell(env: Env, line: Line, all: seq<Timed<Bytes>>, end: Timed<Ending>, base: seq<Delivery>, began: int, mine: seq<Delivery>, t: Tried) {
    && t.w.delivered == base + mine
    && Faithful(env, line, all, mine)
    && (mine != [] ==> Handled(env, base, mine, |mine| - 1))
    && var read := t.w.now - began - TimeOf(env, all, base, mine);
       if LastRefused(env, base, mine) then
         read == 0 && !t.retry && t.result == Result.Failure(env.onFrame(Plains(base + mine)).value.value)
       else if |mine| < |all| && !env.isDone(all[|mine|].value) then
         && read == all[|mine|].dur && (t.retry <==> mine == [])
         && (forall d :: !IsFrame(env, line, mine, all[|mine|].value, d))
         && t.result == Result.Failure(Upstream(if DoesNotOpen(env, line, mine, all[|mine|].value) then Unopenable else Undecodable))
       else if !AllRead(env, all, end.value, mine) then
         && read == end.dur && (t.retry <==> mine == [] && !(end.value.ctxDone && env.canceled(line.call, Reading)))
         && t.result == Result.Failure(Upstream(if end.value.ctxDone then Aborted else ReadBroken))
       else
         var last := if |mine| < |all| then all[|mine|].dur else end.dur;
         if !HasFinal(env, mine) then
           read == last && (t.retry <==> mine == []) && t.result == Result.Failure(Upstream(Truncated))
         else
           && read == last + SignatureTime(env, line, mine) && !t.retry
           && t.result == if env.verifies && !SignedFor(env, line, mine) then Result.Failure(Upstream(Unverified)) else Success(Streamed)
  }

  lemma {:induction false} FaithfulMore(env: Env, line: Line, all: seq<Timed<Bytes>>, mine: seq<Delivery>, d: Delivery)
    requires Faithful(env, line, all, mine) && |mine| < |all| && IsFrame(env, line, mine, all[|mine|].value, d)
    ensures Faithful(env, line, all, mine + [d])
  {
    hide IsFrame;
    var more := mine + [d];
    forall i | 0 <= i < |more| ensures IsFrame(env, line, more[..i], all[i].value, more[i]) {
      if i < |mine| {
        assert more[..i] == mine[..i];
      } else {
        assert more[..i] == mine;
      }
    }
  }

  lemma HandledMore(env: Env, base: seq<Delivery>, mine: seq<Delivery>, d: Delivery)
    requires Handled(env, base, mine, |mine|)
    ensures Handled(env, base, mine + [d], |mine|)
    ensures env.onFrame(Plains(base + (mine + [d]))).value.None? ==> Handled(env, base, mine + [d], |mine| + 1)
  {
    var more := mine + [d];
    forall i | 0 < i <= |mine| ensures more[..i] == mine[..i] {
    }
    assert more[..|mine| + 1] == more;
  }

  /** A payload that is the next frame is delivered, and no other is. */
  lemma TakeMeans(env: Env, line: Line, sofar: seq<Delivery>, w: World, st: Pumping, data: Bytes, d: Delivery)
    requires !env.isDone(data) && st.index == |sofar|
    requires st.opener == if sofar == [] then None else Some(sofar[0].sealed)
    ensures IsFrame(env, line, sofar, data, d) ==>
              Take(env, line, w, st, data)
              == Deliver(env, line, w, st, if sofar == [] then d.sealed else sofar[0].sealed, d.sealed, d.plain)
  {
    hide Deliver;
  }

  lemma TakeNone(env: Env, line: Line, sofar: seq<Delivery>, w: World, st: Pumping, data: Bytes)
    requires !env.isDone(data) && st.index == |sofar| && (st.committed <==> sofar != [])
    requires st.opener == if sofar == [] then None else Some(sofar[0].sealed)
    requires forall d :: !IsFrame(env, line, sofar, data, d)
    ensures Take(env, line, w, st, data)
            == Stopped(Failed(w, sofar == [], Upstream(if DoesNotOpen(env, line, sofar, data) then Unopenable else Undecodable)))
  {
    hide Deliver;
    if env.decode(data).Some? {
      var sealed := env.decode(data).value;
      var out := env.openFrame(BindsResponse(env, line.provider), if sofar == [] then sealed else sofar[0].sealed, |sofar|, sealed);
      if out.Some? {
        assert !IsFrame(env, line, sofar, data, Delivery(line.call, sealed, out.value));
      }
    }
  }

  /** One frame delivered: the loop goes on with it, or ends because the handler refused it. */
  lemma DeliverKeeps(env: Env, line: Line, all: seq<Timed<Bytes>>, end: Timed<Ending>, base: seq<Delivery>, began: int,
                     mine: seq<Delivery>, w: World, st: Pumping, d: Delivery)
    requires Fits(env, line, all, base, began, mine, w, st)
    requires |mine| < |all| && IsFrame(env, line, mine, all[|mine|].value, d)
    ensures var opener := if mine == [] then d.sealed else mine[0].sealed;
            match Deliver(env, line, Later(w, all[|mine|].dur), st, opener, d.sealed, d.plain)
            case Going(w2, st2) => Fits(env, line, all, base, began, mine + [d], w2, st2)
            case Stopped(t) => EndsWell(env, line, all, end, base, began, mine + [d], t)
  {
    hide Faithful, Handled, HasFinal;
    var more := mine + [d];
    assert base + mine + [d] == base + more;
    assert more[..|mine|] == mine && more[0] == if mine == [] then d else mine[0];
    FaithfulMore(env, line, all, mine, d);
    HandledMore(env, base, mine, d);
    FinalGrows(env, mine, d);
    assert Seals(more) == Seals(mine) + [d.sealed];
    assert Delivery(line.call, d.sealed, d.plain) == d;
  }

  lemma FinalGrows(env: Env, mine: seq<Delivery>, d: Delivery)
    ensures HasFinal(env, mine + [d]) <==> HasFinal(env, mine) || env.final(d.sealed) == Some(true)
  {
    var more := mine + [d];
    if HasFinal(env, mine) {
      var i :| 0 <= i < |mine| && env.final(mine[i].sealed) == Some(true);
      assert more[i] == mine[i];
    }
    if env.final(d.sealed) == Some(true) {
      assert more[|mine|] == d;
    }
  }

  lemma FitsMeans(env: Env, line: Line, all: seq<Timed<Bytes>>, base: seq<Delivery>, began: int, mine: seq<Delivery>, w: World, st: Pumping)
    requires Fits(env, line, all, base, began, mine, w, st)
    ensures |mine| <= |all| && w.delivered == base + mine && st.index == |mine| && (st.committed <==> mine != [])
    ensures st.opener == if mine == [] then None else Some(mine[0].sealed)
  {
  }

  lemma NotRefused(env: Env, base: seq<Delivery>, mine: seq<Delivery>)
    requires Handled(env, base, mine, |mine|)
    ensures !LastRefused(env, base, mine) && (mine != [] ==> Handled(env, base, mine, |mine| - 1))
  {
    assert mine[..|mine|] == mine;
  }

  lemma EndedWell(env: Env, line: Line, all: seq<Timed<Bytes>>, end: Timed<Ending>, base: seq<Delivery>, began: int,
                  mine: seq<Delivery>, w: World, st: Pumping)
    requires Fits(env, line, all, base, began, mine, w, st)
    ensures |mine| == |all| ==> EndsWell(env, line, all, end, base, began, mine, Ended(env, line, end.value, Later(w, end.dur), st))
    ensures |mine| < |all| && env.isDone(all[|mine|].value) ==>
              EndsWell(env, line, all, end, base, began, mine, Finished(env, line, Later(w, all[|mine|].dur), st))
  {
    NotRefused(env, base, mine);
    hide Faithful, Handled, HasFinal, LastRefused, TimeOf;
  }

  lemma UnusableEndsWell(env: Env, line: Line, all: seq<Timed<Bytes>>, end: Timed<Ending>, base: seq<Delivery>, began: int,
                         mine: seq<Delivery>, w: World, st: Pumping)
    requires Fits(env, line, all, base, began, mine, w, st) && |mine| < |all| && !env.isDone(all[|mine|].value)
    requires forall d :: !IsFrame(env, line, mine, all[|mine|].value, d)
    ensures var taken := Take(env, line, Later(w, all[|mine|].dur), st, all[|mine|].value);
            taken.Stopped? && EndsWell(env, line, all, end, base, began, mine, taken.t)
  {
    NotRefused(env, base, mine);
    hide IsFrame, Faithful, Handled, HasFinal, LastRefused, Take, TimeOf, DoesNotOpen;
    TakeNone(env, line, mine, Later(w, all[|mine|].dur), st, all[|mine|].value);
  }

  /** From any point of the loop: what it has delivered by its end, and how it ends. */
  lemma {:induction false} PumpEndsWell(env: Env, line: Line, all: seq<Timed<Bytes>>, end: Timed<Ending>, base: seq<Delivery>, began: int,
                                        mine: seq<Delivery>, w: World, st: Pumping)
    returns (total: seq<Delivery>)
    requires Fits(env, line, all, base, began, mine, w, st)
    ensures |mine| <= |all| && EndsWell(env, line, all, end, base, began, total, Pump(env, line, all[|mine|..], end, w, st))
    decreases |all| - |mine|
  {
    hide Take, Finished, Ended, Deliver, Fits, EndsWell, IsFrame;
    FitsMeans(env, line, all, base, began, mine, w, st);
    var events := all[|mine|..];
    total := mine;
    if events == [] || env.isDone(events[0].value) {
      EndedWell(env, line, all, end, base, began, mine, w, st);
    } else {
      var data, w1 := events[0].value, Later(w, events[0].dur);
      assert events[0] == all[|mine|] && events[1..] == all[|mine| + 1..];
      if d :| IsFrame(env, line, mine, data, d) {
        TakeMeans(env, line, mine, w1, st, data, d);
        DeliverKeeps(env, line, all, end, base, began, mine, w, st, d);
        total := mine + [d];
        match Take(env, line, w1, st, data) {
          case Going(w2, st2) => total := PumpEndsWell(env, line, all, end, base, began, mine + [d], w2, st2);
          case Stopped(_) =>
        }
      } else {
        UnusableEndsWell(env, line, all, end, base, began, mine, w, st);
      }
    }
  }

  // ---------------------------------------------------------------- A whole streaming attempt

  /** The stream an attempt would read, were its call answered with one. */
  ghost predicate Streams(env: Env, line: Line) {
    && env.seal(line.call, line.provider) == Some(line.envelope)
    && (env.verifies ==> env.binds(line.envelope))
    && var reply := env.post(line.call, line.provider, line.envelope).value;
       reply.Answer? && reply.status == 200 && reply.eventStream && reply.resKey == line.resKey
  }

  ghost function StreamOf(env: Env, line: Line): seq<Timed<Bytes>>
    requires Streams(env, line)
  {
    env.post(line.call, line.provider, line.envelope).value.events
  }

  ghost function EndOf(env: Env, line: Line): Timed<Ending>
    requires Streams(env, line)
  {
    env.post(line.call, line.provider, line.envelope).value.end
  }

  /** When the stream begins, for a call made at `now`. */
  ghost function BeganAt(env: Env, line: Line, now: int): int { now + env.post(line.call, line.provider, line.envelope).dur }

  /** The attempt with this line, made at `now` when `base` had been delivered, delivered `mine` and ended as t says. */
  ghost predicate StreamOutcome(env: Env, line: Line, base: seq<Delivery>, now: int, mine: seq<Delivery>, t: Tried) {
    && t.w.delivered == base + mine
    && t.w.calls == line.call + 1
    && (t.retry ==> mine == [] && t.result.Failure?)
    && if Streams(env, line) then EndsWell(env, line, StreamOf(env, line), EndOf(env, line), base, BeganAt(env, line, now), mine, t)
       else
         && mine == [] && t.result.Failure?
         && t.w.now == if env.seal(line.call, line.provider).None? then now else BeganAt(env, line, now)
  }

  lemma {:induction false} PumpCalls(env: Env, line: Line, events: seq<Timed<Bytes>>, end: Timed<Ending>, w: World, st: Pumping)
    ensures Pump(env, line, events, end, w, st).w.calls == w.calls
    decreases |events|
  {
    if events != [] && !env.isDone(events[0].value) {
      match Take(env, line, Later(w, events[0].dur), st, events[0].value) {
        case Going(w2, st2) => PumpCalls(env, line, events[1..], end, w2, st2);
        case Stopped(_) =>
      }
    }
  }

  lemma StreamOnceDelivers(env: Env, before: World, p: Provider) returns (line: Line, mine: seq<Delivery>)
    ensures line.call == before.calls && line.provider == p
    ensures StreamOutcome(env, line, before.delivered, before.now, mine, StreamOnce(env, before, p))
    ensures forall l: Line :: l.call == before.calls && l.provider == p && Streams(env, l) ==> l == line
  {
    hide Pump, EndsWell;
    var k := before.calls;
    var t := StreamOnce(env, before, p);
    line, mine := Line(k, p, "", ""), [];
    assert before.delivered + [] == before.delivered;
    if env.seal(k, p).Some? {
      var envelope := env.seal(k, p).value;
      var reply := env.post(k, p, envelope);
      line := Line(k, p, envelope, if reply.value.Answer? then reply.value.resKey else "");
      if Streams(env, line) {
        var w1 := Later(before.(calls := k + 1), reply.dur);
        var events, end := StreamOf(env, line), EndOf(env, line);
        assert events[0..] == events;
        PumpCalls(env, line, events, end, w1, IDLE);
        FitsAtFirst(env, line, events, w1);
        mine := PumpEndsWell(env, line, events, end, before.delivered, w1.now, [], w1, IDLE);
        EndsWellMeans(env, line, events, end, before.delivered, w1.now, mine, t);
      }
    }
  }

  lemma FitsAtFirst(env: Env, line: Line, all: seq<Timed<Bytes>>, w: World)
    ensures Fits(env, line, all, w.delivered, w.now, [], w, IDLE)
  {
    assert w.delivered + [] == w.delivered;
  }

  lemma EndsWellMeans(env: Env, line: Line, all: seq<Timed<Bytes>>, end: Timed<Ending>, base: seq<Delivery>, began: int, mine: seq<Delivery>, t: Tried)
    requires EndsWell(env, line, all, end, base, began, mine, t)
    ensures t.w.delivered == base + mine && (t.retry ==> mine == [] && t.result.Failure?)
  {
    hide Faithful, Handled, TimeOf, IsFrame, HasFinal;
  }

  /** The whole stream, its final frame included, was delivered and taken, and is signed for if signatures are asked for. */
  ghost predicate Completed(env: Env, line: Line, all: seq<Timed<Bytes>>, end: Ending, base: seq<Delivery>, mine: seq<Delivery>) {
    && Faithful(env, line, all, mine) && Handled(env, base, mine, |mine|)
    && AllRead(env, all, end, mine) && HasFinal(env, mine)
    && (env.verifies ==> SignedFor(env, line, mine))
  }

  lemma {:induction false} SamePrefix(env: Env, line: Line, all: seq<Timed<Bytes>>, a: seq<Delivery>, b: seq<Delivery>, n: nat)
    requires Faithful(env, line, all, a) && Faithful(env, line, all, b) && n <= |a| && n <= |b|
    ensures a[..n] == b[..n]
  {
    if n > 0 {
      SamePrefix(env, line, all, a, b, n - 1);
      assert IsFrame(env, line, a[..n - 1], all[n - 1].value, a[n - 1]);
      assert IsFrame(env, line, b[..n - 1], all[n - 1].value, b[n - 1]);
      assert a[n - 1] == b[n - 1];
      assert a[..n] == a[..n - 1] + [a[n - 1]] && b[..n] == b[..n - 1] + [b[n - 1]];
    }
  }

  /** What an attempt delivered is all of the stream, when all of it can be. */
  lemma DeliversAll(env: Env, line: Line, all: seq<Timed<Bytes>>, end: Timed<Ending>, base: seq<Delivery>, began: int,
                    mine: seq<Delivery>, whole: seq<Delivery>, t: Tried)
    requires EndsWell(env, line, all, end, base, began, mine, t) && Completed(env, line, all, end.value, base, whole)
    ensures mine == whole && !LastRefused(env, base, mine)
  {
    hide SignedFor, TimeOf, DoesNotOpen, HasFinal, IsFrame;
    var n := if |mine| <= |whole| then |mine| else |whole|;
    SamePrefix(env, line, all, mine, whole, n);
    assert mine[..|mine|] == mine && whole[..|whole|] == whole;
    if |whole| < |mine| {
      assert IsFrame(env, line, mine[..n], all[n].value, mine[n]);
      FrameIsNotDone(env, line, mine[..n], all[n].value, mine[n]);
    } else {
      assert n > 0 ==> env.onFrame(Plains(base + whole[..n])).value.None?;
      if |mine| < |whole| {
        assert IsFrame(env, line, whole[..n], all[n].value, whole[n]);
        FrameIsNotDone(env, line, whole[..n], all[n].value, whole[n]);
      }
    }
  }

  lemma FrameIsNotDone(env: Env, line: Line, sofar: seq<Delivery>, data: Bytes, d: Delivery)
    requires IsFrame(env, line, sofar, data, d)
    ensures !env.isDone(data)
  {
  }

  /** A streaming attempt succeeds exactly when its reply streams and all of the stream is delivered, taken and signed for. */
  lemma StreamOnceMeans(env: Env, before: World, p: Provider)
    ensures StreamOnce(env, before, p).result.Success? <==>
            exists line: Line, mine: seq<Delivery> :: line.call == before.calls && line.provider == p && Streams(env, line)
                                 && Completed(env, line, StreamOf(env, line), EndOf(env, line).value, before.delivered, mine)
    ensures StreamOnce(env, before, p).result.Success? ==> StreamOnce(env, before, p).result.value == Streamed
  {
    hide StreamOnce, Streams, EndsWell, Completed;
    var t := StreamOnce(env, before, p);
    var line, mine := StreamOnceDelivers(env, before, p);
    if Streams(env, line) {
      var all, end, began := StreamOf(env, line), EndOf(env, line), BeganAt(env, line, before.now);
      if whole :| Completed(env, line, all, end.value, before.delivered, whole) {
        DeliversAll(env, line, all, end, before.delivered, began, mine, whole, t);
        CompletedSucceeds(env, line, all, end, before.delivered, began, mine, t);
      }
      if t.result.Success? {
        SuccessCompletes(env, line, all, end, before.delivered, began, mine, t);
      }
    }
  }

  lemma CompletedSucceeds(env: Env, line: Line, all: seq<Timed<Bytes>>, end: Timed<Ending>, base: seq<Delivery>, began: int, mine: seq<Delivery>, t: Tried)
    requires EndsWell(env, line, all, end, base, began, mine, t) && !LastRefused(env, base, mine)
    requires Completed(env, line, all, end.value, base, mine)
    ensures t.result == Success(Streamed)
  {
    hide Faithful, Handled, TimeOf, IsFrame, HasFinal, SignedFor, LastRefused;
  }

  lemma SuccessCompletes(env: Env, line: Line, all: seq<Timed<Bytes>>, end: Timed<Ending>, base: seq<Delivery>, began: int, mine: seq<Delivery>, t: Tried)
    requires EndsWell(env, line, all, end, base, began, mine, t) && t.result.Success?
    ensures Completed(env, line, all, end.value, base, mine) && t.result == Success(Streamed)
  {
    hide Faithful, TimeOf, IsFrame, HasFinal, SignedFor;
    assert mine[..|mine|] == mine;
  }

  // ---------------------------------------------------------------- When a delivered frame comes back as a stale key

  type Handler = seq<Bytes> -> Timed<Option<Failure>>

  /** The handler took every frame of h but, perhaps, the last. */
  ghost predicate TookAllBefore(handler: Handler, h: seq<Bytes>) {
    forall n :: 0 < n < |h| ==> handler(h[..n]).value.None?
  }

  /** Having taken all frames before, the handler answers the last of h with a stale-key 409 of its own. */
  ghost predicate StaleAt(handler: Handler, h: seq<Bytes>) {
    h != [] && TookAllBefore(handler, h) && handler(h).value.Some? && IsKeyMismatch(handler(h).value.value)
  }

  /** The handler never does. */
  ghost predicate Tame(handler: Handler) {
    forall h :: !StaleAt(handler, h)
  }

  ghost predicate Took(handler: Handler, h: seq<Bytes>) {
    TookAllBefore(handler, h) && (h != [] ==> handler(h).value.None?)
  }

  lemma TakeStale(env: Env, line: Line, w: World, st: Pumping, data: Bytes)
    requires Took(env.onFrame, Plains(w.delivered))
    ensures match Take(env, line, w, st, data)
            case Going(w2, _) => Took(env.onFrame, Plains(w2.delivered))
            case Stopped(t) => t.result.Failure? && (IsKeyMismatch(t.result.error) ==> StaleAt(env.onFrame, Plains(t.w.delivered)))
  {
    var taken := Take(env, line, w, st, data);
    if env.decode(data).Some? && env.final(env.decode(data).value).Some? {
      var frame := env.decode(data).value;
      var opener := if st.opener.None? then frame else st.opener.value;
      var out := env.openFrame(BindsResponse(env, line.provider), opener, st.index, frame);
      if out.Some? {
        var more := w.delivered + [Delivery(line.call, frame, out.value)];
        var h := Plains(more);
        assert h[..|w.delivered|] == Plains(w.delivered);
        assert TookAllBefore(env.onFrame, h) by {
          forall n | 0 < n < |h| ensures env.onFrame(h[..n]).value.None? {
            assert h[..n] == Plains(w.delivered)[..n];
            if n == |w.delivered| { assert h[..n] == Plains(w.delivered); }
          }
        }
      }
    }
  }

  /** A stream that ends in a stale-key 409 got it from the handler: its own failures carry no status. */
  lemma {:induction false} PumpStale(env: Env, line: Line, events: seq<Timed<Bytes>>, end: Timed<Ending>, w: World, st: Pumping)
    requires Took(env.onFrame, Plains(w.delivered))
    ensures var t := Pump(env, line, events, end, w, st);
            t.result.Failure? && IsKeyMismatch(t.result.error) ==> StaleAt(env.onFrame, Plains(t.w.delivered))
    decreases |events|
  {
    hide Take, Took, StaleAt;
    if events != [] && !env.isDone(events[0].value) {
      var w1 := Later(w, events[0].dur);
      TakeStale(env, line, w1, st, events[0].value);
      match Take(env, line, w1, st, events[0].value) {
        case Going(w2, st2) => PumpStale(env, line, events[1..], end, w2, st2);
        case Stopped(_) =>
      }
    }
  }

  lemma StreamOnceStale(env: Env, before: World, p: Provider)
    requires before.delivered == [] && Tame(env.onFrame)
    ensures var t := StreamOnce(env, before, p);
            t.result.Failure? && IsKeyMismatch(t.result.error) ==> t.w.delivered == []
  {
    hide Pump, StaleAt;
    if env.seal(before.calls, p).Some? {
      var envelope := env.seal(before.calls, p).value;
      var reply := env.post(before.calls, p, envelope);
      if reply.value.Answer? {
        PumpStale(env, Line(before.calls, p, envelope, reply.value.resKey), reply.value.events, reply.value.end,
                  Later(before.(calls := before.calls + 1), reply.dur), IDLE);
      }
    }
  }

  // ---------------------------------------------------------------- The other two attempts

  /** The call was answered, under its own envelope, with this. */
  ghost predicate AnsweredBy(env: Env, k: nat, p: Provider, envelope: Bytes, reply: Reply) {
    env.seal(k, p) == Some(envelope) && env.post(k, p, envelope).value == reply && reply.Answer?
  }

  /** The reply opens to `text`, and with verification on the provider's signature is over that very reply. */
  ghost predicate Genuine(env: Env, k: nat, p: Provider, envelope: Bytes, reply: Reply, text: Bytes)
    requires reply.Answer?
  {
    && reply.status == 200 && reply.body.Some?
    && env.decode(reply.body.value).Some?
    && var frame := env.decode(reply.body.value).value;
       && env.openReply(p.bindResponse && env.profileBinds, frame) == Some(text)
       && (env.verifies ==>
             && reply.resKey != ""
             && env.signature(k, p, reply.resKey).value.Some?
             && env.signs(env.replyText(envelope, frame), env.signature(k, p, reply.resKey).value.value, p.signerAddr))
  }

  /** A buffered attempt returns a text exactly when its reply is genuine and opens to it. */
  lemma CompleteOnceMeans(env: Env, before: World, p: Provider, text: Bytes)
    ensures CompleteOnce(env, before, p).result == Success(Plain(text)) <==>
            exists envelope, reply :: AnsweredBy(env, before.calls, p, envelope, reply) && Genuine(env, before.calls, p, envelope, reply, text)
  {
    var k := before.calls;
    if env.seal(k, p).Some? {
      var envelope := env.seal(k, p).value;
      var reply := env.post(k, p, envelope).value;
      if reply.Answer? {
        assert AnsweredBy(env, k, p, envelope, reply);
        if CompleteOnce(env, before, p).result == Success(Plain(text)) {
          assert Genuine(env, k, p, envelope, reply, text);
        }
      }
    }
  }

  lemma CompleteOnceFrame(env: Env, before: World, p: Provider)
    ensures var t := CompleteOnce(env, before, p);
            && t.w.delivered == before.delivered && t.w.accepted == before.accepted && t.w.calls == before.calls + 1
            && (t.result.Success? ==> t.result.value.Plain?)
  {
  }

  lemma {:induction false} PumpAccepts(env: Env, line: Line, events: seq<Timed<Bytes>>, end: Timed<Ending>, w: World, st: Pumping)
    ensures Pump(env, line, events, end, w, st).w.accepted == w.accepted
    decreases |events|
  {
    if events != [] && !env.isDone(events[0].value) {
      match Take(env, line, Later(w, events[0].dur), st, events[0].value) {
        case Going(w2, st2) => PumpAccepts(env, line, events[1..], end, w2, st2);
        case Stopped(_) =>
      }
    }
  }

  /**
   The answer to call k is no sealed one, names a job and the provider the request was pinned to, and is
   handed on with the user id of that job in place of its own and nothing else changed.
   */
  ghost predicate NamesTheProvider(env: Env, k: nat, p: Provider, reply: Reply, fields: Fields)
    requires reply.Answer?
  {
    && !reply.oversized && reply.fields.Some?
    && "_e2ee" !in reply.fields.value && "jobId" in reply.fields.value
    && reply.fields.value["jobId"].Some? && reply.fields.value["jobId"].value != ""
    && "jobId" in fields && fields["jobId"].Some? && env.userJobID(k, reply.fields.value["jobId"].value) == fields["jobId"]
    && fields.Keys == reply.fields.value.Keys
    && (forall f :: f in fields && f != "jobId" ==> fields[f] == reply.fields.value[f])
    && (p.address != "" ==> env.samePin(TextOf(fields, "provider_address"), p.address))
  }

  /** The job a submit returns: its answer is a 2xx that names it and the pinned provider. */
  ghost predicate SubmitsAs(env: Env, k: nat, p: Provider, status: int, fields: Fields) {
    exists envelope, reply ::
      && AnsweredBy(env, k, p, envelope, reply) && reply.status == status && 200 <= status <= 299 && reply.body.Some?
      && NamesTheProvider(env, k, p, reply, fields)
  }

  /** Call k was answered with a 2xx. */
  ghost predicate Accepts(env: Env, k: nat, p: Provider) {
    exists envelope, reply :: AnsweredBy(env, k, p, envelope, reply) && 200 <= reply.status <= 299
  }

  /** A submit is over after any 2xx, for good or ill: it neither falls back nor reads as a stale key. */
  lemma SubmitOnceMeans(env: Env, before: World, p: Provider)
    ensures var t := SubmitOnce(env, before, p);
            && t.w.delivered == before.delivered && t.w.calls == before.calls + 1
            && t.w.accepted == (if Accepts(env, before.calls, p) then before.accepted + [before.calls] else before.accepted)
            && (Accepts(env, before.calls, p) ==> !t.retry && (t.result.Failure? ==> !IsKeyMismatch(t.result.error)))
            && (t.result.Success? ==> Accepts(env, before.calls, p) && t.result.value.Job?)
            && forall status, fields :: t.result == Success(Job(status, fields)) <==> SubmitsAs(env, before.calls, p, status, fields)
  {
    var k := before.calls;
    var t := SubmitOnce(env, before, p);
    if env.seal(k, p).Some? {
      var envelope := env.seal(k, p).value;
      var reply := env.post(k, p, envelope).value;
      if reply.Answer? {
        assert AnsweredBy(env, k, p, envelope, reply);
        forall status, fields ensures t.result == Success(Job(status, fields)) <==> SubmitsAs(env, k, p, status, fields) {
          hide AnsweredBy;
          UserJobMeans(env, k, reply, p, fields);
          assert NamesTheProvider(env, k, p, reply, fields) <==> UserJobResponse(env, k, reply, p) == Some(fields);
        }
      }
    }
  }

  lemma UserJobMeans(env: Env, k: nat, reply: Reply, p: Provider, fields: Fields)
    requires reply.Answer?
    ensures UserJobResponse(env, k, reply, p) == Some(fields) <==> NamesTheProvider(env, k, p, reply, fields)
  {
    if NamesTheProvider(env, k, p, reply, fields) {
      assert fields == reply.fields.value["jobId" := fields["jobId"]];
      assert TextOf(fields, "provider_address") == TextOf(reply.fields.value, "provider_address");
    }
  }

  // ---------------------------------------------------------------- When the next candidate is left open

  /** A failure another provider may not have: a rate limit or server error, or an answer that cannot be used. */
  predicate Transient(f: Failure) {
    && f.Fault? && f.stage == AtUpstream
    && match f.what
       case Rejected => RetryableStatus(f.status)
       case NotAStream => true
       case BodyDropped => true
       case Undecodable => true
       case Unopenable => true
       case Truncated => true
       case Aborted => true
       case ReadBroken => true
       case _ => false
  }

  /** Call k was answered with this status and this error. */
  ghost predicate AnsweredAs(env: Env, k: nat, p: Provider, status: int, error: ErrorField) {
    exists envelope, reply :: AnsweredBy(env, k, p, envelope, reply) && reply.status == status && reply.error == error
  }

  /** Call k was refused for a stale key. */
  ghost predicate RefusedAsStale(env: Env, k: nat, p: Provider) {
    exists msg :: "e2ee_key_mismatch" <= msg && (AnsweredAs(env, k, p, 409, Text(msg)) || AnsweredAs(env, k, p, 409, Object(Some(msg))))
  }

  /** A status that another provider may not give: a rate limit, or a server error. */
  predicate Passing(status: int) { status == 429 || 500 <= status < 600 }

  /** A buffered reply another provider may better: a 429, a 5xx, or a 200 that does not open. */
  ghost predicate BufferedFallsBack(env: Env, k: nat, p: Provider) {
    exists envelope, reply :: AnsweredBy(env, k, p, envelope, reply) &&
      (|| Passing(reply.status)
       || (reply.status == 200 &&
           (|| reply.body.None? || env.decode(reply.body.value).None?
            || env.openReply(p.bindResponse && env.profileBinds, env.decode(reply.body.value).value).None?)))
  }

  /** The stream ends before a frame can be delivered, and not because the caller has gone. */
  ghost predicate EndsSilently(env: Env, line: Line, all: seq<Timed<Bytes>>, end: Ending) {
    if all == [] then end.Broken? && end.ctxDone ==> !env.canceled(line.call, Reading)
    else env.isDone(all[0].value) || forall d :: !IsFrame(env, line, [], all[0].value, d)
  }

  /** A streaming reply another provider may better: a 429, a 5xx, or a 200 that is no stream or a silent one. */
  ghost predicate StreamingFallsBack(env: Env, k: nat, p: Provider) {
    exists envelope, reply :: AnsweredBy(env, k, p, envelope, reply) &&
      (|| Passing(reply.status)
       || (reply.status == 200 &&
           (|| !reply.eventStream
            || ((env.verifies ==> env.binds(envelope))
                && EndsSilently(env, Line(k, p, envelope, reply.resKey), reply.events, reply.end.value)))))
  }

  /** A submit another provider may better: a 429 or a 5xx. */
  ghost predicate AsyncFallsBack(env: Env, k: nat, p: Provider) {
    exists envelope, reply :: AnsweredBy(env, k, p, envelope, reply) && Passing(reply.status)
  }

  lemma CompleteOnceFallsBack(env: Env, before: World, p: Provider)
    ensures var t := CompleteOnce(env, before, p);
            && (t.retry <==> BufferedFallsBack(env, before.calls, p))
            && (t.retry <==> t.result.Failure? && Transient(t.result.error))
            && (t.result.Failure? && IsKeyMismatch(t.result.error) <==> RefusedAsStale(env, before.calls, p))
  {
    var k := before.calls;
    if env.seal(k, p).Some? {
      var envelope := env.seal(k, p).value;
      var reply := env.post(k, p, envelope).value;
      if reply.Answer? {
        assert AnsweredBy(env, k, p, envelope, reply);
        AnswerIs(env, k, p, envelope, reply);
      }
    }
  }

  /** What an attempt reports when it gets no answer to use: that it could not be sealed or sent, or the status and error it was refused with. */
  ghost predicate TellsWhy(env: Env, k: nat, p: Provider, accepts: int -> bool, r: Result<Output, Failure>) {
    match env.seal(k, p)
    case None => r == Result.Failure(Fault(AtRequest, 0, Missing, Sealing))
    case Some(envelope) =>
      match env.post(k, p, envelope).value
      case NoAnswer => r == Result.Failure(Fault(AtUpstream, 0, Missing, Posting))
      case Answer(status, _, error, _, _, _, _, _, _) =>
        !accepts(status) ==> r == Result.Failure(Fault(AtUpstream, status, error, Rejected))
  }

  /** In all three modes; and an answer that is accepted and not used fails for what is wrong with it. */
  lemma FailuresTell(env: Env, before: World, p: Provider)
    ensures TellsWhy(env, before.calls, p, status => status == 200, CompleteOnce(env, before, p).result)
    ensures TellsWhy(env, before.calls, p, status => status == 200, StreamOnce(env, before, p).result)
    ensures TellsWhy(env, before.calls, p, status => 200 <= status <= 299, SubmitOnce(env, before, p).result)
    ensures var r := CompleteOnce(env, before, p).result;
            r.Failure? && !BufferedFallsBack(env, before.calls, p) ==>
              r.error.what in {Sealing, Posting, Rejected, Unverified} && (r.error.what.Unverified? ==> r.error == Upstream(Unverified) && env.verifies)
  {
    hide Pump, BufferedFallsBack;
    CompleteOnceFallsBack(env, before, p);
  }

  /** All the time a buffered attempt takes: that of its call, and of the signature if it comes to fetching one. */
  lemma CompleteOnceTakes(env: Env, before: World, p: Provider)
    ensures var k, took := before.calls, CompleteOnce(env, before, p).w.now - before.now;
            match env.seal(k, p)
            case None => took == 0
            case Some(envelope) =>
              var posted := env.post(k, p, envelope);
              && (!env.verifies || BufferedFallsBack(env, k, p) || (posted.value.Answer? && (posted.value.status != 200 || posted.value.resKey == "")) || posted.value.NoAnswer? ==>
                    took == posted.dur)
              && (env.verifies && !BufferedFallsBack(env, k, p) && posted.value.Answer? && posted.value.status == 200 && posted.value.resKey != "" ==>
                    took == posted.dur + env.signature(k, p, posted.value.resKey).dur)
  {
    CompleteOnceFallsBack(env, before, p);
    hide BufferedFallsBack, RefusedAsStale, IsKeyMismatch;
  }

  /** And a submit that of its call. */
  lemma SubmitOnceTakes(env: Env, before: World, p: Provider)
    ensures var k := before.calls;
            SubmitOnce(env, before, p).w.now - before.now == match env.seal(k, p) case None => 0 case Some(envelope) => env.post(k, p, envelope).dur
  {
  }

  lemma SubmitOnceFallsBack(env: Env, before: World, p: Provider)
    ensures var t := SubmitOnce(env, before, p);
            && (t.retry <==> AsyncFallsBack(env, before.calls, p))
            && (t.retry <==> t.result.Failure? && Transient(t.result.error) && t.result.error.what.Rejected?)
            && (t.result.Failure? && IsKeyMismatch(t.result.error) <==> RefusedAsStale(env, before.calls, p))
  {
    var k := before.calls;
    if env.seal(k, p).Some? {
      var envelope := env.seal(k, p).value;
      var reply := env.post(k, p, envelope).value;
      if reply.Answer? {
        assert AnsweredBy(env, k, p, envelope, reply);
        AnswerIs(env, k, p, envelope, reply);
      }
    }
  }

  /** A call has one answer. */
  lemma AnswerIs(env: Env, k: nat, p: Provider, envelope: Bytes, reply: Reply)
    requires AnsweredBy(env, k, p, envelope, reply)
    ensures AnsweredAs(env, k, p, reply.status, reply.error)
    ensures forall status, error :: AnsweredAs(env, k, p, status, error) ==> status == reply.status && error == reply.error
  {
  }

  lemma StreamOnceFallsBack(env: Env, before: World, p: Provider)
    ensures var t := StreamOnce(env, before, p);
            var silent := t.w.delivered == before.delivered;
            && (t.retry <==> StreamingFallsBack(env, before.calls, p))
            && (t.retry <==> t.result.Failure? && silent && Transient(t.result.error)
                             && (t.result.error.what.Aborted? ==> !env.canceled(before.calls, Reading)))
            && (t.result.Failure? && silent && IsKeyMismatch(t.result.error) <==> RefusedAsStale(env, before.calls, p))
  {
    hide Pump, EndsWell, EndsSilently;
    var k := before.calls;
    var t := StreamOnce(env, before, p);
    var line, mine := StreamOnceDelivers(env, before, p);
    if env.seal(k, p).Some? {
      var envelope := env.seal(k, p).value;
      var reply := env.post(k, p, envelope).value;
      if reply.Answer? {
        assert AnsweredBy(env, k, p, envelope, reply);
        AnswerIs(env, k, p, envelope, reply);
        if Streams(env, Line(k, p, envelope, reply.resKey)) {
          EndsWellFallsBack(env, line, reply.events, reply.end, before.delivered, BeganAt(env, line, before.now), mine, t);
        }
      }
    }
  }

  /** What the end of a stream leaves open. */
  lemma EndsWellFallsBack(env: Env, line: Line, all: seq<Timed<Bytes>>, end: Timed<Ending>, base: seq<Delivery>, began: int, mine: seq<Delivery>, t: Tried)
    requires EndsWell(env, line, all, end, base, began, mine, t)
    ensures t.retry <==> EndsSilently(env, line, all, end.value)
    ensures t.retry <==> t.result.Failure? && mine == [] && Transient(t.result.error)
                         && (t.result.error.what.Aborted? ==> !env.canceled(line.call, Reading))
    ensures mine == [] && t.result.Failure? ==> !IsKeyMismatch(t.result.error)
  {
    hide TimeOf, IsFrame, SignedFor, DoesNotOpen;
    if mine != [] {
      assert mine[..0] == [];
      assert IsFrame(env, line, mine[..0], all[0].value, mine[0]);
      FrameIsNotDone(env, line, mine[..0], all[0].value, mine[0]);
    }
  }
}
