/**
 Server-sent events, as the client reads them (client/core/stream.go:334-374) and its own front end
 names (protocol/wire/response.go:244-265) and writes them (client/openaiproxy/proxy.go:561-634). A byte
 is a `char`.
 */
module Sse {
  import opened Wrappers

  /** maxSSELine. */
  const MAX_LINE := 4_194_304

  // ---------------------------------------------------------------- Reading

  /** Where the first line feed is, |s| if there is none. */
  function LineEnd(s: string): (i: nat)
    ensures i <= |s| && (i < |s| ==> s[i] == '\n')
    ensures forall j :: 0 <= j < i ==> s[j] != '\n'
  {
    if s == "" || s[0] == '\n' then 0 else LineEnd(s[1..]) + 1
  }

  function DropCR(line: string): string {
    if line != "" && line[|line| - 1] == '\r' then line[..|line| - 1] else line
  }

  datatype Scanned = NoMore | Line(line: string, rest: string) | TooLong

  /** bufio.Scanner over ScanLines: a line that fills the buffer before its line feed is too long. */
  function Scan(s: string): (r: Scanned)
    ensures r.Line? ==> |r.rest| < |s|
  {
    if s == "" then NoMore
    else
      var i := LineEnd(s);
      if i >= MAX_LINE then TooLong
      else if i == |s| then Line(DropCR(s), "")
      else Line(DropCR(s[..i]), s[i + 1..])
  }

  datatype Read = Data(data: string) | Eof | Broken

  const FIELD := "data:"

  /** bytes.TrimPrefix of one space. */
  function TrimSpace(s: string): string { if s != "" && s[0] == ' ' then s[1..] else s }

  /** The data so far with one more line's payload. */
  function Appended(data: string, have: bool, line: string): string
    requires FIELD <= line
  {
    (if have then data + "\n" else data) + TrimSpace(line[|FIELD|..])
  }

  /** next, from the point where `data` has been gathered, and what is left to read. */
  function Gather(s: string, data: string, have: bool): (r: (Read, string))
    ensures |r.1| <= |s| && (r.0.Data? && !have ==> |r.1| < |s|)
    decreases |s|
  {
    match Scan(s)
    case NoMore => (if have then Data(data) else Eof, "")
    case TooLong => (Broken, s)
    case Line(line, rest) =>
      if line == "" then if have then (Data(data), rest) else Gather(rest, data, have)
      else if FIELD <= line then Gather(rest, Appended(data, have, line), true)
      else Gather(rest, data, have)
  }

  class SseReader {
    var rest: string

    constructor (s: string)
      ensures rest == s
    {
      rest := s;
    }

    method Next() returns (r: Read)
      modifies this
      ensures (r, rest) == Gather(old(rest), "", false)
    {
      var data, have := "", false;
      while true
        invariant Gather(old(rest), "", false) == Gather(rest, data, have)
        decreases |rest|
      {
        var scanned := Scan(rest);
        match scanned {
          case NoMore =>
            r := if have then Data(data) else Eof;
            return;
          case TooLong =>
            return Broken;
          case Line(line, more) =>
            rest := more;
            if line == "" {
              if have {
                return Data(data);
              }
            } else if FIELD <= line {
              data := Appended(data, have, line);
              have := true;
            }
        }
      }
    }
  }

  /** All the reads until one is not data. */
  datatype Stream = Stream(events: seq<string>, end: Read)

  function ReadAll(s: string): Stream
    decreases |s|
  {
    var (r, rest) := Gather(s, "", false);
    if r.Data? then
      var more := ReadAll(rest);
      Stream([r.data] + more.events, more.end)
    else Stream([], r)
  }

  // ---------------------------------------------------------------- Writing

  datatype Event = Event(name: string, payload: string)

  function Written(e: Event): string {
    (if e.name == "" then "" else "event: " + e.name + "\n") + "data: " + e.payload + "\n\n"
  }

  function WrittenAll(events: seq<Event>): string {
    if events == [] then "" else Written(events[0]) + WrittenAll(events[1..])
  }

  function Payloads(events: seq<Event>): seq<string> {
    if events == [] then [] else [events[0].payload] + Payloads(events[1..])
  }

  /** A payload that survives: one line, that does not end in a carriage return and is not too long. */
  predicate Survives(p: string) {
    && (forall i :: 0 <= i < |p| ==> p[i] != '\n')
    && (p != "" ==> p[|p| - 1] != '\r')
    && |p| + 6 < MAX_LINE
  }

  predicate IsOneLine(s: string) { forall i :: 0 <= i < |s| ==> s[i] != '\n' }

  /** And a name: under the cap, if there is one to write. */
  predicate NameFits(name: string) { name != "" ==> |name| + 7 < MAX_LINE }

  predicate EventSurvives(e: Event) { NameFits(e.name) && Survives(e.payload) }

  /**
   ResponseEventName: no name where the surface has no event taxonomy, and otherwise the frame's kind, if
   it is one the taxonomy knows and holds no line break.
   */
  function ResponseEventName(typed: bool, kind: Option<string>): (name: Option<string>)
    ensures name.Some? ==> IsOneLine(name.value)
  {
    if !typed then Some("")
    else
      match kind
      case None => None
      case Some(k) => if exists i :: 0 <= i < |k| && (k[i] == '\n' || k[i] == '\r') then None else Some(k)
  }

  /** A frame as the front end's handler gets it, with its kind if that is known. */
  datatype Frame = Frame(kind: Option<string>, payload: string)

  /** A failure as the front end reports it, under the surface's own error name if it has names. */
  function ErrorEvent(typed: bool, report: string): Event { Event(if typed then "error" else "", report) }

  /**
   What the front end writes for a stream. `started` says whether its headers are out, before which a failure
   is no event; `failure` is the report of how the stream itself failed, if it did, and `refusal` that of a
   frame with no name, which ends it.
   */
  function Announced(typed: bool, frames: seq<Frame>, started: bool, failure: Option<string>, refusal: string): (events: seq<Event>)
    ensures forall i :: 0 <= i < |events| ==> IsOneLine(events[i].name)
  {
    if frames == [] then
      match failure
      case None => if typed then [] else [Event("", "[DONE]")]
      case Some(report) => if started then [ErrorEvent(typed, report)] else []
    else
      match ResponseEventName(typed, frames[0].kind)
      case None => if started then [ErrorEvent(typed, refusal)] else []
      case Some(name) => [Event(name, frames[0].payload)] + Announced(typed, frames[1..], true, failure, refusal)
  }

  /** The first line, when it is known. */
  lemma {:induction false} LineEndAt(line: string, rest: string)
    requires forall i :: 0 <= i < |line| ==> line[i] != '\n'
    ensures LineEnd(line + "\n" + rest) == |line|
  {
    var s := line + "\n" + rest;
    var i := LineEnd(s);
    assert forall j :: 0 <= j < |line| ==> s[j] == line[j];
    assert s[|line|] == '\n';
  }

  lemma ScanLine(line: string, rest: string)
    requires (forall i :: 0 <= i < |line| ==> line[i] != '\n') && |line| < MAX_LINE
    ensures Scan(line + "\n" + rest) == Line(DropCR(line), rest)
  {
    var s := line + "\n" + rest;
    LineEndAt(line, rest);
    assert s[..|line|] == line && s[|line| + 1..] == rest;
  }

  /** What one line does. */
  lemma GatherLine(line: string, rest: string, data: string, have: bool)
    requires (forall i :: 0 <= i < |line| ==> line[i] != '\n') && |line| < MAX_LINE
    ensures var r := Gather(line + "\n" + rest, data, have); var read := DropCR(line);
            && (read == "" && have ==> r == (Data(data), rest))
            && (FIELD <= read ==> r == Gather(rest, Appended(data, have, read), true))
            && (read != "" && !(FIELD <= read) ==> r == Gather(rest, data, have))
  {
    ScanLine(line, rest);
    hide DropCR, Appended, Scan;
  }

  /** An event line is passed over. */
  lemma NameIsIgnored(name: string, rest: string)
    requires IsOneLine(name) && NameFits(name) && name != ""
    ensures Gather("event: " + name + "\n" + rest, "", false) == Gather(rest, "", false)
  {
    var line := "event: " + name;
    var read := DropCR(line);
    assert read[0] == 'e' && FIELD[0] == 'd';
    GatherLine(line, rest, "", false);
  }

  /** What the first line of a payload reads as, and what is left. */
  lemma DataLine(first: string, rest: string)
    requires (forall i :: 0 <= i < |first| ==> first[i] != '\n') && |first| + 6 < MAX_LINE
    ensures Gather("data: " + first + "\n" + rest, "", false) == Gather(rest, DropCR(first), true)
  {
    hide Gather;
    var line := "data: " + first;
    DataField(first);
    GatherLine(line, rest, "", false);
  }

  lemma DataField(first: string)
    ensures var read := DropCR("data: " + first); FIELD <= read && Appended("", false, read) == DropCR(first)
  {
    var read := DropCR("data: " + first);
    assert read == "data: " + DropCR(first);
    assert FIELD == read[..5] && read[5..] == " " + DropCR(first);
    assert TrimSpace(read[5..]) == DropCR(first);
    assert "" + DropCR(first) == DropCR(first);
  }

  lemma BlankLine(data: string, rest: string)
    ensures Gather("\n" + rest, data, true) == (Data(data), rest)
  {
    GatherLine("", rest, data, true);
    assert "" + "\n" + rest == "\n" + rest;
  }

  /** A payload that survives comes back, whatever follows it. */
  lemma SurvivorIsRead(p: string, rest: string)
    requires Survives(p)
    ensures Gather("data: " + p + "\n\n" + rest, "", false) == (Data(p), rest)
  {
    hide Gather;
    assert "data: " + p + "\n" + ("\n" + rest) == "data: " + p + "\n\n" + rest;
    assert DropCR(p) == p;
    DataLine(p, "\n" + rest);
    BlankLine(p, rest);
  }

  // ---------------------------------------------------------------- Any event

  /** Lines as they are sent, each with its line feed. */
  function Lines(lines: seq<string>): string { if lines == [] then "" else lines[0] + "\n" + Lines(lines[1..]) }

  /** A line that can be read and is not blank, less its carriage return if it ends in one. */
  predicate IsLine(line: string) { IsOneLine(line) && |line| < MAX_LINE && line != "" && line != "\r" }

  /** What a line gives, less its carriage return: what follows the name of the data field, less one space; other lines none. */
  function DataIn(line: string): Option<string> {
    var n := if line != "" && line[|line| - 1] == '\r' then |line| - 1 else |line|;
    if n < 5 || line[..5] != "data:" then None else Some(line[if n > 5 && line[5] == ' ' then 6 else 5..n])
  }

  /** The payloads of the data lines among these, in order. */
  function DataOf(lines: seq<string>): seq<string> {
    if lines == [] then []
    else (match DataIn(lines[0]) case None => [] case Some(p) => [p]) + DataOf(lines[1..])
  }

  lemma DataInMeans(line: string, data: string, have: bool)
    ensures var read := DropCR(line);
            && (FIELD <= read <==> DataIn(line).Some?)
            && (FIELD <= read ==> Appended(data, have, read) == (if have then data + "\n" else data) + DataIn(line).value)
  {
    var read := DropCR(line);
    if FIELD <= read {
      assert read[..5] == FIELD;
      assert line[..5] == read[..5];
      assert TrimSpace(read[5..]) == DataIn(line).value;
    } else if |read| >= 5 {
      assert line[..5] == read[..5];
      assert read[..5] != FIELD;
    }
  }

  /** Payloads joined by line feeds, after one that came before. */
  function Joined(ps: seq<string>): string { if ps == [] then "" else "\n" + ps[0] + Joined(ps[1..]) }

  /** The lines of one event, with what was gathered before, and the blank line or the end of the stream. */
  lemma {:induction false} GatherLines(lines: seq<string>, after: string, data: string, have: bool)
    requires forall i :: 0 <= i < |lines| ==> IsLine(lines[i])
    requires !have ==> data == ""
    ensures var ps := DataOf(lines);
            Gather(Lines(lines) + after, data, have)
            == if have then Gather(after, data + Joined(ps), true)
               else if ps == [] then Gather(after, "", false)
               else Gather(after, ps[0] + Joined(ps[1..]), true)
    decreases |lines|
  {
    hide Gather, Appended, DataIn;
    if lines == [] {
      assert Lines(lines) + after == after && data + "" == data;
    } else {
      var line, tail := lines[0], lines[1..];
      assert Lines(lines) + after == line + "\n" + (Lines(tail) + after);
      GatherLine(line, Lines(tail) + after, data, have);
      var read := DropCR(line);
      DataInMeans(line, data, have);
      if FIELD <= read {
        var p := DataIn(line).value;
        GatherLines(tail, after, Appended(data, have, read), true);
        JoinedMore(data, p, DataOf(tail));
        assert have || "" + p == p;
        assert DataOf(lines)[1..] == DataOf(tail);
      } else {
        GatherLines(tail, after, data, have);
        assert DataOf(lines) == DataOf(tail);
      }
    }
  }

  lemma JoinedMore(data: string, p: string, ps: seq<string>)
    ensures data + "\n" + p + Joined(ps) == data + Joined([p] + ps)
  {
    assert ([p] + ps)[1..] == ps;
    assert data + "\n" + p + Joined(ps) == data + ("\n" + p + Joined(ps));
  }

  /**
   Whatever lines are sent: up to a blank line, or the end of the stream, their data is one event, the payloads
   of the data lines joined by line feeds; lines without data are passed over.
   */
  lemma EventIsGathered(lines: seq<string>, rest: string)
    requires forall i :: 0 <= i < |lines| ==> IsLine(lines[i])
    ensures var ps := DataOf(lines); var data := if ps == [] then "" else ps[0] + Joined(ps[1..]);
            && Gather(Lines(lines) + "\n" + rest, "", false) == (if ps == [] then Gather(rest, "", false) else (Data(data), rest))
            && Gather(Lines(lines), "", false) == (if ps == [] then Eof else Data(data), "")
  {
    hide Gather;
    assert Lines(lines) + "\n" + rest == Lines(lines) + ("\n" + rest) && Lines(lines) + "" == Lines(lines);
    GatherLines(lines, "\n" + rest, "", false);
    GatherLines(lines, "", "", false);
    var ps := DataOf(lines);
    if ps == [] {
      BlankSkipped(rest);
    } else {
      BlankLine(ps[0] + Joined(ps[1..]), rest);
    }
    AtTheEnd(if ps == [] then "" else ps[0] + Joined(ps[1..]), ps != []);
  }

  lemma BlankSkipped(rest: string)
    ensures Gather("\n" + rest, "", false) == Gather(rest, "", false)
  {
    ScanLine("", rest);
    assert "" + "\n" + rest == "\n" + rest;
  }

  lemma AtTheEnd(data: string, have: bool)
    ensures Gather("", data, have) == (if have then Data(data) else Eof, "")
  {
  }

  /** A last line needs no line feed. */
  lemma LastLine(line: string, data: string, have: bool)
    requires IsOneLine(line) && line != "" && |line| < MAX_LINE
    ensures Gather(line, data, have) == Gather(line + "\n", data, have)
  {
    ScanLine(line, "");
    assert line + "\n" + "" == line + "\n";
    assert LineEnd(line) == |line|;
  }

  // ---------------------------------------------------------------- What is written

  /** A name is written exactly when the surface has none, or the frame's kind is known and one line. */
  lemma NameMeans(typed: bool, kind: Option<string>, name: string)
    ensures ResponseEventName(typed, kind) == Some(name) <==>
            if typed then kind == Some(name) && forall i :: 0 <= i < |name| ==> name[i] != '\n' && name[i] != '\r' else name == ""
  {
  }

  /** The events of the first n frames, each under its name. */
  ghost predicate NamesFrames(typed: bool, frames: seq<Frame>, n: nat, events: seq<Event>) {
    && n <= |frames| && n <= |events|
    && forall i :: 0 <= i < n ==> ResponseEventName(typed, frames[i].kind) == Some(events[i].name) && events[i].payload == frames[i].payload
  }

  /** How a stream of events closes, once its headers are out or not: with an error, with [DONE], or with nothing. */
  function Closing(typed: bool, headers: bool, error: Option<string>): seq<Event> {
    match error
    case Some(report) => if !headers then [] else if typed then [Event("error", report)] else [Event("", report)]
    case None => if typed then [] else [Event("", "[DONE]")]
  }

  /**
   The front end writes the frames up to the first without a name, and then closes: with that refusal or the
   stream's own failure as an error event if its headers are out, else, on a surface without names, with [DONE].
   */
  lemma {:induction false} AnnouncedMeans(typed: bool, frames: seq<Frame>, started: bool, failure: Option<string>, refusal: string) returns (n: nat)
    ensures var events := Announced(typed, frames, started, failure, refusal);
            && n <= |frames| && n <= |events| && NamesFrames(typed, frames, n, events)
            && (n < |frames| ==> ResponseEventName(typed, frames[n].kind) == None)
            && events[n..] == Closing(typed, started || n > 0, if n < |frames| then Some(refusal) else failure)
    decreases |frames|
  {
    hide ResponseEventName, NamesFrames, Announced;
    var events := Announced(typed, frames, started, failure, refusal);
    AnnouncedStep(typed, frames, started, failure, refusal);
    n := 0;
    if frames != [] && ResponseEventName(typed, frames[0].kind).Some? {
      var m := AnnouncedMeans(typed, frames[1..], true, failure, refusal);
      n := m + 1;
      NamesMore(typed, frames, m, events);
      assert events[n..] == events[1..][m..];
    } else {
      assert events[0..] == events;
    }
  }

  lemma AnnouncedStep(typed: bool, frames: seq<Frame>, started: bool, failure: Option<string>, refusal: string)
    ensures var events := Announced(typed, frames, started, failure, refusal);
            && NamesFrames(typed, frames, 0, events)
            && if frames != [] && ResponseEventName(typed, frames[0].kind).Some? then
                 && events != [] && events[1..] == Announced(typed, frames[1..], true, failure, refusal)
                 && ResponseEventName(typed, frames[0].kind) == Some(events[0].name) && events[0].payload == frames[0].payload
               else events == Closing(typed, started, if frames != [] then Some(refusal) else failure)
  {
    hide ResponseEventName;
  }

  lemma NamesMore(typed: bool, frames: seq<Frame>, m: nat, events: seq<Event>)
    requires frames != [] && events != [] && NamesFrames(typed, frames[1..], m, events[1..])
    requires ResponseEventName(typed, frames[0].kind) == Some(events[0].name) && events[0].payload == frames[0].payload
    ensures NamesFrames(typed, frames, m + 1, events)
    ensures m < |frames| - 1 ==> frames[m + 1] == frames[1..][m]
  {
    hide ResponseEventName;
    forall i | 0 <= i < m + 1 ensures ResponseEventName(typed, frames[i].kind) == Some(events[i].name) && events[i].payload == frames[i].payload {
      if i > 0 {
        assert frames[i] == frames[1..][i - 1] && events[i] == events[1..][i - 1];
      }
    }
  }

  // ---------------------------------------------------------------- Nothing else survives

  /** `own` closes with a blank line, or is one. */
  predicate Closes(own: string) {
    own != "" && own[|own| - 1] == '\n' && (|own| >= 2 ==> own[|own| - 2] == '\n')
  }

  /** A data line adds a line feed and loses the field's name. */
  lemma AppendedIsLess(data: string, read: string)
    requires FIELD <= read
    ensures |Appended(data, true, read)| <= |data| + |read| - 4
  {
  }

  function Less(n: nat): nat { if n <= 5 then 0 else n - 5 }

  /** The lines after the first give back less than they take: at least the field's name is lost. */
  lemma {:induction false} GathersLess(own: string, rest: string, data: string)
    requires Closes(own)
    ensures var r := Gather(own + rest, data, true).0; r.Data? ==> |r.data| <= |data| + Less(|own|)
    decreases |own|
  {
    hide Gather, Appended;
    var i := LineEnd(own);
    var line, more := own[..i], own[i + 1..];
    assert own + rest == line + "\n" + (more + rest);
    if i < MAX_LINE {
      GatherLine(line, more + rest, data, true);
      var read := DropCR(line);
      if read != "" {
        assert Closes(more);
        if FIELD <= read {
          AppendedIsLess(data, read);
          GathersLess(more, rest, Appended(data, true, read));
        } else {
          GathersLess(more, rest, data);
        }
      }
    } else {
      LongLineBreaks(line, more + rest, data, true);
    }
  }

  lemma LongLineBreaks(line: string, rest: string, data: string, have: bool)
    requires (forall i :: 0 <= i < |line| ==> line[i] != '\n') && |line| >= MAX_LINE
    ensures Gather(line + "\n" + rest, data, have).0 == Broken
  {
    LineEndAt(line, rest);
  }

  /** A payload with a line feed in it gives back less than itself. */
  lemma SeveralLinesAreLost(first: string, tail: string, rest: string)
    requires (forall i :: 0 <= i < |first| ==> first[i] != '\n') && |first| + 6 < MAX_LINE
    ensures var r := Gather("data: " + first + "\n" + (tail + "\n\n" + rest), "", false).0;
            r.Data? ==> |r.data| < |first| + 1 + |tail|
  {
    var own := tail + "\n\n";
    DataLine(first, own + rest);
    GathersLess(own, rest, DropCR(first));
  }

  lemma OnlySurvivorsAreRead(p: string, rest: string)
    requires Gather("data: " + p + "\n\n" + rest, "", false).0 == Data(p)
    ensures Survives(p)
  {
    hide Gather;
    var i := LineEnd(p);
    var first := p[..i];
    if i < |p| {
      var tail := p[i + 1..];
      assert p == first + "\n" + tail;
      assert "data: " + first + "\n" + (tail + "\n\n" + rest) == "data: " + p + "\n\n" + rest;
      if i + 6 >= MAX_LINE {
        LongLineBreaks("data: " + first, tail + "\n\n" + rest, "", false);
      } else {
        SeveralLinesAreLost(first, tail, rest);
      }
    } else {
      assert first == p;
      assert "data: " + p + "\n" + ("\n" + rest) == "data: " + p + "\n\n" + rest;
      if i + 6 >= MAX_LINE {
        LongLineBreaks("data: " + p, "\n" + rest, "", false);
      } else {
        DataLine(p, "\n" + rest);
        BlankLine(DropCR(p), rest);
      }
    }
  }

  /** The first event read from a written one whose name fits. */
  lemma FirstRead(e: Event, rest: string)
    requires IsOneLine(e.name) && NameFits(e.name)
    ensures Gather(Written(e) + rest, "", false) == Gather("data: " + e.payload + "\n\n" + rest, "", false)
  {
    hide Gather, IsOneLine, NameFits;
    var body := "data: " + e.payload + "\n\n";
    if e.name != "" {
      NameIsIgnored(e.name, body + rest);
      assert "event: " + e.name + "\n" + (body + rest) == Written(e) + rest;
    } else {
      assert Written(e) == body;
    }
  }

  lemma LongNameBreaks(e: Event, rest: string)
    requires IsOneLine(e.name) && !NameFits(e.name)
    ensures Gather(Written(e) + rest, "", false).0 == Broken
  {
    hide Gather;
    var more := "data: " + e.payload + "\n\n" + rest;
    assert Written(e) + rest == "event: " + e.name + "\n" + more;
    LongLineBreaks("event: " + e.name, more, "", false);
  }

  /** An event is read as its payload exactly when it survives. */
  lemma EventIsRead(e: Event, rest: string)
    requires IsOneLine(e.name)
    ensures EventSurvives(e) ==> Gather(Written(e) + rest, "", false) == (Data(e.payload), rest)
    ensures Gather(Written(e) + rest, "", false).0 == Data(e.payload) ==> EventSurvives(e)
  {
    hide Gather, Survives, NameFits, IsOneLine, Written;
    if !NameFits(e.name) {
      LongNameBreaks(e, rest);
    } else {
      FirstRead(e, rest);
      if Survives(e.payload) {
        SurvivorIsRead(e.payload, rest);
      } else if Gather(Written(e) + rest, "", false).0 == Data(e.payload) {
        OnlySurvivorsAreRead(e.payload, rest);
      }
    }
  }

  /**
   What was written under one-line names is read back, payload by payload and then the end, exactly when
   every name fits a line and every payload is one line that does not end in a carriage return and fits.
   */
  lemma {:induction false} ReadWritten(events: seq<Event>)
    requires forall i :: 0 <= i < |events| ==> IsOneLine(events[i].name)
    ensures ReadAll(WrittenAll(events)) == Stream(Payloads(events), Eof) <==>
            forall i :: 0 <= i < |events| ==> EventSurvives(events[i])
    decreases |events|
  {
    hide Gather, EventSurvives, Written, IsOneLine;
    if events == [] {
      NothingIsRead();
    } else {
      var e, rest := events[0], WrittenAll(events[1..]);
      ReadWritten(events[1..]);
      EventIsRead(e, rest);
      var (r, left) := Gather(WrittenAll(events), "", false);
      if EventSurvives(e) {
        assert ReadAll(WrittenAll(events)).events[1..] == ReadAll(rest).events;
        assert Payloads(events)[1..] == Payloads(events[1..]);
        if forall i :: 0 <= i < |events[1..]| ==> EventSurvives(events[1..][i]) {
          forall i | 0 <= i < |events| ensures EventSurvives(events[i]) {
            if i > 0 { assert events[i] == events[1..][i - 1]; }
          }
        }
      } else {
        assert Payloads(events)[0] == e.payload;
      }
    }
  }

  lemma NothingIsRead()
    ensures Gather("", "", false) == (Eof, "")
  {
  }

  /** So for whatever the front end writes, names, errors and all: it is read back exactly when every event survives. */
  lemma ReadAnnounced(typed: bool, frames: seq<Frame>, failure: Option<string>, refusal: string)
    ensures var events := Announced(typed, frames, false, failure, refusal);
            ReadAll(WrittenAll(events)) == Stream(Payloads(events), Eof) <==>
            forall i :: 0 <= i < |events| ==> EventSurvives(events[i])
  {
    ReadWritten(Announced(typed, frames, false, failure, refusal));
  }
}
