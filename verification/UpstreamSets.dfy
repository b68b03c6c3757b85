/**
 The upstream-set record (client/evidence/rtmr3.go:366-449): a strict line grammar whose reader
 refuses everything its writer would not have written. The printer below is that writer; the two
 are shown to be each other's inverse.
 */
module UpstreamSets {
  import opened Wrappers
  import opened Text

  /** One destination. `provider` and `identity` are empty when the member does not state them. */
  datatype Upstream = Upstream(name: string, url: string, identity: string, provider: string)

  datatype UpstreamSet = UpstreamSet(invalidated: bool, members: seq<Upstream>)

  datatype Refusal =
    | LineTooLong | NotACount | OverCap | WrongMemberCount
    | BadProvider | BadShape | BadName | MixedProviders | Duplicate | BadUrl | EmptyIdentity

  const MAX_LINE := 4096
  const MAX_MEMBERS := 1024
  const COUNT_TAG := "count="
  const PROVIDER_TAG := "provider="
  /** The redundant spelling of the empty set: a count of zero and a line feed. */
  const EMPTY_SET_LINE: string := COUNT_TAG + Itoa(0) + "\n"

  // ---------------------------------------------------------------- The grammar's tokens

  predicate HasPrefix(s: string, prefix: string) { prefix <= s }

  predicate IsNameEdge(c: char) { '0' <= c <= '9' || 'a' <= c <= 'z' }

  predicate IsNameChar(c: char) { IsNameEdge(c) || c == '_' || c == '-' }

  /** The pattern [a-z0-9]([a-z0-9_-]{0,61}[a-z0-9])? */
  predicate IsUpstreamName(s: string) {
    && 1 <= |s| <= 63
    && IsNameEdge(s[0]) && IsNameEdge(s[|s| - 1])
    && forall c :: c in s ==> IsNameChar(c)
  }

  /** An address: 0x and 40 lowercase hex digits. */
  predicate IsAddress(s: string) {
    HasPrefix(s, "0x") && IsLowerHex(s[2..], 40)
  }

  predicate IsProviderField(s: string) {
    HasPrefix(s, PROVIDER_TAG) && IsAddress(s[|PROVIDER_TAG|..])
  }

  /**
   checkBaseURL. Its byte test is stated; the rest of it, which reads the result of url.Parse, is the
   arbitrary predicate `parses`. Every result below holds for all such predicates.
   */
  predicate IsBaseUrl(s: string, parses: string -> bool) {
    (forall c :: c in s ==> ' ' < c < 0x7f as char) && parses(s)
  }

  // ---------------------------------------------------------------- The reader

  /** The reader's bookkeeping: the members so far and the provider-and-name pairs among them. */
  datatype Progress = Progress(members: seq<Upstream>, seen: set<string>, withProvider: nat)

  const START := Progress([], {}, 0)

  function SeenKey(provider: string, name: string): string { provider + " " + name }

  /** The bookkeeping after one more member. */
  function Extend(p: Progress, u: Upstream): Progress {
    Progress(p.members + [u], p.seen + {SeenKey(u.provider, u.name)},
             p.withProvider + if u.provider != "" then 1 else 0)
  }

  /** One turn of the member loop: the progress after line m, or why the line is refused. */
  function ReadMember(m: string, p: Progress, parses: string -> bool): Result<Progress, Refusal> {
    var all := Split(m, ' ');
    var tagged := |all| > 2 && HasPrefix(all[|all| - 1], PROVIDER_TAG);
    if tagged && !IsProviderField(all[|all| - 1]) then Failure(BadProvider)
    else
      var provider := if tagged then all[|all| - 1][|PROVIDER_TAG|..] else "";
      var f := if tagged then all[..|all| - 1] else all;
      if |f| != 2 && |f| != 3 then Failure(BadShape)
      else if !IsUpstreamName(f[0]) then Failure(BadName)
      else if |p.members| > 0 && (provider != "") != (p.withProvider > 0) then Failure(MixedProviders)
      else if SeenKey(provider, f[0]) in p.seen then Failure(Duplicate)
      else if !IsBaseUrl(f[1], parses) then Failure(BadUrl)
      else if |f| == 3 && f[2] == "" then Failure(EmptyIdentity)
      else
        Success(Extend(p, Upstream(f[0], f[1], if |f| == 3 then f[2] else "", provider)))
  }

  function ReadMembers(lines: seq<string>, p: Progress, parses: string -> bool): Result<UpstreamSet, Refusal>
    decreases |lines|
  {
    if lines == [] then Success(UpstreamSet(false, p.members))
    else
      match ReadMember(lines[0], p, parses)
      case Failure(why) => Failure(why)
      case Success(next) => ReadMembers(lines[1..], next, parses)
  }

  /** The count the first line states, when it is exactly count=<n>. */
  function CountOf(line: string): Option<nat> {
    if !HasPrefix(line, COUNT_TAG) then None
    else
      var text := line[|COUNT_TAG|..];
      match Atoi(text)
      case None => None
      case Some(n) => if n < 0 || Itoa(n) != text then None else Some(n)
  }

  /** The member lines after the first line; an empty set may end in one line feed. */
  function MemberLines(lines: seq<string>, n: nat): seq<string>
    requires |lines| >= 1
  {
    if n == 0 && lines[1..] == [""] then [] else lines[1..]
  }

  function ParseLines(lines: seq<string>, parses: string -> bool): Result<UpstreamSet, Refusal>
    requires |lines| >= 1
  {
    if exists l :: l in lines && |l| > MAX_LINE then Failure(LineTooLong)
    else
      match CountOf(lines[0])
      case None => Failure(NotACount)
      case Some(n) =>
        var members := MemberLines(lines, n);
        if n > MAX_MEMBERS then Failure(OverCap)
        else if |members| != n then Failure(WrongMemberCount)
        else ReadMembers(members, START, parses)
  }

  function Parse(payload: string, parses: string -> bool): Result<UpstreamSet, Refusal> {
    if payload == "invalidated" then Success(UpstreamSet(true, []))
    else ParseLines(Split(payload, '\n'), parses)
  }

  /** A refusal of a member, not of the set as a whole. */
  predicate OfAMember(why: Refusal) { !why.LineTooLong? && !why.NotACount? && !why.OverCap? && !why.WrongMemberCount? }

  lemma {:induction false} MembersRefuse(lines: seq<string>, p: Progress, parses: string -> bool)
    ensures var r := ReadMembers(lines, p, parses); r.Failure? ==> OfAMember(r.error)
    decreases |lines|
  {
    hide Split, Extend, IsProviderField, IsUpstreamName, IsBaseUrl;
    if lines != [] {
      var r := ReadMember(lines[0], p, parses);
      if r.Success? {
        MembersRefuse(lines[1..], r.value, parses);
      }
    }
  }

  predicate HasLongLine(lines: seq<string>) { exists i :: 0 <= i < |lines| && |lines[i]| > MAX_LINE }

  /** What is wrong with the set as a whole comes first: a line too long, no count, too many, or not as many as counted. */
  lemma ParseRefuses(payload: string, parses: string -> bool)
    requires payload != "invalidated"
    ensures var r, lines := Parse(payload, parses), Split(payload, '\n');
            && (r == Failure(LineTooLong) <==> HasLongLine(lines))
            && (r == Failure(NotACount) <==> !HasLongLine(lines) && CountOf(lines[0]).None?)
            && (r == Failure(OverCap) <==> !HasLongLine(lines) && CountOf(lines[0]).Some? && CountOf(lines[0]).value > MAX_MEMBERS)
            && (r == Failure(WrongMemberCount) <==>
                  && !HasLongLine(lines) && CountOf(lines[0]).Some? && CountOf(lines[0]).value <= MAX_MEMBERS
                  && |lines| - 1 != CountOf(lines[0]).value && !(CountOf(lines[0]).value == 0 && lines[1..] == [""]))
  {
    hide Split, CountOf, ReadMembers;
    var lines := Split(payload, '\n');
    assert (exists l :: l in lines && |l| > MAX_LINE) <==> HasLongLine(lines);
    if CountOf(lines[0]).Some? {
      MembersRefuse(MemberLines(lines, CountOf(lines[0]).value), START, parses);
    }
  }

  /** parseUpstreamSet, as the source runs it: one pass over the lines, filling seen and Members. */
  method ParseUpstreamSet(payload: string, parses: string -> bool) returns (r: Result<UpstreamSet, Refusal>)
    ensures r == Parse(payload, parses)
  {
    if payload == "invalidated" {
      return Success(UpstreamSet(true, []));
    }
    var lines := Split(payload, '\n');
    for i := 0 to |lines|
      invariant forall j :: 0 <= j < i ==> |lines[j]| <= MAX_LINE
    {
      if |lines[i]| > MAX_LINE {
        return Failure(LineTooLong);
      }
    }
    var count := CountOf(lines[0]);
    if count.None? {
      return Failure(NotACount);
    }
    var n := count.value;
    var members := MemberLines(lines, n);
    if n > MAX_MEMBERS {
      return Failure(OverCap);
    }
    if |members| != n {
      return Failure(WrongMemberCount);
    }
    var p := START;
    for i := 0 to |members|
      invariant ReadMembers(members[i..], p, parses) == Parse(payload, parses)
    {
      assert members[i..][0] == members[i] && members[i..][1..] == members[i + 1..];
      match ReadMember(members[i], p, parses) {
        case Failure(why) => return Failure(why);
        case Success(next) => p := next;
      }
    }
    r := Success(UpstreamSet(false, p.members));
  }

  // ---------------------------------------------------------------- The writer

  function Fields(u: Upstream): (f: seq<string>)
    ensures |f| >= 2
  {
    [u.name, u.url]
    + (if u.identity == "" then [] else [u.identity])
    + (if u.provider == "" then [] else [PROVIDER_TAG + u.provider])
  }

  function MemberLine(u: Upstream): string { Join(Fields(u), ' ') }

  function LinesOf(members: seq<Upstream>): (lines: seq<string>)
    ensures |lines| == |members|
    ensures forall i :: 0 <= i < |lines| ==> lines[i] == MemberLine(members[i])
  {
    seq(|members|, i requires 0 <= i < |members| => MemberLine(members[i]))
  }

  function Print(s: UpstreamSet): string {
    if s.invalidated then "invalidated"
    else Join([COUNT_TAG + Itoa(|s.members|)] + LinesOf(s.members), '\n')
  }

  /** A member the writer may record. */
  predicate WellFormedMember(u: Upstream, parses: string -> bool) {
    && IsUpstreamName(u.name)
    && IsBaseUrl(u.url, parses)
    && ' ' !in u.identity && '\n' !in u.identity
    && (u.provider == "" ==> !HasPrefix(u.identity, PROVIDER_TAG))
    && (u.provider != "" ==> IsAddress(u.provider))
    && |MemberLine(u)| <= MAX_LINE
  }

  /** Two members of one set: not the same provider and name, and alike in naming a provider. */
  predicate Compatible(u: Upstream, v: Upstream) {
    && (u.provider != v.provider || u.name != v.name)
    && (u.provider == "" <==> v.provider == "")
  }

  predicate WellFormedMembers(ms: seq<Upstream>, parses: string -> bool) {
    && (forall u :: u in ms ==> WellFormedMember(u, parses))
    && (forall i, j :: 0 <= i < j < |ms| ==> Compatible(ms[i], ms[j]))
  }

  /** A set the writer may record. */
  predicate WellFormed(s: UpstreamSet, parses: string -> bool) {
    && (s.invalidated ==> s.members == [])
    && |s.members| <= MAX_MEMBERS
    && WellFormedMembers(s.members, parses)
  }

  // ---------------------------------------------------------------- One member, both ways

  lemma NameHasNoSeparator(s: string)
    requires IsUpstreamName(s)
    ensures ' ' !in s && '\n' !in s
  {
    assert !IsNameChar(' ') && !IsNameChar('\n');
  }

  lemma AddressHasNoSeparator(s: string)
    requires IsAddress(s)
    ensures ' ' !in s && '\n' !in s
  {
    assert s == s[..2] + s[2..] && s[..2] == "0x";
    assert !IsLowerHexDigit(' ') && !IsLowerHexDigit('\n');
  }

  lemma FieldsHaveNoSeparator(u: Upstream, parses: string -> bool)
    requires WellFormedMember(u, parses)
    ensures forall f :: f in Fields(u) ==> ' ' !in f && '\n' !in f
    ensures ' ' !in u.name && ' ' !in u.provider
  {
    NameHasNoSeparator(u.name);
    assert ' ' !in PROVIDER_TAG && '\n' !in PROVIDER_TAG;
    if u.provider != "" {
      AddressHasNoSeparator(u.provider);
    }
  }

  lemma {:induction false} JoinMembers(parts: seq<string>, sep: char, c: char)
    requires |parts| >= 1 && c != sep
    ensures c in Join(parts, sep) <==> exists i :: 0 <= i < |parts| && c in parts[i]
  {
    if |parts| > 1 {
      JoinMembers(parts[1..], sep, c);
      if i :| 0 <= i < |parts| && c in parts[i] {
        if i > 0 {
          assert parts[i] == parts[1..][i - 1];
        }
      }
    }
  }

  /** The line feed stays out of a well-formed member's line. */
  lemma MemberLineIsOneLine(u: Upstream, parses: string -> bool)
    requires WellFormedMember(u, parses)
    ensures '\n' !in MemberLine(u)
  {
    FieldsHaveNoSeparator(u, parses);
    JoinMembers(Fields(u), ' ', '\n');
    forall i | 0 <= i < |Fields(u)| ensures '\n' !in Fields(u)[i] {
      assert Fields(u)[i] in Fields(u);
    }
  }

  lemma MemberLineFits(ms: seq<Upstream>, i: nat, parses: string -> bool)
    requires i < |ms| && WellFormedMembers(ms, parses)
    ensures '\n' !in MemberLine(ms[i]) && |MemberLine(ms[i])| <= MAX_LINE
  {
    assert ms[i] in ms;
    MemberLineIsOneLine(ms[i], parses);
  }

  /** The key of the seen map tells pairs apart: neither half contains the space between them. */
  lemma SeenKeyInjective(p1: string, n1: string, p2: string, n2: string)
    requires ' ' !in p1 && ' ' !in n1 && ' ' !in p2 && ' ' !in n2
    requires SeenKey(p1, n1) == SeenKey(p2, n2)
    ensures p1 == p2 && n1 == n2
  {
    SplitCons(p1, n1, ' ');
    SplitCons(p2, n2, ' ');
    SplitPart(n1, ' ');
    SplitPart(n2, ' ');
    assert SeenKey(p1, n1) == p1 + [' '] + n1 && SeenKey(p2, n2) == p2 + [' '] + n2;
    assert [p1] + [n1] == [p2] + [n2];
    assert ([p1] + [n1])[0] == p1 && ([p1] + [n1])[1] == n1;
    assert ([p2] + [n2])[0] == p2 && ([p2] + [n2])[1] == n2;
  }

  /** The reader's bookkeeping has room for u: a new pair, naming a provider as the others do. */
  predicate Admits(p: Progress, u: Upstream) {
    && SeenKey(u.provider, u.name) !in p.seen
    && (|p.members| > 0 ==> (u.provider != "") == (p.withProvider > 0))
  }

  /** The line of a well-formed member reads back as that member. */
  lemma ReadPrinted(u: Upstream, p: Progress, parses: string -> bool)
    requires WellFormedMember(u, parses) && Admits(p, u)
    ensures ReadMember(MemberLine(u), p, parses) == Success(Extend(p, u))
  {
    FieldsHaveNoSeparator(u, parses);
    SplitJoin(Fields(u), ' ');
    var f := Fields(u);
    if u.provider != "" {
      assert f[|f| - 1] == PROVIDER_TAG + u.provider;
      assert f[|f| - 1][|PROVIDER_TAG|..] == u.provider;
      assert f[..|f| - 1] == [u.name, u.url] + if u.identity == "" then [] else [u.identity];
    }
  }

  /** A line the reader accepts is the printing of one well-formed member it had room for. */
  lemma ReadIsPrinted(m: string, p: Progress, parses: string -> bool) returns (u: Upstream)
    requires IsLine(m)
    requires ReadMember(m, p, parses).Success?
    ensures m == MemberLine(u) && WellFormedMember(u, parses) && Admits(p, u)
    ensures ReadMember(m, p, parses).value == Extend(p, u)
  {
    var all := Split(m, ' ');
    JoinSplit(m, ' ');
    JoinMembers(all, ' ', '\n');
    var tagged := |all| > 2 && HasPrefix(all[|all| - 1], PROVIDER_TAG);
    var provider := if tagged then all[|all| - 1][|PROVIDER_TAG|..] else "";
    var f := if tagged then all[..|all| - 1] else all;
    u := Upstream(f[0], f[1], if |f| == 3 then f[2] else "", provider);
    if tagged {
      assert all[|all| - 1] == PROVIDER_TAG + provider;
      assert all == f + [PROVIDER_TAG + provider];
    }
    assert all == Fields(u);
    if |f| == 3 {
      assert f[2] == all[2] && all[2] in all;
    }
  }

  // ---------------------------------------------------------------- The bookkeeping

  /** What the reader's bookkeeping means for the members it has accepted. */
  ghost predicate Tracks(p: Progress, parses: string -> bool) {
    && WellFormedMembers(p.members, parses)
    && (forall k :: k in p.seen <==> exists i :: 0 <= i < |p.members| && k == SeenKey(p.members[i].provider, p.members[i].name))
    && (p.withProvider > 0 <==> p.members != [] && p.members[0].provider != "")
  }

  /** Having room for u is being compatible with every member so far. */
  lemma AdmitsMeans(p: Progress, u: Upstream, parses: string -> bool)
    requires Tracks(p, parses) && WellFormedMember(u, parses)
    ensures Admits(p, u) <==> forall i :: 0 <= i < |p.members| ==> Compatible(p.members[i], u)
  {
    FieldsHaveNoSeparator(u, parses);
    forall i | 0 <= i < |p.members|
      ensures SeenKey(u.provider, u.name) == SeenKey(p.members[i].provider, p.members[i].name)
              ==> u.provider == p.members[i].provider && u.name == p.members[i].name
    {
      var v := p.members[i];
      assert v in p.members;
      FieldsHaveNoSeparator(v, parses);
      if SeenKey(u.provider, u.name) == SeenKey(v.provider, v.name) {
        SeenKeyInjective(u.provider, u.name, v.provider, v.name);
      }
    }
    if Admits(p, u) {
      forall i | 0 <= i < |p.members| ensures Compatible(p.members[i], u) {
        if i > 0 {
          assert Compatible(p.members[0], p.members[i]);
        }
      }
    } else if SeenKey(u.provider, u.name) in p.seen {
      var i :| 0 <= i < |p.members| && SeenKey(u.provider, u.name) == SeenKey(p.members[i].provider, p.members[i].name);
      assert !Compatible(p.members[i], u);
    } else {
      assert !Compatible(p.members[0], u);
    }
  }

  lemma ExtendTracks(p: Progress, u: Upstream, parses: string -> bool)
    requires Tracks(p, parses) && WellFormedMember(u, parses) && Admits(p, u)
    ensures Tracks(Extend(p, u), parses)
  {
    AdmitsMeans(p, u, parses);
    var q := Extend(p, u);
    assert forall v :: v in q.members ==> v in p.members || v == u;
    forall k | k in q.seen
      ensures exists i :: 0 <= i < |q.members| && k == SeenKey(q.members[i].provider, q.members[i].name)
    {
      if k in p.seen {
        var i :| 0 <= i < |p.members| && k == SeenKey(p.members[i].provider, p.members[i].name);
        assert q.members[i] == p.members[i];
      } else {
        assert q.members[|p.members|] == u;
      }
    }
    forall i | 0 <= i < |q.members| ensures SeenKey(q.members[i].provider, q.members[i].name) in q.seen {
      if i < |p.members| {
        assert q.members[i] == p.members[i];
      }
    }
  }

  /** The reader has room for each of ms in turn. */
  predicate AdmitsAll(p: Progress, ms: seq<Upstream>)
    decreases |ms|
  {
    ms == [] || (Admits(p, ms[0]) && AdmitsAll(Extend(p, ms[0]), ms[1..]))
  }

  /** It has room for them all exactly when together they are compatible. */
  lemma {:induction false} AdmitsAllMeans(p: Progress, ms: seq<Upstream>, parses: string -> bool)
    requires Tracks(p, parses) && forall u :: u in ms ==> WellFormedMember(u, parses)
    ensures AdmitsAll(p, ms) <==> WellFormedMembers(p.members + ms, parses)
    decreases |ms|
  {
    hide WellFormedMember, Admits, Compatible;
    var whole := p.members + ms;
    assert forall u :: u in whole ==> u in p.members || u in ms;
    if ms == [] {
      assert whole == p.members;
    } else {
      var u := ms[0];
      AdmitsMeans(p, u, parses);
      assert whole[|p.members|] == u;
      assert forall i :: 0 <= i < |p.members| ==> whole[i] == p.members[i];
      if Admits(p, u) {
        ExtendTracks(p, u, parses);
        assert Extend(p, u).members + ms[1..] == whole;
        AdmitsAllMeans(Extend(p, u), ms[1..], parses);
      }
    }
  }

  // ---------------------------------------------------------------- The whole set, both ways

  /** A line within the reader's bound. */
  predicate IsLine(l: string) { |l| <= MAX_LINE && '\n' !in l }

  lemma LinesOfCons(u: Upstream, rest: seq<Upstream>)
    ensures LinesOf([u] + rest) == [MemberLine(u)] + LinesOf(rest)
  {
  }

  lemma {:induction false} ReadPrintedAll(ms: seq<Upstream>, p: Progress, parses: string -> bool)
    requires AdmitsAll(p, ms) && forall u :: u in ms ==> WellFormedMember(u, parses)
    ensures ReadMembers(LinesOf(ms), p, parses) == Success(UpstreamSet(false, p.members + ms))
    decreases |ms|
  {
    hide ReadMember, WellFormedMember, MemberLine, Admits, LinesOf;
    if ms == [] {
      assert LinesOf(ms) == [] && p.members + ms == p.members;
    } else {
      ReadPrinted(ms[0], p, parses);
      ReadPrintedAll(ms[1..], Extend(p, ms[0]), parses);
      LinesOfCons(ms[0], ms[1..]);
      assert ms == [ms[0]] + ms[1..];
      assert LinesOf(ms)[1..] == LinesOf(ms[1..]);
      assert Extend(p, ms[0]).members + ms[1..] == p.members + ms;
    }
  }

  lemma {:induction false} ReadAllIsPrinted(lines: seq<string>, p: Progress, parses: string -> bool)
    returns (ms: seq<Upstream>)
    requires forall i :: 0 <= i < |lines| ==> IsLine(lines[i])
    requires ReadMembers(lines, p, parses).Success?
    ensures ReadMembers(lines, p, parses).value == UpstreamSet(false, p.members + ms)
    ensures AdmitsAll(p, ms) && LinesOf(ms) == lines
    ensures forall u :: u in ms ==> WellFormedMember(u, parses)
    decreases |lines|
  {
    hide ReadMember, WellFormedMember, MemberLine, Admits, LinesOf, IsLine;
    if lines == [] {
      ms := [];
      assert p.members + ms == p.members;
    } else {
      assert lines == [lines[0]] + lines[1..];
      var u := ReadIsPrinted(lines[0], p, parses);
      var q := Extend(p, u);
      var rest := ReadAllIsPrinted(lines[1..], q, parses);
      ms := [u] + rest;
      assert ms[0] == u && ms[1..] == rest;
      LinesOfCons(u, rest);
      assert p.members + ms == q.members + rest;
    }
  }

  /** One more digit. */
  lemma ItoaLonger(n: nat, k: nat)
    requires k >= 1 && |Itoa(n / 10)| <= k
    ensures |Itoa(n)| <= k + 1
  {
  }

  lemma ItoaLength(n: nat)
    requires n < 10000
    ensures |Itoa(n)| <= 4
  {
    var a := n / 10;
    var b := a / 10;
    assert b / 10 < 10;
    assert |Itoa(b / 10)| == 1;
    hide Itoa;
    ItoaLonger(b, 1);
    ItoaLonger(a, 2);
    ItoaLonger(n, 3);
  }

  lemma CountLine(n: nat)
    requires n <= MAX_MEMBERS
    ensures CountOf(COUNT_TAG + Itoa(n)) == Some(n)
    ensures '\n' !in COUNT_TAG + Itoa(n)
    ensures |COUNT_TAG + Itoa(n)| <= 10
  {
    AtoiItoa(n);
    assert (COUNT_TAG + Itoa(n))[|COUNT_TAG|..] == Itoa(n);
    ItoaLength(n);
    assert !IsDigit('\n');
  }

  lemma {:induction false} FirstOfJoin(parts: seq<string>, sep: char)
    requires |parts| >= 1 && |parts[0]| >= 1
    ensures |Join(parts, sep)| >= 1 && Join(parts, sep)[0] == parts[0][0]
  {
  }

  lemma StartTracks(parses: string -> bool)
    ensures Tracks(START, parses)
  {
  }

  /** What a printed set splits into. */
  lemma PrintedLines(members: seq<Upstream>, parses: string -> bool)
    requires |members| <= MAX_MEMBERS && WellFormedMembers(members, parses)
    ensures var first := COUNT_TAG + Itoa(|members|);
            var lines := [first] + LinesOf(members);
            && Split(Join(lines, '\n'), '\n') == lines
            && Join(lines, '\n') != "invalidated"
            && (forall l :: l in lines ==> |l| <= MAX_LINE)
  {
    hide Split, Join, Itoa, Atoi, MemberLine, WellFormedMembers, CountOf;
    var n := |members|;
    var first := COUNT_TAG + Itoa(n);
    var lines := [first] + LinesOf(members);
    CountLine(n);
    forall l | l in lines ensures '\n' !in l && |l| <= MAX_LINE {
      if l != first {
        var i :| 0 <= i < n && l == MemberLine(members[i]);
        MemberLineFits(members, i, parses);
      }
    }
    SplitJoin(lines, '\n');
    FirstOfJoin(lines, '\n');
  }

  lemma ParsePrintedLines(members: seq<Upstream>, parses: string -> bool)
    requires |members| <= MAX_MEMBERS && WellFormedMembers(members, parses)
    requires forall l :: l in LinesOf(members) ==> |l| <= MAX_LINE
    ensures ParseLines([COUNT_TAG + Itoa(|members|)] + LinesOf(members), parses) == Success(UpstreamSet(false, members))
  {
    hide Itoa, Atoi, ReadMember, ReadMembers, WellFormedMember, CountOf, MemberLine, LinesOf, Tracks, AdmitsAll;
    var n := |members|;
    var first := COUNT_TAG + Itoa(n);
    CountLine(n);
    var lines := [first] + LinesOf(members);
    assert lines[1..] == LinesOf(members);
    assert START.members + members == members;
    StartTracks(parses);
    AdmitsAllMeans(START, members, parses);
    ReadPrintedAll(members, START, parses);
    forall l | l in lines ensures |l| <= MAX_LINE {
      assert l == first || l in LinesOf(members);
    }
  }

  /** Writing a well-formed set and reading it back gives the set. */
  lemma ParsePrinted(s: UpstreamSet, parses: string -> bool)
    requires WellFormed(s, parses)
    ensures Parse(Print(s), parses) == Success(s)
  {
    hide Split, Join, Itoa, ParseLines, WellFormedMembers, LinesOf;
    if !s.invalidated {
      PrintedLines(s.members, parses);
      ParsePrintedLines(s.members, parses);
    }
  }

  lemma EmptySetSpelling(parses: string -> bool)
    ensures Split(EMPTY_SET_LINE, '\n') == [COUNT_TAG + Itoa(0), ""]
    ensures Parse(EMPTY_SET_LINE, parses) == Success(UpstreamSet(false, []))
  {
    var first := COUNT_TAG + Itoa(0);
    CountLine(0);
    SplitCons(first, "", '\n');
    assert EMPTY_SET_LINE == first + ['\n'] + "";
    var lines := Split(EMPTY_SET_LINE, '\n');
    assert lines[1..] == [""];
    assert EMPTY_SET_LINE[0] == 'c';
  }

  lemma ParseLinesIsPrinted(lines: seq<string>, parses: string -> bool) returns (ms: seq<Upstream>)
    requires |lines| >= 1 && forall l :: l in lines ==> '\n' !in l
    requires ParseLines(lines, parses).Success?
    requires lines != [COUNT_TAG + Itoa(0), ""]
    ensures ParseLines(lines, parses).value == UpstreamSet(false, ms)
    ensures |ms| <= MAX_MEMBERS && WellFormedMembers(ms, parses)
    ensures lines == [COUNT_TAG + Itoa(|ms|)] + LinesOf(ms)
  {
    hide ReadMember, ReadMembers, MemberLine, WellFormedMembers, Itoa, Atoi, Tracks, LinesOf, AdmitsAll;
    var n := CountOf(lines[0]).value;
    assert lines[0] == COUNT_TAG + Itoa(n);
    var members := lines[1..];
    assert lines == [lines[0]] + members;
    StartTracks(parses);
    ms := ReadAllIsPrinted(members, START, parses);
    assert START.members + ms == ms;
    AdmitsAllMeans(START, ms, parses);
  }

  lemma ParseIsPrinted(payload: string, parses: string -> bool)
    requires Parse(payload, parses).Success? && payload != EMPTY_SET_LINE
    ensures WellFormed(Parse(payload, parses).value, parses)
    ensures Print(Parse(payload, parses).value) == payload
  {
    hide ParseLines, Split, Itoa, LinesOf;
    if payload != "invalidated" {
      var lines := Split(payload, '\n');
      JoinSplit(payload, '\n');
      if lines == [COUNT_TAG + Itoa(0), ""] {
        assert false;
      }
      var ms := ParseLinesIsPrinted(lines, parses);
    }
  }

  /**
   A payload is accepted exactly when a well-formed set prints to it, or it is the one redundant
   spelling of the empty set; and it is read as the set that prints to it.
   */
  lemma ParseAccepts(payload: string, parses: string -> bool)
    ensures Parse(payload, parses).Success? <==>
            payload == EMPTY_SET_LINE || exists s :: WellFormed(s, parses) && Print(s) == payload
    ensures Parse(payload, parses).Success? ==> WellFormed(Parse(payload, parses).value, parses)
    ensures Parse(payload, parses).Success? ==>
              Print(Parse(payload, parses).value)
              == if payload == EMPTY_SET_LINE then COUNT_TAG + Itoa(0) else payload
  {
    EmptySetSpelling(parses);
    if Parse(payload, parses).Success? && payload != EMPTY_SET_LINE {
      ParseIsPrinted(payload, parses);
    }
    forall s | WellFormed(s, parses) && Print(s) == payload ensures Parse(payload, parses).Success? {
      ParsePrinted(s, parses);
    }
  }
}
