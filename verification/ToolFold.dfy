/**
 Folding Anthropic's tool_addition blocks into the tools list (client/endpoint/anthropic.go:15-133), on
 decoded values. What the two searches of the raw text find is an input of its own: an escaped key is
 the same value under another text.
 */
module ToolFold {
  import opened Wrappers

  /** A tool definition and the name it decodes to, empty when it has none. */
  datatype Tool = Tool(name: string, raw: string)

  /** A content block: a tool_addition, with the definition it decodes to if any, or one of another type. */
  datatype Block = Addition(definition: Option<Tool>) | Other(raw: string)

  /** A message's content: a list of blocks, or something else. */
  datatype Content = Blocks(blocks: seq<Block>) | NotBlocks(raw: string)

  datatype Message = Message(content: Content, rest: string)

  datatype Tools = Absent | List(list: seq<Tool>) | Malformed

  datatype Request = Request(messages: Option<seq<Message>>, tools: Tools, rest: string)

  /** Whether the text of the messages holds the two type names. */
  datatype Mentions = Mentions(addition: bool, removal: bool)

  // ---------------------------------------------------------------- The fold as functions

  /** The blocks that stay. */
  function Kept(blocks: seq<Block>): (out: seq<Block>)
    ensures |out| <= |blocks|
  {
    if blocks == [] then []
    else
      var last := blocks[|blocks| - 1];
      Kept(blocks[..|blocks| - 1]) + (if last.Addition? then [] else [last])
  }

  /** The definitions the blocks bring, in order. */
  function Brought(blocks: seq<Block>): seq<Tool> {
    if blocks == [] then []
    else
      Brought(blocks[..|blocks| - 1]) + BroughtByBlock(blocks[|blocks| - 1])
  }

  function BroughtByBlock(b: Block): seq<Tool> {
    if b.Addition? && b.definition.Some? then [b.definition.value] else []
  }

  predicate HasAddition(blocks: seq<Block>) { exists j :: 0 <= j < |blocks| && blocks[j].Addition? }

  /** An addition the fold can express names the tool it defines. */
  predicate Named(b: Block) { b.Addition? ==> b.definition.Some? && b.definition.value.name != "" }

  /** The fold can express a content: every addition names a tool, and something is left. */
  predicate Expressible(c: Content) {
    c.Blocks? ==>
      && (forall j :: 0 <= j < |c.blocks| ==> Named(c.blocks[j]))
      && (c.blocks == [] || exists j :: 0 <= j < |c.blocks| && !c.blocks[j].Addition?)
  }

  function Stripped(m: Message): Message {
    if m.content.Blocks? then m.(content := Blocks(Kept(m.content.blocks))) else m
  }

  function StrippedAll(ms: seq<Message>): seq<Message> { seq(|ms|, i requires 0 <= i < |ms| => Stripped(ms[i])) }

  function BroughtByAll(ms: seq<Message>): seq<Tool> {
    if ms == [] then []
    else
      var last := ms[|ms| - 1];
      BroughtByAll(ms[..|ms| - 1]) + BroughtBy(last)
  }

  function BroughtBy(m: Message): seq<Tool> { if m.content.Blocks? then Brought(m.content.blocks) else [] }

  predicate Adds(m: Message) { m.content.Blocks? && HasAddition(m.content.blocks) }

  predicate HasName(tools: seq<Tool>, name: string) { exists j :: 0 <= j < |tools| && tools[j].name == name }

  /** The list with each definition appended whose name it does not have yet. */
  function WithTools(tools: seq<Tool>, more: seq<Tool>): seq<Tool> {
    if more == [] then tools
    else
      var so := WithTools(tools, more[..|more| - 1]);
      var last := more[|more| - 1];
      if HasName(so, last.name) then so else so + [last]
  }

  function ListOf(tools: Tools): seq<Tool> { if tools.List? then tools.list else [] }

  predicate CanFold(seen: Mentions, req: Request) {
    && seen.addition && !seen.removal && req.messages.Some? && !req.tools.Malformed?
    && (exists i :: 0 <= i < |req.messages.value| && Adds(req.messages.value[i]))
    && (forall i :: 0 <= i < |req.messages.value| ==> Expressible(req.messages.value[i].content))
  }

  function Folded(req: Request): Request
    requires req.messages.Some?
  {
    var ms := req.messages.value;
    req.(messages := Some(StrippedAll(ms)), tools := List(WithTools(ListOf(req.tools), BroughtByAll(ms))))
  }

  // ---------------------------------------------------------------- The fold as the program runs it

  lemma KeptStep(blocks: seq<Block>, j: nat)
    requires j < |blocks|
    ensures Kept(blocks[..j + 1]) == if blocks[j].Addition? then Kept(blocks[..j]) else Kept(blocks[..j]) + [blocks[j]]
    ensures Brought(blocks[..j + 1]) == Brought(blocks[..j]) + BroughtByBlock(blocks[j])
  {
    assert blocks[..j + 1][..j] == blocks[..j];
  }

  lemma WithToolsStep(tools: seq<Tool>, more: seq<Tool>, d: Tool)
    ensures WithTools(tools, more + [d]) ==
            if HasName(WithTools(tools, more), d.name) then WithTools(tools, more) else WithTools(tools, more) + [d]
  {
    assert (more + [d])[..|more|] == more;
  }

  /** What keeping loses is the additions. */
  lemma {:induction false} KeptLoses(blocks: seq<Block>)
    ensures |Kept(blocks)| != |blocks| <==> HasAddition(blocks)
    ensures |Kept(blocks)| > 0 <==> exists j :: 0 <= j < |blocks| && !blocks[j].Addition?
    ensures !HasAddition(blocks) ==> Kept(blocks) == blocks
    ensures !HasAddition(Kept(blocks))
  {
    if blocks != [] {
      var front, n := blocks[..|blocks| - 1], |blocks| - 1;
      KeptLoses(front);
      assert blocks == front + [blocks[n]];
      if j :| 0 <= j < n && front[j].Addition? { assert blocks[j].Addition?; }
      if j :| 0 <= j < n && !front[j].Addition? { assert !blocks[j].Addition?; }
      if j :| 0 <= j < |blocks| && blocks[j].Addition? { if j < n { assert front[j].Addition?; } }
      if j :| 0 <= j < |blocks| && !blocks[j].Addition? { if j < n { assert !front[j].Addition?; } }
    }
  }

  /** The names the loop has seen are those of the list. */
  ghost predicate NamesAre(names: set<string>, tools: seq<Tool>) {
    forall n :: n in names <==> HasName(tools, n)
  }

  lemma NamesGrow(names: set<string>, tools: seq<Tool>, d: Tool)
    requires NamesAre(names, tools)
    ensures NamesAre(names + {d.name}, tools + [d])
  {
    var more := tools + [d];
    forall n ensures n in names + {d.name} <==> HasName(more, n) {
      if HasName(tools, n) {
        var j :| 0 <= j < |tools| && tools[j].name == n;
        assert more[j].name == n;
      }
      if n == d.name { assert more[|tools|].name == n; }
      if HasName(more, n) {
        var j :| 0 <= j < |more| && more[j].name == n;
        if j < |tools| { assert tools[j].name == n; }
      }
    }
  }

  method NamesOf(tools: seq<Tool>) returns (names: set<string>)
    ensures NamesAre(names, tools)
  {
    names := {};
    var i := 0;
    while i < |tools|
      invariant 0 <= i <= |tools| && NamesAre(names, tools[..i])
    {
      NamesGrow(names, tools[..i], tools[i]);
      assert tools[..i + 1] == tools[..i] + [tools[i]];
      names := names + {tools[i].name};
      i := i + 1;
    }
    assert tools[..i] == tools;
  }

  /** One block: whether the fold can express it, and the list and its names grown by the tool it brings. */
  method FoldBlock(b: Block, list: seq<Tool>, before: seq<Tool>, tools0: seq<Tool>, names0: set<string>)
    returns (ok: bool, tools: seq<Tool>, names: set<string>)
    requires tools0 == WithTools(list, before) && NamesAre(names0, tools0)
    ensures ok <==> Named(b)
    ensures ok ==> tools == WithTools(list, before + BroughtByBlock(b)) && NamesAre(names, tools)
  {
    hide NamesAre, HasName, WithTools;
    tools, names := tools0, names0;
    if !b.Addition? {
      assert before + [] == before;
      return true, tools, names;
    }
    if b.definition.None? || b.definition.value.name == "" {
      return false, tools, names;
    }
    var d := b.definition.value;
    WithToolsStep(list, before, d);
    NamesTell(names, tools, d.name);
    if d.name !in names {
      NamesGrow(names, tools, d);
      names, tools := names + {d.name}, tools + [d];
    }
    ok := true;
  }

  lemma Associates(a: seq<Tool>, b: seq<Tool>, c: seq<Tool>)
    ensures (a + b) + c == a + (b + c)
  {
  }

  /** One message's blocks: those kept, and the list and its names grown; none if an addition names nothing. */
  method FoldBlocks(blocks: seq<Block>, list: seq<Tool>, before: seq<Tool>, tools0: seq<Tool>, names0: set<string>)
    returns (r: Option<seq<Block>>, found: bool, tools: seq<Tool>, names: set<string>)
    requires tools0 == WithTools(list, before) && NamesAre(names0, tools0)
    ensures r.Some? <==> forall j :: 0 <= j < |blocks| ==> Named(blocks[j])
    ensures r.Some? ==> r.value == Kept(blocks) && found == HasAddition(blocks)
    ensures r.Some? ==> tools == WithTools(list, before + Brought(blocks)) && NamesAre(names, tools)
  {
    hide NamesAre, WithTools, Named, Kept, Brought, BroughtByBlock;
    var kept: seq<Block> := [];
    found, tools, names := false, tools0, names0;
    var j := 0;
    NothingKept(blocks, before);
    while j < |blocks|
      invariant 0 <= j <= |blocks| && kept == Kept(blocks[..j])
      invariant forall k :: 0 <= k < j ==> Named(blocks[k])
      invariant found <==> exists k :: 0 <= k < j && blocks[k].Addition?
      invariant tools == WithTools(list, before + Brought(blocks[..j])) && NamesAre(names, tools)
    {
      var ok;
      ok, tools, names := FoldBlock(blocks[j], list, before + Brought(blocks[..j]), tools, names);
      if !ok {
        return None, found, tools, names;
      }
      KeptStep(blocks, j);
      Associates(before, Brought(blocks[..j]), BroughtByBlock(blocks[j]));
      if blocks[j].Addition? {
        found := true;
      } else {
        kept := kept + [blocks[j]];
      }
      j := j + 1;
    }
    assert blocks[..j] == blocks;
    r := Some(kept);
  }

  lemma NothingKept(blocks: seq<Block>, before: seq<Tool>)
    ensures Kept(blocks[..0]) == [] && before + Brought(blocks[..0]) == before
  {
  }

  lemma NamesTell(names: set<string>, tools: seq<Tool>, n: string)
    requires NamesAre(names, tools)
    ensures n in names <==> HasName(tools, n)
  {
  }

  /** One message: as it is sent on, unless the fold cannot express it. */
  method FoldMessage(m: Message, list: seq<Tool>, before: seq<Tool>, tools0: seq<Tool>, names0: set<string>)
    returns (r: Option<Message>, found: bool, tools: seq<Tool>, names: set<string>)
    requires tools0 == WithTools(list, before) && NamesAre(names0, tools0)
    ensures r.Some? <==> Expressible(m.content)
    ensures r.Some? ==> r.value == Stripped(m) && found == Adds(m)
    ensures r.Some? ==> tools == WithTools(list, before + BroughtBy(m)) && NamesAre(names, tools)
  {
    hide NamesAre, WithTools, Kept, Brought, Named;
    if !m.content.Blocks? {
      assert before + [] == before;
      return Some(m), false, tools0, names0;
    }
    var blocks := m.content.blocks;
    var kept;
    kept, found, tools, names := FoldBlocks(blocks, list, before, tools0, names0);
    if kept.None? {
      return None, found, tools, names;
    }
    KeptLoses(blocks);
    if |kept.value| == 0 && |blocks| > 0 {
      return None, found, tools, names;
    }
    r := Some(if |kept.value| != |blocks| then m.(content := Blocks(kept.value)) else m);
  }

  lemma BroughtStep(ms: seq<Message>, i: nat)
    requires i < |ms|
    ensures BroughtByAll(ms[..i + 1]) == BroughtByAll(ms[..i]) + BroughtBy(ms[i])
    ensures StrippedAll(ms[..i + 1]) == StrippedAll(ms[..i]) + [Stripped(ms[i])]
  {
    assert ms[..i + 1][..i] == ms[..i];
  }

  /** foldToolAdditions, over one request. */
  method FoldToolAdditions(seen: Mentions, req: Request) returns (r: Option<Request>)
    ensures r == if CanFold(seen, req) then Some(Folded(req)) else None
  {
    hide NamesAre, WithTools, BroughtByAll, BroughtBy, Expressible, Adds, StrippedAll, Stripped;
    if !seen.addition || seen.removal || req.messages.None? || req.tools.Malformed? {
      return None;
    }
    var messages, list := req.messages.value, ListOf(req.tools);
    var tools, out, found := list, [], false;
    var names := NamesOf(list);
    NothingMore(list, messages);
    var i := 0;
    while i < |messages|
      invariant 0 <= i <= |messages|
      invariant out == StrippedAll(messages[..i])
      invariant tools == WithTools(list, BroughtByAll(messages[..i])) && NamesAre(names, tools)
      invariant found == exists k :: 0 <= k < i && Adds(messages[k])
      invariant forall k :: 0 <= k < i ==> Expressible(messages[k].content)
    {
      var m, any;
      m, any, tools, names := FoldMessage(messages[i], list, BroughtByAll(messages[..i]), tools, names);
      if m.None? {
        return None;
      }
      BroughtStep(messages, i);
      found := found || any;
      out := out + [m.value];
      i := i + 1;
    }
    assert messages[..i] == messages;
    if !found {
      return None;
    }
    r := Some(req.(messages := Some(out), tools := List(tools)));
  }

  lemma NothingMore(list: seq<Tool>, ms: seq<Message>)
    ensures WithTools(list, BroughtByAll(ms[..0])) == list && StrippedAll(ms[..0]) == []
  {
  }

  /** anthropicPreSeal. */
  function PreSeal(seen: Mentions, req: Request): Request {
    if CanFold(seen, req) then Folded(req) else req
  }

  // ---------------------------------------------------------------- What folding means

  predicate Has(idx: seq<nat>, j: nat) { exists a :: 0 <= a < |idx| && idx[a] == j }

  /** idx picks the blocks that stay: increasing, and exactly those that are no addition. */
  ghost predicate Picks(idx: seq<nat>, blocks: seq<Block>, kept: seq<Block>) {
    && |idx| == |kept|
    && (forall a, b :: 0 <= a < b < |idx| ==> idx[a] < idx[b])
    && (forall a :: 0 <= a < |idx| ==> idx[a] < |blocks| && kept[a] == blocks[idx[a]] && !kept[a].Addition?)
    && (forall j :: 0 <= j < |blocks| && !blocks[j].Addition? ==> Has(idx, j))
  }

  lemma HasMore(idx: seq<nat>, n: nat, j: nat)
    ensures Has(idx + [n], j) <==> Has(idx, j) || j == n
  {
    var more := idx + [n];
    if Has(idx, j) { var a :| 0 <= a < |idx| && idx[a] == j; assert more[a] == j; }
    if j == n { assert more[|idx|] == j; }
    if Has(more, j) { var a :| 0 <= a < |more| && more[a] == j; if a < |idx| { assert idx[a] == j; } }
  }

  lemma PicksOne(idx: seq<nat>, front: seq<Block>, kept: seq<Block>, b: Block)
    requires Picks(idx, front, kept)
    ensures if b.Addition? then Picks(idx, front + [b], kept) else Picks(idx + [|front|], front + [b], kept + [b])
  {
    hide Has;
    var blocks := front + [b];
    forall j | 0 <= j < |front| ensures blocks[j] == front[j] {
    }
    forall j | 0 <= j < |blocks| && !blocks[j].Addition? && !b.Addition? ensures Has(idx + [|front|], j) {
      HasMore(idx, |front|, j);
    }
  }

  lemma {:induction false} KeptInOrder(blocks: seq<Block>) returns (idx: seq<nat>)
    ensures Picks(idx, blocks, Kept(blocks))
  {
    if blocks == [] {
      idx := [];
    } else {
      hide Picks;
      var n := |blocks| - 1;
      idx := KeptInOrder(blocks[..n]);
      PicksOne(idx, blocks[..n], Kept(blocks[..n]), blocks[n]);
      assert blocks[..n] + [blocks[n]] == blocks;
      if blocks[n].Addition? {
        assert Kept(blocks[..n]) + [] == Kept(blocks[..n]);
      } else {
        idx := idx + [n];
      }
    }
  }

  /** Definition i brings a name that neither the list nor an earlier definition has. */
  predicate FirstOfItsName(tools: seq<Tool>, more: seq<Tool>, i: nat)
    requires i < |more|
  {
    !HasName(tools, more[i].name) && !HasName(more[..i], more[i].name)
  }

  /** idx picks, in order, exactly the first definition of each new name. */
  ghost predicate PicksFirsts(idx: seq<nat>, tools: seq<Tool>, more: seq<Tool>, added: seq<Tool>) {
    && |idx| == |added|
    && (forall a, b :: 0 <= a < b < |idx| ==> idx[a] < idx[b])
    && (forall a :: 0 <= a < |idx| ==> idx[a] < |more| && added[a] == more[idx[a]] && FirstOfItsName(tools, more, idx[a]))
    && (forall i :: 0 <= i < |more| && FirstOfItsName(tools, more, i) ==> Has(idx, i))
  }

  lemma NameInEither(a: seq<Tool>, b: seq<Tool>, n: string)
    ensures HasName(a + b, n) <==> HasName(a, n) || HasName(b, n)
  {
    var c := a + b;
    if HasName(a, n) { var j :| 0 <= j < |a| && a[j].name == n; assert c[j].name == n; }
    if HasName(b, n) { var j :| 0 <= j < |b| && b[j].name == n; assert c[|a| + j].name == n; }
    if HasName(c, n) {
      var j :| 0 <= j < |c| && c[j].name == n;
      if j < |a| { assert a[j].name == n; } else { assert b[j - |a|].name == n; }
    }
  }

  /** The list keeps what it had, gains every name it was brought, and no other. */
  lemma {:induction false} WithToolsNames(tools: seq<Tool>, more: seq<Tool>, n: string)
    ensures HasName(WithTools(tools, more), n) <==> HasName(tools, n) || HasName(more, n)
  {
    if more != [] {
      var k := |more| - 1;
      WithToolsNames(tools, more[..k], n);
      WithToolsNames(tools, more[..k], more[k].name);
      assert more == more[..k] + [more[k]];
      NameInEither(more[..k], [more[k]], n);
      NameInEither(WithTools(tools, more[..k]), [more[k]], n);
      assert HasName([more[k]], n) <==> more[k].name == n by { assert [more[k]][0].name == more[k].name; }
    }
  }

  lemma FirstsStay(tools: seq<Tool>, front: seq<Tool>, d: Tool, i: nat)
    requires i < |front|
    ensures FirstOfItsName(tools, front + [d], i) == FirstOfItsName(tools, front, i)
  {
    hide HasName;
    var more := front + [d];
    assert more[i] == front[i] && more[..i] == front[..i];
  }

  lemma PicksFirstsOne(idx: seq<nat>, tools: seq<Tool>, front: seq<Tool>, added: seq<Tool>, d: Tool)
    requires PicksFirsts(idx, tools, front, added)
    ensures if HasName(tools, d.name) || HasName(front, d.name) then PicksFirsts(idx, tools, front + [d], added)
            else PicksFirsts(idx + [|front|], tools, front + [d], added + [d])
  {
    hide HasName, Has, FirstOfItsName;
    var more, k := front + [d], |front|;
    assert more[..k] == front && more[k] == d;
    LastIsFirst(tools, more);
    forall i | 0 <= i < k ensures FirstOfItsName(tools, more, i) == FirstOfItsName(tools, front, i) && more[i] == front[i] {
      FirstsStay(tools, front, d, i);
    }
    if !HasName(tools, d.name) && !HasName(front, d.name) {
      forall i | 0 <= i < |more| && FirstOfItsName(tools, more, i) ensures Has(idx + [k], i) {
        HasMore(idx, k, i);
      }
    }
  }

  lemma LastIsFirst(tools: seq<Tool>, more: seq<Tool>)
    requires more != []
    ensures var k := |more| - 1; FirstOfItsName(tools, more, k) <==> !HasName(tools, more[k].name) && !HasName(more[..k], more[k].name)
  {
  }

  /** The tools are the old list, followed by the first definition of each new name, in order of appearance. */
  lemma {:induction false} AddsFirsts(tools: seq<Tool>, more: seq<Tool>) returns (idx: seq<nat>)
    ensures tools <= WithTools(tools, more)
    ensures PicksFirsts(idx, tools, more, WithTools(tools, more)[|tools|..])
  {
    if more == [] {
      idx := [];
    } else {
      hide HasName, PicksFirsts;
      var k := |more| - 1;
      var front, d := more[..k], more[k];
      idx := AddsFirsts(tools, front);
      var so := WithTools(tools, front);
      WithToolsNames(tools, front, d.name);
      PicksFirstsOne(idx, tools, front, so[|tools|..], d);
      assert front + [d] == more && (so + [d])[|tools|..] == so[|tools|..] + [d];
      if !HasName(so, d.name) {
        idx := idx + [k];
      }
    }
  }

  // ---------------------------------------------------------------- The definitions, where they stand

  /** Block `block` of message `message`. */
  datatype Place = Place(message: nat, block: nat)

  predicate Earlier(a: Place, b: Place) { a.message < b.message || (a.message == b.message && a.block < b.block) }

  /** What stands there is an addition that defines this tool. */
  predicate Defines(ms: seq<Message>, at: Place, d: Tool) {
    && at.message < |ms| && ms[at.message].content.Blocks?
    && at.block < |ms[at.message].content.blocks|
    && ms[at.message].content.blocks[at.block] == Addition(Some(d))
  }

  /** at picks, in order, every place with a definition, and brought is what they define. */
  ghost predicate PicksDefinitions(at: seq<Place>, ms: seq<Message>, brought: seq<Tool>) {
    && |at| == |brought|
    && (forall a, b :: 0 <= a < b < |at| ==> Earlier(at[a], at[b]))
    && (forall a :: 0 <= a < |at| ==> Defines(ms, at[a], brought[a]))
    && (forall p, d :: Defines(ms, p, d) ==> p in at)
  }

  lemma DefinesMore(ms: seq<Message>, blocks: seq<Block>, rest: string, b: Block, p: Place, d: Tool)
    ensures Defines(ms + [Message(Blocks(blocks + [b]), rest)], p, d)
            <==> Defines(ms + [Message(Blocks(blocks), rest)], p, d) || (p == Place(|ms|, |blocks|) && b == Addition(Some(d)))
  {
    if p.message < |ms| {
      assert (ms + [Message(Blocks(blocks + [b]), rest)])[p.message] == ms[p.message] == (ms + [Message(Blocks(blocks), rest)])[p.message];
    } else if p.block < |blocks| {
      assert (blocks + [b])[p.block] == blocks[p.block];
    }
  }

  /** One more block in the last message. */
  lemma OneMoreBlock(at: seq<Place>, ms: seq<Message>, blocks: seq<Block>, rest: string, b: Block, brought: seq<Tool>)
    requires PicksDefinitions(at, ms + [Message(Blocks(blocks), rest)], brought)
    ensures PicksDefinitions(if BroughtByBlock(b) == [] then at else at + [Place(|ms|, |blocks|)],
                             ms + [Message(Blocks(blocks + [b]), rest)], brought + BroughtByBlock(b))
  {
    hide Defines;
    var before, after := ms + [Message(Blocks(blocks), rest)], ms + [Message(Blocks(blocks + [b]), rest)];
    var here := Place(|ms|, |blocks|);
    var at', brought' := if BroughtByBlock(b) == [] then at else at + [here], brought + BroughtByBlock(b);
    forall p, d | Defines(after, p, d) ensures p in at' {
      DefinesMore(ms, blocks, rest, b, p, d);
      if Defines(before, p, d) {
        assert p in at;
      } else {
        assert at'[|at|] == here;
      }
    }
    forall i | 0 <= i < |at'| ensures Defines(after, at'[i], brought'[i]) {
      DefinesMore(ms, blocks, rest, b, at'[i], brought'[i]);
      if i < |at| {
        assert Defines(before, at[i], brought[i]);
      }
    }
    forall i | 0 <= i < |at| ensures Earlier(at[i], here) {
      PlaceBefore(before, at[i], brought[i], here);
    }
  }

  lemma PlaceBefore(ms: seq<Message>, p: Place, d: Tool, end: Place)
    requires Defines(ms, p, d) && |ms| > 0 && ms[|ms| - 1].content.Blocks?
    requires end == Place(|ms| - 1, |ms[|ms| - 1].content.blocks|)
    ensures Earlier(p, end)
  {
  }

  lemma {:induction false} BroughtInMessage(at: seq<Place>, ms: seq<Message>, blocks: seq<Block>, rest: string, before: seq<Tool>) returns (more: seq<Place>)
    requires PicksDefinitions(at, ms, before)
    ensures PicksDefinitions(more, ms + [Message(Blocks(blocks), rest)], before + Brought(blocks))
  {
    hide PicksDefinitions;
    if blocks == [] {
      more := at;
      NoneInMessage(at, ms, Message(Blocks([]), rest), before);
      assert before + [] == before;
    } else {
      var n := |blocks| - 1;
      more := BroughtInMessage(at, ms, blocks[..n], rest, before);
      OneMoreBlock(more, ms, blocks[..n], rest, blocks[n], before + Brought(blocks[..n]));
      assert blocks[..n] + [blocks[n]] == blocks;
      assert before + Brought(blocks[..n]) + BroughtByBlock(blocks[n]) == before + Brought(blocks);
      more := if BroughtByBlock(blocks[n]) == [] then more else more + [Place(|ms|, n)];
    }
  }

  lemma NoneInMessage(at: seq<Place>, ms: seq<Message>, m: Message, before: seq<Tool>)
    requires PicksDefinitions(at, ms, before) && (m.content.NotBlocks? || m.content.blocks == [])
    ensures PicksDefinitions(at, ms + [m], before)
  {
    forall p, d ensures Defines(ms + [m], p, d) <==> Defines(ms, p, d) {
      if p.message < |ms| {
        assert (ms + [m])[p.message] == ms[p.message];
      }
    }
  }

  /** What the messages bring: every definition that stands in them, in the order they stand. */
  lemma {:induction false} BroughtInOrder(ms: seq<Message>) returns (at: seq<Place>)
    ensures PicksDefinitions(at, ms, BroughtByAll(ms))
  {
    if ms == [] {
      at := [];
    } else {
      hide PicksDefinitions;
      var n := |ms| - 1;
      var m := ms[n];
      at := BroughtInOrder(ms[..n]);
      assert ms[..n] + [m] == ms;
      if m.content.Blocks? {
        at := BroughtInMessage(at, ms[..n], m.content.blocks, m.rest, BroughtByAll(ms[..n]));
      } else {
        NoneInMessage(at, ms[..n], m, BroughtByAll(ms[..n]));
        assert BroughtByAll(ms[..n]) + [] == BroughtByAll(ms[..n]);
      }
    }
  }

  /** The folded tools: those the request had, then of the definitions in its messages the first of each new name. */
  lemma FoldedTools(req: Request) returns (at: seq<Place>, brought: seq<Tool>, idx: seq<nat>, added: seq<Tool>)
    requires req.messages.Some?
    ensures Folded(req).tools == List((if req.tools.List? then req.tools.list else []) + added)
    ensures PicksDefinitions(at, req.messages.value, brought)
    ensures PicksFirsts(idx, if req.tools.List? then req.tools.list else [], brought, added)
  {
    hide PicksDefinitions, PicksFirsts, WithTools;
    var ms, had := req.messages.value, ListOf(req.tools);
    brought := BroughtByAll(ms);
    at := BroughtInOrder(ms);
    idx := AddsFirsts(had, brought);
    added := WithTools(had, brought)[|had|..];
    assert WithTools(had, brought) == had + added;
  }

  /** No addition is left, and folding what was folded finds nothing, whatever its text looks like. */
  lemma NothingLeftToFold(seen: Mentions, req: Request, seenAgain: Mentions)
    requires CanFold(seen, req)
    ensures forall i :: 0 <= i < |Folded(req).messages.value| ==> !Adds(Folded(req).messages.value[i])
    ensures !CanFold(seenAgain, Folded(req)) && PreSeal(seenAgain, Folded(req)) == Folded(req)
  {
    var ms := req.messages.value;
    forall i | 0 <= i < |ms| ensures !Adds(Stripped(ms[i])) {
      if ms[i].content.Blocks? { KeptLoses(ms[i].content.blocks); }
    }
  }

  /** A fold changes the blocks of the messages that bring tools, the tools, and nothing else. */
  lemma FoldChangesOnly(seen: Mentions, req: Request)
    ensures var out := PreSeal(seen, req);
            && out.rest == req.rest
            && (!CanFold(seen, req) ==> out == req)
            && (CanFold(seen, req) ==>
                  && out.messages.Some? && |out.messages.value| == |req.messages.value|
                  && forall i :: 0 <= i < |req.messages.value| ==>
                       var m, m' := req.messages.value[i], out.messages.value[i];
                       && m'.rest == m.rest
                       && (!Adds(m) ==> m' == m)
                       && (Adds(m) ==> m'.content.Blocks? && m'.content.blocks != [] && exists idx :: Picks(idx, m.content.blocks, m'.content.blocks)))
  {
    if CanFold(seen, req) {
      var ms := req.messages.value;
      forall i | 0 <= i < |ms|
        ensures && Stripped(ms[i]).rest == ms[i].rest
                && (!Adds(ms[i]) ==> Stripped(ms[i]) == ms[i])
                && (Adds(ms[i]) ==> Stripped(ms[i]).content.Blocks? && Stripped(ms[i]).content.blocks != []
                                    && exists idx :: Picks(idx, ms[i].content.blocks, Stripped(ms[i]).content.blocks))
      {
        if ms[i].content.Blocks? {
          KeptLoses(ms[i].content.blocks);
          assert Expressible(ms[i].content);
          var idx := KeptInOrder(ms[i].content.blocks);
        }
      }
    }
  }
}
