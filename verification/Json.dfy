/**
 The canonical JSON text of a flat document (client/evidence/mrconfig.go:232-244): keys sorted, no
 white space, strings that need no escaping. Section 3.2.3 of RFC 8785 sorts by UTF-16 code units,
 which for ASCII keys is the order of the bytes.
 */
module Json {
  import opened Text

  datatype Value = Number(n: nat) | Str(s: string) | List(items: seq<string>)

  type Document = map<string, Value>

  // ---------------------------------------------------------------- The order of the keys

  /** Byte-wise lexicographic order. */
  predicate AtMost(a: string, b: string) {
    a == "" || (b != "" && (a[0] < b[0] || (a[0] == b[0] && AtMost(a[1..], b[1..]))))
  }

  lemma {:induction false} AtMostTotal(a: string, b: string)
    ensures AtMost(a, b) || AtMost(b, a)
    ensures AtMost(a, b) && AtMost(b, a) ==> a == b
  {
    if a != "" && b != "" {
      AtMostTotal(a[1..], b[1..]);
      assert a == [a[0]] + a[1..] && b == [b[0]] + b[1..];
    }
  }

  lemma {:induction false} AtMostTransitive(a: string, b: string, c: string)
    requires AtMost(a, b) && AtMost(b, c)
    ensures AtMost(a, c)
  {
    if a != "" && a[0] == b[0] == c[0] {
      AtMostTransitive(a[1..], b[1..], c[1..]);
    }
  }

  predicate IsLeast(k: string, keys: set<string>) {
    k in keys && forall j :: j in keys ==> AtMost(k, j)
  }

  lemma LeastExists(keys: set<string>)
    requires keys != {}
    ensures exists k :: IsLeast(k, keys)
  {
    var j :| j in keys;
    var rest := keys - {j};
    if rest == {} {
      AtMostTotal(j, j);
      assert keys == {j};
      assert IsLeast(j, keys);
    } else {
      LeastExists(rest);
      var k :| IsLeast(k, rest);
      AtMostTotal(j, k);
      AtMostTotal(j, j);
      var least := if AtMost(j, k) then j else k;
      forall i | i in keys ensures AtMost(least, i) {
        if i != j && least == j {
          AtMostTransitive(j, k, i);
        }
      }
      assert IsLeast(least, keys);
    }
  }

  lemma LeastUnique(keys: set<string>)
    ensures forall i, j :: IsLeast(i, keys) && IsLeast(j, keys) ==> i == j
  {
    forall i, j | IsLeast(i, keys) && IsLeast(j, keys) ensures i == j {
      AtMostTotal(i, j);
    }
  }

  /** The keys in ascending order. */
  function Sorted(keys: set<string>): seq<string> {
    if keys == {} then []
    else
      LeastExists(keys);
      LeastUnique(keys);
      var k :| k in keys && IsLeast(k, keys);
      [k] + Sorted(keys - {k})
  }

  predicate Ascending(ks: seq<string>) {
    forall i, j :: 0 <= i < j < |ks| ==> AtMost(ks[i], ks[j]) && ks[i] != ks[j]
  }

  lemma AscendingCons(k: string, rest: seq<string>)
    requires Ascending(rest) && forall i :: 0 <= i < |rest| ==> AtMost(k, rest[i]) && k != rest[i]
    ensures Ascending([k] + rest)
  {
    hide AtMost;
    var all := [k] + rest;
    forall i, j | 0 <= i < j < |all| ensures AtMost(all[i], all[j]) && all[i] != all[j] {
      assert all[j] == rest[j - 1];
      if i > 0 { assert all[i] == rest[i - 1]; }
    }
  }

  lemma {:induction false} SortedIsSorted(keys: set<string>)
    ensures Ascending(Sorted(keys))
    ensures forall k :: k in Sorted(keys) <==> k in keys
    decreases keys
  {
    hide AtMost, Ascending;
    if keys == {} {
      assert Ascending([]) by { NoneAscend(); }
    } else {
      var k := SortedHead(keys);
      var rest := Sorted(keys - {k});
      SortedIsSorted(keys - {k});
      forall i | 0 <= i < |rest| ensures AtMost(k, rest[i]) && k != rest[i] {
        assert rest[i] in rest;
      }
      AscendingCons(k, rest);
    }
  }

  lemma NoneAscend()
    ensures Ascending([])
  {
  }

  lemma SortedHead(keys: set<string>) returns (k: string)
    requires keys != {}
    ensures IsLeast(k, keys) && Sorted(keys) == [k] + Sorted(keys - {k})
  {
    LeastExists(keys);
    k := Sorted(keys)[0];
  }

  lemma HeadIsMember(ks: seq<string>)
    ensures ks != [] ==> exists k :: k in ks && k == ks[0]
  {
    if ks != [] {
      assert ks[0] in ks;
    }
  }

  /** There is one ascending listing of a set of keys, so no other order of insertion shows. */
  lemma {:induction false} OneAscendingListing(a: seq<string>, b: seq<string>)
    requires Ascending(a) && Ascending(b) && forall k :: k in a <==> k in b
    ensures a == b
    decreases |a|
  {
    if a == [] {
      HeadIsMember(b);
    } else {
      assert a[0] in a && a[0] in b;
      assert b[0] in b && b[0] in a;
      var i :| 0 <= i < |b| && b[i] == a[0];
      var j :| 0 <= j < |a| && a[j] == b[0];
      AtMostTotal(a[0], b[0]);
      assert a[0] == b[0];
      forall k ensures k in a[1..] <==> k in b[1..] {
        TailMembers(a, k);
        TailMembers(b, k);
      }
      assert Ascending(a[1..]) && Ascending(b[1..]);
      OneAscendingListing(a[1..], b[1..]);
      assert a == [a[0]] + a[1..] && b == [b[0]] + b[1..];
    }
  }

  lemma TailMembers(ks: seq<string>, k: string)
    requires ks != [] && Ascending(ks)
    ensures k in ks[1..] <==> k in ks && k != ks[0]
  {
    if k in ks && k != ks[0] {
      var i :| 0 <= i < |ks| && ks[i] == k;
      assert ks[1..][i - 1] == k;
    }
    if k in ks[1..] {
      var i :| 0 <= i < |ks| - 1 && ks[1..][i] == k;
      assert ks[i + 1] == k;
    }
  }

  // ---------------------------------------------------------------- The text

  function Quoted(s: string): string { "\"" + s + "\"" }

  function Items(items: seq<string>): string {
    if items == [] then ""
    else Quoted(items[0]) + if |items| == 1 then "" else "," + Items(items[1..])
  }

  function ValueText(v: Value): (t: string)
    ensures t != ""
  {
    match v
    case Number(n) => Itoa(n)
    case Str(s) => Quoted(s)
    case List(items) => "[" + Items(items) + "]"
  }

  function MemberText(k: string, v: Value): string { Quoted(k) + ":" + ValueText(v) }

  predicate AllIn(ks: seq<string>, doc: Document) {
    forall i :: 0 <= i < |ks| ==> ks[i] in doc
  }

  function Members(ks: seq<string>, doc: Document): string
    requires AllIn(ks, doc)
  {
    if ks == [] then ""
    else MemberText(ks[0], doc[ks[0]]) + if |ks| == 1 then "" else "," + Members(ks[1..], doc)
  }

  function Jcs(doc: Document): string {
    SortedIsSorted(doc.Keys);
    assert AllIn(Sorted(doc.Keys), doc);
    "{" + Members(Sorted(doc.Keys), doc) + "}"
  }

  // ---------------------------------------------------------------- Reading it back

  predicate Plain(s: string) { '"' !in s }

  predicate PlainValue(v: Value) {
    match v
    case Number(_) => true
    case Str(s) => Plain(s)
    case List(items) => forall i :: 0 <= i < |items| ==> Plain(items[i])
  }

  /** A document that needs no escaping. */
  predicate PlainDocument(doc: Document) {
    forall k :: k in doc ==> Plain(k) && PlainValue(doc[k])
  }

  /** A quoted string ends at its second quote. */
  lemma QuotedPrefix(a: string, x: string, b: string, y: string)
    requires Plain(a) && Plain(b)
    requires Quoted(a) + x == Quoted(b) + y
    ensures a == b && x == y
  {
    var s := Quoted(a) + x;
    var t := Quoted(b) + y;
    assert s[|a| + 1] == '"' && t[|b| + 1] == '"';
    assert forall i :: 0 <= i < |a| ==> s[i + 1] == a[i];
    assert forall i :: 0 <= i < |b| ==> t[i + 1] == b[i];
    assert |a| == |b|;
    assert a == s[1..|a| + 1] && b == t[1..|b| + 1];
    assert x == s[|a| + 2..] && y == t[|b| + 2..];
  }

  /** A decimal number ends at the first character that is not a digit. */
  lemma NumberPrefix(m: nat, x: string, n: nat, y: string)
    requires x != "" && !IsDigit(x[0]) && y != "" && !IsDigit(y[0])
    requires Itoa(m) + x == Itoa(n) + y
    ensures m == n && x == y
  {
    var a, b := Itoa(m), Itoa(n);
    var s, t := a + x, b + y;
    assert forall i :: 0 <= i < |a| ==> s[i] == a[i] && IsDigit(a[i]);
    assert forall i :: 0 <= i < |b| ==> t[i] == b[i] && IsDigit(b[i]);
    assert s[|a|] == x[0] && t[|b|] == y[0];
    assert |a| == |b|;
    assert a == s[..|a|] && b == t[..|b|] && x == s[|a|..] && y == t[|b|..];
    DigitsValueItoa(m);
    DigitsValueItoa(n);
  }

  lemma FirstOfItems(items: seq<string>, x: string)
    ensures (Items(items) + "]" + x)[0] == if items == [] then ']' else '"'
    ensures items == [] ==> Items(items) + "]" + x == "]" + x
  {
  }

  lemma {:induction false} ItemsPrefix(a: seq<string>, x: string, b: seq<string>, y: string)
    requires forall i :: 0 <= i < |a| ==> Plain(a[i])
    requires forall i :: 0 <= i < |b| ==> Plain(b[i])
    requires Items(a) + "]" + x == Items(b) + "]" + y
    ensures a == b && x == y
    decreases |a|
  {
    hide Quoted;
    var s, t := Items(a) + "]" + x, Items(b) + "]" + y;
    FirstOfItems(a, x);
    FirstOfItems(b, y);
    if a == [] || b == [] {
      assert a == [] && b == [];
      assert x == s[1..] && y == t[1..];
    } else {
      var restA := (if |a| == 1 then "" else "," + Items(a[1..])) + "]" + x;
      var restB := (if |b| == 1 then "" else "," + Items(b[1..])) + "]" + y;
      assert s == Quoted(a[0]) + restA && t == Quoted(b[0]) + restB;
      QuotedPrefix(a[0], restA, b[0], restB);
      assert restA[0] == (if |a| == 1 then ']' else ',') && restB[0] == (if |b| == 1 then ']' else ',');
      if |a| == 1 {
        assert x == restA[1..] && y == restB[1..];
      } else {
        assert restA[1..] == Items(a[1..]) + "]" + x && restB[1..] == Items(b[1..]) + "]" + y;
        ItemsPrefix(a[1..], x, b[1..], y);
      }
      assert a == [a[0]] + a[1..] && b == [b[0]] + b[1..];
    }
  }

  /** What may follow a value: a comma or the closing brace. */
  predicate IsTail(x: string) { x != "" && (x[0] == ',' || x[0] == '}') }

  lemma ValuePrefix(v: Value, x: string, w: Value, y: string)
    requires PlainValue(v) && PlainValue(w) && IsTail(x) && IsTail(y)
    requires ValueText(v) + x == ValueText(w) + y
    ensures v == w && x == y
  {
    hide Items, Quoted, Itoa;
    var s, t := ValueText(v) + x, ValueText(w) + y;
    assert s[0] == ValueText(v)[0] && t[0] == ValueText(w)[0];
    FirstOfValue(v);
    FirstOfValue(w);
    hide IsTail;
    match v {
      case Number(m) => TailIsNoDigit(x); TailIsNoDigit(y); NumberPrefix(m, x, w.n, y);
      case Str(a) => QuotedPrefix(a, x, w.s, y);
      case List(a) =>
        ListTail(a, x);
        ListTail(w.items, y);
        ItemsPrefix(a, x, w.items, y);
    }
  }

  lemma TailIsNoDigit(x: string)
    requires IsTail(x)
    ensures x != "" && !IsDigit(x[0])
  {
  }

  lemma ListTail(items: seq<string>, x: string)
    ensures (ValueText(List(items)) + x)[1..] == Items(items) + "]" + x
  {
  }

  lemma FirstOfValue(v: Value)
    ensures v.Number? <==> IsDigit(ValueText(v)[0])
    ensures v.Str? <==> ValueText(v)[0] == '"'
    ensures v.List? <==> ValueText(v)[0] == '['
  {
    if v.Number? {
      assert Itoa(v.n)[0] in Itoa(v.n);
    }
  }

  /** What follows the first key in the text of the members. */
  function AfterKey(ks: seq<string>, doc: Document): string
    requires ks != [] && AllIn(ks, doc)
  {
    ":" + ValueText(doc[ks[0]]) + AfterValue(ks, doc)
  }

  function AfterValue(ks: seq<string>, doc: Document): string
    requires ks != [] && AllIn(ks, doc)
  {
    if |ks| == 1 then "}" else "," + Members(ks[1..], doc) + "}"
  }

  lemma MembersSplit(ks: seq<string>, doc: Document)
    requires ks != [] && AllIn(ks, doc)
    ensures Members(ks, doc) + "}" == Quoted(ks[0]) + AfterKey(ks, doc)
    ensures IsTail(AfterValue(ks, doc))
  {
    hide Quoted, ValueText, Members;
    MembersUnfold(ks, doc);
    Associate(Quoted(ks[0]), ValueText(doc[ks[0]]), if |ks| == 1 then "" else Members(ks[1..], doc));
  }

  lemma AfterColon(ks: seq<string>, doc: Document)
    requires ks != [] && AllIn(ks, doc)
    ensures AfterKey(ks, doc) != "" && AfterKey(ks, doc)[1..] == ValueText(doc[ks[0]]) + AfterValue(ks, doc)
  {
    hide ValueText, AfterValue;
  }

  lemma MembersUnfold(ks: seq<string>, doc: Document)
    requires ks != [] && AllIn(ks, doc)
    ensures Members(ks, doc) == Quoted(ks[0]) + ":" + ValueText(doc[ks[0]]) + if |ks| == 1 then "" else "," + Members(ks[1..], doc)
  {
    hide Quoted, ValueText;
  }

  lemma Associate(q: string, v: string, m: string)
    ensures (q + ":" + v + "") + "}" == q + (":" + v + "}")
    ensures (q + ":" + v + ("," + m)) + "}" == q + (":" + v + ("," + m + "}"))
  {
  }

  lemma {:induction false} MembersPrefix(ks: seq<string>, a: Document, js: seq<string>, b: Document)
    requires PlainDocument(a) && PlainDocument(b)
    requires AllIn(ks, a) && AllIn(js, b)
    requires Members(ks, a) + "}" == Members(js, b) + "}"
    ensures Agree(ks, a, js, b)
    decreases |ks|
  {
    hide *;
    FirstOfMembers(ks, a);
    FirstOfMembers(js, b);
    if ks != [] && js != [] {
      HeadAndTail(ks, a);
      HeadAndTail(js, b);
      MembersSplit(ks, a);
      MembersSplit(js, b);
      AfterColon(ks, a);
      AfterColon(js, b);
      QuotedPrefix(ks[0], AfterKey(ks, a), js[0], AfterKey(js, b));
      ValuePrefix(a[ks[0]], AfterValue(ks, a), b[js[0]], AfterValue(js, b));
      MembersTail(ks, a, js, b);
      if |ks| > 1 {
        MembersPrefix(ks[1..], a, js[1..], b);
      }
      AgreeCons(ks, a, js, b);
    } else {
      AgreeNone(ks, a, js, b);
    }
  }

  /** The same keys in the same order, with the same values. */
  predicate Agree(ks: seq<string>, a: Document, js: seq<string>, b: Document)
    requires AllIn(ks, a) && AllIn(js, b)
  {
    |ks| == |js| && forall i :: 0 <= i < |ks| ==> ks[i] == js[i] && a[ks[i]] == b[js[i]]
  }

  lemma AgreeCons(ks: seq<string>, a: Document, js: seq<string>, b: Document)
    requires ks != [] && js != [] && AllIn(ks, a) && AllIn(js, b)
    requires ks[0] == js[0] && a[ks[0]] == b[js[0]] && (|ks| == 1 <==> |js| == 1)
    requires |ks| > 1 ==> AllIn(ks[1..], a) && AllIn(js[1..], b) && Agree(ks[1..], a, js[1..], b)
    ensures Agree(ks, a, js, b)
  {
    forall i | 0 < i < |ks| ensures i < |js| && ks[i] == js[i] && a[ks[i]] == b[js[i]] {
      assert ks[1..][i - 1] == ks[i] && |js[1..]| == |ks[1..]| && js[1..][i - 1] == js[i];
    }
  }

  lemma AgreeNone(ks: seq<string>, a: Document, js: seq<string>, b: Document)
    requires ks == [] && js == []
    ensures AllIn(ks, a) && AllIn(js, b) && Agree(ks, a, js, b)
  {
  }

  lemma HeadAndTail(ks: seq<string>, doc: Document)
    requires ks != [] && AllIn(ks, doc) && PlainDocument(doc)
    ensures ks[0] in doc && Plain(ks[0]) && PlainValue(doc[ks[0]]) && AllIn(ks[1..], doc)
  {
  }

  lemma MembersTail(ks: seq<string>, a: Document, js: seq<string>, b: Document)
    requires ks != [] && js != []
    requires AllIn(ks, a) && AllIn(js, b)
    requires AfterValue(ks, a) == AfterValue(js, b)
    ensures |ks| == 1 <==> |js| == 1
    ensures |ks| > 1 ==> Members(ks[1..], a) + "}" == Members(js[1..], b) + "}"
  {
    hide Members;
    if |ks| > 1 {
      assert AfterValue(ks, a)[0] == ',';
      assert AfterValue(ks, a)[1..] == Members(ks[1..], a) + "}";
    }
    if |js| > 1 {
      assert AfterValue(js, b)[0] == ',';
      assert AfterValue(js, b)[1..] == Members(js[1..], b) + "}";
    }
  }

  lemma FirstOfMembers(ks: seq<string>, doc: Document)
    requires AllIn(ks, doc)
    ensures (Members(ks, doc) + "}")[0] == if ks == [] then '}' else '"'
  {
  }

  /** Distinct documents have distinct texts. */
  lemma JcsInjective(a: Document, b: Document)
    requires PlainDocument(a) && PlainDocument(b) && Jcs(a) == Jcs(b)
    ensures a == b
  {
    hide PlainDocument, Members, Sorted;
    SortedIsSorted(a.Keys);
    SortedIsSorted(b.Keys);
    var ks, js := Sorted(a.Keys), Sorted(b.Keys);
    assert Jcs(a)[1..] == Members(ks, a) + "}" && Jcs(b)[1..] == Members(js, b) + "}";
    MembersPrefix(ks, a, js, b);
    assert ks == js;
    forall k | k in a ensures k in ks && a[k] == b[k] {
      assert k in ks;
      var i :| 0 <= i < |ks| && ks[i] == k;
    }
    forall k ensures k in a <==> k in b {
      assert k in a <==> k in ks;
      assert k in b <==> k in js;
    }
    assert a.Keys == b.Keys;
  }
}
