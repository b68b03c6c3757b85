/** Which byte strings are valid UTF-8, as Go's encoding/json leaves every string it decodes. */
module Utf8 {
  predicate IsCont(c: char) { 0x80 <= c as int <= 0xBF }

  /** Whether b may follow a in a rune of several bytes: no overlong form, no surrogate, nothing past U+10FFFF. */
  predicate MayFollow(a: int, b: char) {
    && IsCont(b)
    && (a == 0xE0 ==> b as int >= 0xA0) && (a == 0xED ==> b as int <= 0x9F)
    && (a == 0xF0 ==> b as int >= 0x90) && (a == 0xF4 ==> b as int <= 0x8F)
  }

  /** How many bytes a rune that starts with a has; none starts with some bytes. */
  function WidthOf(a: int): nat {
    if a < 0x80 then 1
    else if 0xC2 <= a <= 0xDF then 2
    else if 0xE0 <= a <= 0xEF then 3
    else if 0xF0 <= a <= 0xF4 then 4
    else 0
  }

  /** The width of the rune s starts with, 0 if it starts with none. */
  function RuneWidth(s: string): (w: nat)
    ensures w <= |s|
  {
    if s == "" then 0
    else
      var a := s[0] as int;
      var w := WidthOf(a);
      if w <= |s| && (w >= 2 ==> MayFollow(a, s[1])) && (w >= 3 ==> IsCont(s[2])) && (w >= 4 ==> IsCont(s[3])) then w else 0
  }

  predicate Valid(s: string)
    decreases |s|
  {
    s == "" || (RuneWidth(s) > 0 && Valid(s[RuneWidth(s)..]))
  }

  /** A rune is known by its own bytes. */
  lemma SameRune(s: string, t: string)
    requires RuneWidth(s) > 0 && RuneWidth(s) <= |t| && forall i :: 0 <= i < RuneWidth(s) ==> t[i] == s[i]
    ensures RuneWidth(t) == RuneWidth(s)
  {
  }

  /** After a valid string, what follows is valid exactly when the whole is. */
  lemma {:induction false} ValidAppend(a: string, b: string)
    requires Valid(a)
    ensures Valid(a + b) <==> Valid(b)
    decreases |a|
  {
    hide RuneWidth;
    if a == "" {
      assert a + b == b;
    } else {
      var w := RuneWidth(a);
      SameRune(a, a + b);
      assert (a + b)[w..] == a[w..] + b;
      ValidAppend(a[w..], b);
    }
  }

  /** The bytes after a rune's first are none of ASCII. */
  lemma RuneHasNoAscii(s: string, i: nat)
    requires 0 < i < RuneWidth(s)
    ensures s[i] as int >= 0x80
  {
  }

  /** An ASCII byte is a rune of its own, so what is before one in a valid string is valid. */
  lemma {:induction false} ValidBefore(a: string, c: char, b: string)
    requires c as int < 0x80 && Valid(a + [c] + b)
    ensures Valid(a)
    decreases |a|
  {
    hide RuneWidth;
    if a != "" {
      var s := a + [c] + b;
      var w := RuneWidth(s);
      assert s[|a|] == c;
      if w > |a| {
        RuneHasNoAscii(s, |a|);
      }
      SameRune(s, a);
      assert s[w..] == a[w..] + [c] + b;
      ValidBefore(a[w..], c, b);
    }
  }

  lemma AsciiIsValid(c: char)
    requires c as int < 0x80
    ensures Valid([c])
  {
    assert RuneWidth([c]) == 1 && [c][1..] == "";
  }
}
