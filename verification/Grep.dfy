/**
 The pattern matcher of grep (grep.c), from chapter 9 of The Practice of Programming.

 Patterns and texts are C strings: sequences of characters without the NUL, which is what
 an index at the end finds.
 */
module Grep {

  type String = s: string | '\0' !in s

  // ----- what a pattern means ----------------------------------------------

  /** A character, '.' for any; or any number of them, for c*. */
  datatype Item = One(c: char) | Star(c: char)

  predicate Fits(c: char, x: char) {
    c == '.' || c == x
  }

  ghost predicate InItem(x: Item, w: string) {
    match x
    case One(c) => |w| == 1 && Fits(c, w[0])
    case Star(c) => forall i :: 0 <= i < |w| ==> Fits(c, w[i])
  }

  /** w is a string of the first item followed by a string of the others. */
  ghost predicate InLang(xs: seq<Item>, w: string) {
    if xs == [] then w == ""
    else exists k :: 0 <= k <= |w| && InItem(xs[0], w[..k]) && InLang(xs[1..], w[k..])
  }

  /** A pattern after any '^': its items, and whether a '$' ends it. */
  datatype Pattern = Pattern(items: seq<Item>, toEnd: bool)

  function Parse(re: string): Pattern {
    if re == "" then Pattern([], false)
    else if |re| > 1 && re[1] == '*' then
      var p := Parse(re[2..]);
      Pattern([Star(re[0])] + p.items, p.toEnd)
    else if re == "$" then Pattern([], true)
    else
      var p := Parse(re[1..]);
      Pattern([One(re[0])] + p.items, p.toEnd)
  }

  // ----- patterns as text --------------------------------------------------

  function ItemText(x: Item): string {
    match x
    case One(c) => [c]
    case Star(c) => [c, '*']
  }

  /** A pattern as it is typed. */
  function Print(p: Pattern): string
    decreases |p.items|
  {
    if p.items == [] then if p.toEnd then "$" else ""
    else ItemText(p.items[0]) + Print(p.(items := p.items[1..]))
  }

  /** No single character comes before a '*', and no '$' is the last character of a pattern
      that may stop before the end. */
  ghost predicate Printable(p: Pattern) {
    && (forall i :: 0 < i < |p.items| && p.items[i - 1].One? ==> p.items[i].c != '*')
    && (p.items != [] && !p.toEnd ==> p.items[|p.items| - 1] != One('$'))
  }

  lemma Printed(x: Item, p: Pattern)
    ensures Print(p.(items := [x] + p.items)) == ItemText(x) + Print(p)
  {
    assert ([x] + p.items)[1..] == p.items;
  }

  /** Nothing of a pattern is lost. */
  lemma {:induction false} PrintParse(re: string)
    ensures Print(Parse(re)) == re
  {
    if |re| > 1 && re[1] == '*' {
      PrintParse(re[2..]);
      Printed(Star(re[0]), Parse(re[2..]));
      assert re == [re[0], '*'] + re[2..];
    } else if re != "" && re != "$" {
      PrintParse(re[1..]);
      Printed(One(re[0]), Parse(re[1..]));
      assert re == [re[0]] + re[1..];
    }
  }

  lemma {:induction false} ParsePrintable(re: string)
    ensures Printable(Parse(re))
  {
    if |re| > 1 && re[1] == '*' {
      ParsePrintable(re[2..]);
      OneMore(Star(re[0]), Parse(re[2..]));
    } else if re != "" && re != "$" {
      ParsePrintable(re[1..]);
      FirstItem(re[1..]);
      OneMore(One(re[0]), Parse(re[1..]));
    }
  }

  lemma FirstItem(re: string)
    ensures Parse(re).items == [] ==> re == "" || re == "$"
    ensures Parse(re).items == [] && !Parse(re).toEnd ==> re == ""
    ensures Parse(re).items != [] ==> re != "" && Parse(re).items[0].c == re[0]
  {
  }

  lemma OneMore(x: Item, p: Pattern)
    requires Printable(p) && (x.One? && p.items != [] ==> p.items[0].c != '*')
    requires p.items == [] && !p.toEnd ==> x != One('$')
    ensures Printable(Pattern([x] + p.items, p.toEnd))
  {
    var items := [x] + p.items;
    forall i | 0 < i < |items| && items[i - 1].One? ensures items[i].c != '*' {
      assert items[i] == p.items[i - 1];
      if i > 1 {
        assert items[i - 1] == p.items[i - 2];
      }
    }
  }

  lemma {:induction false} ParsePrint(p: Pattern)
    requires Printable(p)
    ensures Parse(Print(p)) == p
    decreases |p.items|
  {
    if p.items != [] {
      var x, q := p.items[0], p.(items := p.items[1..]);
      var s := Print(q);
      assert p.items == [x] + q.items;
      forall i | 0 < i < |q.items| && q.items[i - 1].One? ensures q.items[i].c != '*' {
        assert p.items[i].One? ==> p.items[i + 1].c != '*';
      }
      ParsePrint(q);
      assert Print(p) == ItemText(x) + s;
      if x.Star? {
        assert Print(p)[1] == '*' && Print(p)[2..] == s;
      } else {
        assert Print(p)[0] == x.c && Print(p)[1..] == s;
        assert s != "" ==> s[0] == if q.items == [] then '$' else q.items[0].c;
        assert q.items != [] ==> p.items[1] == q.items[0];
      }
    }
  }

  /** The patterns that can be typed: just those that are read back. */
  lemma ReadBackIff(p: Pattern)
    ensures Parse(Print(p)) == p <==> Printable(p)
  {
    if Printable(p) {
      ParsePrint(p);
    }
    ParsePrintable(Print(p));
  }

  // ----- where a pattern occurs --------------------------------------------

  /** text[i..j] is in the pattern's language, and reaches the end if it must. */
  ghost predicate Occurs(p: Pattern, text: string, i: nat, j: nat) {
    i <= j <= |text| && InLang(p.items, text[i..j]) && (p.toEnd ==> j == |text|)
  }

  ghost predicate OccursAt(p: Pattern, text: string, i: nat) {
    exists j :: i <= j <= |text| && Occurs(p, text, i, j)
  }

  /** The meaning of a pattern: a substring of its language, at the start after '^'. */
  ghost predicate Means(re: string, text: string) {
    if re != "" && re[0] == '^' then OccursAt(Parse(re[1..]), text, 0)
    else exists i :: 0 <= i <= |text| && OccursAt(Parse(re), text, i)
  }

  // ----- how the matcher's steps relate to it ------------------------------

  lemma OccursShift(p: Pattern, text: string, i: nat, j: nat)
    requires i <= |text| && i <= j
    ensures Occurs(p, text, i, j) <==> Occurs(p, text[i..], 0, j - i)
  {
    if j <= |text| {
      assert text[i..][0..j - i] == text[i..j];
    }
  }

  /** An occurrence at i of text is one at 0 of text[i..]. */
  lemma AtShift(p: Pattern, text: string, i: nat)
    requires i <= |text|
    ensures OccursAt(p, text, i) <==> OccursAt(p, text[i..], 0)
  {
    if OccursAt(p, text, i) {
      var j :| i <= j <= |text| && Occurs(p, text, i, j);
      OccursShift(p, text, i, j);
    }
    if OccursAt(p, text[i..], 0) {
      var j :| 0 <= j <= |text[i..]| && Occurs(p, text[i..], 0, j);
      OccursShift(p, text, i, i + j);
    }
  }

  lemma HereEmpty(text: string)
    ensures OccursAt(Pattern([], false), text, 0)
    ensures OccursAt(Pattern([], true), text, 0) <==> text == ""
  {
    assert Occurs(Pattern([], false), text, 0, 0);
    if text == "" {
      assert Occurs(Pattern([], true), text, 0, 0);
    }
  }

  lemma HereOne(c: char, p: Pattern, text: string)
    ensures OccursAt(Pattern([One(c)] + p.items, p.toEnd), text, 0) <==>
            text != "" && Fits(c, text[0]) && OccursAt(p, text[1..], 0)
  {
    var q := Pattern([One(c)] + p.items, p.toEnd);
    assert q.items[1..] == p.items;
    if OccursAt(q, text, 0) {
      var j :| 0 <= j <= |text| && Occurs(q, text, 0, j);
      var k :| 0 <= k <= j && InItem(q.items[0], text[0..j][..k]) && InLang(q.items[1..], text[0..j][k..]);
      assert k == 1 && text[0..j][1..] == text[1..][0..j - 1];
      assert Occurs(p, text[1..], 0, j - 1);
    }
    if text != "" && Fits(c, text[0]) && OccursAt(p, text[1..], 0) {
      var j :| 0 <= j <= |text[1..]| && Occurs(p, text[1..], 0, j);
      var w := text[0..j + 1];
      assert w[..1] == [text[0]] && w[1..] == text[1..][0..j];
      assert InItem(q.items[0], w[..1]) && InLang(q.items[1..], w[1..]);
      assert Occurs(q, text, 0, j + 1);
    }
  }

  /** The first k characters of the text fit c, and the rest of the pattern occurs there. */
  ghost predicate StarHere(c: char, p: Pattern, text: string, k: nat) {
    k <= |text| && (forall i :: 0 <= i < k ==> Fits(c, text[i])) && OccursAt(p, text[k..], 0)
  }

  ghost predicate StarOccurs(c: char, p: Pattern, text: string) {
    exists k: nat :: StarHere(c, p, text, k)
  }

  lemma HereStar(c: char, p: Pattern, text: string)
    ensures OccursAt(Pattern([Star(c)] + p.items, p.toEnd), text, 0) <==> StarOccurs(c, p, text)
  {
    var q := Pattern([Star(c)] + p.items, p.toEnd);
    assert q.items[1..] == p.items;
    if OccursAt(q, text, 0) {
      var j :| 0 <= j <= |text| && Occurs(q, text, 0, j);
      var w := text[0..j];
      var k :| 0 <= k <= j && InItem(q.items[0], w[..k]) && InLang(q.items[1..], w[k..]);
      assert w[k..] == text[k..][0..j - k];
      assert Occurs(p, text[k..], 0, j - k);
      assert forall i :: 0 <= i < k ==> text[i] == w[..k][i];
      assert StarHere(c, p, text, k);
    }
    if k: nat :| StarHere(c, p, text, k) {
      var j :| 0 <= j <= |text[k..]| && Occurs(p, text[k..], 0, j);
      var w := text[0..k + j];
      assert w[k..] == text[k..][0..j];
      assert InItem(q.items[0], w[..k]) && InLang(q.items[1..], w[k..]);
      assert Occurs(q, text, 0, k + j);
    }
  }

  // ----- the matcher -------------------------------------------------------

  method Match(re: String, text: String) returns (found: bool)
    ensures found <==> Means(re, text)
  {
    if re != "" && re[0] == '^' {
      found := MatchHere(re[1..], text);
      return;
    }
    var t := 0;
    while true
      invariant t <= |text| && forall i :: 0 <= i < t ==> !OccursAt(Parse(re), text, i)
      decreases |text| - t
    {
      AtShift(Parse(re), text, t);
      var here := MatchHere(re, text[t..]);
      if here {
        return true;
      }
      if t == |text| {
        return false;
      }
      t := t + 1;
    }
  }

  method MatchHere(re: String, text: String) returns (found: bool)
    ensures found <==> OccursAt(Parse(re), text, 0)
    decreases |re|, 0
  {
    HereEmpty(text);
    if re == "" {
      return true;
    }
    if |re| > 1 && re[1] == '*' {
      HereStar(re[0], Parse(re[2..]), text);
      found := MatchStar(re[0], re[2..], text);
      return;
    }
    if re[0] == '$' && |re| == 1 {
      return text == "";
    }
    HereOne(re[0], Parse(re[1..]), text);
    if text != "" && (re[0] == '.' || re[0] == text[0]) {
      found := MatchHere(re[1..], text[1..]);
      return;
    }
    found := false;
  }

  method MatchStar(c: char, re: String, text: String) returns (found: bool)
    ensures found <==> StarOccurs(c, Parse(re), text)
    decreases |re|, 1
  {
    var t := 0;
    while true
      invariant t <= |text| && (forall i :: 0 <= i < t ==> Fits(c, text[i]))
      invariant forall k :: 0 <= k < t ==> !StarHere(c, Parse(re), text, k)
      decreases |text| - t
    {
      var here := MatchHere(re, text[t..]);
      if here {
        assert StarHere(c, Parse(re), text, t);
        return true;
      }
      if t == |text| || !(text[t] == c || c == '.') {
        assert forall k: nat :: StarHere(c, Parse(re), text, k) ==> k <= t;
        return false;
      }
      t := t + 1;
    }
  }
}
