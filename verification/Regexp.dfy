/** The regular-expression matcher of user/grep.c.  Strings are the characters before the
    terminating NUL. */
module Regexp {

  /** A pattern is a list of items: a character, c*, or a final $. */
  datatype Item = One(c: char) | Star(c: char) | End

  function Items(re: string): (items: seq<Item>)
    ensures re != "" ==> items != []
    ensures forall i :: 0 <= i < |items| && items[i].End? ==> i == |items| - 1
  {
    if re == "" then []
    else if |re| > 1 && re[1] == '*' then [Star(re[0])] + Items(re[2..])
    else if re == "$" then [End]
    else [One(re[0])] + Items(re[1..])
  }

  predicate Fits(c: char, x: char) { c == '.' || c == x }

  ghost predicate AllFit(c: char, piece: string) {
    forall i :: 0 <= i < |piece| ==> Fits(c, piece[i])
  }

  /** What a single item stands for. */
  ghost predicate Spells(item: Item, piece: string) {
    match item
    case One(c) => |piece| == 1 && Fits(c, piece[0])
    case Star(c) => AllFit(c, piece)
    case End => piece == ""
  }

  function Concat(pieces: seq<string>): string {
    if pieces == [] then "" else pieces[0] + Concat(pieces[1..])
  }

  /** `pieces` spell the items one by one, at the beginning of the text, and up to its end if
      the pattern ends in $. */
  ghost predicate Witness(items: seq<Item>, pieces: seq<string>, text: string) {
    && |pieces| == |items| && (forall i :: 0 <= i < |items| ==> Spells(items[i], pieces[i]))
    && Concat(pieces) <= text && (items != [] && items[|items| - 1].End? ==> Concat(pieces) == text)
  }

  /** The pattern matches at the beginning of the text. */
  ghost predicate Here(re: string, text: string) {
    exists pieces :: Witness(Items(re), pieces, text)
  }

  /** The pattern matches somewhere in the text. */
  ghost predicate Matches(re: string, text: string) {
    if re != "" && re[0] == '^' then Here(re[1..], text)
    else exists i :: 0 <= i <= |text| && Here(re, text[i..])
  }

  // ---------- A first item and the rest ----------

  lemma WitnessHead(item: Item, rest: seq<Item>, pieces: seq<string>, text: string)
    requires Witness([item] + rest, pieces, text) && (item.End? ==> rest == [])
    ensures Spells(item, pieces[0]) && |pieces[0]| <= |text| && pieces[0] == text[..|pieces[0]|]
    ensures !item.End? ==> Witness(rest, pieces[1..], text[|pieces[0]|..])
    ensures item.End? ==> text == ""
  {
    var items := [item] + rest;
    var p, tail := pieces[0], pieces[1..];
    assert items[0] == item;
    assert Concat(pieces) == p + Concat(tail);
    forall i | 0 <= i < |rest|
      ensures Spells(rest[i], tail[i])
    {
      assert items[i + 1] == rest[i] && Spells(items[i + 1], pieces[i + 1]);
    }
    if rest != [] {
      assert items[|items| - 1] == rest[|rest| - 1];
    }
    var n := |p|;
    assert p + Concat(tail) <= text;
    assert text[..n] == p;
    assert Concat(tail) <= text[n..];
  }

  lemma WitnessPush(item: Item, rest: seq<Item>, piece: string, tail: seq<string>, text: string)
    requires Spells(item, piece) && piece <= text && Witness(rest, tail, text[|piece|..]) && !item.End?
    ensures Witness([item] + rest, [piece] + tail, text)
  {
    var items, pieces := [item] + rest, [piece] + tail;
    assert pieces[1..] == tail && Concat(pieces) == piece + Concat(tail);
    assert piece + text[|piece|..] == text;
    forall i | 0 <= i < |items|
      ensures Spells(items[i], pieces[i])
    {
      if i > 0 {
        assert items[i] == rest[i - 1] && Spells(rest[i - 1], tail[i - 1]);
      }
    }
    if rest != [] {
      assert items[|items| - 1] == rest[|rest| - 1];
    }
  }

  lemma HereEmpty(text: string)
    ensures Here("", text)
  {
    assert Witness(Items(""), [], text);
  }

  lemma HereEnd(text: string)
    ensures Here("$", text) <==> text == ""
  {
    assert Items("$") == [End] + [];
    if Here("$", text) {
      var pieces :| Witness(Items("$"), pieces, text);
      WitnessHead(End, [], pieces, text);
    }
    if text == "" {
      assert Concat([""]) == "";
      assert Witness([End], [""], text);
    }
  }

  lemma HereOne(re: string, text: string)
    requires re != "" && !(|re| > 1 && re[1] == '*') && re != "$"
    ensures Here(re, text) <==> text != "" && Fits(re[0], text[0]) && Here(re[1..], text[1..])
  {
    if Here(re, text) {
      var pieces :| Witness(Items(re), pieces, text);
      WitnessHead(One(re[0]), Items(re[1..]), pieces, text);
    }
    if text != "" && Fits(re[0], text[0]) && Here(re[1..], text[1..]) {
      var tail :| Witness(Items(re[1..]), tail, text[1..]);
      WitnessPush(One(re[0]), Items(re[1..]), text[..1], tail, text);
      assert Witness(Items(re), [text[..1]] + tail, text);
    }
  }

  /** c* then the rest: some number of fitting characters, then a match of the rest. */
  ghost predicate StarHere(c: char, re: string, text: string) {
    exists k :: 0 <= k <= |text| && AllFit(c, text[..k]) && Here(re, text[k..])
  }

  lemma HereStar(re: string, text: string)
    requires |re| > 1 && re[1] == '*'
    ensures Here(re, text) <==> StarHere(re[0], re[2..], text)
  {
    if Here(re, text) {
      var pieces :| Witness(Items(re), pieces, text);
      WitnessHead(Star(re[0]), Items(re[2..]), pieces, text);
      var k := |pieces[0]|;
      assert AllFit(re[0], text[..k]) && Here(re[2..], text[k..]);
    }
    if StarHere(re[0], re[2..], text) {
      var k :| 0 <= k <= |text| && AllFit(re[0], text[..k]) && Here(re[2..], text[k..]);
      var tail :| Witness(Items(re[2..]), tail, text[k..]);
      WitnessPush(Star(re[0]), Items(re[2..]), text[..k], tail, text);
      assert Witness(Items(re), [text[..k]] + tail, text);
    }
  }

  // ---------- The matcher ----------

  method MatchHere(re: string, text: string) returns (ok: bool)
    ensures ok <==> Here(re, text)
    decreases |re|, 0
  {
    if re == "" {
      HereEmpty(text);
      return true;
    }
    if |re| > 1 && re[1] == '*' {
      HereStar(re, text);
      ok := MatchStar(re[0], re[2..], text);
      return;
    }
    if re[0] == '$' && |re| == 1 {
      assert re == "$";
      HereEnd(text);
      return text == "";
    }
    HereOne(re, text);
    if text != "" && (re[0] == '.' || re[0] == text[0]) {
      ok := MatchHere(re[1..], text[1..]);
      return;
    }
    return false;
  }

  method MatchStar(c: char, re: string, text: string) returns (ok: bool)
    ensures ok <==> StarHere(c, re, text)
    decreases |re|, 1
  {
    var k := 0;
    while true
      invariant 0 <= k <= |text| && AllFit(c, text[..k])
      invariant forall j :: 0 <= j < k ==> !Here(re, text[j..])
      decreases |text| - k
    {
      ok := MatchHere(re, text[k..]);
      if ok {
        return;
      }
      if k == |text| || !(text[k] == c || c == '.') {
        StarEnds(c, re, text, k);
        return false;
      }
      k := k + 1;
    }
  }

  lemma StarEnds(c: char, re: string, text: string, k: nat)
    requires k <= |text| && (k == |text| || !Fits(c, text[k])) && forall j :: 0 <= j <= k ==> !Here(re, text[j..])
    ensures !StarHere(c, re, text)
  {
    hide Here;
    forall j | 0 <= j <= |text| && AllFit(c, text[..j])
      ensures !Here(re, text[j..])
    {
    }
  }

  /** match: the declarative meaning, for every pattern and text. */
  method Match(re: string, text: string) returns (ok: bool)
    ensures ok <==> Matches(re, text)
  {
    if re != "" && re[0] == '^' {
      ok := MatchHere(re[1..], text);
      return;
    }
    var i := 0;
    while true
      invariant 0 <= i <= |text| && forall j :: 0 <= j < i ==> !Here(re, text[j..])
      decreases |text| - i
    {
      ok := MatchHere(re, text[i..]);
      if ok {
        return;
      }
      if i == |text| {
        return false;
      }
      i := i + 1;
    }
  }
}
