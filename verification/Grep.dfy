/** user/grep.c: the matcher and the loop that feeds it lines. */
module Grep {

  // ------------------------------------------------- what a pattern means

  datatype Item = One(c: char) | Star(c: char) | End

  /** How a pattern (without its leading ^) reads: x* is a star, a final $ is the end of the line. */
  function Items(re: string): seq<Item> {
    if re == "" then []
    else if |re| > 1 && re[1] == '*' then [Star(re[0])] + Items(re[2..])
    else if re == "$" then [End]
    else [One(re[0])] + Items(re[1..])
  }

  predicate CharOk(c: char, x: char) {
    c == '.' || c == x
  }

  /** A piece of text that an item stands for, with rest the text after it. */
  ghost predicate PieceOk(item: Item, piece: string, rest: string) {
    match item
    case One(c) => |piece| == 1 && CharOk(c, piece[0])
    case Star(c) => forall x | x in piece :: CharOk(c, x)
    case End => piece == "" && rest == ""
  }

  function Concat(pieces: seq<string>): string {
    if pieces == [] then "" else pieces[0] + Concat(pieces[1..])
  }

  /** The pieces, one for each item, make up the text before rest. */
  ghost predicate Reads(items: seq<Item>, pieces: seq<string>, rest: string) {
    && |pieces| == |items|
    && forall i | 0 <= i < |items| :: PieceOk(items[i], pieces[i], Concat(pieces[i + 1..]) + rest)
  }

  /** Some prefix of the text is made of pieces the items stand for. */
  ghost predicate Accepts(items: seq<Item>, text: string) {
    exists pieces, rest :: Reads(items, pieces, rest) && text == Concat(pieces) + rest
  }

  /** The language of grep: anchored by ^, otherwise anywhere in the line. */
  ghost predicate Found(re: string, text: string) {
    if re != "" && re[0] == '^' then Accepts(Items(re[1..]), text)
    else exists k | 0 <= k <= |text| :: Accepts(Items(re), text[k..])
  }

  lemma AcceptsNothing(text: string)
    ensures Accepts([], text)
  {
    assert Reads([], [], text) && text == Concat([]) + text;
  }

  lemma AcceptsSplit(item: Item, items: seq<Item>, text: string) returns (k: nat)
    requires Accepts([item] + items, text)
    ensures k <= |text| && PieceOk(item, text[..k], text[k..]) && Accepts(items, text[k..])
  {
    var pieces, rest :| Reads([item] + items, pieces, rest) && text == Concat(pieces) + rest;
    TailReads(item, items, pieces, rest);
    assert pieces != [];
    hide Reads, PieceOk;
    k := |pieces[0]|;
    assert text == pieces[0] + (Concat(pieces[1..]) + rest);
    assert text[k..] == Concat(pieces[1..]) + rest && text[..k] == pieces[0];
  }

  lemma Regroup(text: string, k: nat, c: string, rest: string)
    requires k <= |text| && text[k..] == c + rest
    ensures text == (text[..k] + c) + rest
  { }

  lemma AcceptsJoin(item: Item, items: seq<Item>, text: string, k: nat)
    requires k <= |text| && PieceOk(item, text[..k], text[k..]) && Accepts(items, text[k..])
    ensures Accepts([item] + items, text)
  {
    var pieces, rest :| Reads(items, pieces, rest) && text[k..] == Concat(pieces) + rest;
    HeadReads(item, items, text[..k], pieces, rest);
    hide Reads, PieceOk;
    var ps := [text[..k]] + pieces;
    assert ps[1..] == pieces && ps[0] == text[..k];
    Regroup(text, k, Concat(pieces), rest);
  }

  /** Reading the first item off a pattern. */
  lemma AcceptsFirst(item: Item, items: seq<Item>, text: string)
    ensures Accepts([item] + items, text) <==>
      exists k | 0 <= k <= |text| :: PieceOk(item, text[..k], text[k..]) && Accepts(items, text[k..])
  {
    hide Accepts, PieceOk;
    if Accepts([item] + items, text) {
      var k := AcceptsSplit(item, items, text);
    }
    if k :| 0 <= k <= |text| && PieceOk(item, text[..k], text[k..]) && Accepts(items, text[k..]) {
      AcceptsJoin(item, items, text, k);
    }
  }

  lemma TailReads(item: Item, items: seq<Item>, pieces: seq<string>, rest: string)
    requires Reads([item] + items, pieces, rest)
    ensures Reads(items, pieces[1..], rest) && PieceOk(item, pieces[0], Concat(pieces[1..]) + rest)
  {
    forall i | 0 <= i < |items| ensures PieceOk(items[i], pieces[1..][i], Concat(pieces[1..][i + 1..]) + rest) {
      assert ([item] + items)[i + 1] == items[i] && pieces[1..][i + 1..] == pieces[i + 1 + 1..];
      assert PieceOk(([item] + items)[i + 1], pieces[i + 1], Concat(pieces[i + 1 + 1..]) + rest);
    }
    assert ([item] + items)[0] == item;
  }

  lemma HeadReads(item: Item, items: seq<Item>, piece: string, pieces: seq<string>, rest: string)
    requires Reads(items, pieces, rest) && PieceOk(item, piece, Concat(pieces) + rest)
    ensures Reads([item] + items, [piece] + pieces, rest)
  {
    var all, ps := [item] + items, [piece] + pieces;
    forall i | 0 <= i < |all| ensures PieceOk(all[i], ps[i], Concat(ps[i + 1..]) + rest) {
      if i == 0 {
        assert ps[1..] == pieces;
      } else {
        assert ps[i + 1..] == pieces[i - 1 + 1..];
        assert PieceOk(items[i - 1], pieces[i - 1], Concat(pieces[i - 1 + 1..]) + rest);
      }
    }
  }

  lemma AcceptsOne(c: char, items: seq<Item>, text: string)
    ensures Accepts([One(c)] + items, text) <==> text != "" && CharOk(c, text[0]) && Accepts(items, text[1..])
  {
    AcceptsFirst(One(c), items, text);
    if text != "" { assert text[..1][0] == text[0]; }
  }

  lemma AcceptsEnd(text: string)
    ensures Accepts([End], text) <==> text == ""
  {
    assert [End] + [] == [End];
    AcceptsFirst(End, [], text);
    if text == "" {
      AcceptsNothing(text);
      assert text[0..] == text && PieceOk(End, text[..0], text[0..]);
    }
  }

  // ------------------------------------------------- the matcher

  /** match(): pattern and line are C strings, and contain no NUL. */
  method Match(re: string, text: string) returns (found: bool)
    ensures found <==> Found(re, text)
  {
    if re != "" && re[0] == '^' {
      found := Matchhere(re[1..], text);
      return;
    }
    var i := 0;
    while true
      invariant 0 <= i <= |text| && forall k | 0 <= k < i :: !Accepts(Items(re), text[k..])
      decreases |text| - i
    {
      found := Matchhere(re, text[i..]);
      if found || i == |text| { return; }
      i := i + 1;
    }
  }

  /** matchhere(): the pattern at the start of the text. */
  method Matchhere(re: string, text: string) returns (found: bool)
    ensures found <==> Accepts(Items(re), text)
    decreases |re|, 0
  {
    if re == "" {
      AcceptsNothing(text);
      return true;
    }
    if |re| > 1 && re[1] == '*' {
      found := Matchstar(re[0], re[2..], text);
      return;
    }
    if re == "$" {
      AcceptsEnd(text);
      return text == "";
    }
    AcceptsOne(re[0], Items(re[1..]), text);
    if text != "" && (re[0] == '.' || re[0] == text[0]) {
      found := Matchhere(re[1..], text[1..]);
      return;
    }
    return false;
  }

  /** matchstar(): c* and then the pattern; the shortest run first. */
  method Matchstar(c: char, re: string, text: string) returns (found: bool)
    ensures found <==> Accepts([Star(c)] + Items(re), text)
    decreases |re|, 1
  {
    AcceptsFirst(Star(c), Items(re), text);
    var i := 0;
    while true
      invariant 0 <= i <= |text| && forall k | 0 <= k < i :: !Accepts(Items(re), text[k..])
      invariant forall x | x in text[..i] :: CharOk(c, x)
      decreases |text| - i
    {
      found := Matchhere(re, text[i..]);
      if found {
        assert PieceOk(Star(c), text[..i], text[i..]);
        return;
      }
      if i == |text| || !(text[i] == c || c == '.') {
        forall k | i < k <= |text| ensures !PieceOk(Star(c), text[..k], text[k..]) {
          assert text[..k][i] == text[i] && text[i] in text[..k];
        }
        return;
      }
      assert text[..i + 1] == text[..i] + [text[i]];
      i := i + 1;
    }
  }
}
