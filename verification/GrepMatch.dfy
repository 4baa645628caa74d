/** grep's regular expressions: match, matchhere and matchstar against what a pattern
    means. Strings have no NUL inside, so their end is where the C code sees NUL. */
module GrepMatch {

  /** One element of a pattern. A star's character may be '.', for any. */
  datatype Item = One(c: char) | Star(c: char) | End

  function Items(re: string): seq<Item>
    decreases |re|
  {
    if re == [] then []
    else if |re| > 1 && re[1] == '*' then [Star(re[0])] + Items(re[2..])
    else if re == "$" then [End]
    else [One(re[0])] + Items(re[1..])
  }

  predicate Stands(c: char, x: char) {
    c == '.' || c == x
  }

  /** The item stands for the text w, where text is all that is left. */
  ghost predicate Fits(it: Item, w: string, text: string) {
    match it
    case One(c) => |w| == 1 && Stands(c, w[0])
    case Star(c) => forall k :: 0 <= k < |w| ==> Stands(c, w[k])
    case End => w == [] && text == []
  }

  /** text begins with the pieces, one for each item in turn. */
  ghost predicate Splits(items: seq<Item>, pieces: seq<string>, text: string)
    decreases |items|
  {
    && |pieces| == |items|
    && (items == [] ||
        (&& Fits(items[0], pieces[0], text) && pieces[0] <= text
         && Splits(items[1..], pieces[1..], text[|pieces[0]|..])))
  }

  /** Some way of reading the items matches the beginning of the text. */
  ghost predicate Here(items: seq<Item>, text: string) {
    exists pieces :: Splits(items, pieces, text)
  }

  /** What a pattern means: with '^' it matches at the start, else anywhere. */
  ghost predicate Means(re: string, text: string) {
    if re != [] && re[0] == '^' then Here(Items(re[1..]), text)
    else exists i :: 0 <= i <= |text| && Here(Items(re), text[i..])
  }

  lemma HereNone(text: string)
    ensures Here([], text)
  {
    assert Splits([], [], text);
  }

  lemma HereCons(it: Item, items: seq<Item>, text: string, n: nat)
    requires n <= |text| && Fits(it, text[..n], text) && Here(items, text[n..])
    ensures Here([it] + items, text)
  {
    var pieces :| Splits(items, pieces, text[n..]);
    var all := [text[..n]] + pieces;
    assert all[1..] == pieces && ([it] + items)[1..] == items;
    assert Splits([it] + items, all, text);
  }

  lemma HereSplit(it: Item, items: seq<Item>, text: string) returns (n: nat)
    requires Here([it] + items, text)
    ensures n <= |text| && Fits(it, text[..n], text) && Here(items, text[n..])
  {
    var all := [it] + items;
    var pieces :| Splits(all, pieces, text);
    n := |pieces[0]|;
    assert text[..n] == pieces[0] && all[1..] == items;
    assert Splits(items, pieces[1..], text[n..]);
  }

  /** A star: some number of characters, and the rest of the pattern behind them. */
  ghost predicate StarAt(c: char, items: seq<Item>, text: string, k: int) {
    0 <= k <= |text| && (forall j :: 0 <= j < k ==> Stands(c, text[j])) && Here(items, text[k..])
  }

  ghost predicate StarHere(c: char, items: seq<Item>, text: string) {
    exists k :: StarAt(c, items, text, k)
  }

  lemma StarIff(c: char, items: seq<Item>, text: string)
    ensures Here([Star(c)] + items, text) <==> StarHere(c, items, text)
  {
    if Here([Star(c)] + items, text) {
      var n := HereSplit(Star(c), items, text);
      assert forall j :: 0 <= j < n ==> Stands(c, text[..n][j]);
      assert StarAt(c, items, text, n);
    }
    if k :| StarAt(c, items, text, k) {
      HereCons(Star(c), items, text, k);
    }
  }

  lemma OneIff(c: char, items: seq<Item>, text: string)
    ensures Here([One(c)] + items, text) <==> text != [] && Stands(c, text[0]) && Here(items, text[1..])
  {
    if Here([One(c)] + items, text) {
      var n := HereSplit(One(c), items, text);
    }
    if text != [] && Stands(c, text[0]) && Here(items, text[1..]) {
      HereCons(One(c), items, text, 1);
    }
  }

  lemma EndIff(text: string)
    ensures Here([End], text) <==> text == []
  {
    assert [End] == [End] + [];
    if Here([End], text) {
      var n := HereSplit(End, [], text);
    }
    if text == [] {
      HereNone(text[0..]);
      HereCons(End, [], text, 0);
    }
  }

  /** matchhere. */
  method MatchHere(re: string, text: string) returns (b: bool)
    ensures b <==> Here(Items(re), text)
    decreases |re|, 1
  {
    if re == [] {
      HereNone(text);
      return true;
    }
    if |re| > 1 && re[1] == '*' {
      StarIff(re[0], Items(re[2..]), text);
      b := MatchStar(re[0], re[2..], text);
      return;
    }
    if re == "$" {
      EndIff(text);
      return text == [];
    }
    OneIff(re[0], Items(re[1..]), text);
    if text != [] && (re[0] == '.' || re[0] == text[0]) {
      b := MatchHere(re[1..], text[1..]);
      return;
    }
    b := false;
  }

  /** matchstar: the shortest run first. */
  method MatchStar(c: char, re: string, text: string) returns (b: bool)
    ensures b <==> StarHere(c, Items(re), text)
    decreases |re|, 2
  {
    var k := 0;
    while true
      invariant 0 <= k <= |text| && forall j :: 0 <= j < k ==> Stands(c, text[j])
      invariant forall j :: 0 <= j < k ==> !StarAt(c, Items(re), text, j)
      decreases |text| - k
    {
      var here := MatchHere(re, text[k..]);
      if here {
        assert StarAt(c, Items(re), text, k);
        return true;
      }
      if !(k < |text| && (text[k] == c || c == '.')) {
        return false;
      }
      k := k + 1;
    }
  }

  /** match answers exactly what the pattern means. */
  method Match(re: string, text: string) returns (b: bool)
    ensures b <==> Means(re, text)
  {
    if re != [] && re[0] == '^' {
      b := MatchHere(re[1..], text);
      return;
    }
    var i := 0;
    while i <= |text|
      invariant 0 <= i <= |text| + 1
      invariant forall j :: 0 <= j < i ==> !Here(Items(re), text[j..])
    {
      b := MatchHere(re, text[i..]);
      if b {
        return;
      }
      i := i + 1;
    }
    b := false;
  }
}
