/**
 Message templates (backend/internal/notifications/notifications.go:126-146).

 `interpolate` replaces the payload keys one after another, in the unspecified order of a Go map
 range, each time rebuilding the whole string byte by byte; a byte of 0x80 or more is re-encoded as
 a two-byte rune on every pass. The lemmas compare that with filling all slots in one pass.
 */
module Notifications {
  import opened Core

  type Byte = bv8

  /** A Go string: bytes. */
  type Text = seq<Byte>

  const OPEN: Byte := 123
  const CLOSE: Byte := 125

  /** string(s[i]): the byte read as a code point, written in UTF-8. */
  function Reencode(b: Byte): Text {
    if b < 128 then [b] else [192 + b / 64, 128 + b % 64]
  }

  function ReencodeAll(t: Text): Text {
    if t == [] then [] else Reencode(t[0]) + ReencodeAll(t[1..])
  }

  function Token(key: Text): Text {
    [OPEN] + key + [CLOSE]
  }

  /** The left-to-right scan of replaceAll. */
  function Replaced(s: Text, needle: Text, filler: Text): Text
    requires needle != []
    decreases |s|
  {
    if s == [] then []
    else if |needle| <= |s| && s[..|needle|] == needle then filler + Replaced(s[|needle|..], needle, filler)
    else Reencode(s[0]) + Replaced(s[1..], needle, filler)
  }

  /** Replacing the keys in a given order. */
  function ReplacedInOrder(s: Text, p: map<Text, Text>, order: seq<Text>): Text
    requires forall k :: k in order ==> k in p
    decreases |order|
  {
    if order == [] then s
    else
      var n := |order| - 1;
      Replaced(ReplacedInOrder(s, p, order[..n]), Token(order[n]), p[order[n]])
  }

  /** A map range visits every key once, in an order of its own. */
  ghost predicate Visits(order: seq<Text>, keys: set<Text>) {
    && (forall k :: k in order <==> k in keys)
    && (forall i, j :: 0 <= i < j < |order| ==> order[i] != order[j])
  }

  /** The loop stops because the token is never empty. */
  method ReplaceAll(s: Text, needle: Text, filler: Text) returns (result: Text)
    requires needle != []
    ensures result == Replaced(s, needle, filler)
  {
    result := [];
    var i := 0;
    while i < |s|
      invariant 0 <= i <= |s|
      invariant Replaced(s, needle, filler) == result + Replaced(s[i..], needle, filler)
    {
      ScanMovesOn(s, needle, filler, i, result);
      if i + |needle| <= |s| && s[i..i + |needle|] == needle {
        result := result + filler;
        i := i + |needle|;
      } else {
        result := result + Reencode(s[i]);
        i := i + 1;
      }
    }
  }

  /** What one turn of the loop appends keeps result and rest together. */
  lemma ScanMovesOn(s: Text, needle: Text, filler: Text, i: nat, result: Text)
    requires needle != [] && i < |s|
    ensures result + Replaced(s[i..], needle, filler) ==
      if i + |needle| <= |s| && s[i..i + |needle|] == needle
      then (result + filler) + Replaced(s[i + |needle|..], needle, filler)
      else (result + Reencode(s[i])) + Replaced(s[i + 1..], needle, filler)
  {
    ScanUnfolds(s, needle, filler, i);
    if i + |needle| <= |s| && s[i..i + |needle|] == needle {
      Regroup(result, filler, Replaced(s[i + |needle|..], needle, filler));
    } else {
      Regroup(result, Reencode(s[i]), Replaced(s[i + 1..], needle, filler));
    }
  }

  /** One step of the scan from position i. */
  lemma ScanUnfolds(s: Text, needle: Text, filler: Text, i: nat)
    requires needle != [] && i < |s|
    ensures Replaced(s[i..], needle, filler) ==
      if i + |needle| <= |s| && s[i..i + |needle|] == needle then filler + Replaced(s[i + |needle|..], needle, filler)
      else Reencode(s[i]) + Replaced(s[i + 1..], needle, filler)
  {
    if i + |needle| <= |s| {
      assert s[i..][..|needle|] == s[i..i + |needle|];
      assert s[i..][|needle|..] == s[i + |needle|..];
    }
    assert s[i..][1..] == s[i + 1..];
  }

  /** `order` reports the order the range happened to take. */
  method Interpolate(s: Text, p: map<Text, Text>) returns (result: Text, order: seq<Text>)
    ensures Visits(order, p.Keys)
    ensures result == ReplacedInOrder(s, p, order)
  {
    result := s;
    order := [];
    var left := p.Keys;
    while left != {}
      invariant left <= p.Keys
      invariant forall k :: k in order <==> k in p.Keys - left
      invariant forall i, j :: 0 <= i < j < |order| ==> order[i] != order[j]
      invariant result == ReplacedInOrder(s, p, order)
      decreases left
    {
      var k :| k in left;
      ghost var before := order;
      result := ReplaceAll(result, Token(k), p[k]);
      assert k !in before;
      order := order + [k];
      assert order[..|order| - 1] == before;
      left := left - {k};
    }
  }

  // ---------------------------------------------------------------- templates

  predicate Clean(t: Text) {
    forall i :: 0 <= i < |t| ==> t[i] != OPEN && t[i] != CLOSE
  }

  predicate Ascii(t: Text) {
    forall i :: 0 <= i < |t| ==> t[i] < 128
  }

  /** Braces strictly alternate, an opening one first, and all are closed. */
  predicate Alternates(s: Text, open: bool) {
    if s == [] then !open
    else if s[0] == OPEN then !open && Alternates(s[1..], true)
    else if s[0] == CLOSE then open && Alternates(s[1..], false)
    else Alternates(s[1..], open)
  }

  datatype Piece = Lit(text: Text) | Slot(name: Text)

  function Show(piece: Piece): Text {
    match piece
    case Lit(t) => t
    case Slot(n) => Token(n)
  }

  function Render(ps: seq<Piece>): Text {
    if ps == [] then [] else Show(ps[0]) + Render(ps[1..])
  }

  predicate CleanPieces(ps: seq<Piece>) {
    forall i :: 0 <= i < |ps| ==> Clean(if ps[i].Lit? then ps[i].text else ps[i].name)
  }

  /** How many bytes come before the first brace. */
  function UpToBrace(s: Text): (n: nat)
    ensures n <= |s| && Clean(s[..n])
    ensures n < |s| ==> s[n] == OPEN || s[n] == CLOSE
  {
    if s == [] || s[0] == OPEN || s[0] == CLOSE then 0
    else
      assert s[..1 + UpToBrace(s[1..])] == [s[0]] + s[1..][..UpToBrace(s[1..])];
      1 + UpToBrace(s[1..])
  }

  lemma {:induction false} AlternatesSkips(s: Text, open: bool, n: nat)
    requires n <= |s| && Clean(s[..n])
    ensures Alternates(s, open) == Alternates(s[n..], open)
  {
    if n > 0 {
      assert s[0] == s[..n][0] && s[1..][..n - 1] == s[..n][1..] && s[1..][n - 1..] == s[n..];
      AlternatesSkips(s[1..], open, n - 1);
    } else {
      assert s[0..] == s;
    }
  }

  lemma RenderTwo(t: Text, name: Text, ps: seq<Piece>)
    ensures Render([Lit(t), Slot(name)] + ps) == t + Token(name) + Render(ps)
    ensures Clean(t) && Clean(name) && CleanPieces(ps) ==> CleanPieces([Lit(t), Slot(name)] + ps)
  {
    var all := [Lit(t), Slot(name)] + ps;
    assert all[1..] == [Slot(name)] + ps && all[1..][1..] == ps;
    assert Render(all) == t + (Token(name) + Render(ps));
  }

  /** The first brace is the one the state calls for, and the rest alternates from there. */
  lemma AtFirstBrace(s: Text, open: bool) returns (t: Text, rest: Text)
    requires Alternates(s, open) && UpToBrace(s) < |s|
    ensures Clean(t) && s == t + [if open then CLOSE else OPEN] + rest && Alternates(rest, !open)
  {
    var n := UpToBrace(s);
    AlternatesSkips(s, open, n);
    t, rest := s[..n], s[n + 1..];
    assert s[n..][0] == s[n] && s[n..][1..] == rest;
    assert s == t + [s[n]] + rest;
  }

  /** An alternating template with a brace in it: text, a slot, and a shorter alternating template. */
  lemma SplitAtSlot(s: Text) returns (t: Text, name: Text, rest: Text)
    requires Alternates(s, false) && UpToBrace(s) < |s|
    ensures Clean(t) && Clean(name) && Alternates(rest, false)
    ensures s == t + Token(name) + rest
  {
    var tail: Text;
    t, tail := AtFirstBrace(s, false);
    OpenMustClose(tail);
    name, rest := AtFirstBrace(tail, true);
    assert s == t + [OPEN] + (name + [CLOSE] + rest);
  }

  lemma OpenMustClose(s: Text)
    requires Alternates(s, true)
    ensures UpToBrace(s) < |s|
  {
    AlternatesSkips(s, true, UpToBrace(s));
  }

  /** Every alternating template splits into clean pieces. */
  lemma {:induction false} Parse(s: Text) returns (ps: seq<Piece>)
    requires Alternates(s, false)
    ensures CleanPieces(ps) && Render(ps) == s
    decreases |s|
  {
    var n := UpToBrace(s);
    if n == |s| {
      ps := [Lit(s)];
      assert s[..n] == s && Render(ps) == s + Render(ps[1..]);
    } else {
      var t, name, rest := SplitAtSlot(s);
      var ps' := Parse(rest);
      ps := [Lit(t), Slot(name)] + ps';
      RenderTwo(t, name, ps');
    }
  }

  /** The reference: all slots with a value filled at once, everything else untouched. */
  function Fill(piece: Piece, p: map<Text, Text>): Piece {
    if piece.Slot? && piece.name in p then Lit(p[piece.name]) else piece
  }

  function FillAll(ps: seq<Piece>, p: map<Text, Text>): (r: seq<Piece>)
    ensures |r| == |ps| && forall i :: 0 <= i < |ps| ==> r[i] == Fill(ps[i], p)
  {
    seq(|ps|, i requires 0 <= i < |ps| => Fill(ps[i], p))
  }

  // ---------------------------------------------------------------- one pass over the pieces

  /** What one replacement does to a piece: fill the matching slot, re-encode everything else. */
  function Pass(piece: Piece, key: Text, value: Text): Piece {
    match piece
    case Lit(t) => Lit(ReencodeAll(t))
    case Slot(n) => if n == key then Lit(value) else Slot(ReencodeAll(n))
  }

  function PassAll(ps: seq<Piece>, key: Text, value: Text): (r: seq<Piece>)
    ensures |r| == |ps| && forall i :: 0 <= i < |ps| ==> r[i] == Pass(ps[i], key, value)
  {
    seq(|ps|, i requires 0 <= i < |ps| => Pass(ps[i], key, value))
  }

  /** No token starts inside brace-free text. */
  lemma {:induction false} ScanClean(t: Text, rest: Text, key: Text, value: Text)
    requires Clean(t)
    ensures Replaced(t + rest, Token(key), value) == ReencodeAll(t) + Replaced(rest, Token(key), value)
    decreases |t|
  {
    if t == [] {
      assert t + rest == rest;
    } else {
      assert (t + rest)[0] == t[0] != OPEN && (t + rest)[1..] == t[1..] + rest;
      assert Token(key)[0] == OPEN;
      ScanClean(t[1..], rest, key, value);
    }
  }

  /** At a slot, the token matches exactly when the names are equal. */
  lemma TokenMatches(name: Text, rest: Text, key: Text)
    requires Clean(name) && Clean(key)
    ensures var s := Token(name) + rest;
      (|Token(key)| <= |s| && s[..|Token(key)|] == Token(key)) <==> name == key
  {
    var s, tok := Token(name) + rest, Token(key);
    if |tok| <= |s| && s[..|tok|] == tok {
      assert forall i :: 0 <= i < |tok| ==> s[i] == tok[i];
      assert forall i :: 0 <= i < |name| ==> s[i + 1] == name[i];
      assert forall i :: 0 <= i < |key| ==> tok[i + 1] == key[i];
      assert forall i :: 0 <= i <= |name| ==> s[i] != CLOSE;
      assert forall i :: 0 <= i <= |key| ==> tok[i] != CLOSE;
      assert tok[|key| + 1] == CLOSE && s[|key| + 1] == CLOSE;
      assert |key| >= |name|;
      assert s[|name| + 1] == CLOSE && tok[|name| + 1] == CLOSE;
      forall i | 0 <= i < |name| ensures name[i] == key[i] {
        assert s[i + 1] == tok[i + 1];
      }
    }
  }

  lemma ScanSlot(name: Text, rest: Text, key: Text, value: Text)
    requires Clean(name) && Clean(key)
    ensures Replaced(Token(name) + rest, Token(key), value) ==
      Show(Pass(Slot(name), key, value)) + Replaced(rest, Token(key), value)
  {
    var s, tok := Token(name) + rest, Token(key);
    TokenMatches(name, rest, key);
    if name == key {
      assert s[|tok|..] == rest;
    } else {
      assert s[1..] == name + ([CLOSE] + rest);
      ScanClean(name, [CLOSE] + rest, key, value);
      ScanClose(rest, tok, value);
      var after := Replaced(rest, tok, value);
      assert Replaced(s, tok, value) == [OPEN] + (ReencodeAll(name) + ([CLOSE] + after));
      Regroup(ReencodeAll(name), [CLOSE], after);
      Regroup([OPEN], ReencodeAll(name) + [CLOSE], after);
      Regroup([OPEN], ReencodeAll(name), [CLOSE]);
    }
  }

  lemma ScanClose(rest: Text, tok: Text, value: Text)
    requires tok != [] && tok[0] == OPEN
    ensures Replaced([CLOSE] + rest, tok, value) == [CLOSE] + Replaced(rest, tok, value)
  {
    assert ([CLOSE] + rest)[1..] == rest;
  }

  /** replaceAll on a rendered template is one pass over its pieces. */
  lemma {:induction false} ReplacedIsPass(ps: seq<Piece>, key: Text, value: Text)
    requires CleanPieces(ps) && Clean(key)
    ensures Replaced(Render(ps), Token(key), value) == Render(PassAll(ps, key, value))
    decreases |ps|
  {
    if ps != [] {
      ReplacedIsPass(ps[1..], key, value);
      assert PassAll(ps, key, value)[1..] == PassAll(ps[1..], key, value);
      match ps[0]
      case Lit(t) => ScanClean(t, Render(ps[1..]), key, value);
      case Slot(n) => ScanSlot(n, Render(ps[1..]), key, value);
    }
  }

  // ---------------------------------------------------------------- re-encoding

  lemma {:induction false} ReencodeStaysClean(t: Text)
    requires Clean(t)
    ensures Clean(ReencodeAll(t))
    decreases |t|
  {
    if t != [] {
      ReencodeStaysClean(t[1..]);
      var head, rest := Reencode(t[0]), ReencodeAll(t[1..]);
      assert forall i :: 0 <= i < |head| ==> head[i] != OPEN && head[i] != CLOSE;
    }
  }

  lemma {:induction false} ReencodeKeepsAscii(t: Text)
    ensures Ascii(t) ==> ReencodeAll(t) == t
    ensures |ReencodeAll(t)| >= |t|
    decreases |t|
  {
    if t != [] {
      ReencodeKeepsAscii(t[1..]);
    }
  }

  lemma {:induction false} ReencodeDamages(t: Text)
    requires !Ascii(t)
    ensures !Ascii(ReencodeAll(t)) && |ReencodeAll(t)| > |t|
    decreases |t|
  {
    var head, rest := Reencode(t[0]), ReencodeAll(t[1..]);
    ReencodeKeepsAscii(t[1..]);
    if t[0] >= 128 {
      assert (head + rest)[0] >= 128;
    } else {
      ReencodeDamages(t[1..]);
      var i :| 0 <= i < |rest| && rest[i] >= 128;
      assert (head + rest)[i + 1] >= 128;
    }
  }

  lemma ReencodeFacts(t: Text)
    ensures Clean(t) ==> Clean(ReencodeAll(t))
    ensures Ascii(t) ==> ReencodeAll(t) == t
    ensures !Ascii(t) ==> !Ascii(ReencodeAll(t)) && |ReencodeAll(t)| > |t|
    ensures |ReencodeAll(t)| >= |t|
  {
    ReencodeKeepsAscii(t);
    if Clean(t) {
      ReencodeStaysClean(t);
    }
    if !Ascii(t) {
      ReencodeDamages(t);
    }
  }

  /** n passes over untouched text. */
  function ReencodeTimes(t: Text, n: nat): Text {
    if n == 0 then t else ReencodeAll(ReencodeTimes(t, n - 1))
  }

  lemma {:induction false} ReencodeTimesFacts(t: Text, n: nat)
    ensures Clean(t) ==> Clean(ReencodeTimes(t, n))
    ensures Ascii(t) ==> ReencodeTimes(t, n) == t
    ensures !Ascii(t) ==> !Ascii(ReencodeTimes(t, n))
    ensures !Ascii(t) && n > 0 ==> |ReencodeTimes(t, n)| > |t|
    ensures |ReencodeTimes(t, n)| >= |t|
  {
    if n > 0 {
      ReencodeTimesFacts(t, n - 1);
      ReencodeFacts(ReencodeTimes(t, n - 1));
    }
  }

  // ---------------------------------------------------------------- all passes

  /** Keys and values without braces; no other restriction. */
  predicate CleanPayload(p: map<Text, Text>) {
    forall k :: k in p ==> Clean(k) && Clean(p[k])
  }

  /** A piece after the passes of `order`, one by one. */
  function Passed(piece: Piece, p: map<Text, Text>, order: seq<Text>): Piece
    requires forall k :: k in order ==> k in p
    decreases |order|
  {
    if order == [] then piece
    else
      var n := |order| - 1;
      Pass(Passed(piece, p, order[..n]), order[n], p[order[n]])
  }

  function PassedAll(ps: seq<Piece>, p: map<Text, Text>, order: seq<Text>): (r: seq<Piece>)
    requires forall k :: k in order ==> k in p
    ensures |r| == |ps| && forall i :: 0 <= i < |ps| ==> r[i] == Passed(ps[i], p, order)
  {
    seq(|ps|, i requires 0 <= i < |ps| => Passed(ps[i], p, order))
  }

  function Inner(piece: Piece): Text {
    if piece.Lit? then piece.text else piece.name
  }

  lemma {:induction false} PassedStaysClean(piece: Piece, p: map<Text, Text>, order: seq<Text>)
    requires Clean(Inner(piece)) && CleanPayload(p) && forall k :: k in order ==> k in p
    ensures Clean(Inner(Passed(piece, p, order)))
    decreases |order|
  {
    if order != [] {
      PassedStaysClean(piece, p, order[..|order| - 1]);
      ReencodeStaysClean(Inner(Passed(piece, p, order[..|order| - 1])));
    }
  }

  /** The loop over the map is a walk of passes over the pieces, for every clean template and payload. */
  lemma {:induction false} OrderIsPasses(ps: seq<Piece>, p: map<Text, Text>, order: seq<Text>)
    requires CleanPieces(ps) && CleanPayload(p) && forall k :: k in order ==> k in p
    ensures ReplacedInOrder(Render(ps), p, order) == Render(PassedAll(ps, p, order))
    decreases |order|
  {
    if order == [] {
      assert PassedAll(ps, p, order) == ps;
    } else {
      var n := |order| - 1;
      var before := PassedAll(ps, p, order[..n]);
      OrderIsPasses(ps, p, order[..n]);
      forall i | 0 <= i < |ps| ensures Clean(Inner(before[i])) {
        PassedStaysClean(ps[i], p, order[..n]);
      }
      ReplacedIsPass(before, order[n], p[order[n]]);
      assert PassAll(before, order[n], p[order[n]]) == PassedAll(ps, p, order);
    }
  }

  /** No key can match what re-encoding makes of the slot's name: the name is ASCII, or every key is. */
  predicate NoAlias(piece: Piece, p: map<Text, Text>) {
    piece.Slot? && !Ascii(piece.name) ==> forall k :: k in p ==> Ascii(k)
  }

  predicate NoAliases(ps: seq<Piece>, p: map<Text, Text>) {
    forall i :: 0 <= i < |ps| ==> NoAlias(ps[i], p)
  }

  /** How many keys come after the first visit of this one. */
  function PassesSince(order: seq<Text>, key: Text): nat
    requires key in order
    decreases |order|
  {
    var init := order[..|order| - 1];
    if key in init then 1 + PassesSince(init, key) else 0
  }

  lemma LastHasNoneAfter(order: seq<Text>, key: Text)
    requires key in order && forall i, j :: 0 <= i < j < |order| ==> order[i] != order[j]
    ensures PassesSince(order, key) == 0 <==> order[|order| - 1] == key
  {
  }

  /** Where a piece settles: a filled slot is re-encoded once for every key that comes after its own. */
  function Settled(piece: Piece, p: map<Text, Text>, order: seq<Text>): Piece
    requires forall k :: k in order ==> k in p
  {
    match piece
    case Lit(t) => Lit(ReencodeTimes(t, |order|))
    case Slot(name) =>
      if name in order then Lit(ReencodeTimes(p[name], PassesSince(order, name)))
      else Slot(ReencodeTimes(name, |order|))
  }

  lemma {:induction false} PassedIsSettled(piece: Piece, p: map<Text, Text>, order: seq<Text>)
    requires NoAlias(piece, p) && forall k :: k in order ==> k in p
    ensures Passed(piece, p, order) == Settled(piece, p, order)
    decreases |order|
  {
    if order != [] {
      var n := |order| - 1;
      var init, key := order[..n], order[n];
      PassedIsSettled(piece, p, init);
      assert forall k :: k in order <==> k in init || k == key;
      if piece.Slot? && piece.name !in init {
        ReencodeTimesFacts(piece.name, n);
      }
    }
  }

  lemma {:induction false} SameKeysSameLength(a: seq<Text>, keys: set<Text>)
    requires Visits(a, keys)
    ensures |a| == |keys|
    decreases |a|
  {
    if a == [] {
      assert keys == {};
    } else {
      var n := |a| - 1;
      SameKeysSameLength(a[..n], keys - {a[n]});
    }
  }

  lemma {:induction false} Listing(keys: set<Text>) returns (order: seq<Text>)
    ensures Visits(order, keys)
    decreases keys
  {
    order := [];
    if k :| k in keys {
      order := Listing(keys - {k});
      order := order + [k];
    }
  }

  /** The value a slot uses, if any, is ASCII. */
  predicate PlainValue(piece: Piece, p: map<Text, Text>) {
    piece.Slot? && piece.name in p ==> Ascii(p[piece.name])
  }

  predicate PlainValues(ps: seq<Piece>, p: map<Text, Text>) {
    forall i :: 0 <= i < |ps| ==> PlainValue(ps[i], p)
  }

  /** Every map order leaves the same pieces behind. */
  ghost predicate SettlesOneWay(ps: seq<Piece>, p: map<Text, Text>) {
    forall one, other :: Visits(one, p.Keys) && Visits(other, p.Keys)
      ==> PassedAll(ps, p, one) == PassedAll(ps, p, other)
  }

  lemma PieceSettlesAlike(piece: Piece, p: map<Text, Text>, one: seq<Text>, other: seq<Text>)
    requires NoAlias(piece, p) && Visits(one, p.Keys) && Visits(other, p.Keys)
    requires |p| <= 1 || PlainValue(piece, p)
    ensures Passed(piece, p, one) == Passed(piece, p, other)
  {
    SameKeysSameLength(one, p.Keys);
    SameKeysSameLength(other, p.Keys);
    assert |p| == |p.Keys|;
    if |p| <= 1 {
      ShortListing(one, other, p.Keys);
    } else {
      PassedIsSettled(piece, p, one);
      PassedIsSettled(piece, p, other);
      PlainSettlesAlike(piece, p, one, other);
    }
  }

  lemma ShortListing(one: seq<Text>, other: seq<Text>, keys: set<Text>)
    requires Visits(one, keys) && Visits(other, keys) && |one| == |other| <= 1
    ensures one == other
  {
    if |one| == 1 {
      assert one[0] in keys && other[0] in keys;
      assert one[0] in other;
    }
  }

  /** With a plain value a piece settles as the length of the order alone tells. */
  lemma PlainSettlesAlike(piece: Piece, p: map<Text, Text>, one: seq<Text>, other: seq<Text>)
    requires PlainValue(piece, p) && Visits(one, p.Keys) && Visits(other, p.Keys) && |one| == |other|
    ensures Settled(piece, p, one) == Settled(piece, p, other)
  {
    if piece.Slot? && piece.name in p {
      AsciiStays(p[piece.name], PassesSince(one, piece.name));
      AsciiStays(p[piece.name], PassesSince(other, piece.name));
    }
  }

  lemma AsciiStays(t: Text, n: nat)
    requires Ascii(t)
    ensures ReencodeTimes(t, n) == t
  {
    ReencodeTimesFacts(t, n);
  }

  /** Visited last, a value outside ASCII survives; visited first of several, it does not. */
  lemma FirstAndLastDiffer(piece: Piece, p: map<Text, Text>) returns (one: seq<Text>, other: seq<Text>)
    requires NoAlias(piece, p) && |p| > 1 && !PlainValue(piece, p)
    ensures Visits(one, p.Keys) && Visits(other, p.Keys) && Passed(piece, p, one) != Passed(piece, p, other)
  {
    var name := piece.name;
    var rest := Listing(p.Keys - {name});
    SameKeysSameLength(rest, p.Keys - {name});
    one, other := rest + [name], [name] + rest;
    ListedLast(rest, p.Keys, name);
    ListedFirst(rest, p.Keys, name);
    PassedIsSettled(piece, p, one);
    PassedIsSettled(piece, p, other);
    ReencodedOnceMore(p[name], |rest|);
  }

  lemma ReencodedOnceMore(t: Text, n: nat)
    requires !Ascii(t) && n > 0
    ensures ReencodeTimes(t, 0) != ReencodeTimes(t, n)
  {
    ReencodeTimesFacts(t, n);
    assert ReencodeTimes(t, 0) == t;
  }

  lemma ListedLast(rest: seq<Text>, keys: set<Text>, name: Text)
    requires Visits(rest, keys - {name}) && name in keys
    ensures Visits(rest + [name], keys) && PassesSince(rest + [name], name) == 0
  {
    var all := rest + [name];
    assert all[..|rest|] == rest;
    assert forall k :: k in all <==> k in rest || k == name;
  }

  lemma ListedFirst(rest: seq<Text>, keys: set<Text>, name: Text)
    requires Visits(rest, keys - {name}) && name in keys
    ensures Visits([name] + rest, keys) && PassesSince([name] + rest, name) == |rest|
  {
    assert name !in rest;
    assert forall k :: k in [name] + rest <==> k == name || k in rest;
    DistinctInFront(name, rest);
    PassesSinceFirst(name, rest);
  }

  lemma DistinctInFront(name: Text, rest: seq<Text>)
    requires name !in rest && forall i, j :: 0 <= i < j < |rest| ==> rest[i] != rest[j]
    ensures var all := [name] + rest; forall i, j :: 0 <= i < j < |all| ==> all[i] != all[j]
  {
    var all := [name] + rest;
    assert all[0] == name && forall j :: 0 < j < |all| ==> all[j] == rest[j - 1] && all[j] in rest;
  }

  lemma {:induction false} PassesSinceFirst(name: Text, rest: seq<Text>)
    ensures PassesSince([name] + rest, name) == |rest|
    decreases |rest|
  {
    if rest == [] {
      assert ([name] + rest)[..0] == [];
    } else {
      assert ([name] + rest)[..|rest|] == [name] + rest[..|rest| - 1];
      PassesSinceFirst(name, rest[..|rest| - 1]);
    }
  }

  /**
   Main result, exact: the order of the map leaves no trace in the pieces if and only if the payload
   has at most one key or every value a slot uses is ASCII.
   */
  lemma SettlesOneWayExactly(ps: seq<Piece>, p: map<Text, Text>)
    requires NoAliases(ps, p)
    ensures SettlesOneWay(ps, p) <==> |p| <= 1 || PlainValues(ps, p)
  {
    if |p| <= 1 || PlainValues(ps, p) {
      forall one, other | Visits(one, p.Keys) && Visits(other, p.Keys)
        ensures PassedAll(ps, p, one) == PassedAll(ps, p, other)
      {
        forall i | 0 <= i < |ps| ensures PassedAll(ps, p, one)[i] == PassedAll(ps, p, other)[i] {
          PieceSettlesAlike(ps[i], p, one, other);
        }
      }
    } else {
      var i :| 0 <= i < |ps| && !PlainValue(ps[i], p);
      var one, other := FirstAndLastDiffer(ps[i], p);
      assert PassedAll(ps, p, one)[i] != PassedAll(ps, p, other)[i];
    }
  }

  /** Main result: then any two map orders give the same string, for every template whose braces alternate. */
  lemma InterpolationIsConfluent(ps: seq<Piece>, p: map<Text, Text>, one: seq<Text>, other: seq<Text>)
    requires CleanPieces(ps) && CleanPayload(p) && NoAliases(ps, p)
    requires |p| <= 1 || PlainValues(ps, p)
    requires Visits(one, p.Keys) && Visits(other, p.Keys)
    ensures ReplacedInOrder(Render(ps), p, one) == ReplacedInOrder(Render(ps), p, other)
  {
    OrderIsPasses(ps, p, one);
    OrderIsPasses(ps, p, other);
    SettlesOneWayExactly(ps, p);
  }

  /** A value outside ASCII shows the order in the string: an accented letter, and a key the template never uses. */
  lemma AccentedValueShowsTheOrder()
    ensures var a, b, accented: Text := [97], [98], [195, 169];
      var p := map[a := accented, b := [120]];
      && ReplacedInOrder(Token(a), p, [a, b]) == [195, 131, 194, 169]
      && ReplacedInOrder(Token(a), p, [b, a]) == accented
  {
    var a, b, accented: Text := [97], [98], [195, 169];
    var p := map[a := accented, b := [120]];
    var ab, ba := [a, b], [b, a];
    assert ab[0] == a && ab[1] == b && ba[0] == b && ba[1] == a;
    SlotAlone([Slot(a)], a, p, ab);
    SlotAlone([Slot(a)], a, p, ba);
    assert ab[..1] == [a] && a !in ab[..1][..0] && ba[..1] == [b];
    assert PassesSince(ab, a) == 1 + PassesSince([a], a) && PassesSince(ba, a) == 0;
    AccentReencoded(accented);
  }

  lemma AccentReencoded(t: Text)
    requires t == [195, 169]
    ensures ReencodeTimes(t, 0) == t && ReencodeTimes(t, 1) == [195, 131, 194, 169]
  {
    assert t[1..] == [169] && t[1..][1..] == [];
    assert ReencodeTimes(t, 0) == t;
    assert ReencodeAll([169]) == Reencode(169) + [];
    assert ReencodeAll(t) == Reencode(195) + ReencodeAll([169]);
  }

  /** A template that is one slot comes out as the slot settles. */
  lemma SlotAlone(ps: seq<Piece>, name: Text, p: map<Text, Text>, order: seq<Text>)
    requires |ps| == 1 && ps[0] == Slot(name) && CleanPieces(ps) && Ascii(name) && CleanPayload(p)
    requires name in order && forall k :: k in order ==> k in p
    ensures ReplacedInOrder(Token(name), p, order) == ReencodeTimes(p[name], PassesSince(order, name))
  {
    RenderOne(ps);
    OrderIsPasses(ps, p, order);
    PassedIsSettled(ps[0], p, order);
    RenderOne(PassedAll(ps, p, order));
  }

  lemma RenderOne(ps: seq<Piece>)
    requires |ps| == 1
    ensures Render(ps) == Show(ps[0])
  {
    assert ps[1..] == [] && Render(ps) == Show(ps[0]) + Render([]);
  }

  /**
   What the passes of `order` leave as one-pass filling would: ASCII text, and a used value in ASCII or
   visited last.
   */
  predicate Untouched(piece: Piece, p: map<Text, Text>, order: seq<Text>) {
    match piece
    case Lit(t) => Ascii(t)
    case Slot(name) =>
      if name in p then Ascii(p[name]) || (order != [] && order[|order| - 1] == name) else Ascii(name)
  }

  lemma {:induction false} RenderGrows(ps: seq<Piece>, qs: seq<Piece>)
    requires |ps| == |qs| && forall i :: 0 <= i < |ps| ==> |Show(ps[i])| <= |Show(qs[i])|
    ensures |Render(ps)| <= |Render(qs)|
    ensures (exists i :: 0 <= i < |ps| && |Show(ps[i])| < |Show(qs[i])|) ==> |Render(ps)| < |Render(qs)|
    decreases |ps|
  {
    if ps != [] {
      RenderGrows(ps[1..], qs[1..]);
      if i :| 0 <= i < |ps| && |Show(ps[i])| < |Show(qs[i])| && i > 0 {
        assert ps[1..][i - 1] == ps[i] && qs[1..][i - 1] == qs[i];
      }
    }
  }

  lemma PieceAgainstFill(piece: Piece, p: map<Text, Text>, order: seq<Text>)
    requires NoAlias(piece, p) && Visits(order, p.Keys)
    ensures |Show(Fill(piece, p))| <= |Show(Passed(piece, p, order))|
    ensures order == [] || Untouched(piece, p, order) ==> Passed(piece, p, order) == Fill(piece, p)
    ensures order != [] && !Untouched(piece, p, order) ==> |Show(Fill(piece, p))| < |Show(Passed(piece, p, order))|
  {
    PassedIsSettled(piece, p, order);
    var n := |order|;
    match piece
    case Lit(t) => ReencodeTimesFacts(t, n);
    case Slot(name) =>
      if name in p {
        assert name in order;
        ReencodeTimesFacts(p[name], PassesSince(order, name));
        LastHasNoneAfter(order, name);
      } else {
        ReencodeTimesFacts(name, n);
      }
  }

  /**
   Main result, exact: one map order fills the slots and leaves the rest of the template alone if and
   only if the payload is empty, or everything outside the filled slots is ASCII and so is every value
   used, save that of the key visited last.
   */
  lemma InterpolationIsOnePassExactly(ps: seq<Piece>, p: map<Text, Text>, order: seq<Text>)
    requires CleanPieces(ps) && CleanPayload(p) && NoAliases(ps, p) && Visits(order, p.Keys)
    ensures ReplacedInOrder(Render(ps), p, order) == Render(FillAll(ps, p))
      <==> p == map[] || forall i :: 0 <= i < |ps| ==> Untouched(ps[i], p, order)
  {
    OrderIsPasses(ps, p, order);
    var filled, passed := FillAll(ps, p), PassedAll(ps, p, order);
    forall i | 0 <= i < |ps|
      ensures |Show(filled[i])| <= |Show(passed[i])|
      ensures order == [] || Untouched(ps[i], p, order) ==> passed[i] == filled[i]
      ensures order != [] && !Untouched(ps[i], p, order) ==> |Show(filled[i])| < |Show(passed[i])|
    {
      PieceAgainstFill(ps[i], p, order);
    }
    RenderGrows(filled, passed);
    EmptyOrder(p, order);
    if order == [] || forall i :: 0 <= i < |ps| ==> Untouched(ps[i], p, order) {
      assert passed == filled;
    } else {
      var i :| 0 <= i < |ps| && !Untouched(ps[i], p, order);
      assert |Show(filled[i])| < |Show(passed[i])|;
    }
  }

  lemma EmptyOrder(p: map<Text, Text>, order: seq<Text>)
    requires Visits(order, p.Keys)
    ensures order == [] <==> p == map[]
  {
    SameKeysSameLength(order, p.Keys);
    assert p == map[] <==> p.Keys == {};
  }

  ghost predicate OnePassInEveryOrder(ps: seq<Piece>, p: map<Text, Text>) {
    forall order :: Visits(order, p.Keys) ==> ReplacedInOrder(Render(ps), p, order) == Render(FillAll(ps, p))
  }

  /** Text that no key fills. */
  predicate PlainText(piece: Piece, p: map<Text, Text>) {
    match piece
    case Lit(t) => Ascii(t)
    case Slot(name) => name in p || Ascii(name)
  }

  predicate PlainTexts(ps: seq<Piece>, p: map<Text, Text>) {
    forall i :: 0 <= i < |ps| ==> PlainText(ps[i], p)
  }

  /**
   Main result, exact: interpolation is simultaneous substitution whatever the order of the map, if
   and only if the payload is empty, or the text around the slots is ASCII and the values used are
   too, unless there is a single key.
   */
  lemma OnePassInEveryOrderExactly(ps: seq<Piece>, p: map<Text, Text>)
    requires CleanPieces(ps) && CleanPayload(p) && NoAliases(ps, p)
    ensures OnePassInEveryOrder(ps, p)
      <==> p == map[] || (PlainTexts(ps, p) && (|p| == 1 || PlainValues(ps, p)))
  {
    if p == map[] || (PlainTexts(ps, p) && (|p| == 1 || PlainValues(ps, p))) {
      forall order | Visits(order, p.Keys)
        ensures ReplacedInOrder(Render(ps), p, order) == Render(FillAll(ps, p))
      {
        InterpolationIsOnePassExactly(ps, p, order);
        forall i | 0 <= i < |ps| && p != map[] ensures Untouched(ps[i], p, order) {
          assert PlainText(ps[i], p) && (|p| == 1 || PlainValue(ps[i], p));
          PlainIsUntouched(ps[i], p, order);
        }
      }
    } else {
      var i :| 0 <= i < |ps| && !(PlainText(ps[i], p) && (|p| == 1 || PlainValue(ps[i], p)));
      var order := OrderThatTouches(ps[i], p);
      assert !Untouched(ps[i], p, order);
      InterpolationIsOnePassExactly(ps, p, order);
    }
  }

  lemma PlainIsUntouched(piece: Piece, p: map<Text, Text>, order: seq<Text>)
    requires Visits(order, p.Keys) && PlainText(piece, p) && (|p| == 1 || PlainValue(piece, p))
    ensures Untouched(piece, p, order)
  {
    SameKeysSameLength(order, p.Keys);
    assert |p| == |p.Keys|;
    if piece.Slot? && piece.name in p {
      assert piece.name in order;
    }
  }

  lemma OrderThatTouches(piece: Piece, p: map<Text, Text>) returns (order: seq<Text>)
    requires p != map[] && !(PlainText(piece, p) && (|p| == 1 || PlainValue(piece, p)))
    ensures Visits(order, p.Keys) && !Untouched(piece, p, order)
  {
    if PlainText(piece, p) {
      var rest := Listing(p.Keys - {piece.name});
      SameKeysSameLength(rest, p.Keys - {piece.name});
      assert |p| == |p.Keys|;
      order := [piece.name] + rest;
      ListedFirst(rest, p.Keys, piece.name);
      assert order[|order| - 1] == rest[|rest| - 1];
    } else {
      order := Listing(p.Keys);
    }
  }

  /** In plain words: an ASCII template whose used values are ASCII is filled in one pass, in every order. */
  lemma AsciiTemplatesAreFilled(s: Text, p: map<Text, Text>, order: seq<Text>) returns (ps: seq<Piece>)
    requires Alternates(s, false) && Ascii(s) && CleanPayload(p) && Visits(order, p.Keys)
    ensures CleanPieces(ps) && Render(ps) == s
    ensures PlainValues(ps, p) ==> ReplacedInOrder(s, p, order) == Render(FillAll(ps, p))
  {
    ps := Parse(s);
    PiecesOfAscii(ps);
    OnePassInEveryOrderExactly(ps, p);
    assert |p| == |p.Keys|;
  }

  lemma {:induction false} PiecesOfAscii(ps: seq<Piece>)
    requires Ascii(Render(ps))
    ensures forall i :: 0 <= i < |ps| ==> Ascii(if ps[i].Lit? then ps[i].text else ps[i].name)
    decreases |ps|
  {
    if ps != [] {
      var head, rest := Show(ps[0]), Render(ps[1..]);
      forall i | 0 <= i < |rest| ensures rest[i] < 128 {
        assert rest[i] == Render(ps)[|head| + i];
      }
      forall i | 0 <= i < |head| ensures head[i] < 128 {
        assert head[i] == Render(ps)[i];
      }
      if ps[0].Slot? {
        assert forall i :: 0 <= i < |ps[0].name| ==> ps[0].name[i] == head[i + 1];
      }
      PiecesOfAscii(ps[1..]);
      forall i | 0 < i < |ps| ensures Ascii(if ps[i].Lit? then ps[i].text else ps[i].name) {
        assert ps[i] == ps[1..][i - 1];
      }
    }
  }

  /**
   Main result, exact: a template with text outside ASCII anywhere around its slots, as the long dash
   of several subjects, comes out as written if and only if the payload is empty.
   */
  lemma DashIsDamaged(ps: seq<Piece>, i: nat, p: map<Text, Text>, order: seq<Text>)
    requires CleanPieces(ps) && CleanPayload(p) && NoAliases(ps, p) && Visits(order, p.Keys)
    requires i < |ps| && ps[i].Lit? && !Ascii(ps[i].text)
    ensures ReplacedInOrder(Render(ps), p, order) == Render(FillAll(ps, p)) <==> p == map[]
  {
    assert !Untouched(ps[i], p, order);
    InterpolationIsOnePassExactly(ps, p, order);
  }

  /** Nested braces lie outside the theorem for a reason: there the walk order shows. */
  lemma NestedBracesAreNotConfluent()
    ensures var a, b, x: Text := [97], [98], [120];
      // template {{a}}, payload a -> b, b -> x
      var s: Text := [OPEN, OPEN, 97, CLOSE, CLOSE];
      var p := map[a := b, b := x];
      ReplacedInOrder(s, p, [a, b]) == x && ReplacedInOrder(s, p, [b, a]) == [OPEN, 98, CLOSE]
  {
    var a, b, x: Text := [97], [98], [120];
    var s: Text := [OPEN, OPEN, 97, CLOSE, CLOSE];
    var p := map[a := b, b := x];
    var after: Text := [OPEN, 98, CLOSE];
    NestedScan(s);
    assert Token(b) == after && after[3..] == [];
    assert Replaced(after, Token(b), x) == x + Replaced([], Token(b), x);
    var ab, ba, ja, jb, none: seq<Text> := [a, b], [b, a], [a], [b], [];
    assert ab[..1] == ja && ja[..0] == none && ba[..1] == jb && jb[..0] == none;
    assert ReplacedInOrder(s, p, []) == s;
    assert ReplacedInOrder(s, p, [a]) == after;
    assert ReplacedInOrder(s, p, [b]) == s;
  }

  lemma NestedScan(s: Text)
    requires s == [OPEN, OPEN, 97, CLOSE, CLOSE]
    ensures Replaced(s, Token([97]), [98]) == [OPEN, 98, CLOSE]
    ensures Replaced(s, Token([98]), [120]) == s
  {
    var ta: Text := [OPEN, 97, CLOSE];
    var tb: Text := [OPEN, 98, CLOSE];
    assert Token([97]) == ta && Token([98]) == tb;
    var s1, s2, s3, s4: Text := s[1..], s[2..], s[3..], s[4..];
    assert s1[1..] == s2 && s2[1..] == s3 && s3[1..] == s4 && s4[1..] == [] && s1[3..] == s4;
    assert s[..3][1] == OPEN && s1[..3] == ta && s1[..3][1] == 97 && s2[..3][0] == 97;
    assert Replaced(s4, ta, [98]) == [CLOSE] && Replaced(s4, tb, [120]) == [CLOSE];
    assert Replaced(s1, ta, [98]) == [98] + Replaced(s4, ta, [98]);
    assert Replaced(s, ta, [98]) == [OPEN] + Replaced(s1, ta, [98]);
    assert Replaced(s3, tb, [120]) == [CLOSE, CLOSE];
    assert Replaced(s2, tb, [120]) == [97] + Replaced(s3, tb, [120]);
    assert Replaced(s1, tb, [120]) == [OPEN] + Replaced(s2, tb, [120]);
    assert Replaced(s, tb, [120]) == [OPEN] + Replaced(s1, tb, [120]);
  }
}
