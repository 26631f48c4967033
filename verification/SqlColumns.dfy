/** Which columns an UPDATE sets, and whether that makes it a mere sign of life (service/change_feed.py). */
module SqlColumns {
  import opened Common
  import opened SqlPeel

  const WHERE: string := "where"
  const RETURNING: string := "returning"
  const FROM: string := "from"

  /** A word that ends the SET list. */
  predicate Ends(t: Token) {
    t.Word? && (t.text == WHERE || t.text == RETURNING || t.text == FROM)
  }

  function EndAt(s: seq<Token>): (n: nat)
    ensures n <= |s|
  {
    if s == [] || Ends(s[0]) then 0 else 1 + EndAt(s[1..])
  }

  /** Names that stand at the start of the list or after a comma, with an equals sign next. */
  function Assigned(s: seq<Token>, start: bool): set<string>
    decreases |s|
  {
    if s == [] then {} else
    (if start && s[0].Word? && |s| > 1 && s[1] == Equals then {s[0].text} else {}) + Assigned(s[1..], s[0] == Comma)
  }

  /** `_update_columns` after SET: peeled, cut at the first ending word, and searched for assignments. */
  function Recognised(list: seq<Token>): set<string> {
    var peeled := Read([], list);
    Assigned(peeled[..EndAt(peeled)], true)
  }

  function UpdateColumns(list: seq<Token>): Option<set<string>> {
    if Recognised(list) == {} then None else Some(Recognised(list))
  }

  method FindColumns(list: seq<Token>) returns (columns: Option<set<string>>)
    ensures columns == UpdateColumns(list)
  {
    var peeled := Peel(list);
    var found := Assigned(peeled[..EndAt(peeled)], true);
    columns := if found == {} then None else Some(found);
  }

  // ---------------------------------------------------------------------------------------------
  // SET lists

  datatype Item = Item(column: string, value: seq<Token>)

  function One(it: Item): seq<Token> {
    [Word(it.column), Equals] + it.value
  }

  function Render(items: seq<Item>): seq<Token> {
    if items == [] then [] else if |items| == 1 then One(items[0]) else One(items[0]) + ([Comma] + Render(items[1..]))
  }

  /** Parentheses close, no comma stands outside them, and the column's name is not an ending word. */
  predicate Proper(it: Item) {
    && Closes(it.value, 0) && !Ends(Word(it.column))
    && (forall i :: 0 <= i < |Outside(it.value, 0)| ==> Outside(it.value, 0)[i] != Comma)
  }

  /** No ending word stands outside the parentheses of the value. */
  predicate Closed(it: Item) {
    forall i :: 0 <= i < |Outside(it.value, 0)| ==> !Ends(Outside(it.value, 0)[i])
  }

  function Columns(items: seq<Item>): set<string> {
    set i | 0 <= i < |items| :: items[i].column
  }

  /** How many items are read: up to and with the first that exposes an ending word. */
  function Seen(items: seq<Item>): (n: nat)
    ensures n <= |items| && (items != [] ==> n > 0)
  {
    if items == [] then 0 else if !Closed(items[0]) then 1 else 1 + Seen(items[1..])
  }

  // ---------------------------------------------------------------------------------------------
  // The search stops at the first ending word

  function Scan(s: seq<Token>, start: bool): set<string>
    decreases |s|
  {
    if s == [] || Ends(s[0]) then {} else
    (if start && s[0].Word? && |s| > 1 && s[1] == Equals then {s[0].text} else {}) + Scan(s[1..], s[0] == Comma)
  }

  lemma {:induction false} ScanIsCut(s: seq<Token>, start: bool)
    ensures Scan(s, start) == Assigned(s[..EndAt(s)], start)
    decreases |s|
  {
    if s != [] && !Ends(s[0]) {
      ScanIsCut(s[1..], s[0] == Comma);
      var cut := s[..EndAt(s)];
      assert cut[1..] == s[1..][..EndAt(s[1..])];
      if |s| > 1 && s[1] == Equals {
        assert EndAt(s[1..]) > 0;
      }
    }
  }

  /** What follows a value: nothing, a comma, or an ending word. */
  predicate Follows(rest: seq<Token>) {
    rest == [] || rest[0] == Comma || Ends(rest[0])
  }

  lemma {:induction false} ScanValue(v: seq<Token>, rest: seq<Token>)
    requires Follows(rest) && forall i :: 0 <= i < |v| ==> v[i] != Comma
    ensures Scan(v + rest, false) == if exists i :: 0 <= i < |v| && Ends(v[i]) then {} else Scan(rest, false)
    decreases |v|
  {
    if v == [] {
      assert v + rest == rest;
    } else {
      assert (v + rest)[1..] == v[1..] + rest;
      ScanValue(v[1..], rest);
      if !Ends(v[0]) {
        assert (exists i :: 0 <= i < |v| && Ends(v[i])) <==> (exists i :: 0 <= i < |v[1..]| && Ends(v[1..][i])) by {
          if i :| 0 <= i < |v| && Ends(v[i]) {
            assert v[1..][i-1] == v[i];
          }
        }
      }
    }
  }

  /** One item, with its value already peeled. */
  lemma {:induction false} ScanItem(c: string, v: seq<Token>, rest: seq<Token>)
    requires Follows(rest) && !Ends(Word(c)) && forall i :: 0 <= i < |v| ==> v[i] != Comma
    ensures Scan(([Word(c), Equals] + v) + rest, true) ==
      {c} + if exists i :: 0 <= i < |v| && Ends(v[i]) then {} else Scan(rest, false)
  {
    var s := ([Word(c), Equals] + v) + rest;
    assert s[1..] == [Equals] + (v + rest) && ([Equals] + (v + rest))[1..] == v + rest;
    assert s[0] == Word(c) && s[1] == Equals;
    assert Scan(s, true) == {c} + Scan(s[1..], false);
    assert Scan(s[1..], false) == {} + Scan(v + rest, false);
    ScanValue(v, rest);
  }

  // ---------------------------------------------------------------------------------------------
  // Peeling a SET list peels its values

  lemma {:induction false} OutsideAppend(a: seq<Token>, b: seq<Token>, depth: nat)
    requires Closes(a, depth)
    ensures Outside(a + b, depth) == Outside(a, depth) + Outside(b, 0) && Closes(a + b, depth) == Closes(b, 0)
    decreases |a|
  {
    if a == [] {
      assert a + b == b;
      assert [] + Outside(b, 0) == Outside(b, 0);
    } else {
      assert (a + b)[1..] == a[1..] + b;
      OutsideAppend(a[1..], b, if a[0] == Open then depth + 1 else if a[0] == Close then depth - 1 else depth);
      if !Paren(a[0]) {
        Associate(if depth == 0 then [a[0]] else [], Outside(a[1..], depth), Outside(b, 0));
      }
    }
  }

  function FlatOne(it: Item): seq<Token> {
    [Word(it.column), Equals] + Outside(it.value, 0)
  }

  function FlatText(items: seq<Item>): seq<Token> {
    if items == [] then [] else if |items| == 1 then FlatOne(items[0]) else FlatOne(items[0]) + ([Comma] + FlatText(items[1..]))
  }

  lemma {:induction false} OutsideOne(it: Item)
    requires Closes(it.value, 0)
    ensures Closes(One(it), 0) && Outside(One(it), 0) == FlatOne(it)
  {
  }

  lemma {:induction false} OutsideRender(items: seq<Item>)
    requires forall i :: 0 <= i < |items| ==> Closes(items[i].value, 0)
    ensures Closes(Render(items), 0) && Outside(Render(items), 0) == FlatText(items)
  {
    if items != [] {
      OutsideOne(items[0]);
      if |items| > 1 {
        OutsideRender(items[1..]);
        var rest := [Comma] + Render(items[1..]);
        assert rest[1..] == Render(items[1..]);
        OutsideAppend(One(items[0]), rest, 0);
      }
    }
  }

  lemma {:induction false} OutsideHasNoParen(s: seq<Token>, depth: nat)
    ensures forall i :: 0 <= i < |Outside(s, depth)| ==> !Paren(Outside(s, depth)[i])
    decreases |s|
  {
    if s != [] {
      OutsideHasNoParen(s[1..], if s[0] == Open then depth + 1 else if s[0] == Close then (if depth > 0 then depth - 1 else 0) else depth);
    }
  }

  /** Text without an open parenthesis before it is not touched by what follows. */
  lemma {:induction false} ReadAfter(o: seq<Token>, x: seq<Token>, s: seq<Token>)
    requires forall i :: 0 <= i < |o| ==> o[i] != Open
    ensures Read(o + x, s) == o + Read(x, s)
    decreases |s|
  {
    if s != [] {
      LastOpenAfter(o, x);
      var t := s[0];
      if t == Close && LastOpen(x) >= 0 {
        assert (o + x)[..|o| + LastOpen(x)] == o + x[..LastOpen(x)];
        ReadAfter(o, x[..LastOpen(x)], s[1..]);
      } else {
        Associate(o, x, [t]);
        ReadAfter(o, x + [t], s[1..]);
      }
    }
  }

  lemma {:induction false} LastOpenAfter(o: seq<Token>, x: seq<Token>)
    requires forall i :: 0 <= i < |o| ==> o[i] != Open
    ensures LastOpen(o + x) == if LastOpen(x) >= 0 then |o| + LastOpen(x) else -1
  {
    var l := LastOpen(o + x);
    if LastOpen(x) >= 0 {
      assert (o + x)[|o| + LastOpen(x)] == Open;
    }
    if l >= |o| {
      assert x[l - |o|] == Open;
    }
  }

  lemma {:induction false} TailStays(tail: seq<Token>)
    requires tail == [] || Ends(tail[0])
    ensures var after := Read([], tail); after == [] || Ends(after[0])
  {
    if tail != [] {
      var w := tail[0];
      assert [] + [w] == [w] && [w] + [] == [w];
      ReadAfter([w], [], tail[1..]);
    }
  }

  /** The list and what follows it, peeled: the flat list, and then the ending word if there is one. */
  lemma {:induction false} ReadList(items: seq<Item>, tail: seq<Token>)
    requires forall i :: 0 <= i < |items| ==> Closes(items[i].value, 0)
    ensures Read([], Render(items) + tail) == FlatText(items) + Read([], tail)
  {
    var r, f := Render(items), FlatText(items);
    OutsideRender(items);
    PeelIsProjection(r);
    ReadAppend([], r, tail);
    OutsideHasNoParen(r, 0);
    assert f + [] == f;
    ReadAfter(f, [], tail);
  }

  // ---------------------------------------------------------------------------------------------
  // The recognised columns

  lemma {:induction false} ColumnsStep(items: seq<Item>, n: nat)
    requires 0 < n <= |items|
    ensures Columns(items[..n]) == {items[0].column} + Columns(items[1..][..n-1])
  {
    forall c | c in Columns(items[..n]) ensures c in {items[0].column} + Columns(items[1..][..n-1]) {
      var i :| 0 <= i < n && items[..n][i].column == c;
      if i > 0 {
        assert items[1..][..n-1][i-1].column == c;
      }
    }
    forall c | c in Columns(items[1..][..n-1]) ensures c in Columns(items[..n]) {
      var i :| 0 <= i < n - 1 && items[1..][..n-1][i].column == c;
      assert items[..n][i+1].column == c;
    }
    assert items[..n][0].column in Columns(items[..n]);
  }

  /** The first item, and what the search goes on with. */
  lemma {:induction false} ScanFirst(it: Item, rest: seq<Token>)
    requires Proper(it) && Follows(rest)
    ensures Scan(FlatOne(it) + rest, true) == {it.column} + if Closed(it) then Scan(rest, false) else {}
  {
    ScanItem(it.column, Outside(it.value, 0), rest);
  }

  lemma {:induction false} ScanFlat(items: seq<Item>, after: seq<Token>)
    requires items != [] && (forall i :: 0 <= i < |items| ==> Proper(items[i])) && (after == [] || Ends(after[0]))
    ensures Scan(FlatText(items) + after, true) == Columns(items[..Seen(items)])
  {
    var it := items[0];
    ColumnsStep(items, Seen(items));
    if |items| == 1 {
      ScanFirst(it, after);
      assert Columns(items[1..][..Seen(items)-1]) == {};
    } else {
      var more := FlatText(items[1..]) + after;
      var rest := [Comma] + more;
      FlatRest(items, after);
      ScanFirst(it, rest);
      ScanFlat(items[1..], after);
      assert rest[1..] == more;
      assert Columns(items[1..][..0]) == {};
    }
  }

  lemma {:induction false} FlatRest(items: seq<Item>, after: seq<Token>)
    requires |items| > 1
    ensures FlatText(items) + after == FlatOne(items[0]) + ([Comma] + (FlatText(items[1..]) + after))
  {
  }

  /**
   For every SET list whose commas inside values are parenthesised, whatever follows its ending word: the recognised
   columns are those of the items up to and with the first one that exposes an ending word.
   */
  lemma {:induction false} RecognisedColumns(items: seq<Item>, tail: seq<Token>)
    requires items != [] && (forall i :: 0 <= i < |items| ==> Proper(items[i])) && (tail == [] || Ends(tail[0]))
    ensures Recognised(Render(items) + tail) == Columns(items[..Seen(items)])
  {
    forall i | 0 <= i < |items| ensures Closes(items[i].value, 0) { assert Proper(items[i]); }
    ReadList(items, tail);
    TailStays(tail);
    ScanIsCut(Read([], Render(items) + tail), true);
    ScanFlat(items, Read([], tail));
  }

  lemma {:induction false} AllSeen(items: seq<Item>)
    requires forall i :: 0 <= i < |items| ==> Closed(items[i])
    ensures Seen(items) == |items|
  {
    if items != [] {
      AllSeen(items[1..]);
    }
  }

  // ---------------------------------------------------------------------------------------------
  // Signs of life

  /** One statement's effect; no columns are known of an UPDATE that could not be read. */
  datatype Write = Write(table: string, columns: Option<set<string>>)

  /** `Write.liveness`, against the declared tables: `None` declares a whole table. */
  predicate Liveness(w: Write, declared: map<string, Option<set<string>>>) {
    && w.table in declared
    && (declared[w.table].None? || (w.columns.Some? && w.columns.value != {} && w.columns.value <= declared[w.table].value))
  }

  /** The words that end a SET list, and no others. */
  lemma {:induction false} EndingWords(t: Token)
    ensures Ends(t) <==> t == Word("where") || t == Word("returning") || t == Word("from")
  {
  }

  /** A write of which no column is known, an INSERT, a DELETE or an UPDATE that cannot be read, is real unless its whole table is declared. */
  lemma {:induction false} UnknownColumnsAreReal(table: string, declared: map<string, Option<set<string>>>)
    ensures Liveness(Write(table, None), declared) <==> table in declared && declared[table] == None
    ensures Liveness(Write(table, Some({})), declared) <==> table in declared && declared[table] == None
  {
  }

  /** With the ending words parenthesised too, an UPDATE is a sign of life exactly when every column it sets is declared. */
  lemma {:induction false} LivenessIffAllDeclared(table: string, items: seq<Item>, tail: seq<Token>, declared: map<string, Option<set<string>>>)
    requires items != [] && (forall i :: 0 <= i < |items| ==> Proper(items[i]) && Closed(items[i])) && (tail == [] || Ends(tail[0]))
    ensures UpdateColumns(Render(items) + tail) == Some(Columns(items))
    ensures Liveness(Write(table, UpdateColumns(Render(items) + tail)), declared) <==>
      table in declared && (declared[table].None? || forall i :: 0 <= i < |items| ==> items[i].column in declared[table].value)
  {
    RecognisedColumns(items, tail);
    AllSeen(items);
    assert items[..|items|] == items;
    assert items[0].column in Columns(items);
  }

  /**
   In general the recognised columns are the assigned ones if and only if every column assigned after the first exposed
   ending word is also assigned before it.
   */
  lemma {:induction false} RecognisedIffNoneHidden(items: seq<Item>, tail: seq<Token>)
    requires items != [] && (forall i :: 0 <= i < |items| ==> Proper(items[i])) && (tail == [] || Ends(tail[0]))
    ensures Recognised(Render(items) + tail) == Columns(items) <==>
      forall i :: Seen(items) <= i < |items| ==> items[i].column in Columns(items[..Seen(items)])
  {
    RecognisedColumns(items, tail);
    var seen := items[..Seen(items)];
    if forall i :: Seen(items) <= i < |items| ==> items[i].column in Columns(seen) {
      forall c | c in Columns(items) ensures c in Columns(seen) {
        var i :| 0 <= i < |items| && items[i].column == c;
        if i < Seen(items) {
          assert seen[i].column == c;
        }
      }
      forall c | c in Columns(seen) ensures c in Columns(items) {
        var i :| 0 <= i < |seen| && seen[i].column == c;
        assert items[i].column == c;
      }
      assert Columns(items) == Columns(seen);
    } else {
      var i :| Seen(items) <= i < |items| && items[i].column !in Columns(seen);
      assert items[i].column in Columns(items);
    }
  }

  const LAST_SEEN: string := "last_seen"
  const ROLE: string := "role"

  /** `SET last_seen = a IS DISTINCT FROM b, role = ?`: the second column is not recognised. */
  lemma {:induction false} ExposedFromHidesColumn()
    ensures var items := [Item(LAST_SEEN, [Other("a"), Other("is distinct"), Word(FROM), Other("b")]), Item(ROLE, [Other("?")])];
      Recognised(Render(items)) == {LAST_SEEN} && Columns(items) == {LAST_SEEN, ROLE}
  {
    var v := [Other("a"), Other("is distinct"), Word(FROM), Other("b")];
    var w := [Other("?")];
    var items := [Item(LAST_SEEN, v), Item(ROLE, w)];
    PlainOutside(v);
    PlainOutside(w);
    assert Ends(v[2]);
    assert !Closed(items[0]) && Seen(items) == 1;
    assert |LAST_SEEN| == 9 && |ROLE| == 4 && |WHERE| == 5 && |RETURNING| == 9 && |FROM| == 4;
    assert LAST_SEEN[0] != RETURNING[0] && ROLE[0] != FROM[0];
    RecognisedColumns(items, []);
    assert Render(items) + [] == Render(items);
    assert items[..1] == [items[0]];
    assert items[0].column in Columns(items) && items[1].column in Columns(items);
  }

  lemma {:induction false} PlainOutside(s: seq<Token>)
    requires forall i :: 0 <= i < |s| ==> !Paren(s[i])
    ensures Closes(s, 0) && Outside(s, 0) == s
  {
    if s != [] {
      PlainOutside(s[1..]);
    }
  }
}
