/** Reading back what the printer wrote reproduces the screen, its history and its cursor. */
module ScreenPaint {
  import opened Common
  import opened TerminalAnsi
  import opened ScreenPrinter

  // ---------------------------------------------------------------------------------------------
  // What a line should look like

  function AttrAt(c: Column): Attr {
    Apply(c.sgr, PLAIN)
  }

  /** The cell a column should become: its glyph with its attributes, and "" under a wide glyph for its right half. */
  function CellAt(cs: seq<Column>, x: nat): Cell
    requires x < |cs|
  {
    if Stub(cs[x]) && x > 0 then Cell("", AttrAt(cs[x-1])) else Cell(cs[x].data, AttrAt(cs[x]))
  }

  function ShownColumns(cs: seq<Column>): (r: seq<Cell>)
    ensures |r| == |cs| && forall x :: 0 <= x < |cs| ==> r[x] == CellAt(cs, x)
  {
    seq(|cs|, x requires 0 <= x < |cs| => CellAt(cs, x))
  }

  /** An empty stub stands exactly behind each wide glyph, no wide glyph hangs over the edge, and every SGR is self-contained. */
  ghost predicate WellFormedColumns(cs: seq<Column>, w: string -> bool) {
    && !w("") && !w(" ")
    && (cs != [] ==> !Stub(cs[0]) && !w(cs[|cs|-1].data))
    && (forall x :: 0 < x < |cs| ==> (Stub(cs[x]) <==> w(cs[x-1].data)))
    && (forall x, a :: 0 <= x < |cs| ==> Apply(cs[x].sgr, a) == AttrAt(cs[x]))
  }

  lemma {:induction false} PlainSgr(a: Attr)
    ensures Apply(PLAIN_SGR, a) == PLAIN && Apply([0], a) == PLAIN
  {
  }

  // ---------------------------------------------------------------------------------------------
  // One line

  /** The column the cursor has reached once column `x` is next: a stub is already painted by its glyph. */
  function Reached(cs: seq<Column>, x: nat): nat {
    if x < |cs| && Stub(cs[x]) then x + 1 else x
  }

  predicate CursorAt(t: Term, p: nat) {
    p <= t.cols && t.x == Min(p, t.cols - 1) && t.wrap == (p == t.cols)
  }

  /** The current row is right up to column `p` and blank after it. */
  ghost predicate PaintedTo(t: Term, cs: seq<Column>, p: nat) {
    && ValidTerm(t) && |cs| == t.cols && CursorAt(t, p)
    && (forall i :: 0 <= i < p ==> t.grid[t.y][i] == CellAt(cs, i))
    && (forall i :: p <= i < t.cols ==> t.grid[t.y][i] == BLANK)
  }

  /** Only the current row, the cursor within it and the attributes may differ. */
  ghost predicate SameElsewhere(t: Term, u: Term) {
    && u.rows == t.rows && u.cols == t.cols && u.y == t.y && u.scrollback == t.scrollback
    && |u.grid| == |t.grid| && (forall i :: 0 <= i < |t.grid| && i != t.y ==> u.grid[i] == t.grid[i])
  }

  lemma {:induction false} PutPaints(cs: seq<Column>, x: nat, w: string -> bool, t: Term)
    requires PaintedTo(t, cs, x) && x < t.cols && WellFormedColumns(cs, w)
    requires !Stub(cs[x]) && t.attr == AttrAt(cs[x])
    ensures var u := Read(t, Put(cs[x].data), w);
      SameElsewhere(t, u) && u.attr == t.attr && PaintedTo(u, cs, Reached(cs, x + 1))
  {
    if w(cs[x].data) { PutWide(cs, x, w, t); } else { PutNarrow(cs, x, w, t); }
  }

  lemma {:induction false} PutNarrow(cs: seq<Column>, x: nat, w: string -> bool, t: Term)
    requires PaintedTo(t, cs, x) && x < t.cols && WellFormedColumns(cs, w)
    requires !Stub(cs[x]) && t.attr == AttrAt(cs[x]) && !w(cs[x].data)
    ensures var u := Read(t, Put(cs[x].data), w);
      SameElsewhere(t, u) && u.attr == t.attr && PaintedTo(u, cs, Reached(cs, x + 1))
  {
    assert Reached(cs, x + 1) == x + 1;
    assert Read(t, Put(cs[x].data), w).grid[t.y] == t.grid[t.y][x := Cell(cs[x].data, t.attr)];
  }

  lemma {:induction false} PutWide(cs: seq<Column>, x: nat, w: string -> bool, t: Term)
    requires PaintedTo(t, cs, x) && x < t.cols && WellFormedColumns(cs, w)
    requires !Stub(cs[x]) && t.attr == AttrAt(cs[x]) && w(cs[x].data)
    ensures var u := Read(t, Put(cs[x].data), w);
      SameElsewhere(t, u) && u.attr == t.attr && PaintedTo(u, cs, Reached(cs, x + 1))
  {
    assert x + 1 < t.cols && Reached(cs, x + 1) == x + 2;
    assert Read(t, Put(cs[x].data), w).grid[t.y] == t.grid[t.y][x := Cell(cs[x].data, t.attr)][x + 1 := Cell("", t.attr)];
  }

  lemma {:induction false} OnePaints(cs: seq<Column>, x: nat, prev: Option<seq<int>>, w: string -> bool, t: Term)
    requires PaintedTo(t, cs, x) && x < t.cols && WellFormedColumns(cs, w) && !Stub(cs[x])
    requires prev.Some? ==> t.attr == Apply(prev.value, PLAIN)
    ensures var u := Interpret(One(prev, cs[x]), t, w);
      SameElsewhere(t, u) && u.attr == AttrAt(cs[x]) && PaintedTo(u, cs, Reached(cs, x + 1))
  {
    var put := Put(cs[x].data);
    var t1 := t.(attr := AttrAt(cs[x]));
    PutPaints(cs, x, w, t1);
    InterpretOne(put, t1, w);
    if prev != Some(cs[x].sgr) {
      assert One(prev, cs[x]) == [Sgr(cs[x].sgr)] + [put];
      InterpretAppend([Sgr(cs[x].sgr)], [put], t, w);
      InterpretOne(Sgr(cs[x].sgr), t, w);
    }
  }

  lemma {:induction false} EmitPaints(cs: seq<Column>, x: nat, end: nat, prev: Option<seq<int>>, w: string -> bool, t: Term)
    requires x <= end <= t.cols && PaintedTo(t, cs, Reached(cs, x)) && WellFormedColumns(cs, w)
    requires prev.Some? ==> t.attr == Apply(prev.value, PLAIN)
    ensures var u := Interpret(Emit(cs, x, end, prev), t, w);
      SameElsewhere(t, u) && PaintedTo(u, cs, Reached(cs, end))
    decreases end - x
  {
    if x < end {
      if Stub(cs[x]) {
        assert x + 1 < |cs| ==> !Stub(cs[x+1]);
        EmitPaints(cs, x + 1, end, prev, w, t);
      } else {
        OnePaints(cs, x, prev, w, t);
        InterpretAppend(One(prev, cs[x]), Emit(cs, x + 1, end, Some(cs[x].sgr)), t, w);
        EmitPaints(cs, x + 1, end, Some(cs[x].sgr), w, Interpret(One(prev, cs[x]), t, w));
      }
    }
  }

  /** Past the last column that shows, the line is blank: trimming it loses nothing. */
  lemma {:induction false} RestIsBlank(cs: seq<Column>, w: string -> bool)
    requires WellFormedColumns(cs, w)
    ensures forall x :: Reached(cs, LastShown(cs) + 1) <= x < |cs| ==> CellAt(cs, x) == BLANK
  {
  }

  lemma {:induction false} LineBody(cs: seq<Column>, w: string -> bool, t: Term)
    requires ValidTerm(t) && |cs| == t.cols && WellFormedColumns(cs, w) && CursorAt(t, 0) && t.attr == PLAIN
    requires t.grid[t.y] == Fill(t.cols, BLANK)
    ensures var u := Interpret(ColumnTokens(cs), t, w);
      SameElsewhere(t, u) && u.attr == PLAIN && PaintedTo(u, cs, Reached(cs, LastShown(cs) + 1))
  {
    var last := LastShown(cs);
    assert PaintedTo(t, cs, 0);
    if last >= 0 {
      var body := Emit(cs, 0, last + 1, None);
      EmitPaints(cs, 0, last + 1, None, w, t);
      InterpretAppend(body, [Sgr([0])], t, w);
      InterpretOne(Sgr([0]), Interpret(body, t, w), w);
      PlainSgr(Interpret(body, t, w).attr);
    }
  }

  lemma {:induction false} ColumnsPaint(cs: seq<Column>, w: string -> bool, t: Term)
    requires ValidTerm(t) && |cs| == t.cols && WellFormedColumns(cs, w) && CursorAt(t, 0) && t.attr == PLAIN
    requires t.grid[t.y] == Fill(t.cols, BLANK)
    ensures var u := Interpret(ColumnTokens(cs), t, w);
      && u.rows == t.rows && u.cols == t.cols && u.y == t.y && u.scrollback == t.scrollback && u.attr == PLAIN
      && u.grid == t.grid[t.y := ShownColumns(cs)]
  {
    LineBody(cs, w, t);
    RestIsBlank(cs, w);
    var u := Interpret(ColumnTokens(cs), t, w);
    assert u.grid[t.y] == ShownColumns(cs);
  }

  // In terms of the emulator's cells.

  predicate WideAt(line: Line, x: nat, w: string -> bool) {
    x in line && w(line[x].data)
  }

  predicate StubAt(line: Line, x: nat) {
    x in line && line[x].data == ""
  }

  /** An empty stub stands exactly behind each wide glyph, and no wide glyph hangs over the edge. */
  ghost predicate WellFormed(line: Line, cols: nat, w: string -> bool) {
    && !w("") && !w(" ")
    && (forall x: nat :: x < cols ==> (StubAt(line, x) <==> x > 0 && WideAt(line, x - 1, w)))
    && (cols > 0 ==> !WideAt(line, cols - 1, w))
  }

  /** The line as it should appear. */
  function Shown(line: Line, cols: nat): (r: seq<Cell>)
    ensures |r| == cols
  {
    seq(cols, x requires 0 <= x < cols =>
      if StubAt(line, x) && x > 0 && x - 1 in line then Cell("", AttrOf(line[x-1]))
      else if x in line then Cell(line[x].data, AttrOf(line[x])) else BLANK)
  }

  lemma {:induction false} ColumnSetsTheCell(line: Line, x: nat, a: Attr)
    ensures Apply(ColumnAt(line, x).sgr, a) == if x in line then AttrOf(line[x]) else PLAIN
  {
    if x in line { SgrSetsTheCell(line[x], a); } else { PlainSgr(a); }
  }

  /** What the printer's column says about the emulator's cell. */
  ghost predicate Matches(c: Column, line: Line, x: nat, w: string -> bool) {
    && Stub(c) == StubAt(line, x) && w(c.data) == WideAt(line, x, w)
    && c.data == (if x in line then line[x].data else " ")
    && (forall a :: Apply(c.sgr, a) == if x in line then AttrOf(line[x]) else PLAIN)
  }

  lemma {:induction false} ColumnMatches(line: Line, x: nat, w: string -> bool)
    requires !w("") && !w(" ")
    ensures Matches(ColumnAt(line, x), line, x, w)
  {
    forall a ensures Apply(ColumnAt(line, x).sgr, a) == if x in line then AttrOf(line[x]) else PLAIN {
      ColumnSetsTheCell(line, x, a);
    }
  }

  lemma {:induction false} MatchedWellFormed(line: Line, cs: seq<Column>, w: string -> bool)
    requires WellFormed(line, |cs|, w) && forall x: nat :: x < |cs| ==> Matches(cs[x], line, x, w)
    ensures WellFormedColumns(cs, w)
  {
  }

  lemma {:induction false} MatchedShown(line: Line, cs: seq<Column>, w: string -> bool)
    requires WellFormed(line, |cs|, w) && forall x: nat :: x < |cs| ==> Matches(cs[x], line, x, w)
    ensures ShownColumns(cs) == Shown(line, |cs|)
  {
  }

  lemma {:induction false} LineColumns(line: Line, cols: nat, w: string -> bool)
    requires WellFormed(line, cols, w)
    ensures WellFormedColumns(Columns(line, cols), w) && ShownColumns(Columns(line, cols)) == Shown(line, cols)
  {
    var cs := Columns(line, cols);
    forall x: nat | x < cols ensures Matches(cs[x], line, x, w) { ColumnMatches(line, x, w); }
    MatchedWellFormed(line, cs, w);
    MatchedShown(line, cs, w);
  }

  /** Printing one line onto a blank row paints exactly that line, changes no other row, and leaves plain attributes. */
  lemma {:induction false} LinePaints(line: Line, w: string -> bool, t: Term)
    requires ValidTerm(t) && WellFormed(line, t.cols, w) && CursorAt(t, 0) && t.attr == PLAIN
    requires t.grid[t.y] == Fill(t.cols, BLANK)
    ensures var u := Interpret(LineTokens(line, t.cols), t, w);
      && u.rows == t.rows && u.cols == t.cols && u.y == t.y && u.scrollback == t.scrollback && u.attr == PLAIN
      && u.grid == t.grid[t.y := Shown(line, t.cols)]
  {
    LineColumns(line, t.cols, w);
    ColumnsPaint(Columns(line, t.cols), w, t);
  }

  // ---------------------------------------------------------------------------------------------
  // The whole screen

  datatype Screen = Screen(buffer: map<nat, Line>, cursorX: int, cursorY: int)

  function RowAt(screen: Screen, y: nat): Line {
    if y in screen.buffer then screen.buffer[y] else map[]
  }

  function Rows(screen: Screen, rows: nat): (r: seq<Line>)
    ensures |r| == rows && forall y :: 0 <= y < rows ==> r[y] == RowAt(screen, y)
  {
    seq(rows, y requires 0 <= y < rows => RowAt(screen, y))
  }

  /** Each line as it is printed. */
  function Texts(lines: seq<Line>, cols: nat): (r: seq<seq<Token>>)
    ensures |r| == |lines|
    ensures forall i {:trigger LineTokens(lines[i], cols)} :: 0 <= i < |lines| ==> r[i] == LineTokens(lines[i], cols)
  {
    seq(|lines|, i requires 0 <= i < |lines| => LineTokens(lines[i], cols))
  }

  /** Each text followed by a line break. */
  function Terminated(texts: seq<seq<Token>>): seq<Token> {
    if texts == [] then [] else Terminated(texts[..|texts|-1]) + (texts[|texts|-1] + [CrLf])
  }

  const HEADER: seq<Token> := [Sgr([0]), EraseDisplay, Cup(1, 1)]

  function CursorToken(screen: Screen, cols: nat, rows: nat): Token {
    Cup(Max(0, Min(screen.cursorY, rows - 1)) + 1, Max(0, Min(screen.cursorX, cols - 1)) + 1)
  }

  function Page(texts: seq<seq<Token>>, cursor: Token): seq<Token>
    requires texts != []
  {
    HEADER + ((Terminated(texts[..|texts|-1]) + texts[|texts|-1]) + [cursor])
  }

  function ScreenTokens(screen: Screen, cols: nat, rows: nat, history: seq<Line>): seq<Token>
    requires rows >= 1
  {
    Page(Texts(history + Rows(screen, rows), cols), CursorToken(screen, cols, rows))
  }

  lemma {:induction false} TerminatedAppend(a: seq<seq<Token>>, b: seq<seq<Token>>)
    ensures Terminated(a + b) == Terminated(a) + Terminated(b)
  {
    if b == [] {
      assert a + b == a;
    } else {
      var n := |b| - 1;
      TerminatedAppend(a, b[..n]);
      var ab := a + b;
      assert ab[..|ab|-1] == a + b[..n] && ab[|ab|-1] == b[n];
      Associate(Terminated(a), Terminated(b[..n]), b[n] + [CrLf]);
    }
  }

  /** Each line of the list, followed by a line break. */
  method PrintTerminated(lines: seq<Line>, cols: nat) returns (out: seq<Token>)
    ensures out == Terminated(Texts(lines, cols))
  {
    ghost var texts := Texts(lines, cols);
    out := [];
    for i := 0 to |lines|
      invariant out == Terminated(texts[..i])
    {
      var text := LineToAnsi(lines[i], cols);
      assert texts[i] == text;
      assert texts[..i+1][..i] == texts[..i];
      out := out + (text + [CrLf]);
    }
    assert texts[..|lines|] == texts;
  }

  lemma {:induction false} TextsInit(lines: seq<Line>, cols: nat)
    requires lines != []
    ensures var n := |lines| - 1;
      Texts(lines, cols)[..n] == Texts(lines[..n], cols) && Texts(lines, cols)[n] == LineTokens(lines[n], cols)
  {
  }

  lemma {:induction false} TextsSplit(a: seq<Line>, b: seq<Line>, last: Line, cols: nat)
    ensures var texts := Texts(a + b + [last], cols);
      && texts[..|texts|-1] == Texts(a, cols) + Texts(b, cols)
      && texts[|texts|-1] == LineTokens(last, cols)
  {
    var lines := a + b + [last];
    var texts := Texts(lines, cols);
    forall i | 0 <= i < |texts| - 1 ensures texts[i] == (Texts(a, cols) + Texts(b, cols))[i] {
      if i < |a| {
        assert LineTokens(lines[i], cols) == LineTokens(a[i], cols);
      } else {
        assert LineTokens(lines[i], cols) == LineTokens(b[i - |a|], cols);
      }
    }
    assert texts[|texts|-1] == LineTokens(lines[|texts|-1], cols);
  }

  lemma {:induction false} SplitLast<T>(a: seq<T>, b: seq<T>)
    requires b != []
    ensures a + b == a + b[..|b|-1] + [b[|b|-1]]
  {
  }

  lemma {:induction false} PageSplit(texts: seq<seq<Token>>, a: seq<seq<Token>>, b: seq<seq<Token>>, cursor: Token)
    requires texts != [] && texts[..|texts|-1] == a + b
    ensures Page(texts, cursor) == HEADER + (((Terminated(a) + Terminated(b)) + texts[|texts|-1]) + [cursor])
  {
    TerminatedAppend(a, b);
  }

  /** `_screen_to_ansi`: history lines, then the screen's rows with a break between them, then the cursor. */
  method ScreenToAnsi(screen: Screen, cols: nat, rows: nat, history: seq<Line>) returns (out: seq<Token>)
    requires rows >= 1
    ensures out == ScreenTokens(screen, cols, rows, history)
  {
    var all := Rows(screen, rows);
    var above := PrintTerminated(history, cols);
    var body := PrintTerminated(all[..rows-1], cols);
    var last := LineToAnsi(all[rows-1], cols);
    var cursor := CursorToken(screen, cols, rows);
    out := HEADER + (((above + body) + last) + [cursor]);
    ghost var texts := Texts(history + all, cols);
    SplitLast(history, all);
    TextsSplit(history, all[..rows-1], all[rows-1], cols);
    PageSplit(texts, Texts(history, cols), Texts(all[..rows-1], cols), cursor);
  }

  // ---------------------------------------------------------------------------------------------
  // What the page paints

  /** A cursor at the start of a blank row, with plain attributes. */
  ghost predicate AtBlankRow(t: Term) {
    ValidTerm(t) && CursorAt(t, 0) && t.attr == PLAIN && t.grid[t.y] == Fill(t.cols, BLANK)
  }

  /** The text paints `row` onto any blank row and changes nothing else. */
  ghost predicate Paints(text: seq<Token>, row: seq<Cell>, cols: nat, w: string -> bool) {
    |row| == cols && forall t: Term :: AtBlankRow(t) && t.cols == cols ==>
      var u := Interpret(text, t, w);
      && u.rows == t.rows && u.cols == t.cols && u.y == t.y && u.scrollback == t.scrollback && u.attr == PLAIN
      && u.grid == t.grid[t.y := row]
  }

  lemma {:induction false} UsePaints(text: seq<Token>, row: seq<Cell>, w: string -> bool, t: Term)
    requires AtBlankRow(t) && Paints(text, row, t.cols, w)
    ensures var u := Interpret(text, t, w);
      && u.rows == t.rows && u.cols == t.cols && u.y == t.y && u.scrollback == t.scrollback && u.attr == PLAIN
      && u.grid == t.grid[t.y := row]
  {
  }

  /** `shown` has been printed and the cursor stands at the start of the blank row below it. */
  ghost predicate Ready(t: Term, scrollback: seq<seq<Cell>>, shown: seq<seq<Cell>>) {
    var k := Max(0, |shown| + 1 - t.rows);
    && ValidTerm(t) && CursorAt(t, 0) && t.attr == PLAIN
    && t.scrollback == scrollback + shown[..k]
    && t.grid == shown[k..] + FillRows(t.rows - (|shown| - k), t.cols, BLANK)
    && t.y == |shown| - k
  }

  lemma {:induction false} HeaderClears(t: Term, w: string -> bool)
    requires ValidTerm(t)
    ensures var u := Interpret(HEADER, t, w); u.rows == t.rows && u.cols == t.cols && Ready(u, t.scrollback, [])
  {
  }

  lemma {:induction false} FeedLine(t: Term, scrollback: seq<seq<Cell>>, shown: seq<seq<Cell>>, row: seq<Cell>)
    requires Ready(t, scrollback, shown) && |row| == t.cols
    ensures Ready(NewLine(t.(grid := t.grid[t.y := row])), scrollback, shown + [row])
  {
    var k := Max(0, |shown| + 1 - t.rows);
    var all := shown + [row];
    var u := NewLine(t.(grid := t.grid[t.y := row]));
    if t.y < t.rows - 1 {
      assert u.grid == all + FillRows(t.rows - |all|, t.cols, BLANK);
    } else {
      assert t.grid[t.y := row] == all[k..];
      assert u.grid == all[k+1..] + [Fill(t.cols, BLANK)];
      assert FillRows(1, t.cols, BLANK) == [Fill(t.cols, BLANK)];
      assert all[..k+1] == shown[..k] + [all[k]];
    }
  }

  lemma {:induction false} ReadyIsBlank(t: Term, scrollback: seq<seq<Cell>>, shown: seq<seq<Cell>>)
    requires Ready(t, scrollback, shown)
    ensures AtBlankRow(t)
  {
  }

  lemma {:induction false} LineThenFeed(text: seq<Token>, row: seq<Cell>, w: string -> bool, t: Term,
                                        scrollback: seq<seq<Cell>>, shown: seq<seq<Cell>>)
    requires Ready(t, scrollback, shown) && Paints(text, row, t.cols, w)
    ensures var v := Interpret(text + [CrLf], t, w);
      v.rows == t.rows && v.cols == t.cols && Ready(v, scrollback, shown + [row])
  {
    ReadyIsBlank(t, scrollback, shown);
    UsePaints(text, row, w, t);
    InterpretAppend(text, [CrLf], t, w);
    var u := Interpret(text, t, w);
    InterpretOne(CrLf, u, w);
    FeedLine(t, scrollback, shown, row);
    assert NewLine(u) == NewLine(t.(grid := t.grid[t.y := row]));
  }

  lemma {:induction false} FeedAfter(head: seq<Token>, text: seq<Token>, row: seq<Cell>, w: string -> bool, t: Term,
                                     scrollback: seq<seq<Cell>>, shown: seq<seq<Cell>>)
    requires ValidTerm(t) && Paints(text, row, t.cols, w)
    requires var u := Interpret(head, t, w); u.rows == t.rows && u.cols == t.cols && Ready(u, scrollback, shown)
    ensures var v := Interpret(head + (text + [CrLf]), t, w);
      v.rows == t.rows && v.cols == t.cols && Ready(v, scrollback, shown + [row])
  {
    InterpretAppend(head, text + [CrLf], t, w);
    LineThenFeed(text, row, w, Interpret(head, t, w), scrollback, shown);
  }

  /** Every text paints its row. */
  ghost predicate AllPaint(texts: seq<seq<Token>>, shown: seq<seq<Cell>>, cols: nat, w: string -> bool) {
    && |texts| == |shown|
    && (texts == [] ||
        (AllPaint(texts[..|texts|-1], shown[..|texts|-1], cols, w) && Paints(texts[|texts|-1], shown[|texts|-1], cols, w)))
  }

  lemma {:induction false} TerminatedPaints(texts: seq<seq<Token>>, shown: seq<seq<Cell>>, w: string -> bool, t: Term, scrollback: seq<seq<Cell>>)
    requires Ready(t, scrollback, []) && AllPaint(texts, shown, t.cols, w)
    ensures var u := Interpret(Terminated(texts), t, w);
      u.rows == t.rows && u.cols == t.cols && Ready(u, scrollback, shown)
  {
    if texts != [] {
      var n := |texts| - 1;
      TerminatedPaints(texts[..n], shown[..n], w, t, scrollback);
      FeedAfter(Terminated(texts[..n]), texts[n], shown[n], w, t, scrollback, shown[..n]);
      InitLast(shown);
    }
  }

  lemma {:induction false} FillsLastRow(t: Term, scrollback: seq<seq<Cell>>, shown: seq<seq<Cell>>, row: seq<Cell>)
    requires Ready(t, scrollback, shown) && |shown| + 1 >= t.rows
    ensures var all := shown + [row];
      var k := |all| - t.rows;
      t.scrollback == scrollback + all[..k] && t.grid[t.y := row] == all[k..]
  {
  }

  lemma {:induction false} LastAfter(head: seq<Token>, text: seq<Token>, row: seq<Cell>, w: string -> bool, t: Term,
                                     scrollback: seq<seq<Cell>>, shown: seq<seq<Cell>>)
    requires ValidTerm(t) && Paints(text, row, t.cols, w) && |shown| + 1 >= t.rows
    requires var u := Interpret(head, t, w); u.rows == t.rows && u.cols == t.cols && Ready(u, scrollback, shown)
    ensures var v := Interpret(head + text, t, w);
      var all := shown + [row];
      var k := |all| - t.rows;
      v.rows == t.rows && v.cols == t.cols && v.attr == PLAIN && v.scrollback == scrollback + all[..k] && v.grid == all[k..]
  {
    InterpretAppend(head, text, t, w);
    var u := Interpret(head, t, w);
    ReadyIsBlank(u, scrollback, shown);
    UsePaints(text, row, w, u);
    FillsLastRow(u, scrollback, shown, row);
  }

  /** All lines but the last are printed and scrolled; then the last one fills the bottom row. */
  lemma {:induction false} BodyPaints(texts: seq<seq<Token>>, shown: seq<seq<Cell>>, w: string -> bool, t: Term, scrollback: seq<seq<Cell>>)
    requires Ready(t, scrollback, []) && |texts| == |shown| >= t.rows && AllPaint(texts, shown, t.cols, w)
    ensures var u := Interpret(Terminated(texts[..|texts|-1]) + texts[|texts|-1], t, w);
      var k := |texts| - t.rows;
      u.rows == t.rows && u.cols == t.cols && u.attr == PLAIN && u.scrollback == scrollback + shown[..k] && u.grid == shown[k..]
  {
    var n := |texts| - 1;
    TerminatedPaints(texts[..n], shown[..n], w, t, scrollback);
    LastAfter(Terminated(texts[..n]), texts[n], shown[n], w, t, scrollback, shown[..n]);
    InitLast(shown);
  }

  lemma {:induction false} PagePaints(texts: seq<seq<Token>>, shown: seq<seq<Cell>>, cursor: Token, w: string -> bool, t: Term)
    requires ValidTerm(t) && |texts| == |shown| >= t.rows && cursor.Cup? && AllPaint(texts, shown, t.cols, w)
    ensures var u := Interpret(Page(texts, cursor), t, w);
      var k := |texts| - t.rows;
      && u.scrollback == t.scrollback + shown[..k] && u.grid == shown[k..] && u.attr == PLAIN
      && u.y == Max(0, Min(cursor.row - 1, t.rows - 1)) && u.x == Max(0, Min(cursor.col - 1, t.cols - 1)) && !u.wrap
  {
    var body := Terminated(texts[..|texts|-1]) + texts[|texts|-1];
    HeaderClears(t, w);
    var t1 := Interpret(HEADER, t, w);
    InterpretAppend(HEADER, body + [cursor], t, w);
    BodyPaints(texts, shown, w, t1, t.scrollback);
    InterpretAppend(body, [cursor], t1, w);
    InterpretOne(cursor, Interpret(body, t1, w), w);
  }

  lemma {:induction false} LineTextPaints(line: Line, cols: nat, w: string -> bool)
    requires WellFormed(line, cols, w)
    ensures Paints(LineTokens(line, cols), Shown(line, cols), cols, w)
  {
    forall t: Term | AtBlankRow(t) && t.cols == cols
      ensures var u := Interpret(LineTokens(line, cols), t, w);
        && u.rows == t.rows && u.cols == t.cols && u.y == t.y && u.scrollback == t.scrollback && u.attr == PLAIN
        && u.grid == t.grid[t.y := Shown(line, cols)]
    {
      LinePaints(line, w, t);
    }
  }

  function ShownAll(lines: seq<Line>, cols: nat): (r: seq<seq<Cell>>)
    ensures |r| == |lines| && forall i :: 0 <= i < |lines| ==> r[i] == Shown(lines[i], cols)
  {
    seq(|lines|, i requires 0 <= i < |lines| => Shown(lines[i], cols))
  }

  lemma {:induction false} AllTextsPaint(lines: seq<Line>, cols: nat, w: string -> bool)
    requires forall i :: 0 <= i < |lines| ==> WellFormed(lines[i], cols, w)
    ensures AllPaint(Texts(lines, cols), ShownAll(lines, cols), cols, w)
  {
    if lines != [] {
      var n := |lines| - 1;
      AllTextsPaint(lines[..n], cols, w);
      LineTextPaints(lines[n], cols, w);
      TextsInit(lines, cols);
      assert ShownAll(lines, cols)[..n] == ShownAll(lines[..n], cols);
    }
  }

  /** What a reader of size rows x cols sees: the screen on its grid, the history above it, the cursor clamped. */
  ghost predicate ShowsScreen(u: Term, screen: Screen, history: seq<Line>, cols: nat, rows: nat, scrollback: seq<seq<Cell>>) {
    && |u.grid| == rows && (forall y: nat :: y < rows ==> u.grid[y] == Shown(RowAt(screen, y), cols))
    && u.scrollback == scrollback + ShownAll(history, cols)
    && u.y == Max(0, Min(screen.cursorY, rows - 1)) && u.x == Max(0, Min(screen.cursorX, cols - 1)) && !u.wrap
    && u.attr == PLAIN
  }

  lemma {:induction false} PageShowsScreen(u: Term, screen: Screen, history: seq<Line>, cols: nat, rows: nat, scrollback: seq<seq<Cell>>)
    requires rows >= 1 && cols >= 1
    requires var shown := ShownAll(history + Rows(screen, rows), cols);
      u.scrollback == scrollback + shown[..|history|] && u.grid == shown[|history|..] && u.attr == PLAIN && !u.wrap
    requires var cursor := CursorToken(screen, cols, rows);
      u.y == Max(0, Min(cursor.row - 1, rows - 1)) && u.x == Max(0, Min(cursor.col - 1, cols - 1))
    ensures ShowsScreen(u, screen, history, cols, rows, scrollback)
  {
  }

  /**
   The printer's theorem. Read by any terminal of the same size, in any state, the printed screen shows every
   cell of every well-formed row with its glyph and attributes, adds exactly the history lines, in order, to the
   scrollback, and leaves the cursor at the clamped position with plain attributes.
   */
  lemma {:induction false} PrintedScreenPaints(screen: Screen, history: seq<Line>, w: string -> bool, t: Term)
    requires ValidTerm(t)
    requires forall i :: 0 <= i < |history| ==> WellFormed(history[i], t.cols, w)
    requires forall y: nat :: y < t.rows ==> WellFormed(RowAt(screen, y), t.cols, w)
    ensures ShowsScreen(Interpret(ScreenTokens(screen, t.cols, t.rows, history), t, w), screen, history, t.cols, t.rows, t.scrollback)
  {
    var lines := history + Rows(screen, t.rows);
    AllWellFormed(screen, history, t.cols, t.rows, w);
    LinesPaint(lines, CursorToken(screen, t.cols, t.rows), w, t);
    PageShowsScreen(Interpret(ScreenTokens(screen, t.cols, t.rows, history), t, w), screen, history, t.cols, t.rows, t.scrollback);
  }

  lemma {:induction false} AllWellFormed(screen: Screen, history: seq<Line>, cols: nat, rows: nat, w: string -> bool)
    requires forall i :: 0 <= i < |history| ==> WellFormed(history[i], cols, w)
    requires forall y: nat :: y < rows ==> WellFormed(RowAt(screen, y), cols, w)
    ensures var lines := history + Rows(screen, rows); forall i :: 0 <= i < |lines| ==> WellFormed(lines[i], cols, w)
  {
    var lines := history + Rows(screen, rows);
    forall i | 0 <= i < |lines| ensures WellFormed(lines[i], cols, w) {
      if i >= |history| { assert lines[i] == RowAt(screen, i - |history|); }
    }
  }

  lemma {:induction false} LinesPaint(lines: seq<Line>, cursor: Token, w: string -> bool, t: Term)
    requires ValidTerm(t) && |lines| >= t.rows && cursor.Cup? && forall i :: 0 <= i < |lines| ==> WellFormed(lines[i], t.cols, w)
    ensures var u, shown, k := Interpret(Page(Texts(lines, t.cols), cursor), t, w), ShownAll(lines, t.cols), |lines| - t.rows;
      && |shown| == |lines| && u.scrollback == t.scrollback + shown[..k] && u.grid == shown[k..] && u.attr == PLAIN
      && u.y == Max(0, Min(cursor.row - 1, t.rows - 1)) && u.x == Max(0, Min(cursor.col - 1, t.cols - 1)) && !u.wrap
  {
    AllTextsPaint(lines, t.cols, w);
    PagePaints(Texts(lines, t.cols), ShownAll(lines, t.cols), cursor, w, t);
  }

  // ---------------------------------------------------------------------------------------------
  // Agreement with the plain text of the screen

  function TextOf(tokens: seq<Token>): string {
    if tokens == [] then "" else (if tokens[0].Put? then tokens[0].data else "") + TextOf(tokens[1..])
  }

  /** One row of `_plain_screen_text`, before trailing whitespace is removed. */
  function PlainRow(line: Line, cols: nat): string {
    if cols == 0 then "" else
    PlainRow(line, cols - 1) + if cols - 1 in line then line[cols-1].data else " "
  }

  function Joined(cs: seq<Column>): string {
    if cs == [] then "" else Joined(cs[..|cs|-1]) + cs[|cs|-1].data
  }

  function Spaces(n: nat): string {
    if n == 0 then "" else Spaces(n - 1) + " "
  }

  lemma {:induction false} TextOfAppend(a: seq<Token>, b: seq<Token>)
    ensures TextOf(a + b) == TextOf(a) + TextOf(b)
  {
    if a == [] {
      assert a + b == b;
    } else {
      assert (a + b)[1..] == a[1..] + b;
      TextOfAppend(a[1..], b);
    }
  }

  lemma {:induction false} TextOfOne(prev: Option<seq<int>>, c: Column)
    ensures TextOf(One(prev, c)) == c.data
  {
    var put := Put(c.data);
    assert [put][1..] == [] && c.data + "" == c.data;
    assert TextOf([put]) == c.data;
    if prev != Some(c.sgr) {
      TextOfAppend([Sgr(c.sgr)], [put]);
      assert [Sgr(c.sgr)][1..] == [] && [Sgr(c.sgr)] + [put] == One(prev, c);
    }
  }

  lemma {:induction false} EmitText(cs: seq<Column>, x: nat, end: nat, prev: Option<seq<int>>)
    requires x <= end <= |cs|
    ensures Joined(cs[..x]) + TextOf(Emit(cs, x, end, prev)) == Joined(cs[..end])
    decreases end - x
  {
    if x < end {
      assert cs[..x+1][..x] == cs[..x];
      if Stub(cs[x]) {
        EmitText(cs, x + 1, end, prev);
      } else {
        TextOfAppend(One(prev, cs[x]), Emit(cs, x + 1, end, Some(cs[x].sgr)));
        TextOfOne(prev, cs[x]);
        EmitText(cs, x + 1, end, Some(cs[x].sgr));
      }
    }
  }

  lemma {:induction false} TrimmedIsSpaces(cs: seq<Column>) returns (n: nat)
    ensures Joined(cs[..LastShown(cs) + 1]) + Spaces(n) == Joined(cs)
  {
    if cs == [] || Shows(cs[|cs|-1]) {
      n := 0;
      assert cs[..LastShown(cs) + 1] == cs;
    } else {
      var front := cs[..|cs|-1];
      var m := TrimmedIsSpaces(front);
      assert front[..LastShown(front) + 1] == cs[..LastShown(cs) + 1];
      n := if Stub(cs[|cs|-1]) then m else m + 1;
    }
  }

  lemma {:induction false} JoinedIsPlain(line: Line, cols: nat)
    ensures Joined(Columns(line, cols)) == PlainRow(line, cols)
  {
    if cols > 0 {
      var cs := Columns(line, cols);
      assert cs[..cols-1] == Columns(line, cols - 1);
      JoinedIsPlain(line, cols - 1);
    }
  }

  /** For every line, well-formed or not, the printed glyphs are the plain text of the row up to trailing spaces. */
  lemma {:induction false} PrintedTextIsPlainText(line: Line, cols: nat) returns (n: nat)
    ensures TextOf(LineTokens(line, cols)) + Spaces(n) == PlainRow(line, cols)
  {
    var cs := Columns(line, cols);
    JoinedIsPlain(line, cols);
    n := TrimmedIsSpaces(cs);
    TextOfColumns(cs);
  }

  lemma {:induction false} TextOfColumns(cs: seq<Column>)
    ensures TextOf(ColumnTokens(cs)) == Joined(cs[..LastShown(cs) + 1])
  {
    if LastShown(cs) < 0 {
      assert cs[..LastShown(cs) + 1] == [];
    } else {
      ShownText(cs, LastShown(cs) + 1);
    }
  }

  lemma {:induction false} ShownText(cs: seq<Column>, end: nat)
    requires end <= |cs|
    ensures TextOf(Emit(cs, 0, end, None) + [Sgr([0])]) == Joined(cs[..end])
  {
    EmitText(cs, 0, end, None);
    PlainText(Joined(cs[..0]), Emit(cs, 0, end, None), Joined(cs[..end]));
  }

  lemma {:induction false} PlainText(none: string, body: seq<Token>, text: string)
    requires none == "" && none + TextOf(body) == text
    ensures TextOf(body + [Sgr([0])]) == text
  {
    var reset := Sgr([0]);
    TextOfAppend(body, [reset]);
    assert [reset][1..] == [];
    assert TextOf([reset]) == "" + "";
  }
}
