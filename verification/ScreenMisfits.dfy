/**
 Which rows the printer reproduces. It prints nothing for the right half of a wide glyph, so a row in which such a stub
 stands alone, a wide glyph has none, or one hangs over the edge is painted differently from the first such column on.
 */
module ScreenMisfits {
  import opened Common
  import opened TerminalAnsi
  import opened ScreenPrinter
  import opened ScreenPaint

  // ---------------------------------------------------------------------------------------------
  // What can no longer be put right

  /** The column the next glyph goes to; behind the last one it goes to the next line. */
  function Position(t: Term): int {
    if t.wrap then t.cols else t.x
  }

  /** Lines begun since the start: only a line break changes it, and only upwards. */
  function Depth(t: Term): int {
    t.y + |t.scrollback|
  }

  /** `u` came from `t` on its line or has left it; and on the line, column `p` is behind the cursor and empty, or not behind it and not empty. */
  ghost predicate Spoiled(t: Term, u: Term, p: nat, empty: bool) {
    && ValidTerm(u) && p < u.cols
    && (Depth(u) > Depth(t)
        || (u.y == t.y && Depth(u) == Depth(t) && Position(u) >= p && (empty ==> Position(u) > p)
            && (u.grid[u.y][p].glyph == "" <==> empty)))
  }

  predicate Prints(k: Token) {
    k.Sgr? || (k.Put? && k.data != "")
  }

  lemma {:induction false} NewLineDeepens(t: Term)
    requires ValidTerm(t)
    ensures Depth(NewLine(t)) == Depth(t) + 1
  {
  }

  lemma {:induction false} StaysSpoiled(t: Term, u: Term, p: nat, empty: bool, k: Token, w: string -> bool)
    requires Spoiled(t, u, p, empty) && Prints(k)
    ensures Spoiled(t, Read(u, k, w), p, empty)
  {
    if k.Put? {
      NewLineDeepens(u);
      NewLineValid(u);
    }
  }

  lemma {:induction false} RestIsSpoiled(t: Term, u: Term, p: nat, empty: bool, tokens: seq<Token>, w: string -> bool)
    requires Spoiled(t, u, p, empty) && forall k :: k in tokens ==> Prints(k)
    ensures Spoiled(t, Interpret(tokens, u, w), p, empty)
    decreases |tokens|
  {
    if tokens != [] {
      assert tokens[0] in tokens && forall k :: k in tokens[1..] ==> k in tokens;
      StaysSpoiled(t, u, p, empty, tokens[0], w);
      RestIsSpoiled(t, Read(u, tokens[0], w), p, empty, tokens[1..], w);
    }
  }

  lemma {:induction false} EmitPrints(cs: seq<Column>, x: nat, end: nat, prev: Option<seq<int>>)
    requires end <= |cs|
    ensures forall k :: k in Emit(cs, x, end, prev) ==> Prints(k)
    decreases end - x
  {
    if x < end { EmitPrints(cs, x + 1, end, if Stub(cs[x]) then prev else Some(cs[x].sgr)); }
  }

  // ---------------------------------------------------------------------------------------------
  // Up to the first misfit

  /** The first `q` columns, and nothing after them. */
  function Front(cs: seq<Column>, q: nat): (r: seq<Column>)
    requires q <= |cs|
    ensures |r| == |cs| && r[..q] == cs[..q] && forall x :: q <= x < |cs| ==> r[x] == Column(PLAIN_SGR, " ")
  {
    cs[..q] + seq(|cs| - q, x requires 0 <= x < |cs| - q => Column(PLAIN_SGR, " "))
  }

  lemma {:induction false} EmitFront(cs: seq<Column>, q: nat, x: nat, end: nat, prev: Option<seq<int>>)
    requires end <= q <= |cs|
    ensures Emit(Front(cs, q), x, end, prev) == Emit(cs, x, end, prev)
    decreases end - x
  {
    if x < end {
      assert Front(cs, q)[..q][x] == cs[..q][x];
      EmitFront(cs, q, x + 1, end, if Stub(cs[x]) then prev else Some(cs[x].sgr));
    }
  }

  lemma {:induction false} EmitSplit(cs: seq<Column>, x: nat, q: nat, end: nat, prev: Option<seq<int>>) returns (mid: Option<seq<int>>)
    requires x <= q <= end <= |cs|
    ensures Emit(cs, x, end, prev) == Emit(cs, x, q, prev) + Emit(cs, q, end, mid)
    decreases q - x
  {
    if x == q {
      mid := prev;
      assert [] + Emit(cs, q, end, mid) == Emit(cs, q, end, mid);
    } else if Stub(cs[x]) {
      mid := EmitSplit(cs, x + 1, q, end, prev);
    } else {
      mid := EmitSplit(cs, x + 1, q, end, Some(cs[x].sgr));
      Associate(One(prev, cs[x]), Emit(cs, x + 1, q, Some(cs[x].sgr)), Emit(cs, q, end, mid));
    }
  }

  /** A row to be printed onto: blank, the cursor at its start, plain attributes. */
  ghost predicate AtBlankRow(t: Term) {
    ValidTerm(t) && CursorAt(t, 0) && t.attr == PLAIN && t.grid[t.y] == Fill(t.cols, BLANK)
  }

  /** Columns before `q` fit together by themselves. */
  ghost predicate FitsUpTo(cs: seq<Column>, q: nat, w: string -> bool) {
    q < |cs| && WellFormedColumns(Front(cs, q), w)
  }

  /** Printing up to column `q`, or less, paints what was printed and leaves the rest of the row blank. */
  lemma {:induction false} FrontPaints(cs: seq<Column>, q: nat, end: nat, w: string -> bool, t: Term)
    requires AtBlankRow(t) && |cs| == t.cols && FitsUpTo(cs, q, w) && end <= q
    ensures var u := Interpret(Emit(cs, 0, end, None), t, w);
      && ValidTerm(u) && SameElsewhere(t, u) && u.grid[u.y][q] == BLANK
      && (end == q ==> CursorAt(u, q) && (forall x :: q <= x < u.cols ==> u.grid[u.y][x] == BLANK))
  {
    var f := Front(cs, q);
    assert PaintedTo(t, f, 0);
    assert !Stub(f[0]);
    EmitPaints(f, 0, end, None, w, t);
    EmitFront(cs, q, 0, end, None);
    assert !Stub(f[q]);
  }

  // ---------------------------------------------------------------------------------------------
  // The three misfits

  /** What is printed after column `q` was reached. */
  lemma {:induction false} TokensSplit(cs: seq<Column>, q: nat) returns (mid: Option<seq<int>>)
    requires q <= LastShown(cs)
    ensures ColumnTokens(cs) == Emit(cs, 0, q, None) + (Emit(cs, q, LastShown(cs) + 1, mid) + [Sgr([0])])
  {
    mid := EmitSplit(cs, 0, q, LastShown(cs) + 1, None);
    Associate(Emit(cs, 0, q, None), Emit(cs, q, LastShown(cs) + 1, mid), [Sgr([0])]);
  }

  /** Printing comes to column `q` of a row that is still blank there, and goes on from it. */
  lemma {:induction false} Reaches(cs: seq<Column>, q: nat, w: string -> bool, t: Term) returns (mid: Option<seq<int>>, u: Term)
    requires AtBlankRow(t) && |cs| == t.cols && FitsUpTo(cs, q, w) && q <= LastShown(cs)
    ensures ValidTerm(u) && u.y == t.y && Depth(u) == Depth(t) && u.cols == t.cols && CursorAt(u, q) && u.grid[u.y][q] == BLANK
    ensures Interpret(ColumnTokens(cs), t, w) == Interpret(Emit(cs, q, LastShown(cs) + 1, mid) + [Sgr([0])], u, w)
  {
    mid := TokensSplit(cs, q);
    u := Interpret(Emit(cs, 0, q, None), t, w);
    FrontPaints(cs, q, q, w, t);
    InterpretAppend(Emit(cs, 0, q, None), Emit(cs, q, LastShown(cs) + 1, mid) + [Sgr([0])], t, w);
  }

  /** Not the row that was printed: another line, or the emptiness of column `p` is as told. */
  ghost predicate Ends(t: Term, u: Term, p: nat, empty: bool) {
    ValidTerm(u) && p < u.cols && (Depth(u) > Depth(t) || (u.y == t.y && (u.grid[u.y][p].glyph == "" <==> empty)))
  }

  /** Once column `p` is spoiled, the rest of the line and the closing SGR leave it so. */
  lemma {:induction false} LineEnds(cs: seq<Column>, x: nat, end: nat, prev: Option<seq<int>>, p: nat, empty: bool, w: string -> bool, t: Term, u: Term)
    requires end <= |cs| && Spoiled(t, u, p, empty)
    ensures Ends(t, Interpret(Emit(cs, x, end, prev) + [Sgr([0])], u, w), p, empty)
  {
    EmitPrints(cs, x, end, prev);
    RestIsSpoiled(t, u, p, empty, Emit(cs, x, end, prev) + [Sgr([0])], w);
  }

  /** The line ends before column `q`: it stays blank. */
  lemma {:induction false} EndsBefore(cs: seq<Column>, q: nat, w: string -> bool, t: Term)
    requires AtBlankRow(t) && |cs| == t.cols && FitsUpTo(cs, q, w) && LastShown(cs) < q
    ensures Ends(t, Interpret(ColumnTokens(cs), t, w), q, false)
  {
    var last := LastShown(cs);
    FrontPaints(cs, q, last + 1, w, t);
    if last >= 0 {
      var body := Emit(cs, 0, last + 1, None);
      InterpretAppend(body, [Sgr([0])], t, w);
      InterpretOne(Sgr([0]), Interpret(body, t, w), w);
    }
  }

  lemma {:induction false} FromOrphanOn(cs: seq<Column>, q: nat, end: nat, prev: Option<seq<int>>, w: string -> bool, t: Term, u: Term)
    requires ValidTerm(u) && u.y == t.y && Depth(u) == Depth(t) && q < u.cols && CursorAt(u, q) && q < end <= |cs|
    requires u.grid[u.y][q] == BLANK
    ensures Ends(t, Interpret(Emit(cs, q, end, prev) + [Sgr([0])], u, w), q, false)
  {
    assert Spoiled(t, u, q, false);
    LineEnds(cs, q, end, prev, q, false, w, t, u);
  }

  /** Whatever stands in column `q` in the end is not empty, where a stub without its glyph should be. */
  lemma {:induction false} OrphanSpoils(cs: seq<Column>, q: nat, w: string -> bool, t: Term)
    requires AtBlankRow(t) && |cs| == t.cols && FitsUpTo(cs, q, w)
    ensures Ends(t, Interpret(ColumnTokens(cs), t, w), q, false)
  {
    if LastShown(cs) < q {
      EndsBefore(cs, q, w, t);
    } else {
      var mid, u := Reaches(cs, q, w, t);
      FromOrphanOn(cs, q, LastShown(cs) + 1, mid, w, t, u);
    }
  }

  /** The column a wide glyph at `q` empties; at the edge it takes a line of its own. */
  function RightHalf(q: nat, cols: nat): nat {
    if q + 1 < cols then q + 1 else q
  }

  lemma {:induction false} PutWideSpoils(t: Term, u: Term, q: nat, data: string, w: string -> bool)
    requires ValidTerm(u) && u.y == t.y && Depth(u) == Depth(t) && q < u.cols && CursorAt(u, q) && w(data) && data != ""
    ensures Spoiled(t, Read(u, Put(data), w), RightHalf(q, u.cols), true)
  {
    NewLineDeepens(u);
    NewLineValid(u);
  }

  lemma {:induction false} WideSpoilsHere(t: Term, u: Term, q: nat, prev: Option<seq<int>>, c: Column, w: string -> bool)
    requires ValidTerm(u) && u.y == t.y && Depth(u) == Depth(t) && q < u.cols && CursorAt(u, q) && w(c.data) && c.data != ""
    ensures Spoiled(t, Interpret(One(prev, c), u, w), RightHalf(q, u.cols), true)
  {
    var put := Put(c.data);
    if prev == Some(c.sgr) {
      InterpretOne(put, u, w);
      PutWideSpoils(t, u, q, c.data, w);
    } else {
      var v := Read(u, Sgr(c.sgr), w);
      assert One(prev, c) == [Sgr(c.sgr)] + [put];
      InterpretAppend([Sgr(c.sgr)], [put], u, w);
      InterpretOne(Sgr(c.sgr), u, w);
      InterpretOne(put, v, w);
      PutWideSpoils(t, v, q, c.data, w);
    }
  }

  lemma {:induction false} FromWideOn(cs: seq<Column>, q: nat, end: nat, prev: Option<seq<int>>, w: string -> bool, t: Term, u: Term)
    requires ValidTerm(u) && u.y == t.y && Depth(u) == Depth(t) && q < u.cols && CursorAt(u, q) && q < end <= |cs|
    requires w(cs[q].data) && cs[q].data != ""
    ensures Ends(t, Interpret(Emit(cs, q, end, prev) + [Sgr([0])], u, w), RightHalf(q, u.cols), true)
  {
    var glyph, tail := One(prev, cs[q]), Emit(cs, q + 1, end, Some(cs[q].sgr));
    WideSpoilsHere(t, u, q, prev, cs[q], w);
    LineEnds(cs, q + 1, end, Some(cs[q].sgr), RightHalf(q, u.cols), true, w, t, Interpret(glyph, u, w));
    Associate(glyph, tail, [Sgr([0])]);
    InterpretAppend(glyph, tail + [Sgr([0])], u, w);
  }

  /** A wide glyph empties the column after it, or goes to the next line. */
  lemma {:induction false} WideSpoils(cs: seq<Column>, q: nat, w: string -> bool, t: Term)
    requires AtBlankRow(t) && |cs| == t.cols && FitsUpTo(cs, q, w) && w(cs[q].data)
    ensures Ends(t, Interpret(ColumnTokens(cs), t, w), RightHalf(q, t.cols), true)
  {
    assert Shows(cs[q]) && q <= LastShown(cs);
    var mid, u := Reaches(cs, q, w, t);
    FromWideOn(cs, q, LastShown(cs) + 1, mid, w, t, u);
  }

  // ---------------------------------------------------------------------------------------------
  // The first misfit

  /** Column `x` is a stub without its glyph, or should be a stub and is not; behind the last column, a wide glyph hangs over. */
  predicate Misfit(cs: seq<Column>, x: nat, w: string -> bool)
    requires x <= |cs|
  {
    var wide := x > 0 && w(cs[x-1].data);
    if x < |cs| then Stub(cs[x]) != wide else wide
  }

  ghost predicate SelfContained(cs: seq<Column>) {
    forall x, a :: 0 <= x < |cs| ==> Apply(cs[x].sgr, a) == AttrAt(cs[x])
  }

  lemma {:induction false} FrontFits(cs: seq<Column>, q: nat, w: string -> bool)
    requires q < |cs| && SelfContained(cs) && !w("") && !w(" ") && (q > 0 ==> !w(cs[q-1].data))
    requires forall x :: 0 <= x < q ==> !Misfit(cs, x, w)
    ensures FitsUpTo(cs, q, w)
  {
    var f := Front(cs, q);
    assert forall x :: 0 <= x < q ==> f[x] == cs[x] by { assert forall x :: 0 <= x < q ==> f[..q][x] == cs[..q][x]; }
    forall x | 0 < x < |f| ensures Stub(f[x]) <==> w(f[x-1].data) {
      if x < q { assert !Misfit(cs, x, w); }
    }
    forall x, a | 0 <= x < |f| ensures Apply(f[x].sgr, a) == AttrAt(f[x]) {
      if x >= q { PlainSgr(a); PlainSgr(PLAIN); }
    }
    if q > 0 { assert !Misfit(cs, 0, w); }
  }

  lemma {:induction false} FirstMisfit(cs: seq<Column>, w: string -> bool, x: nat) returns (p: nat)
    requires x <= |cs| && Misfit(cs, x, w)
    ensures p <= |cs| && Misfit(cs, p, w) && forall y :: 0 <= y < p ==> !Misfit(cs, y, w)
  {
    p := 0;
    while !Misfit(cs, p, w)
      invariant p <= x && forall y :: 0 <= y < p ==> !Misfit(cs, y, w)
      decreases x - p
    {
      p := p + 1;
    }
  }

  /** From the first misfit on the row is another: column `p` is empty where the line is not, or the other way round. */
  lemma {:induction false} MisfitShows(cs: seq<Column>, w: string -> bool, t: Term, x: nat) returns (p: nat, empty: bool)
    requires AtBlankRow(t) && |cs| == t.cols && SelfContained(cs) && !w("") && !w(" ") && x <= |cs| && Misfit(cs, x, w)
    ensures p < |cs| && Ends(t, Interpret(ColumnTokens(cs), t, w), p, empty) && Stub(cs[p]) != empty
  {
    var m := FirstMisfit(cs, w, x);
    if m < |cs| && Stub(cs[m]) {
      p, empty := m, false;
      FrontFits(cs, m, w);
      OrphanSpoils(cs, m, w, t);
    } else {
      var q := m - 1;
      assert !Misfit(cs, q, w);
      p, empty := RightHalf(q, t.cols), true;
      FrontFits(cs, q, w);
      WideSpoils(cs, q, w, t);
    }
  }

  // ---------------------------------------------------------------------------------------------
  // In terms of the emulator's cells

  lemma {:induction false} ColumnsMatch(line: Line, cols: nat, w: string -> bool)
    requires !w("") && !w(" ")
    ensures forall x: nat :: x < cols ==> Matches(Columns(line, cols)[x], line, x, w)
    ensures SelfContained(Columns(line, cols))
  {
    var cs := Columns(line, cols);
    forall x: nat | x < cols ensures Matches(cs[x], line, x, w) {
      assert cs[x] == ColumnAt(line, x);
      ColumnMatches(line, x, w);
    }
    forall x, a | 0 <= x < |cs| ensures Apply(cs[x].sgr, a) == AttrAt(cs[x]) {
      assert Matches(cs[x], line, x, w);
    }
  }

  lemma {:induction false} MisfitOf(line: Line, cols: nat, w: string -> bool) returns (x: nat)
    requires !w("") && !w(" ") && !WellFormed(line, cols, w)
    ensures x <= cols && Misfit(Columns(line, cols), x, w)
  {
    var cs := Columns(line, cols);
    ColumnsMatch(line, cols, w);
    if cols > 0 && WideAt(line, cols - 1, w) {
      x := cols;
      assert Matches(cs[cols-1], line, cols - 1, w);
    } else {
      x :| x < cols && !(StubAt(line, x) <==> x > 0 && WideAt(line, x - 1, w));
      assert Matches(cs[x], line, x, w);
      if x > 0 { assert Matches(cs[x-1], line, x - 1, w); }
    }
  }

  lemma {:induction false} ShownEmpty(line: Line, cols: nat, x: nat)
    requires x < cols
    ensures Shown(line, cols)[x].glyph == "" <==> StubAt(line, x)
  {
  }

  /**
   Printing a line onto a blank row paints exactly that line and stays on it if and only if the line is well formed: each
   stub follows its wide glyph, each wide glyph has its stub, and none hangs over the edge.
   */
  lemma {:induction false} LinePaintsIff(line: Line, w: string -> bool, t: Term)
    requires AtBlankRow(t) && !w("") && !w(" ")
    ensures var u := Interpret(LineTokens(line, t.cols), t, w);
      u.y == t.y && u.scrollback == t.scrollback && u.grid == t.grid[t.y := Shown(line, t.cols)] <==> WellFormed(line, t.cols, w)
  {
    if WellFormed(line, t.cols, w) {
      LinePaints(line, w, t);
    } else {
      var cs := Columns(line, t.cols);
      var x := MisfitOf(line, t.cols, w);
      ColumnsMatch(line, t.cols, w);
      var p, empty := MisfitShows(cs, w, t, x);
      assert Matches(cs[p], line, p, w);
      ShownEmpty(line, t.cols, p);
    }
  }

  lemma {:induction false} LastIsSecond(cs: seq<Column>)
    requires |cs| >= 2 && Shows(cs[1]) && forall x :: 2 <= x < |cs| ==> !Shows(cs[x])
    ensures LastShown(cs) == 1
  {
  }

  /** One glyph of one column at the start of a row, and plain attributes after it. */
  lemma {:induction false} OneGlyph(c: Column, w: string -> bool, t: Term)
    requires ValidTerm(t) && CursorAt(t, 0) && t.cols >= 2 && !w(c.data)
    ensures var u := Interpret(One(None, c) + [Sgr([0])], t, w);
      u.y == t.y && u.cols == t.cols && u.grid == t.grid[t.y := t.grid[t.y][0 := Cell(c.data, Apply(c.sgr, t.attr))]]
  {
    var t1 := Read(t, Sgr(c.sgr), w);
    var t2 := Read(t1, Put(c.data), w);
    assert One(None, c) == [Sgr(c.sgr)] + [Put(c.data)];
    InterpretAppend([Sgr(c.sgr)] + [Put(c.data)], [Sgr([0])], t, w);
    InterpretAppend([Sgr(c.sgr)], [Put(c.data)], t, w);
    InterpretOne(Sgr(c.sgr), t, w);
    InterpretOne(Put(c.data), t1, w);
    InterpretOne(Sgr([0]), t2, w);
  }

  lemma {:induction false} OnlySecondIsPrinted(stub: Char, c: Char, cols: nat)
    requires stub.data == "" && c.data != "" && c.data != " " && cols >= 2
    ensures LineTokens(map[0 := stub, 1 := c], cols) == One(None, Column(CellSgr(c), c.data)) + [Sgr([0])]
  {
    var line := map[0 := stub, 1 := c];
    var cs := Columns(line, cols);
    assert cs[0] == ColumnAt(line, 0) && cs[1] == ColumnAt(line, 1);
    forall x | 2 <= x < |cs| ensures !Shows(cs[x]) { assert cs[x] == ColumnAt(line, x); }
    LastIsSecond(cs);
    assert Emit(cs, 0, 2, None) == One(None, cs[1]) + [];
  }

  /**
   A row that is not well formed is not reproduced: a stub left in the first column, its wide glyph overwritten, makes the
   glyph of the second column appear in the first.
   */
  lemma {:induction false} OrphanStubShifts(stub: Char, c: Char, w: string -> bool, t: Term)
    requires ValidTerm(t) && CursorAt(t, 0) && t.cols >= 2 && t.grid[t.y] == Fill(t.cols, BLANK)
    requires stub.data == "" && c.data != "" && c.data != " " && !w(c.data)
    ensures var line := map[0 := stub, 1 := c];
      var u := Interpret(LineTokens(line, t.cols), t, w);
      && u.y == t.y && u.cols == t.cols && u.grid[t.y][0] == Cell(c.data, AttrOf(c)) && u.grid[t.y][1] == BLANK
      && Shown(line, t.cols)[1] == Cell(c.data, AttrOf(c))
  {
    OnlySecondIsPrinted(stub, c, t.cols);
    OneGlyph(Column(CellSgr(c), c.data), w, t);
    SgrSetsTheCell(c, t.attr);
  }
}
