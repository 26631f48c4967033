/** A terminal that reads the printed tokens, the printer, and the proof that it paints the same screen. */
module ScreenPrinter {
  import opened Common
  import opened TerminalAnsi

  // ---------------------------------------------------------------------------------------------
  // The terminal

  /** A cell on the terminal; the right half of a wide glyph shows as "". */
  datatype Cell = Cell(glyph: string, attr: Attr)

  const BLANK: Cell := Cell(" ", PLAIN)

  datatype Term = Term(rows: nat, cols: nat, grid: seq<seq<Cell>>, y: int, x: int, wrap: bool, attr: Attr, scrollback: seq<seq<Cell>>)

  ghost predicate ValidTerm(t: Term) {
    && t.rows >= 1 && t.cols >= 1 && |t.grid| == t.rows
    && (forall i :: 0 <= i < t.rows ==> |t.grid[i]| == t.cols)
    && 0 <= t.y < t.rows && 0 <= t.x < t.cols
  }

  function Fill(n: nat, c: Cell): (r: seq<Cell>)
    ensures |r| == n && forall i :: 0 <= i < n ==> r[i] == c
  {
    if n == 0 then [] else [c] + Fill(n - 1, c)
  }

  function FillRows(n: nat, cols: nat, c: Cell): (r: seq<seq<Cell>>)
    ensures |r| == n && forall i :: 0 <= i < n ==> r[i] == Fill(cols, c)
  {
    if n == 0 then [] else [Fill(cols, c)] + FillRows(n - 1, cols, c)
  }

  /** Erased cells take the current background. */
  function Erased(t: Term): Cell {
    Cell(" ", PLAIN.(bg := t.attr.bg))
  }

  function NewLine(t: Term): Term
    requires |t.grid| == t.rows >= 1
  {
    var u := t.(x := 0, wrap := false);
    if t.y < t.rows - 1 then u.(y := t.y + 1)
    else u.(grid := t.grid[1..] + [Fill(t.cols, Erased(t))], scrollback := t.scrollback + [t.grid[0]])
  }

  function PutAt(t: Term, data: string, wide: bool): Term
    requires ValidTerm(t)
  {
    var row := t.grid[t.y][t.x := Cell(data, t.attr)];
    var two := wide && t.x + 1 < t.cols;
    var row' := if two then row[t.x + 1 := Cell("", t.attr)] else row;
    var next := t.x + if two then 2 else 1;
    t.(grid := t.grid[t.y := row'], x := Min(next, t.cols - 1), wrap := next >= t.cols)
  }

  lemma NewLineValid(t: Term)
    requires ValidTerm(t)
    ensures ValidTerm(NewLine(t))
  {
  }

  function Read(t: Term, token: Token, w: string -> bool): (u: Term)
    requires ValidTerm(t)
    ensures ValidTerm(u)
  {
    match token
    case Sgr(params) => t.(attr := Apply(params, t.attr))
    case EraseDisplay => t.(grid := FillRows(t.rows, t.cols, Erased(t)))
    case CrLf => NewLineValid(t); NewLine(t)
    case Cup(row, col) => t.(y := Max(0, Min(row - 1, t.rows - 1)), x := Max(0, Min(col - 1, t.cols - 1)), wrap := false)
    case Put(data) =>
      NewLineValid(t);
      PutAt(if t.wrap || (w(data) && t.x == t.cols - 1) then NewLine(t) else t, data, w(data))
  }

  function Interpret(tokens: seq<Token>, t: Term, w: string -> bool): (u: Term)
    requires ValidTerm(t)
    ensures ValidTerm(u)
    decreases |tokens|
  {
    if tokens == [] then t else Interpret(tokens[1..], Read(t, tokens[0], w), w)
  }

  lemma {:induction false} InterpretAppend(a: seq<Token>, b: seq<Token>, t: Term, w: string -> bool)
    requires ValidTerm(t)
    ensures Interpret(a + b, t, w) == Interpret(b, Interpret(a, t, w), w)
    decreases |a|
  {
    if a == [] {
      assert a + b == b;
    } else {
      assert (a + b)[1..] == a[1..] + b;
      InterpretAppend(a[1..], b, Read(t, a[0], w), w);
    }
  }

  lemma {:induction false} InterpretOne(k: Token, t: Term, w: string -> bool)
    requires ValidTerm(t)
    ensures Interpret([k], t, w) == Read(t, k, w)
  {
  }

  // ---------------------------------------------------------------------------------------------
  // The printer

  /** What the printer reads of one column: the SGR its cell needs and its text; "" is the right half of a wide glyph. */
  datatype Column = Column(sgr: seq<int>, data: string)

  function ColumnAt(line: Line, x: nat): Column {
    if x in line then Column(CellSgr(line[x]), line[x].data) else Column(PLAIN_SGR, " ")
  }

  function Columns(line: Line, cols: nat): (cs: seq<Column>)
    ensures |cs| == cols
    ensures forall x {:trigger ColumnAt(line, x)} :: 0 <= x < cols ==> cs[x] == ColumnAt(line, x)
  {
    if cols == 0 then [] else Columns(line, cols - 1) + [ColumnAt(line, cols - 1)]
  }

  predicate Stub(c: Column) {
    c.data == ""
  }

  /** Unless this holds, the column cannot be told from an erased one. */
  predicate Shows(c: Column) {
    (c.data != "" && c.data != " ") || c.sgr != PLAIN_SGR
  }

  function LastShown(cs: seq<Column>): (last: int)
    ensures -1 <= last < |cs|
    ensures last >= 0 ==> Shows(cs[last])
    ensures forall x :: last < x < |cs| ==> !Shows(cs[x])
  {
    if cs == [] then -1 else if Shows(cs[|cs|-1]) then |cs| - 1 else LastShown(cs[..|cs|-1])
  }

  /** Columns `x` up to `end`, given the SGR that was sent last: an SGR only when it changes, nothing for a stub. */
  function Emit(cs: seq<Column>, x: nat, end: nat, prev: Option<seq<int>>): seq<Token>
    requires end <= |cs|
    decreases end - x
  {
    if x >= end then []
    else if Stub(cs[x]) then Emit(cs, x + 1, end, prev)
    else One(prev, cs[x]) + Emit(cs, x + 1, end, Some(cs[x].sgr))
  }

  function One(prev: Option<seq<int>>, c: Column): seq<Token> {
    if prev == Some(c.sgr) then [Put(c.data)] else [Sgr(c.sgr), Put(c.data)]
  }

  function ColumnTokens(cs: seq<Column>): seq<Token> {
    var last := LastShown(cs);
    if last < 0 then [] else Emit(cs, 0, last + 1, None) + [Sgr([0])]
  }

  function LineTokens(line: Line, cols: nat): seq<Token> {
    ColumnTokens(Columns(line, cols))
  }

  method FindLast(cs: seq<Column>) returns (last: int)
    ensures last == LastShown(cs)
  {
    last := -1;
    for x := 0 to |cs|
      invariant last == LastShown(cs[..x])
    {
      assert cs[..x+1][..x] == cs[..x];
      if Shows(cs[x]) {
        last := x;
      }
    }
    assert cs[..|cs|] == cs;
  }

  /** `_line_to_ansi`: find the last column that shows, then print up to it. */
  method LineToAnsi(line: Line, cols: nat) returns (out: seq<Token>)
    ensures out == LineTokens(line, cols)
  {
    var cs := Columns(line, cols);
    out := [];
    var last := FindLast(cs);
    if last < 0 {
      return;
    }
    var prev := None;
    for x := 0 to last + 1
      invariant out + Emit(cs, x, last + 1, prev) == Emit(cs, 0, last + 1, None)
    {
      if !Stub(cs[x]) {
        if prev != Some(cs[x].sgr) {
          out := out + [Sgr(cs[x].sgr), Put(cs[x].data)];
        } else {
          out := out + [Put(cs[x].data)];
        }
        prev := Some(cs[x].sgr);
      }
    }
    out := out + [Sgr([0])];
  }
}
