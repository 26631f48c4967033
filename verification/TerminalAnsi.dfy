/**
 Printing a screen as ANSI text, and the terminal that reads it back.

 The printer's output is a list of tokens instead of characters. The reader is the part of ECMA-48 those tokens
 use: SGR (section 8.3.117), CUP (section 8.3.21), ED (section 8.3.39), CR and LF, with the deferred wrap of a
 real terminal: a glyph in the last column leaves the cursor there and the next glyph starts a new line.
 */
module TerminalAnsi {
  /** One cell of the emulator's screen: its text, "" for the right half of a wide glyph, and its attributes. */
  datatype Char = Char(data: string, bold: bool, italics: bool, underscore: bool, blink: bool, reverse: bool,
                       strikethrough: bool, fg: string, bg: string)

  type Line = map<nat, Char>

  datatype Token = Sgr(params: seq<int>) | EraseDisplay | CrLf | Cup(row: int, col: int) | Put(data: string)

  // ---------------------------------------------------------------------------------------------
  // Colours and attributes

  function LowerChar(c: char): char {
    if 'A' <= c <= 'Z' then (c as int + 32) as char else c
  }

  function Lower(s: string): (r: string)
    ensures |r| == |s|
  {
    if s == "" then "" else [LowerChar(s[0])] + Lower(s[1..])
  }

  /** The first entry under `name`, or `none`. */
  function Lookup(table: seq<(string, nat)>, name: string, none: nat): nat {
    if table == [] then none else if table[0].0 == name then table[0].1 else Lookup(table[1..], name, none)
  }

  /** The foreground code of each named colour. */
  const NAMED: seq<(string, nat)> := [
    ("black", 30), ("red", 31), ("green", 32), ("brown", 33), ("yellow", 33), ("blue", 34), ("magenta", 35), ("cyan", 36), ("white", 37),
    ("brightblack", 90), ("brightred", 91), ("brightgreen", 92), ("brightbrown", 93), ("brightyellow", 93),
    ("brightblue", 94), ("brightmagenta", 95), ("brightcyan", 96), ("brightwhite", 97)]

  function NamedCode(name: string): nat {
    Lookup(NAMED, name, 0)
  }

  function HexDigit(c: char): int {
    if '0' <= c <= '9' then c as int - '0' as int else if 'a' <= c <= 'f' then c as int - 'a' as int + 10 else -1
  }

  predicate IsHex(s: string) {
    |s| == 6 && forall i :: 0 <= i < 6 ==> HexDigit(s[i]) >= 0
  }

  function HexByte(s: string, i: nat): int
    requires i + 1 < |s|
  {
    16 * HexDigit(s[i]) + HexDigit(s[i+1])
  }

  function ColorSgr(value: string, background: bool): seq<int> {
    var name := Lower(value);
    if value == "" || value == "default" then [if background then 49 else 39]
    else if NamedCode(name) != 0 then [NamedCode(name) + if background then 10 else 0]
    else if IsHex(name) then [if background then 48 else 38, 2, HexByte(name, 0), HexByte(name, 2), HexByte(name, 4)]
    else [if background then 49 else 39]
  }

  function Flag(on: bool, code: int): seq<int> {
    if on then [code] else []
  }

  function CellSgr(c: Char): seq<int> {
    [0] + (Flag(c.bold, 1) + (Flag(c.italics, 3) + (Flag(c.underscore, 4) + (Flag(c.blink, 5) +
      (Flag(c.reverse, 7) + (Flag(c.strikethrough, 9) + (ColorSgr(c.fg, false) + ColorSgr(c.bg, true))))))))
  }

  const PLAIN_SGR: seq<int> := [0, 39, 49]

  datatype Color = Default | Palette(index: int) | Rgb(r: int, g: int, b: int)

  datatype Attr = Attr(bold: bool, italics: bool, underscore: bool, blink: bool, reverse: bool, strike: bool, fg: Color, bg: Color)

  const PLAIN: Attr := Attr(false, false, false, false, false, false, Default, Default)

  /** The place of each named colour in the 16-colour palette: eight normal colours, then their bright forms. */
  const PALETTE: seq<(string, nat)> := [
    ("black", 0), ("red", 1), ("green", 2), ("brown", 3), ("yellow", 3), ("blue", 4), ("magenta", 5), ("cyan", 6), ("white", 7),
    ("brightblack", 8), ("brightred", 9), ("brightgreen", 10), ("brightbrown", 11), ("brightyellow", 11),
    ("brightblue", 12), ("brightmagenta", 13), ("brightcyan", 14), ("brightwhite", 15)]

  function PaletteIndex(name: string): nat {
    Lookup(PALETTE, name, 16)
  }

  /** The colour a value of the emulator stands for: a place in the palette, a 24-bit colour, or the default. */
  function Shade(value: string): Color {
    var name := Lower(value);
    if value == "" || value == "default" then Default
    else if PaletteIndex(name) < 16 then Palette(PaletteIndex(name))
    else if IsHex(name) then Rgb(HexByte(name, 0), HexByte(name, 2), HexByte(name, 4))
    else Default
  }

  function AttrOf(c: Char): Attr {
    Attr(c.bold, c.italics, c.underscore, c.blink, c.reverse, c.strikethrough, Shade(c.fg), Shade(c.bg))
  }

  /** One single-number SGR parameter. */
  function Set(a: Attr, p: int): Attr {
    if p == 0 then PLAIN
    else if p == 1 then a.(bold := true)
    else if p == 3 then a.(italics := true)
    else if p == 4 then a.(underscore := true)
    else if p == 5 then a.(blink := true)
    else if p == 7 then a.(reverse := true)
    else if p == 9 then a.(strike := true)
    else if 30 <= p <= 37 then a.(fg := Palette(p - 30))
    else if 90 <= p <= 97 then a.(fg := Palette(p - 82))
    else if 40 <= p <= 47 then a.(bg := Palette(p - 40))
    else if 100 <= p <= 107 then a.(bg := Palette(p - 92))
    else if p == 39 then a.(fg := Default)
    else if p == 49 then a.(bg := Default)
    else a
  }

  /** One SGR control, parameter by parameter, as a terminal applies it. */
  function Apply(params: seq<int>, a: Attr): Attr
    decreases |params|
  {
    if params == [] then a
    else if (params[0] == 38 || params[0] == 48) && |params| >= 5 && params[1] == 2 then
      var rgb := Rgb(params[2], params[3], params[4]);
      Apply(params[5..], if params[0] == 38 then a.(fg := rgb) else a.(bg := rgb))
    else Apply(params[1..], Set(a, params[0]))
  }

  lemma {:induction false} ApplyOne(p: int, rest: seq<int>, a: Attr)
    requires p != 38 && p != 48
    ensures Apply([p] + rest, a) == Apply(rest, Set(a, p))
  {
  }

  lemma {:induction false} ApplyFlag(on: bool, p: int, rest: seq<int>, a: Attr)
    requires p < 30
    ensures Apply(Flag(on, p) + rest, a) == Apply(rest, if on then Set(a, p) else a)
  {
    if on { ApplyOne(p, rest, a); } else { assert [] + rest == rest; }
  }

  function CodeOf(i: nat): nat {
    if i < 8 then 30 + i else if i < 16 then 82 + i else 0
  }

  lemma {:induction false} LookupParallel(codes: seq<(string, nat)>, places: seq<(string, nat)>, name: string)
    requires |codes| == |places|
    requires forall i :: 0 <= i < |codes| ==> codes[i].0 == places[i].0 && codes[i].1 == CodeOf(places[i].1)
    ensures Lookup(codes, name, 0) == CodeOf(Lookup(places, name, 16))
  {
    if codes != [] { LookupParallel(codes[1..], places[1..], name); }
  }

  lemma {:induction false} CodeOfIndex(name: string)
    ensures NamedCode(name) == CodeOf(PaletteIndex(name))
  {
    LookupParallel(NAMED, PALETTE, name);
  }

  function Shaded(a: Attr, background: bool, c: Color): Attr {
    if background then a.(bg := c) else a.(fg := c)
  }

  lemma {:induction false} ApplyCode(i: nat, background: bool, rest: seq<int>, a: Attr)
    requires i < 16
    ensures Apply([CodeOf(i) + if background then 10 else 0] + rest, a) ==
      Apply(rest, Shaded(a, background, Palette(i)))
  {
    ApplyOne(CodeOf(i) + if background then 10 else 0, rest, a);
  }

  lemma {:induction false} ApplyRgb(r: int, g: int, b: int, background: bool, rest: seq<int>, a: Attr)
    ensures Apply([if background then 48 else 38, 2, r, g, b] + rest, a) == Apply(rest, Shaded(a, background, Rgb(r, g, b)))
  {
    assert ([if background then 48 else 38, 2, r, g, b] + rest)[5..] == rest;
  }

  lemma {:induction false} ApplyColor(value: string, background: bool, rest: seq<int>, a: Attr)
    ensures Apply(ColorSgr(value, background) + rest, a) == Apply(rest, Shaded(a, background, Shade(value)))
  {
    var name := Lower(value);
    CodeOfIndex(name);
    if value == "" || value == "default" {
      ApplyOne(if background then 49 else 39, rest, a);
    } else if PaletteIndex(name) < 16 {
      ApplyCode(PaletteIndex(name), background, rest, a);
    } else if IsHex(name) {
      ApplyRgb(HexByte(name, 0), HexByte(name, 2), HexByte(name, 4), background, rest, a);
    } else {
      ApplyOne(if background then 49 else 39, rest, a);
    }
  }

  lemma {:induction false} ApplyColors(fg: string, bg: string, a: Attr)
    ensures Apply(ColorSgr(fg, false) + ColorSgr(bg, true), a) == a.(fg := Shade(fg), bg := Shade(bg))
  {
    ApplyColor(fg, false, ColorSgr(bg, true), a);
    ApplyColor(bg, true, [], a.(fg := Shade(fg)));
    assert ColorSgr(bg, true) + [] == ColorSgr(bg, true);
  }

  lemma {:induction false} ApplyFlags(c: Char, rest: seq<int>, a: Attr)
    requires a == PLAIN
    ensures Apply(Flag(c.bold, 1) + (Flag(c.italics, 3) + (Flag(c.underscore, 4) + (Flag(c.blink, 5) +
      (Flag(c.reverse, 7) + (Flag(c.strikethrough, 9) + rest))))), a) ==
      Apply(rest, Attr(c.bold, c.italics, c.underscore, c.blink, c.reverse, c.strikethrough, Default, Default))
  {
    var r7 := Flag(c.reverse, 7) + (Flag(c.strikethrough, 9) + rest);
    var r4 := Flag(c.underscore, 4) + (Flag(c.blink, 5) + r7);
    var b1 := a.(bold := c.bold);
    ApplyFlag(c.bold, 1, Flag(c.italics, 3) + r4, a);
    ApplyFlag(c.italics, 3, r4, b1);
    var b3 := b1.(italics := c.italics);
    ApplyFlag(c.underscore, 4, Flag(c.blink, 5) + r7, b3);
    var b4 := b3.(underscore := c.underscore);
    ApplyFlag(c.blink, 5, r7, b4);
    var b5 := b4.(blink := c.blink);
    ApplyFlag(c.reverse, 7, Flag(c.strikethrough, 9) + rest, b5);
    ApplyFlag(c.strikethrough, 9, rest, b5.(reverse := c.reverse));
  }

  /** Whatever the terminal's attributes were, the printed SGR leaves exactly the attributes of the cell. */
  lemma {:induction false} SgrSetsTheCell(c: Char, a: Attr)
    ensures Apply(CellSgr(c), a) == AttrOf(c)
  {
    var colors := ColorSgr(c.fg, false) + ColorSgr(c.bg, true);
    ApplyOne(0, CellSgr(c)[1..], a);
    ApplyFlags(c, colors, PLAIN);
    ApplyColors(c.fg, c.bg, Attr(c.bold, c.italics, c.underscore, c.blink, c.reverse, c.strikethrough, Default, Default));
  }
}
