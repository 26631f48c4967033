/**
 What a terminal really sends: text, and complete escape sequences between it. A stream is written down as a list of such
 pieces; what the sanitiser removes, what reaches which screen and what drops the mark is then said piece by piece.
 */
module StreamPieces {
  import opened Common
  import opened Removal
  import opened PrivateCsi
  import opened Routing
  import opened AltScreen
  import opened LiveScreen
  import opened Blocks

  /**
   Text without an escape, a two-character escape sequence, and control sequences: plain, with `?`, and with one of the
   prefixes of capability negotiation.
   */
  datatype Piece =
    | Text(text: string)
    | Esc(letter: char)
    | Csi(params: string, final: char)
    | Dec(params: string, final: char)
    | Negotiate(prefix: char, params: string, final: char)

  predicate IsParams(s: string) {
    forall i :: 0 <= i < |s| ==> s[i] in "0123456789;:"
  }

  predicate IsFinal(c: char) {
    64 <= c as int <= 126
  }

  predicate Complete(p: Piece) {
    match p
    case Text(text) => ESC !in text
    case Esc(c) => c != '[' && c != ESC && c != '\n'
    case Csi(params, final) => IsParams(params) && IsFinal(final)
    case Dec(params, final) => IsParams(params) && IsFinal(final)
    case Negotiate(c, params, final) => (c == '<' || c == '>' || c == '=') && IsParams(params) && IsFinal(final)
  }

  predicate AllComplete(ps: seq<Piece>) {
    forall i :: 0 <= i < |ps| ==> Complete(ps[i])
  }

  function Render(p: Piece): string {
    match p
    case Text(text) => text
    case Esc(c) => [ESC, c]
    case Csi(params, final) => [ESC, '['] + (params + [final])
    case Dec(params, final) => [ESC, '[', '?'] + (params + [final])
    case Negotiate(c, params, final) => [ESC, '[', c] + (params + [final])
  }

  function Stream(ps: seq<Piece>): string {
    if ps == [] then "" else Render(ps[0]) + Stream(ps[1..])
  }

  /** Negotiation, whatever it says, and an SGR with `?`. Everything else is for the screen. */
  predicate Private(p: Piece) {
    p.Negotiate? || (p.Dec? && p.final == 'm')
  }

  function ForScreen(ps: seq<Piece>): string {
    if ps == [] then "" else (if Private(ps[0]) then "" else Render(ps[0])) + ForScreen(ps[1..])
  }

  // ---------------------------------------------------------------------------------------------
  // What is removed

  function Parts(ps: seq<Piece>): seq<Block> {
    if ps == [] then [] else (if Render(ps[0]) == "" then [] else [Part(ps[0])]) + Parts(ps[1..])
  }

  lemma {:induction false} ParamsEnd(params: string, final: char, rest: string)
    requires IsParams(params) && IsFinal(final)
    ensures Params(params + [final] + rest) == |params|
  {
    var s := params + [final] + rest;
    if params != "" {
      assert s[1..] == params[1..] + [final] + rest;
      ParamsEnd(params[1..], final, rest);
      assert s[0] == params[0] && s[0] in "0123456789;:";
    } else {
      assert s[0] == final;
    }
  }

  lemma {:induction false} PrefixedLength(c: char, params: string, final: char, rest: string)
    requires IsParams(params) && IsFinal(final)
    ensures PrivateLength([ESC, '[', c] + (params + [final]) + rest)
      == if c == '<' || c == '>' || c == '=' || (c == '?' && final == 'm') then 4 + |params| else 0
  {
    var s := [ESC, '[', c] + (params + [final]) + rest;
    assert s[3..] == params + [final] + rest;
    ParamsEnd(params, final, rest);
    assert s[3..][|params|] == final;
  }

  lemma {:induction false} CsiLength(params: string, final: char, rest: string)
    requires IsParams(params) && IsFinal(final)
    ensures PrivateLength([ESC, '['] + (params + [final]) + rest) == 0
  {
    var s := [ESC, '['] + (params + [final]) + rest;
    assert s[2] == (params + [final])[0];
  }

  /** A piece is removed whole or not at all, whatever follows it. */
  lemma {:induction false} PrivateAtPiece(p: Piece, rest: string)
    requires Complete(p) && Render(p) != ""
    ensures PrivateLength(Render(p) + rest) == if Private(p) then |Render(p)| else 0
  {
    var s := Render(p) + rest;
    match p
    case Text(text) =>
    case Esc(c) =>
    case Csi(params, final) => CsiLength(params, final, rest);
    case Dec(params, final) => PrefixedLength('?', params, final, rest);
    case Negotiate(c, params, final) => PrefixedLength(c, params, final, rest);
  }

  lemma {:induction false} NoEscInside(p: Piece, i: nat)
    requires Complete(p) && i < |Render(p)| && (i > 0 || p.Text?)
    ensures Render(p)[i] != ESC
  {
  }

  /** Inside a piece nothing private begins. */
  lemma {:induction false} NothingInside(p: Piece, rest: string, i: nat)
    requires Complete(p) && i < |Render(p)| && !(i == 0 && Private(p))
    ensures PrivateLength((Render(p) + rest)[i..]) == 0
  {
    var s := Render(p) + rest;
    if i == 0 {
      assert s[0..] == s;
      PrivateAtPiece(p, rest);
    } else {
      NoEscInside(p, i);
      assert s[i..][0] == s[i];
    }
  }

  lemma {:induction false} PartReads(p: Piece, rest: string)
    requires Complete(p) && Render(p) != ""
    ensures Reads(PrivateLength, Part(p), rest)
  {
    PrivateAtPiece(p, rest);
    forall k | 0 <= k < |Render(p)| && !Private(p) ensures PrivateLength((Render(p) + rest)[k..]) == 0 { NothingInside(p, rest, k); }
  }

  lemma {:induction false} RestComplete(ps: seq<Piece>)
    requires ps != [] && AllComplete(ps)
    ensures Complete(ps[0]) && AllComplete(ps[1..])
  {
    forall i | 0 <= i < |ps[1..]| ensures Complete(ps[1..][i]) { assert ps[1..][i] == ps[i+1]; }
  }

  lemma {:induction false} FirstPart(p: Piece, rest: seq<Block>)
    requires Render(p) != ""
    ensures var bs := [Part(p)] + rest;
      && bs[0] == Part(p) && bs[1..] == rest && Whole(bs) == Render(p) + Whole(rest)
      && Left(bs) == (if Private(p) then "" else Render(p)) + Left(rest)
      && forall r :: ShowBlocks(r, bs) == ShowBlocks(ShowPiece(r, p), rest)
  {
    assert ([Part(p)] + rest)[1..] == rest;
  }

  lemma {:induction false} PartsOf(ps: seq<Piece>, r: Screens)
    ensures Whole(Parts(ps)) == Stream(ps) && Left(Parts(ps)) == ForScreen(ps) && ShowBlocks(r, Parts(ps)) == Show(r, ps)
    decreases |ps|
  {
    if ps != [] {
      var rest := Parts(ps[1..]);
      PartsOf(ps[1..], ShowPiece(r, ps[0]));
      if Render(ps[0]) == "" {
        assert [] + rest == rest;
        EmptyPiece(ps[0], r);
        assert "" + Stream(ps[1..]) == Stream(ps[1..]) && "" + ForScreen(ps[1..]) == ForScreen(ps[1..]);
      } else {
        FirstPart(ps[0], rest);
      }
    }
  }

  lemma {:induction false} EmptyPiece(p: Piece, r: Screens)
    requires Render(p) == ""
    ensures !Private(p) && ShowPiece(r, p) == r
  {
    assert r.main + "" == r.main && r.alt + "" == r.alt;
  }

  lemma {:induction false} PartsAreRead(ps: seq<Piece>)
    requires AllComplete(ps)
    ensures AllRead(PrivateLength, SWITCHES, Parts(ps))
    decreases |ps|
  {
    if ps != [] {
      RestComplete(ps);
      PartsAreRead(ps[1..]);
      var p, rest := ps[0], Parts(ps[1..]);
      if Render(p) == "" {
        assert [] + rest == rest;
      } else {
        FirstPart(p, rest);
        PartReads(p, Whole(rest));
        PartTurns(p, Left(rest));
      }
    }
  }

  /** Sanitising removes exactly the private pieces: what is left is the rest, in order, untouched. */
  lemma {:induction false} SanitisedPieces(ps: seq<Piece>)
    requires AllComplete(ps)
    ensures StripPrivate(Stream(ps)) == ForScreen(ps)
  {
    PartsOf(ps, BLANK);
    PartsAreRead(ps);
    assert Stream(ps)[0..] == Stream(ps);
    LeftFrom(PrivateLength, SWITCHES, Stream(ps), 0, Parts(ps));
  }

  // ---------------------------------------------------------------------------------------------
  // What reaches which screen

  /** The modes that switch to the alternate screen and back. */
  predicate IsSwitch(p: Piece, enter: bool) {
    p.Dec? && (p.params == "1049" || p.params == "1047" || p.params == "47") && p.final == if enter then 'h' else 'l'
  }

  function ShowPiece(r: Screens, p: Piece): Screens {
    if Private(p) then r
    else if IsSwitch(p, !r.inAlt) then Screens(r.main, "", !r.inAlt)
    else if r.inAlt then Screens(r.main, r.alt + Render(p), true)
    else Screens(r.main + Render(p), r.alt, false)
  }

  /** The piece as a block of the stream. */
  function Part(p: Piece): Block {
    Block(Render(p), Private(p), IsSwitch(p, true), IsSwitch(p, false))
  }

  /** The two screens, piece by piece: an enter starts an empty overlay, a leave drops it. */
  function Show(r: Screens, ps: seq<Piece>): Screens
    decreases |ps|
  {
    if ps == [] then r else Show(ShowPiece(r, ps[0]), ps[1..])
  }

  /** Three characters, then parameters, then a final character: where each of them stands. */
  ghost predicate Laid(s: string, params: string, final: char) {
    |s| >= 4 + |params| && s[3+|params|] == final && forall i :: 0 <= i < |params| ==> s[3+i] == params[i]
  }

  lemma {:induction false} Digits(params: string, final: char)
    requires IsParams(params) && IsFinal(final)
    ensures forall i :: 0 <= i < |params| ==> params[i] as int < 64
    ensures final != '4' && final != '7' && final != '1' && final != '0' && final != '9'
  {
  }

  predicate IsMode(params: string) {
    || (|params| == 2 && params[0] == '4' && params[1] == '7')
    || (|params| == 4 && params[0] == '1' && params[1] == '0' && params[2] == '4' && (params[3] == '9' || params[3] == '7'))
  }

  lemma {:induction false} Modes(params: string)
    ensures IsMode(params) <==> params == "1049" || params == "1047" || params == "47"
  {
  }

  lemma {:induction false} LaidSwitch(s: string, params: string, final: char, enter: bool)
    requires Laid(s, params, final) && IsParams(params) && IsFinal(final) && s[0] == ESC && s[1] == '[' && s[2] == '?'
    ensures SwitchLength(s, enter) == if IsMode(params) && final == (if enter then 'h' else 'l') then 4 + |params| else 0
  {
    Digits(params, final);
    if |params| > 0 { assert s[3] == params[0]; }
    if |params| > 1 { assert s[4] == params[1]; }
    if |params| > 2 { assert s[5] == params[2]; }
    if |params| > 3 { assert s[6] == params[3]; }
    if |params| > 4 { assert s[7] == params[4]; }
  }

  lemma {:induction false} DecSwitch(params: string, final: char, rest: string, enter: bool)
    requires IsParams(params) && IsFinal(final)
    ensures SwitchLength([ESC, '[', '?'] + (params + [final]) + rest, enter) ==
      if IsSwitch(Dec(params, final), enter) then 4 + |params| else 0
  {
    var s := [ESC, '[', '?'] + (params + [final]) + rest;
    assert Laid(s, params, final);
    LaidSwitch(s, params, final, enter);
    Modes(params);
  }

  /** A switch is a piece of its own, whatever follows it; no switch begins inside a piece. */
  lemma {:induction false} SwitchAtPiece(p: Piece, rest: string, enter: bool, i: nat)
    requires Complete(p) && i < |Render(p)|
    ensures SwitchLength((Render(p) + rest)[i..], enter) == if i == 0 && IsSwitch(p, enter) then |Render(p)| else 0
  {
    var s := Render(p) + rest;
    if i > 0 || p.Text? {
      NoEscInside(p, i);
      assert s[i..][0] == s[i];
    } else {
      assert s[0..] == s;
      match p
      case Esc(c) =>
      case Csi(params, final) =>
        assert s[2] == (params + [final])[0];
        assert params != "" ==> params[0] in "0123456789;:";
      case Dec(params, final) => DecSwitch(params, final, rest, enter);
      case Negotiate(c, params, final) => assert s[2] == c;
    }
  }

  lemma {:induction false} PartTurns(p: Piece, rest: string)
    requires Complete(p)
    ensures Turns(SWITCHES, Part(p), rest)
  {
    forall k, enter | 0 <= k < |Render(p)|
      ensures SWITCHES((Render(p) + rest)[k..], enter) == if k == 0 && IsSwitch(p, enter) then |Render(p)| else 0
    {
      SwitchAtPiece(p, rest, enter, k);
    }
  }

  // ---------------------------------------------------------------------------------------------
  // However it is cut

  lemma {:induction false} PieceIsNotHeld(p: Piece, rest: string, i: nat)
    requires Complete(p) && i < |Render(p)|
    ensures !HeldText(Render(p)[i..] + rest)
  {
    var t := Render(p)[i..] + rest;
    if i > 0 || p.Text? {
      NoEscInside(p, i);
      assert t[0] == Render(p)[i];
    } else {
      assert Render(p)[0..] == Render(p);
      SequenceIsNotHeld(p, rest);
    }
  }

  lemma {:induction false} SequenceIsNotHeld(p: Piece, rest: string)
    requires Complete(p) && !p.Text?
    ensures !HeldText(Render(p) + rest)
  {
    var t := Render(p) + rest;
    var b := Chomp(t[1..]);
    var n := |Render(p)| - 1;
    var last := Render(p)[n];
    assert t[1..][n-1] == last && last != '\n';
    assert |b| >= n && b[n-1] == last;
    if !p.Esc? && n >= 3 {
      assert b[2..][n-3] == last;
    }
    if p.Csi? {
      assert b[1] == (p.params + [p.final])[0];
      assert p.params != "" ==> p.params[0] in "0123456789;:";
    }
  }

  lemma {:induction false} NothingHeld(ps: seq<Piece>)
    requires AllComplete(ps)
    ensures HeldStart(Stream(ps)) == |Stream(ps)|
  {
    if ps != [] {
      RestComplete(ps);
      NothingHeld(ps[1..]);
      forall i | 0 <= i < |Render(ps[0])| ensures !HeldText(Render(ps[0])[i..] + Stream(ps[1..])) {
        PieceIsNotHeld(ps[0], Stream(ps[1..]), i);
      }
      HeldSkips(Render(ps[0]), Stream(ps[1..]));
    }
  }

  /**
   However a stream of complete pieces is cut into chunks: each screen is given exactly the pieces meant for it, nothing
   private among them, and nothing is held back at the end.
   */
  lemma {:induction false} PiecesReachTheirScreen(ps: seq<Piece>, chunks: seq<string>)
    requires AllComplete(ps) && Flatten(chunks) == Stream(ps)
    ensures FeedAll(chunks) == Live(Show(BLANK, ps), "") && Passed(chunks) == ForScreen(ps)
  {
    StrippingIgnoresCuts(chunks);
    WholeStream(ps);
    PiecesAgree(ps, chunks);
  }

  lemma {:induction false} WholeStream(ps: seq<Piece>)
    requires AllComplete(ps)
    ensures var w := Stream(ps);
      Decided(w) == w && w[HeldStart(w)..] == "" && StripPrivate(w) == ForScreen(ps) && Expected(w) == Show(BLANK, ps)
  {
    NothingHeld(ps);
    SanitisedPieces(ps);
    RoutedPieces(BLANK, ps);
  }

  lemma {:induction false} RoutedPieces(r: Screens, ps: seq<Piece>)
    requires AllComplete(ps)
    ensures Route(SWITCHES, r, ForScreen(ps)) == Show(r, ps)
  {
    PartsOf(ps, r);
    PartsAreRead(ps);
    RouteBlocks(PrivateLength, SWITCHES, r, Parts(ps));
  }

  lemma {:induction false} PiecesAgree(ps: seq<Piece>, chunks: seq<string>)
    requires AllComplete(ps) && Flatten(chunks) == Stream(ps)
    ensures FeedAll(chunks).screens == Expected(Stream(ps))
  {
    PartsOf(ps, BLANK);
    PartsAreRead(ps);
    assert Stream(ps)[0..] == Stream(ps);
    BlocksExposeNone(PrivateLength, SWITCHES, Stream(ps), 0, Parts(ps), false);
    UnbrokenCutsAgree(chunks, Stream(ps));
  }

  // ---------------------------------------------------------------------------------------------
  // What drops the mark

  predicate IsClear(p: Piece) {
    p == Csi("2", 'J') || p == Esc('c')
  }

  /** Some clear is drawn on the main screen. */
  predicate ClearsPieces(ps: seq<Piece>, inAlt: bool)
    decreases |ps|
  {
    if ps == [] then false
    else if Private(ps[0]) then ClearsPieces(ps[1..], inAlt)
    else if IsSwitch(ps[0], !inAlt) then ClearsPieces(ps[1..], !inAlt)
    else (!inAlt && IsClear(ps[0])) || ClearsPieces(ps[1..], inAlt)
  }

  lemma {:induction false} CsiClear(params: string, final: char, rest: string)
    requires IsParams(params) && IsFinal(final)
    ensures ClearAt([ESC, '['] + (params + [final]) + rest) <==> params == "2" && final == 'J'
  {
    var s := [ESC, '['] + (params + [final]) + rest;
    Digits(params, final);
    assert s[1] == '[' && s[2+|params|] == final;
    if |params| > 0 { assert s[2] == params[0]; }
    if |params| > 1 { assert s[3] == params[1]; }
    assert params == "2" <==> |params| == 1 && params[0] == '2';
  }

  lemma {:induction false} ClearAtPiece(p: Piece, rest: string, i: nat)
    requires Complete(p) && i < |Render(p)|
    ensures ClearAt((Render(p) + rest)[i..]) <==> i == 0 && IsClear(p)
  {
    var s := Render(p) + rest;
    if i > 0 || p.Text? {
      NoEscInside(p, i);
      assert s[i..][0] == s[i];
    } else {
      assert s[0..] == s;
      if p.Csi? {
        CsiClear(p.params, p.final, rest);
      } else if !p.Esc? {
        assert s[2] == Render(p)[2];
      }
    }
  }

  lemma {:induction false} DrawsSkips(a: string, t: string, inAlt: bool, clear: bool)
    requires forall i :: 0 <= i < |a| ==> SWITCHES((a + t)[i..], !inAlt) == 0
    requires forall i :: 0 <= i < |a| ==> (ClearAt((a + t)[i..]) <==> i == 0 && clear)
    ensures DrawsClear(SWITCHES, a + t, inAlt) <==> (a != "" && clear && !inAlt) || DrawsClear(SWITCHES, t, inAlt)
    decreases |a|
  {
    if a == "" {
      assert a + t == t;
    } else {
      var s := a + t;
      assert s[0..] == s && s[1..] == a[1..] + t;
      forall i | 0 <= i < |a[1..]|
        ensures SWITCHES((a[1..] + t)[i..], !inAlt) == 0 && !ClearAt((a[1..] + t)[i..])
      {
        assert (a[1..] + t)[i..] == s[i+1..];
      }
      DrawsSkips(a[1..], t, inAlt, false);
    }
  }

  /** A chunk of complete pieces drops the mark if and only if one of them is an erase-display or a reset that is drawn on the main screen. */
  lemma {:induction false} PiecesUnmarkIff(ps: seq<Piece>, inAlt: bool)
    requires AllComplete(ps)
    ensures DrawsClear(SWITCHES, ForScreen(ps), inAlt) <==> ClearsPieces(ps, inAlt)
    decreases |ps|
  {
    if ps != [] {
      RestComplete(ps);
      var p, t := ps[0], ForScreen(ps[1..]);
      if Private(p) {
        assert "" + t == t;
        PiecesUnmarkIff(ps[1..], inAlt);
      } else {
        PieceUnmarks(p, t, inAlt);
        PiecesUnmarkIff(ps[1..], if IsSwitch(p, !inAlt) then !inAlt else inAlt);
      }
    }
  }

  lemma {:induction false} PieceUnmarks(p: Piece, t: string, inAlt: bool)
    requires Complete(p) && !Private(p)
    ensures DrawsClear(SWITCHES, Render(p) + t, inAlt) <==>
      if IsSwitch(p, !inAlt) then DrawsClear(SWITCHES, t, !inAlt) else (!inAlt && IsClear(p)) || DrawsClear(SWITCHES, t, inAlt)
  {
    forall i | 0 <= i < |Render(p)|
      ensures SWITCHES((Render(p) + t)[i..], !inAlt) == if i == 0 && IsSwitch(p, !inAlt) then |Render(p)| else 0
      ensures ClearAt((Render(p) + t)[i..]) <==> i == 0 && IsClear(p)
    {
      SwitchAtPiece(p, t, !inAlt, i);
      ClearAtPiece(p, t, i);
    }
    if IsSwitch(p, !inAlt) {
      var s := Render(p) + t;
      assert s[0..] == s && s[|Render(p)|..] == t;
    } else {
      DrawsSkips(Render(p), t, inAlt, IsClear(p));
    }
  }
}
