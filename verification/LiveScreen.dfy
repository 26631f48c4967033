/**
 The live screen of one terminal (service/terminal_snapshot.py, `_LiveScreen`): chunks are sanitised and routed as they
 arrive, the last rendering is reused while nothing changed, and a screen rebuilt from a partial log stays marked as
 reconstructed until the program clears the main screen.
 */
module LiveScreen {
  import opened Common
  import opened PrivateCsi
  import opened Routing
  import opened AltScreen

  /** The text begins with an erase-display or a full reset. */
  predicate ClearAt(s: string) {
    || (|s| >= 4 && s[0] == ESC && s[1] == '[' && s[2] == '2' && s[3] == 'J')
    || (|s| >= 2 && s[0] == ESC && s[1] == 'c')
  }

  predicate HasClear(s: string) {
    exists i :: 0 <= i < |s| && ClearAt(s[i..])
  }

  /** A segment that goes to the main screen in one piece holds a clear. */
  predicate ClearsMain(sw: Switches, t: string, inAlt: bool)
    decreases |t|
  {
    if t == "" then false else
    var i := SwitchAt(sw, t, !inAlt);
    var seen := !inAlt && HasClear(t[..i]);
    if i == |t| then seen else seen || ClearsMain(sw, t[i..][sw(t[i..], !inAlt)..], !inAlt)
  }

  predicate StillMarked(sw: Switches, marked: bool, text: string, inAlt: bool) {
    marked && !ClearsMain(sw, text, inAlt)
  }

  lemma {:induction false} ClearLocal(a: string, b: string)
    requires a != "" && ClearAt(a)
    ensures ClearAt(a + b)
  {
  }

  lemma {:induction false} ClearStays(a: string, b: string, c: string)
    requires HasClear(b)
    ensures HasClear(a + b + c)
  {
    var i :| 0 <= i < |b| && ClearAt(b[i..]);
    ClearLocal(b[i..], c);
    assert (a + b + c)[|a| + i..] == b[i..] + c;
  }

  lemma {:induction false} MainOnlyGrows(sw: Switches, r: Screens, t: string)
    ensures r.main <= Route(sw, r, t).main
    decreases |t|
  {
    if t != "" {
      var n := sw(t, !r.inAlt);
      MainOnlyGrows(sw, if n > 0 then Switched(r) else Fed(r, [t[0]]), if n > 0 then t[n..] else t[1..]);
    }
  }

  lemma {:induction false} ClearInPrefix(s: string, t: string)
    requires HasClear(s) && s <= t
    ensures HasClear(t)
  {
    ClearStays("", s, t[|s|..]);
    assert "" + s + t[|s|..] == t;
  }

  lemma {:induction false} ClearIsDrawn(r: Screens, seg: string)
    requires !r.inAlt && HasClear(seg)
    ensures HasClear(Fed(r, seg).main)
  {
    ClearStays(r.main, seg, "");
    assert r.main + seg + "" == r.main + seg;
  }

  /** A clear that was drawn stays among the main screen's bytes. */
  lemma {:induction false} ClearRemains(sw: Switches, r: Screens, t: string)
    requires HasClear(r.main)
    ensures HasClear(Route(sw, r, t).main)
  {
    MainOnlyGrows(sw, r, t);
    ClearInPrefix(r.main, Route(sw, r, t).main);
  }

  lemma {:induction false} ClearInLast(sw: Switches, r: Screens, t: string)
    requires ClearsMain(sw, t, r.inAlt) && SwitchAt(sw, t, !r.inAlt) == |t|
    ensures HasClear(Route(sw, r, t).main)
  {
    RouteUntil(sw, r, t);
    assert t[..|t|] == t;
    ClearIsDrawn(r, t);
  }

  lemma {:induction false} ClearIsRouted(sw: Switches, r: Screens, t: string)
    requires ClearsMain(sw, t, r.inAlt)
    ensures HasClear(Route(sw, r, t).main)
    decreases |t|
  {
    var i := SwitchAt(sw, t, !r.inAlt);
    if i == |t| {
      ClearInLast(sw, r, t);
    } else {
      RouteUntil(sw, r, t);
      var next, rest := Switched(Fed(r, t[..i])), t[i..][sw(t[i..], !r.inAlt)..];
      if !r.inAlt && HasClear(t[..i]) {
        ClearIsDrawn(r, t[..i]);
        ClearRemains(sw, next, rest);
      } else {
        ClearIsRouted(sw, next, rest);
      }
    }
  }

  /** What a text adds to the main screen does not depend on what was there. */
  lemma {:induction false} MainAdds(sw: Switches, r: Screens, t: string)
    ensures Route(sw, r, t).main == r.main + Route(sw, r.(main := ""), t).main
    decreases |t|
  {
    if t == "" {
      assert r.main + "" == r.main;
    } else {
      var n := sw(t, !r.inAlt);
      var rest := if n > 0 then t[n..] else t[1..];
      var s, e := r, r.(main := "");
      if n > 0 { s, e := Switched(s), Switched(e); } else { s, e := Fed(s, [t[0]]), Fed(e, [t[0]]); }
      MainAdds(sw, s, rest);
      MainAdds(sw, e, rest);
      assert s.(main := "") == e.(main := "");
      Associate(r.main, e.main, Route(sw, e.(main := ""), rest).main);
    }
  }

  /** The mark is dropped only when this very text put a clear among the main screen's bytes. */
  lemma {:induction false} ClearIsReal(sw: Switches, r: Screens, t: string)
    requires ClearsMain(sw, t, r.inAlt)
    ensures r.main <= Route(sw, r, t).main && HasClear(Route(sw, r, t).main[|r.main|..])
  {
    ClearIsRouted(sw, r.(main := ""), t);
    MainAdds(sw, r, t);
  }

  // ---------------------------------------------------------------------------------------------
  // Exactly when the mark is dropped

  /** Switch sequences begin with an escape. */
  ghost predicate EscSwitches(sw: Switches) {
    forall s: string, enter: bool :: sw(s, enter) > 0 ==> s[0] == ESC
  }

  /** Byte by byte: the router comes, on the main screen, to a place where the text goes on with a clear. */
  predicate DrawsClear(sw: Switches, t: string, inAlt: bool)
    decreases |t|
  {
    if t == "" then false else
    var n := sw(t, !inAlt);
    if n > 0 then DrawsClear(sw, t[n..], !inAlt) else (!inAlt && ClearAt(t)) || DrawsClear(sw, t[1..], inAlt)
  }

  lemma {:induction false} NoSwitchBefore(sw: Switches, t: string, enter: bool, j: nat)
    requires j < SwitchAt(sw, t, enter)
    ensures j < |t| && sw(t[j..], enter) == 0
  {
    if j > 0 {
      NoSwitchBefore(sw, t[1..], enter, j - 1);
      assert t[1..][j-1..] == t[j..];
    } else {
      assert t[0..] == t;
    }
  }

  /** A clear that starts a segment ends in it: no switch begins inside a clear. */
  lemma {:induction false} ClearIsWhole(sw: Switches, t: string, enter: bool)
    requires EscSwitches(sw) && t != "" && sw(t, enter) == 0
    ensures ClearAt(t[..SwitchAt(sw, t, enter)]) <==> ClearAt(t)
  {
    var i := SwitchAt(sw, t, enter);
    if i < |t| { assert t[i..][0] == t[i]; }
  }

  lemma {:induction false} HasClearStep(s: string)
    requires s != ""
    ensures HasClear(s) <==> ClearAt(s) || HasClear(s[1..])
  {
    assert s[0..] == s;
    if HasClear(s) {
      var i :| 0 <= i < |s| && ClearAt(s[i..]);
      if i > 0 { assert s[1..][i-1..] == s[i..]; }
    }
    if HasClear(s[1..]) {
      var i :| 0 <= i < |s[1..]| && ClearAt(s[1..][i..]);
      assert s[1..][i..] == s[i+1..];
    }
  }

  /** A segment, and what comes after the switch that ends it. */
  predicate ClearsFrom(sw: Switches, seg: string, after: string, inAlt: bool) {
    (!inAlt && HasClear(seg)) || (after != "" && ClearsMain(sw, after[sw(after, !inAlt)..], !inAlt))
  }

  lemma {:induction false} ClearsBySegment(sw: Switches, t: string, inAlt: bool)
    ensures var i := SwitchAt(sw, t, !inAlt); ClearsMain(sw, t, inAlt) <==> ClearsFrom(sw, t[..i], t[i..], inAlt)
  {
  }

  lemma {:induction false} UnmarksNext(sw: Switches, t: string, inAlt: bool)
    requires t != "" && sw(t, !inAlt) == 0 && (ClearAt(t[..SwitchAt(sw, t, !inAlt)]) <==> ClearAt(t))
    ensures ClearsMain(sw, t, inAlt) <==> (!inAlt && ClearAt(t)) || ClearsMain(sw, t[1..], inAlt)
  {
    var i := SwitchAt(sw, t, !inAlt);
    var seg, after := t[..i], t[i..];
    ClearsBySegment(sw, t, inAlt);
    ClearsBySegment(sw, t[1..], inAlt);
    assert seg[1..] == t[1..][..i-1] && after == t[1..][i-1..];
    HasClearStep(seg);
  }

  /** A text drops the mark if and only if the router draws a whole clear on the main screen. */
  lemma {:induction false} UnmarksIff(sw: Switches, t: string, inAlt: bool)
    requires EscSwitches(sw)
    ensures ClearsMain(sw, t, inAlt) <==> DrawsClear(sw, t, inAlt)
    decreases |t|
  {
    if t != "" {
      var n := sw(t, !inAlt);
      if n > 0 {
        assert t[..0] == "" && t[0..] == t;
        UnmarksIff(sw, t[n..], !inAlt);
      } else {
        ClearIsWhole(sw, t, !inAlt);
        UnmarksNext(sw, t, inAlt);
        UnmarksIff(sw, t[1..], inAlt);
      }
    }
  }

  lemma {:induction false} SwitchesEscape()
    ensures EscSwitches(SWITCHES)
  {
  }

  const CLEAR_HEAD: string := [ESC, '[', '2']
  const CLEAR_TAIL: string := ['J']

  lemma {:induction false} NoSwitchIn(t: string)
    requires |t| <= 3
    ensures SwitchAt(SWITCHES, t, true) == |t|
  {
    if t != "" { NoSwitchIn(t[1..]); }
  }

  /** A clear cut between two chunks: it is among the main screen's bytes, and neither chunk drops the mark. */
  lemma {:induction false} CutClearLeavesMark()
    ensures var r := Route(SWITCHES, Route(SWITCHES, BLANK, CLEAR_HEAD), CLEAR_TAIL);
      && HasClear(r.main) && !r.inAlt
      && !ClearsMain(SWITCHES, CLEAR_HEAD, false) && !ClearsMain(SWITCHES, CLEAR_TAIL, false)
  {
    var r := Route(SWITCHES, BLANK, CLEAR_HEAD);
    NoSwitchIn(CLEAR_HEAD);
    NoSwitchIn(CLEAR_TAIL);
    RouteUntil(SWITCHES, BLANK, CLEAR_HEAD);
    assert r.main == CLEAR_HEAD && !r.inAlt by { assert "" + CLEAR_HEAD == CLEAR_HEAD; }
    RouteUntil(SWITCHES, r, CLEAR_TAIL);
    HalvesOfClear();
  }

  lemma {:induction false} HalvesOfClear()
    ensures HasClear(CLEAR_HEAD + CLEAR_TAIL)
    ensures !HasClear(CLEAR_HEAD[..|CLEAR_HEAD|]) && !HasClear(CLEAR_TAIL[..|CLEAR_TAIL|])
  {
    var both := CLEAR_HEAD + CLEAR_TAIL;
    assert both[0..] == both && ClearAt(both[0..]);
  }

  class LiveScreen {
    var cols: nat
    var rows: nat
    var main: string
    var alt: string
    var inAlt: bool
    var pending: string
    var reconstructed: bool
    var generation: nat
    var rendered: string
    var renderedGeneration: int
    /** How the emulator's screen is printed: its bytes, and the size. */
    const draw: (string, nat, nat) -> string

    function Now(): Screens
      reads this
    {
      Screens(main, alt, inAlt)
    }

    /** What a rendering made now would be. */
    function Picture(): string
      reads this
    {
      draw(if inAlt then alt else main, cols, rows)
    }

    ghost predicate Valid()
      reads this
    {
      && renderedGeneration <= generation
      && (renderedGeneration == generation ==> rendered == Picture())
    }

    constructor (cols: nat, rows: nat, draw: (string, nat, nat) -> string)
      ensures Valid() && Live(Now(), pending) == FeedAll([]) && !reconstructed
    {
      this.cols, this.rows, this.draw := cols, rows, draw;
      main, alt, inAlt, pending, reconstructed := "", "", false, "", false;
      generation, rendered, renderedGeneration := 0, "", -1;
    }

    /** Routes sanitised text, a segment at a time. */
    method Draw(sw: Switches, text: string)
      modifies this`main, this`alt, this`inAlt, this`reconstructed
      ensures Now() == Route(sw, old(Now()), text)
      ensures reconstructed == StillMarked(sw, old(reconstructed), text, old(inAlt))
      ensures old(reconstructed) && !reconstructed ==> old(main) <= main && HasClear(main[|old(main)|..])
    {
      if ClearsMain(sw, text, inAlt) {
        ClearIsReal(sw, Now(), text);
      }
      var rest := text;
      while rest != ""
        invariant Route(sw, Now(), rest) == Route(sw, old(Now()), text)
        invariant StillMarked(sw, reconstructed, rest, inAlt) == StillMarked(sw, old(reconstructed), text, old(inAlt))
        decreases |rest|
      {
        RouteUntil(sw, Now(), rest);
        var i := SwitchAt(sw, rest, !inAlt);
        if inAlt {
          if i == |rest| {
            alt := alt + rest;
            return;
          }
          var n := sw(rest[i..], false);
          alt, inAlt, rest := "", false, rest[i..][n..];
        } else {
          if HasClear(rest[..i]) {
            reconstructed := false;
          }
          if i == |rest| {
            main := main + rest;
            return;
          }
          var n := sw(rest[i..], true);
          main, alt, inAlt, rest := main + rest[..i], "", true, rest[i..][n..];
        }
      }
    }

    /** Holds back an unfinished private sequence and sanitises the rest. */
    method Sanitise(chunk: string) returns (passed: string)
      modifies this`pending
      ensures passed == Passes(old(pending), chunk)
      ensures var s := old(pending) + chunk; pending == s[HeldStart(s)..]
    {
      var s := pending + chunk;
      var h := HeldStart(s);
      pending := s[h..];
      passed := StripPrivate(s[..h]);
    }

    /** `feed`: the screens and the held suffix advance by one step of `FeedAll`. */
    method Feed(chunk: string)
      requires Valid()
      modifies this`main, this`alt, this`inAlt, this`reconstructed, this`pending, this`generation
      ensures Valid() && Live(Now(), pending) == FeedChunk(old(Live(Now(), pending)), chunk) && generation == old(generation) + 1
      ensures reconstructed == (old(reconstructed) && !DrawsClear(SWITCHES, Passes(old(pending), chunk), old(inAlt)))
      ensures old(reconstructed) && !reconstructed ==> old(main) <= main && HasClear(main[|old(main)|..])
    {
      generation := generation + 1;
      var passed := Sanitise(chunk);
      SwitchesEscape();
      UnmarksIff(SWITCHES, passed, inAlt);
      Draw(SWITCHES, passed);
    }

    /** `render`: the kept rendering is returned only while it is what a new one would be. */
    method Render() returns (page: string)
      requires Valid()
      modifies this`rendered, this`renderedGeneration
      ensures Valid() && page == Picture() && Picture() == old(Picture())
    {
      if renderedGeneration != generation {
        rendered := Picture();
        renderedGeneration := generation;
      }
      page := rendered;
    }

    /** `resize`: the stream, with what it holds back, is kept; the kept rendering is not. */
    method Resize(cols: nat, rows: nat)
      requires Valid()
      modifies this`cols, this`rows, this`generation
      ensures Valid() && this.cols == cols && this.rows == rows && generation == old(generation) + 1
    {
      this.cols, this.rows, generation := cols, rows, generation + 1;
    }
  }
}
