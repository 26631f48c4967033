/**
 Sending each byte of a text to one of two screens. A switch sequence moves the reader to the other screen and is
 itself sent to neither; which sequences are switches is a parameter, known by the length of the switch at the start
 of a text. The screens are recorders of what they were sent; the alternate one is made new each time it is entered.
 */
module Routing {
  import opened Common

  /** The length of the switch that enters (or leaves) the alternate screen at the start of a text, or 0. */
  type Switches = f: (string, bool) -> nat | (forall s, enter :: f(s, enter) <= |s|) witness (s: string, enter: bool) => 0

  datatype Screens = Screens(main: string, alt: string, inAlt: bool)

  const BLANK: Screens := Screens("", "", false)

  function Switched(r: Screens): Screens {
    Screens(r.main, "", !r.inAlt)
  }

  function Fed(r: Screens, t: string): Screens {
    if r.inAlt then r.(alt := r.alt + t) else r.(main := r.main + t)
  }

  function Route(sw: Switches, r: Screens, t: string): Screens
    decreases |t|
  {
    if t == "" then r else
    var n := sw(t, !r.inAlt);
    if n > 0 then Route(sw, Switched(r), t[n..]) else Route(sw, Fed(r, [t[0]]), t[1..])
  }

  /** Where the first switch is, or the length of the text. */
  function SwitchAt(sw: Switches, s: string, enter: bool): (i: nat)
    ensures i <= |s| && (i < |s| ==> sw(s[i..], enter) > 0)
  {
    if s == "" || sw(s, enter) > 0 then 0 else 1 + SwitchAt(sw, s[1..], enter)
  }

  /** Everything up to the next switch is drawn on the current screen. */
  lemma {:induction false} RouteUntil(sw: Switches, r: Screens, u: string)
    ensures var i := SwitchAt(sw, u, !r.inAlt);
      Route(sw, r, u) == if i == |u| then Fed(r, u) else Route(sw, Switched(Fed(r, u[..i])), u[i..][sw(u[i..], !r.inAlt)..])
    decreases |u|
  {
    if u == "" {
      assert r.main + u == r.main && r.alt + u == r.alt;
    } else if sw(u, !r.inAlt) == 0 {
      RouteUntil(sw, Fed(r, [u[0]]), u[1..]);
      var i := SwitchAt(sw, u[1..], !r.inAlt);
      FedTwice(r, [u[0]], u[1..]);
      FedTwice(r, [u[0]], u[1..][..i]);
      assert [u[0]] + u[1..] == u && [u[0]] + u[1..][..i] == u[..i+1];
      DropDrop(u, 1, i);
    } else {
      assert u[0..] == u && u[..0] == "";
      FedNothing(r);
    }
  }

  lemma {:induction false} FedTwice(r: Screens, a: string, b: string)
    ensures Fed(Fed(r, a), b) == Fed(r, a + b)
  {
  }

  lemma {:induction false} FedNothing(r: Screens)
    ensures Fed(r, "") == r
  {
  }

  /** Every switch acted on was unbroken in the stream the text came from; `ks` says where each character was. */
  predicate Unbroken(sw: Switches, t: string, ks: seq<nat>, inAlt: bool)
    requires |t| == |ks|
    decreases |t|
  {
    if t == "" then true else
    var n := sw(t, !inAlt);
    if n > 0 then ks[n-1] == ks[0] + n - 1 && Unbroken(sw, t[n..], ks[n..], !inAlt)
    else Unbroken(sw, t[1..], ks[1..], inAlt)
  }

  /** A switch depends on its own characters only. */
  ghost predicate LocalSwitches(sw: Switches) {
    forall a: string, b: string, enter: bool {:trigger sw(a + b, enter)} ::
      (sw(a, enter) > 0 || sw(a + b, enter) <= |a|) ==> sw(a + b, enter) == sw(a, enter)
  }

  /** No switch begins inside a switch. */
  ghost predicate SolidSwitches(sw: Switches) {
    forall s: string, enter: bool, i: nat {:trigger sw(s[i..], enter)} :: i <= |s| && 0 < i < sw(s, enter) ==> sw(s[i..], enter) == 0
  }

  // ---------------------------------------------------------------------------------------------
  // Giving the text in two pieces

  /** No switch of `x + y` that is unbroken in the stream starts in `x` and ends in `y`. */
  ghost predicate NoSwitchSpans(sw: Switches, x: string, y: string, ks: seq<nat>)
    requires |ks| == |x + y|
  {
    forall k, enter {:trigger sw((x + y)[k..], enter)} :: 0 <= k < |x| ==>
      var n := sw((x + y)[k..], enter);
      n > 0 && ks[k+n-1] == ks[k] + n - 1 ==> k + n <= |x|
  }

  lemma {:induction false} SpansDrop(sw: Switches, x: string, y: string, ks: seq<nat>, n: nat)
    requires |ks| == |x + y| && NoSwitchSpans(sw, x, y, ks) && n <= |x|
    ensures NoSwitchSpans(sw, x[n..], y, ks[n..])
  {
    forall k, enter | 0 <= k < |x[n..]|
      ensures var m := sw((x[n..] + y)[k..], enter);
        m > 0 && ks[n..][k+m-1] == ks[n..][k] + m - 1 ==> k + m <= |x[n..]|
    {
      assert (x[n..] + y)[k..] == (x + y)[n+k..];
    }
  }

  /** Reading `x + y`, the reader stops between the two: no switch it acts on runs over the boundary. */
  predicate Divides(sw: Switches, x: string, y: string, inAlt: bool)
    decreases |x|
  {
    if x == "" then true else
    var n := sw(x + y, !inAlt);
    if n > 0 then n <= |x| && Divides(sw, x[n..], y, !inAlt) else Divides(sw, x[1..], y, inAlt)
  }

  /** Then it may be given `x` and `y` one after the other. */
  lemma {:induction false} RouteSplits(sw: Switches, r: Screens, x: string, y: string)
    requires LocalSwitches(sw) && Divides(sw, x, y, r.inAlt)
    ensures Route(sw, r, x + y) == Route(sw, Route(sw, r, x), y)
    decreases |x|
  {
    if x == "" {
      assert x + y == y;
    } else {
      var n := sw(x, !r.inAlt);
      var m := if n > 0 then n else 1;
      assert (x + y)[m..] == x[m..] + y;
      RouteSplits(sw, if n > 0 then Switched(r) else Fed(r, [x[0]]), x[m..], y);
    }
  }

  lemma {:induction false} DividesPrefix(sw: Switches, x: string, z: string, rest: string, inAlt: bool)
    requires LocalSwitches(sw) && Divides(sw, x, z + rest, inAlt)
    ensures Divides(sw, x, z, inAlt)
    decreases |x|
  {
    if x != "" {
      Associate(x, z, rest);
      var n := sw(x + (z + rest), !inAlt);
      DividesPrefix(sw, x[if n > 0 then n else 1..], z, rest, if n > 0 then !inAlt else inAlt);
    }
  }

  lemma {:induction false} UnbrokenDivides(sw: Switches, x: string, y: string, ks: seq<nat>, inAlt: bool)
    requires |ks| == |x + y| && Unbroken(sw, x + y, ks, inAlt) && NoSwitchSpans(sw, x, y, ks)
    ensures Divides(sw, x, y, inAlt)
    decreases |x|
  {
    if x != "" {
      assert (x + y)[0..] == x + y;
      var n := sw(x + y, !inAlt);
      var m := if n > 0 then n else 1;
      assert (x + y)[m..] == x[m..] + y;
      SpansDrop(sw, x, y, ks, m);
      UnbrokenDivides(sw, x[m..], y, ks[m..], if n > 0 then !inAlt else inAlt);
    }
  }

  // ---------------------------------------------------------------------------------------------
  // A broken switch can be cut

  lemma {:induction false} Prepend(t: string, m: nat, x: string, y: string)
    requires m <= |t| && t[m..] == x + y
    ensures (t[..m] + x) + y == t && (t[..m] + x)[m..] == x
  {
  }

  function Taken(sw: Switches, r: Screens, t: string): (m: nat)
    requires t != ""
    ensures 0 < m <= |t|
  {
    var n := sw(t, !r.inAlt); if n > 0 then n else 1
  }

  function Next(sw: Switches, r: Screens, t: string): Screens
    requires t != ""
  {
    if sw(t, !r.inAlt) > 0 then Switched(r) else Fed(r, [t[0]])
  }

  lemma {:induction false} StepDivides(sw: Switches, r: Screens, t: string, x: string, y: string)
    requires LocalSwitches(sw) && t != "" && t[Taken(sw, r, t)..] == x + y && Divides(sw, x, y, Next(sw, r, t).inAlt)
    ensures var u := t[..Taken(sw, r, t)] + x;
      u + y == t && Divides(sw, u, y, r.inAlt) && Route(sw, r, u) == Route(sw, Next(sw, r, t), x)
  {
    var m := Taken(sw, r, t);
    Prepend(t, m, x, y);
    var u := t[..m] + x;
    assert sw(u + y, !r.inAlt) == sw(t, !r.inAlt);
    assert sw(u, !r.inAlt) == sw(t, !r.inAlt);
  }

  /** After `x` the reader acts on a switch at the start of `y` that was put together from pieces. */
  ghost predicate BrokenAfter(sw: Switches, r: Screens, x: string, y: string, ks: seq<nat>) {
    var n := sw(y, !Route(sw, r, x).inAlt);
    |ks| == |y| && n > 0 && ks[n-1] != ks[0] + n - 1
  }

  ghost predicate BrokenAt(sw: Switches, r: Screens, t: string, ks: seq<nat>, x: string, y: string) {
    t == x + y && |ks| == |t| && Divides(sw, x, y, r.inAlt) && BrokenAfter(sw, r, x, y, ks[|x|..])
  }

  lemma {:induction false} BrokenLater(sw: Switches, r: Screens, t: string, ks: seq<nat>, x: string, y: string)
    requires LocalSwitches(sw) && t != "" && |ks| == |t|
    requires BrokenAt(sw, Next(sw, r, t), t[Taken(sw, r, t)..], ks[Taken(sw, r, t)..], x, y)
    ensures BrokenAt(sw, r, t, ks, t[..Taken(sw, r, t)] + x, y)
  {
    StepDivides(sw, r, t, x, y);
    DropDrop(ks, Taken(sw, r, t), |x|);
  }

  lemma {:induction false} UnbrokenHead(sw: Switches, r: Screens, t: string, ks: seq<nat>)
    requires |ks| == |t| && !Unbroken(sw, t, ks, r.inAlt)
    ensures t != "" && (BrokenAt(sw, r, t, ks, "", t) || !Unbroken(sw, t[Taken(sw, r, t)..], ks[Taken(sw, r, t)..], Next(sw, r, t).inAlt))
  {
  }

  lemma {:induction false} FirstBroken(sw: Switches, r: Screens, t: string, ks: seq<nat>) returns (x: string, y: string)
    requires LocalSwitches(sw) && |t| == |ks| && !Unbroken(sw, t, ks, r.inAlt)
    ensures BrokenAt(sw, r, t, ks, x, y)
    decreases |t|
  {
    UnbrokenHead(sw, r, t, ks);
    if BrokenAt(sw, r, t, ks, "", t) {
      x, y := "", t;
    } else {
      var m := Taken(sw, r, t);
      x, y := FirstBroken(sw, Next(sw, r, t), t[m..], ks[m..]);
      BrokenLater(sw, r, t, ks, x, y);
      x := t[..m] + x;
    }
  }

  /** Text in which no switch begins is passed on as it is. */
  lemma {:induction false} RouteQuiet(sw: Switches, r: Screens, u: string)
    requires forall i :: 0 <= i < |u| ==> sw(u[i..], !r.inAlt) == 0
    ensures Route(sw, r, u).inAlt == r.inAlt
    decreases |u|
  {
    if u != "" {
      assert u[0..] == u;
      forall i | 0 <= i < |u[1..]| ensures sw(u[1..][i..], !r.inAlt) == 0 {
        assert u[1..][i..] == u[i+1..];
      }
      RouteQuiet(sw, Fed(r, [u[0]]), u[1..]);
    }
  }

  lemma {:induction false} PieceIsQuiet(sw: Switches, s: string, enter: bool, i: nat, j: nat)
    requires LocalSwitches(sw) && SolidSwitches(sw) && i < j <= sw(s, enter) && (i > 0 || j < sw(s, enter))
    ensures sw(s[i..j], enter) == 0
  {
    var a, b := s[i..j], s[j..];
    assert a + b == s[i..];
    assert i == 0 ==> a + b == s;
    assert sw(a + b, enter) == if i == 0 then sw(s, enter) else 0;
  }

  /** A switch that arrives in two pieces is not acted on; in one piece it is. */
  lemma {:induction false} PiecesDoNotSwitch(sw: Switches, r: Screens, s: string, j: nat)
    requires LocalSwitches(sw) && SolidSwitches(sw) && 0 < j < |s| == sw(s, !r.inAlt)
    ensures Route(sw, Route(sw, r, s[..j]), s[j..]).inAlt == r.inAlt
    ensures Route(sw, r, s).inAlt != r.inAlt
  {
    var z, y := s[..j], s[j..];
    forall i | 0 <= i < |z| ensures sw(z[i..], !r.inAlt) == 0 {
      PieceIsQuiet(sw, s, !r.inAlt, i, j);
      assert z[i..] == s[i..j];
    }
    RouteQuiet(sw, r, z);
    forall i | 0 <= i < |y| ensures sw(y[i..], !r.inAlt) == 0 {
      PieceIsQuiet(sw, s, !r.inAlt, j + i, |s|);
      assert y[i..] == s[j+i..|s|];
    }
    RouteQuiet(sw, Route(sw, r, z), y);
    assert s[|s|..] == "";
  }
}
