/**
 The stored log's way to the same main screen (service/terminal_snapshot.py): every enter-to-leave region is cut out
 of the text, and an enter that is never left is shown as it is.
 */
module BalancedScreens {
  import opened Common
  import opened Removal
  import opened Routing
  import opened AltScreen

  /** The length of the enter-to-leave region the text starts with, or 0. */
  function Balanced(sw: Switches, s: string): (n: nat)
    ensures n <= |s|
  {
    var n := sw(s, true);
    var i := SwitchAt(sw, s[n..], false);
    if n == 0 || n + i == |s| then 0 else n + i + sw(s[n..][i..], false)
  }

  const BALANCED: Matcher := (s: string) => Balanced(SWITCHES, s)

  /** `_strip_balanced_alt_screens`. */
  function StripBalanced(s: string): string {
    Strip(BALANCED, s)
  }

  lemma {:induction false} LeaveLater(sw: Switches, s: string, d: nat)
    requires SwitchAt(sw, s, false) == |s| && d <= |s|
    ensures SwitchAt(sw, s[d..], false) == |s| - d
  {
    if d > 0 {
      LeaveLater(sw, s[1..], d - 1);
      assert s[1..][d-1..] == s[d..];
    } else {
      assert s[0..] == s;
    }
  }

  /** After an enter that is never left there is no region to cut out. */
  lemma {:induction false} NoneAfter(sw: Switches, s: string, d: nat)
    requires SolidSwitches(sw) && SwitchAt(sw, s[sw(s, true)..], false) == |s| - sw(s, true) && d < |s| && sw(s, true) > 0
    ensures Balanced(sw, s[d..]) == 0
  {
    var n := sw(s, true);
    if d >= n {
      var m := sw(s[d..], true);
      LeaveLater(sw, s[n..], d - n + m);
      assert s[n..][d-n+m..] == s[d..][m..];
    } else if d == 0 {
      assert s[0..] == s;
    }
  }

  /** What is shown of a text: the main screen's bytes, and after an open enter that enter and the overlay's bytes. */
  ghost predicate Shows(sw: Switches, shown: string, r: Screens, enter: string) {
    if r.inAlt then sw(enter, true) == |enter| > 0 && shown == (r.main + enter) + r.alt else shown == r.main
  }

  ghost predicate CutsOut(m: Matcher, sw: Switches) {
    forall s {:trigger Balanced(sw, s)} :: m(s) == Balanced(sw, s)
  }

  /** An enter that is never left: all that follows it is drawn on the alternate screen. */
  lemma {:induction false} OpenRoutes(sw: Switches, r: Screens, s: string)
    requires !r.inAlt && s != "" && sw(s, true) > 0 && SwitchAt(sw, s[sw(s, true)..], false) == |s| - sw(s, true)
    ensures Route(sw, r, s) == Screens(r.main, s[sw(s, true)..], true)
  {
    var u := s[sw(s, true)..];
    RouteUntil(sw, Switched(r), u);
    assert "" + u == u;
  }

  lemma {:induction false} OpenHasNoRegion(sw: Switches, m: Matcher, s: string, d: nat)
    requires SolidSwitches(sw) && CutsOut(m, sw) && d < |s|
    requires sw(s, true) > 0 && SwitchAt(sw, s[sw(s, true)..], false) == |s| - sw(s, true)
    ensures m(s[d..]) == 0
  {
    NoneAfter(sw, s, d);
    assert m(s[d..]) == Balanced(sw, s[d..]);
  }

  lemma {:induction false} OpenIsKept(sw: Switches, m: Matcher, t: string, i: nat)
    requires SolidSwitches(sw) && CutsOut(m, sw) && i < |t|
    requires var n := sw(t[i..], true); n > 0 && SwitchAt(sw, t[i..][n..], false) == |t| - i - n
    ensures From(m, t, i) == t[i..]
  {
    forall j | i <= j < |t| ensures m(t[j..]) == 0 {
      OpenHasNoRegion(sw, m, t[i..], j - i);
      DropDrop(t, i, j - i);
    }
    NoneRemoved(m, t, i);
  }

  lemma {:induction false} OpenShows(sw: Switches, main: string, s: string, n: nat)
    requires LocalSwitches(sw) && 0 < n == sw(s, true)
    ensures Shows(sw, main + s, Screens(main, s[n..], true), s[..n])
  {
    Cut(s, n);
    assert sw(s[..n] + s[n..], true) == n;
    Associate(main, s[..n], s[n..]);
  }

  /** A region that is left draws nothing on the main screen. */
  lemma {:induction false} ClosedRoutes(sw: Switches, r: Screens, s: string)
    requires !r.inAlt && s != "" && Balanced(sw, s) > 0
    ensures Route(sw, r, s) == Route(sw, r.(alt := ""), s[Balanced(sw, s)..])
  {
    var n := sw(s, true);
    var u := s[n..];
    var i := SwitchAt(sw, u, false);
    RouteUntil(sw, Switched(r), u);
    assert u[i..][sw(u[i..], false)..] == s[Balanced(sw, s)..];
  }

  /** From index `i` on, the two ways agree. */
  ghost predicate Agree(sw: Switches, m: Matcher, r: Screens, t: string, i: nat, enter: string) {
    i <= |t| && Shows(sw, r.main + From(m, t, i), Route(sw, r, t[i..]), enter)
  }

  lemma {:induction false} AgreeClosed(sw: Switches, m: Matcher, r: Screens, t: string, i: nat, n: nat, enter: string)
    requires CutsOut(m, sw) && !r.inAlt && i < |t| && 0 < n == m(t[i..])
    requires Agree(sw, m, r.(alt := ""), t, i + n, enter)
    ensures Agree(sw, m, r, t, i, enter)
  {
    assert Route(sw, r, t[i..]) == Route(sw, r.(alt := ""), t[i..][n..]) by {
      assert m(t[i..]) == Balanced(sw, t[i..]);
      ClosedRoutes(sw, r, t[i..]);
    }
    DropDrop(t, i, n);
  }

  lemma {:induction false} AgreeOpen(sw: Switches, m: Matcher, r: Screens, t: string, i: nat)
    requires LocalSwitches(sw) && SolidSwitches(sw) && CutsOut(m, sw)
    requires !r.inAlt && i < |t| && m(t[i..]) == 0 && sw(t[i..], true) > 0
    ensures Agree(sw, m, r, t, i, t[i..][..sw(t[i..], true)])
  {
    assert m(t[i..]) == Balanced(sw, t[i..]);
    OpenRoutes(sw, r, t[i..]);
    OpenIsKept(sw, m, t, i);
    OpenShows(sw, r.main, t[i..], sw(t[i..], true));
  }

  lemma {:induction false} AgreeChar(sw: Switches, m: Matcher, r: Screens, t: string, i: nat, enter: string)
    requires !r.inAlt && i < |t| && m(t[i..]) == 0 && sw(t[i..], true) == 0
    requires Agree(sw, m, Fed(r, [t[i]]), t, i + 1, enter)
    ensures Agree(sw, m, r, t, i, enter)
  {
  }

  lemma {:induction false} RouteShows(sw: Switches, m: Matcher, r: Screens, t: string, i: nat) returns (enter: string)
    requires LocalSwitches(sw) && SolidSwitches(sw) && CutsOut(m, sw) && !r.inAlt && i <= |t|
    ensures Agree(sw, m, r, t, i, enter)
    decreases |t| - i
  {
    if i == |t| {
      enter := "";
    } else if m(t[i..]) > 0 {
      var n := m(t[i..]);
      enter := RouteShows(sw, m, r.(alt := ""), t, i + n);
      AgreeClosed(sw, m, r, t, i, n, enter);
    } else if sw(t[i..], true) > 0 {
      enter := t[i..][..sw(t[i..], true)];
      AgreeOpen(sw, m, r, t, i);
    } else {
      enter := RouteShows(sw, m, Fed(r, [t[i]]), t, i + 1);
      AgreeChar(sw, m, r, t, i, enter);
    }
  }

  /**
   For every text: cutting out its balanced regions leaves exactly the bytes the router sends to the main screen, and,
   when the text ends inside the alternate screen, the open enter and the bytes of the overlay after them.
   */
  lemma {:induction false} MainIsStripBalanced(t: string) returns (enter: string)
    ensures Shows(SWITCHES, StripBalanced(t), Route(SWITCHES, BLANK, t), enter)
  {
    SwitchFacts();
    enter := RouteShows(SWITCHES, BALANCED, BLANK, t, 0);
    assert t[0..] == t && "" + StripBalanced(t) == StripBalanced(t);
  }
}
