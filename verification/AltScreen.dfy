/**
 Routing the sanitised bytes to the main or the alternate screen (service/terminal_snapshot.py). The emulators are
 recorders of the bytes they were fed; the alternate one is made new on entry and dropped on exit.
 */
module AltScreen {
  import opened Common
  import opened Removal
  import opened PrivateCsi
  import opened Routing

  /** The length of the switch sequence (1049, 1047 or 47; `h` enters, `l` leaves) the text starts with, or 0. */
  function SwitchLength(t: string, enter: bool): (n: nat)
    ensures n <= |t|
  {
    var f := if enter then 'h' else 'l';
    if |t| < 6 || t[0] != ESC || t[1] != '[' || t[2] != '?' then 0
    else if t[3] == '4' && t[4] == '7' && t[5] == f then 6
    else if |t| >= 8 && t[3] == '1' && t[4] == '0' && t[5] == '4' && (t[6] == '9' || t[6] == '7') && t[7] == f then 8
    else 0
  }

  const SWITCHES: Switches := (t: string, enter: bool) => SwitchLength(t, enter)

  // ---------------------------------------------------------------------------------------------
  // The stream, cut into chunks

  datatype Live = Live(screens: Screens, pending: string)

  /** What one chunk adds to the sanitised stream. */
  function Passes(pending: string, chunk: string): string {
    var s := pending + chunk;
    StripPrivate(s[..HeldStart(s)])
  }

  function FeedChunk(l: Live, chunk: string): Live {
    var s := l.pending + chunk;
    Live(Route(SWITCHES, l.screens, Passes(l.pending, chunk)), s[HeldStart(s)..])
  }

  function FeedAll(chunks: seq<string>): Live {
    if chunks == [] then Live(BLANK, "") else FeedChunk(FeedAll(chunks[..|chunks|-1]), chunks[|chunks|-1])
  }

  /** All the bytes the emulators' side has been given, switches included. */
  function Passed(chunks: seq<string>): string {
    if chunks == [] then "" else
    var front := chunks[..|chunks|-1];
    Passed(front) + Passes(FeedAll(front).pending, chunks[|chunks|-1])
  }

  /** What has been decided of a stream: everything but the held suffix. */
  function Decided(w: string): string {
    w[..HeldStart(w)]
  }

  lemma {:induction false} DecidedSettles(w: string)
    ensures Settled(Decided(w), w[HeldStart(w)..])
  {
    assert Decided(w) + w[HeldStart(w)..] == w;
  }

  lemma {:induction false} SettledIsDecided(a: string, p: string)
    requires Settled(a, p)
    ensures Decided(a + p) == a && (a + p)[HeldStart(a + p)..] == p
  {
  }

  /** One more chunk after the stream `a + p`, of which `p` is held. */
  lemma {:induction false} SettledDecides(a: string, p: string, c: string)
    requires Settled(a, p)
    ensures var s := p + c;
      && Decided((a + p) + c) == a + s[..HeldStart(s)]
      && ((a + p) + c)[HeldStart((a + p) + c)..] == s[HeldStart(s)..]
      && StripPrivate(a + s[..HeldStart(s)]) == StripPrivate(a) + Passes(p, c)
  {
    var s := p + c;
    var h := HeldStart(s);
    ChunkContinues(a, p, c);
    Regroup(a + p, a, p, c, h);
    SettledIsDecided(a + s[..h], s[h..]);
  }

  /** One more chunk after the stream `v`. */
  lemma {:induction false} ChunkDecides(v: string, c: string)
    ensures var p := v[HeldStart(v)..];
      && Decided(v + c) == Decided(v) + (p + c)[..HeldStart(p + c)]
      && (v + c)[HeldStart(v + c)..] == (p + c)[HeldStart(p + c)..]
      && StripPrivate(Decided(v + c)) == StripPrivate(Decided(v)) + Passes(p, c)
  {
    DecidedSettles(v);
    Cut(v, HeldStart(v));
    SettledDecides(Decided(v), v[HeldStart(v)..], c);
  }

  lemma {:induction false} Regroup(v: string, a: string, p: string, c: string, h: nat)
    requires v == a + p && h <= |p + c|
    ensures (a + (p + c)[..h]) + (p + c)[h..] == v + c
  {
  }

  /**
   However the stream is cut, the bytes passed on are the whole stream less the held suffix, sanitised, and the
   bytes held back are that suffix.
   */
  lemma {:induction false} StrippingIgnoresCuts(chunks: seq<string>)
    ensures var w := Flatten(chunks);
      Passed(chunks) == StripPrivate(Decided(w)) && FeedAll(chunks).pending == w[HeldStart(w)..]
  {
    if chunks != [] {
      var n := |chunks| - 1;
      StrippingIgnoresCuts(chunks[..n]);
      ChunkDecides(Flatten(chunks[..n]), chunks[n]);
    }
  }

  // ---------------------------------------------------------------------------------------------
  // When the screens ignore the cuts too

  /** Every switch acted on when the stream is read whole is unbroken in it: sanitising put none together. */
  predicate ExposesNoSwitch(w: string) {
    Unbroken(SWITCHES, StripPrivate(w), Kept(PrivateLength, w, 0), false)
  }

  /** The screens a stream gives when it arrives in one piece. */
  function Expected(w: string): Screens {
    Route(SWITCHES, BLANK, StripPrivate(Decided(w)))
  }

  /** At every moment of the stream, and however it was cut until then, the screens are the same. */
  ghost predicate CutsAgree(w: string) {
    forall chunks: seq<string> :: Flatten(chunks) <= w ==> FeedAll(chunks).screens == Expected(Flatten(chunks))
  }

  // ---------------------------------------------------------------------------------------------
  // Unbroken switches are never cut

  lemma {:induction false} SwitchFacts()
    ensures LocalSwitches(SWITCHES) && SolidSwitches(SWITCHES)
  {
    forall a: string, b: string, enter: bool | SwitchLength(a, enter) > 0 || SwitchLength(a + b, enter) <= |a|
      ensures SwitchLength(a + b, enter) == SwitchLength(a, enter)
    {
    }
  }

  lemma {:induction false} SwitchBeginsHeld(t: string, enter: bool)
    requires SwitchLength(t, enter) == |t| > 0
    ensures ESC !in t[1..] && forall m :: 0 < m < |t| ==> HeldText(t[..m])
  {
  }

  lemma {:induction false} Consecutive(m: Matcher, w: string, k: nat, n: nat, j: nat)
    requires k + n <= |Strip(m, w)| && j < n && Kept(m, w, 0)[k+n-1] == Kept(m, w, 0)[k] + n - 1
    ensures Kept(m, w, 0)[k+j] == Kept(m, w, 0)[k] + j
  {
    Spread(m, w, k, k + j);
    Spread(m, w, k + j, k + n - 1);
  }

  lemma {:induction false} Spread(m: Matcher, w: string, k: nat, l: nat)
    requires k <= l < |Strip(m, w)|
    ensures Kept(m, w, 0)[l] - Kept(m, w, 0)[k] >= l - k
    decreases l - k
  {
    if k < l {
      Spread(m, w, k, l - 1);
      KeptRises(m, w, 0, l - 1);
    }
  }

  /** An unbroken piece of the sanitised stream is a piece of the stream. */
  lemma {:induction false} UnbrokenPiece(m: Matcher, w: string, k: nat, n: nat)
    requires 0 < n && k + n <= |Strip(m, w)| && Kept(m, w, 0)[k+n-1] == Kept(m, w, 0)[k] + n - 1
    ensures Kept(m, w, 0)[k] + n <= |w| && w[Kept(m, w, 0)[k]..Kept(m, w, 0)[k]+n] == Strip(m, w)[k..k+n]
  {
    var i := Kept(m, w, 0)[k];
    KeptPlace(m, w, 0, k + n - 1);
    forall j {:trigger w[i..i+n][j]} | 0 <= j < n ensures w[i..i+n][j] == Strip(m, w)[k..k+n][j] {
      Consecutive(m, w, k, n, j);
      KeptPlace(m, w, 0, k + j);
    }
  }

  /** So an unbroken switch is a switch of the stream. */
  lemma {:induction false} UnbrokenSwitch(m: Matcher, sw: Switches, w: string, k: nat, enter: bool)
    requires LocalSwitches(sw) && k < |Strip(m, w)|
    requires var n := sw(Strip(m, w)[k..], enter); n > 0 && Kept(m, w, 0)[k+n-1] == Kept(m, w, 0)[k] + n - 1
    ensures Kept(m, w, 0)[k] <= |w| && sw(w[Kept(m, w, 0)[k]..], enter) == sw(Strip(m, w)[k..], enter)
  {
    var t, i := Strip(m, w), Kept(m, w, 0)[k];
    var n := sw(t[k..], enter);
    UnbrokenPiece(m, w, k, n);
    var s := w[i..i+n];
    assert t[k..] == s + t[k+n..] && w[i..] == s + w[i+n..];
    assert sw(s + t[k+n..], enter) == n && sw(s + w[i+n..], enter) == n;
  }

  /** No switch of `a + u` that starts in `a` ends in `u`. */
  ghost predicate SwitchesApart(sw: Switches, a: string, u: string) {
    forall i, enter {:trigger sw((a + u)[i..], enter)} :: 0 <= i < |a| ==> i + sw((a + u)[i..], enter) <= |a|
  }

  lemma {:induction false} EndsBefore(m: Matcher, sw: Switches, a: string, u: string, k: nat, enter: bool)
    requires Local(m) && LocalSwitches(sw) && Apart(m, a, u) && SwitchesApart(sw, a, u) && k < |Strip(m, a)|
    requires Strip(m, a + u) == Strip(m, a) + Strip(m, u) && Kept(m, a + u, 0) == Kept(m, a, 0) + Kept(m, a + u, |a|)
    requires var n := sw(Strip(m, a + u)[k..], enter); n > 0 && Kept(m, a + u, 0)[k+n-1] == Kept(m, a + u, 0)[k] + n - 1
    ensures k + sw(Strip(m, a + u)[k..], enter) <= |Strip(m, a)|
  {
    var w, x := a + u, Strip(m, a);
    var n := sw(Strip(m, w)[k..], enter);
    UnbrokenSwitch(m, sw, w, k, enter);
    KeptPlace(m, a, 0, k);
    if k + n > |x| {
      KeptPlace(m, w, |a|, k + n - 1 - |x|);
    }
  }

  lemma {:induction false} ApartSpansNone(m: Matcher, sw: Switches, a: string, u: string)
    requires Local(m) && LocalSwitches(sw) && Apart(m, a, u) && SwitchesApart(sw, a, u)
    ensures Strip(m, a + u) == Strip(m, a) + Strip(m, u)
    ensures NoSwitchSpans(sw, Strip(m, a), Strip(m, u), Kept(m, a + u, 0))
  {
    StripAppend(m, a, u);
    var x, ks := Strip(m, a), Kept(m, a + u, 0);
    forall k, enter | 0 <= k < |x|
      ensures var n := sw((x + Strip(m, u))[k..], enter); n > 0 && ks[k+n-1] == ks[k] + n - 1 ==> k + n <= |x|
    {
      var n := sw((x + Strip(m, u))[k..], enter);
      if n > 0 && ks[k+n-1] == ks[k] + n - 1 {
        EndsBefore(m, sw, a, u, k, enter);
      }
    }
  }

  lemma {:induction false} SwitchAlone(t: string, enter: bool)
    ensures var n := SwitchLength(t, enter); n > 0 ==> SwitchLength(t[..n], enter) == n
  {
  }

  lemma {:induction false} SettledSwitchesApart(a: string, p: string, c: string)
    requires Settled(a, p)
    ensures SwitchesApart(SWITCHES, a, p + c)
  {
    forall i, enter | 0 <= i < |a| ensures i + SwitchLength((a + (p + c))[i..], enter) <= |a| {
      var t := a[i..] + (p + c);
      assert (a + (p + c))[i..] == t;
      var n := SwitchLength(t, enter);
      if n > 0 {
        SwitchAlone(t, enter);
        SwitchBeginsHeld(t[..n], enter);
        NoneSpans(a, p, c, i, t[..n]);
      }
    }
  }

  lemma {:induction false} ApartDivides(m: Matcher, sw: Switches, a: string, u: string)
    requires Local(m) && LocalSwitches(sw) && Apart(m, a, u) && SwitchesApart(sw, a, u)
    requires Unbroken(sw, Strip(m, a + u), Kept(m, a + u, 0), false)
    ensures Strip(m, a + u) == Strip(m, a) + Strip(m, u) && Divides(sw, Strip(m, a), Strip(m, u), false)
  {
    ApartSpansNone(m, sw, a, u);
    UnbrokenDivides(sw, Strip(m, a), Strip(m, u), Kept(m, a + u, 0), false);
  }

  /** If sanitising puts no switch together, the reader of the whole stream stops after what any prefix decides. */
  lemma {:induction false} DividesAtDecided(a: string, p: string, c: string)
    requires Settled(a, p) && ExposesNoSwitch(a + (p + c))
    ensures StripPrivate(a + (p + c)) == StripPrivate(a) + StripPrivate(p + c)
    ensures Divides(SWITCHES, StripPrivate(a), StripPrivate(p + c), false)
  {
    PrivateIsLocal();
    SwitchFacts();
    SettledApart(a, p, c, p + c);
    SettledSwitchesApart(a, p, c);
    ApartDivides(PrivateLength, SWITCHES, a, p + c);
  }

  lemma {:induction false} Cancel(x: string, y: string, z: string, rest: string)
    requires x + z == (x + y) + rest
    ensures z == y + rest
  {
    assert z == (x + z)[|x|..];
    assert ((x + y) + rest)[|x|..] == y + rest;
  }

  lemma {:induction false} Regrouped(a: string, p: string, v: string, w: string)
    requires a + p == v && v <= w
    ensures w == a + (p + w[|v|..])
  {
  }

  /** What the stream `w` adds to what its beginning `v` decides, with the reader stopping between the two. */
  lemma {:induction false} DecidedDivides(v: string, w: string) returns (z: string)
    requires v <= w && ExposesNoSwitch(w)
    ensures StripPrivate(w) == StripPrivate(Decided(v)) + z && Divides(SWITCHES, StripPrivate(Decided(v)), z, false)
  {
    var a, p := Decided(v), v[HeldStart(v)..];
    DecidedSettles(v);
    Cut(v, HeldStart(v));
    Regrouped(a, p, v, w);
    DividesAtDecided(a, p, w[|v|..]);
    z := StripPrivate(p + w[|v|..]);
  }

  /** One more chunk of a stream in which no switch is put together leaves the screens as if it had come whole. */
  lemma {:induction false} ChunkAgrees(v: string, c: string, w: string)
    requires v + c <= w && ExposesNoSwitch(w)
    ensures Route(SWITCHES, Expected(v), Passes(v[HeldStart(v)..], c)) == Expected(v + c)
  {
    assert v <= v + c;
    var z := DecidedDivides(v, w);
    var z' := DecidedDivides(v + c, w);
    ChunkDecides(v, c);
    var x, y := StripPrivate(Decided(v)), Passes(v[HeldStart(v)..], c);
    Cancel(x, y, z, z');
    SwitchFacts();
    DividesPrefix(SWITCHES, x, y, z', false);
    RouteSplits(SWITCHES, BLANK, x, y);
  }

  lemma {:induction false} UnbrokenCutsAgree(chunks: seq<string>, w: string)
    requires Flatten(chunks) <= w && ExposesNoSwitch(w)
    ensures FeedAll(chunks).screens == Expected(Flatten(chunks))
  {
    if chunks != [] {
      var n := |chunks| - 1;
      StrippingIgnoresCuts(chunks[..n]);
      UnbrokenCutsAgree(chunks[..n], w);
      ChunkAgrees(Flatten(chunks[..n]), chunks[n], w);
    }
  }

  // ---------------------------------------------------------------------------------------------
  // A switch put together by sanitising can be cut

  lemma {:induction false} WholeIsNotHeld(t: string)
    requires PrivateLength(t) == |t| > 0
    ensures !HeldText(t)
  {
  }

  lemma {:induction false} EscInside(s: string, i: nat, p: nat)
    requires i < p < |s| && s[p] == ESC
    ensures ESC in s[i..][1..]
  {
  }

  lemma {:induction false} NotHeldAfterPrivate(s: string, p: nat, i: nat)
    requires p < |s| && PrivateLength(s[p..]) == |s| - p && i < |s|
    ensures !HeldText(s[i..])
  {
    PrivateHasNoEsc(s[p..]);
    if i < p {
      EscInside(s, i, p);
      if HeldText(s[i..]) {
        HeldHasNoEsc(s[i..]);
      }
    } else if i == p {
      WholeIsNotHeld(s[p..]);
    } else {
      assert s[p..][1..|s|-p][i-p-1] == s[i];
    }
  }

  lemma {:induction false} LetterIsNotHeld(t: string)
    requires t != "" && (t[|t|-1] == 'h' || t[|t|-1] == 'l')
    ensures !HeldText(t)
  {
  }

  /** Two chunks, with nothing held back after either. */
  lemma {:induction false} TwoChunks(a: string, b: string)
    requires HeldStart(a) == |a| && HeldStart(a + b) == |a + b|
    ensures Flatten([a, b]) == a + b && StripPrivate(a + b) == StripPrivate(a) + Passes("", b)
    ensures FeedAll([a, b]).screens == Route(SWITCHES, Route(SWITCHES, BLANK, StripPrivate(a)), Passes("", b))
  {
    assert [a, b][..1] == [a] && [a][..0] == [];
    assert "" + a == a && a[..|a|] == a && a[|a|..] == "";
    assert FeedAll([a]) == Live(Route(SWITCHES, BLANK, StripPrivate(a)), "");
    ChunkDecides(a, b);
    assert (a + b)[..|a + b|] == a + b;
    assert Flatten([a]) == a;
  }

  lemma {:induction false} CutBroken(x: string, y: string, n: nat, j: nat)
    requires Divides(SWITCHES, x, y, false) && 0 < j < n == SWITCHES(y, !Route(SWITCHES, BLANK, x).inAlt)
    ensures Route(SWITCHES, Route(SWITCHES, BLANK, x + y[..j]), y[j..n]) != Route(SWITCHES, BLANK, x + y[..n])
  {
    SwitchFacts();
    var r := Route(SWITCHES, BLANK, x);
    Cut(y, j);
    Cut(y, n);
    DividesPrefix(SWITCHES, x, y[..j], y[j..], false);
    DividesPrefix(SWITCHES, x, y[..n], y[n..], false);
    RouteSplits(SWITCHES, BLANK, x, y[..j]);
    RouteSplits(SWITCHES, BLANK, x, y[..n]);
    SwitchAlone(y, !r.inAlt);
    PiecesDoNotSwitch(SWITCHES, r, y[..n], j);
    assert y[..n][..j] == y[..j] && y[..n][j..] == y[j..n];
  }

  lemma {:induction false} Gap(qs: seq<nat>, n: nat) returns (j: nat)
    requires 0 < n <= |qs| && qs[n-1] != qs[0] + n - 1
    ensures 0 < j < n && qs[j] != qs[j-1] + 1
  {
    j := n - 1;
    while j > 0 && qs[j] == qs[j-1] + 1
      invariant j < n && qs[n-1] == qs[j] + (n - 1 - j)
    {
      j := j - 1;
    }
  }

  lemma {:induction false} TakeAppend(x: string, y: string, j: nat)
    requires j <= |y|
    ensures (x + y)[..|x|+j] == x + y[..j]
  {
  }

  /** The stream up to the character `k` that is kept (with it, when `d` is 1). */
  lemma {:induction false} CutAtKept(m: Matcher, w: string, x: string, y: string, k: nat, d: nat)
    requires Local(m) && Strip(m, w) == x + y && k < |y| && d <= 1
    ensures Kept(m, w, 0)[|x|+k] < |w| && Strip(m, w[..Kept(m, w, 0)[|x|+k] + d]) == x + y[..k+d]
  {
    LeavesUpTo(m, w, 0, |x| + k, d);
    NthIsKept(m, w, 0, |x| + k);
    KeptPlace(m, w, 0, |x| + k);
    TakeAppend(x, y, k + d);
  }

  lemma {:induction false} CutsAtKept(m: Matcher, w: string, x: string, y: string, j: nat, n: nat) returns (q: nat, e: nat)
    requires Local(m) && Strip(m, w) == x + y && 0 < j < n <= |y|
    ensures q == Kept(m, w, 0)[|x|+j] && q <= e <= |w| && e > 0 && w[e-1] == y[n-1]
    ensures Strip(m, w[..q]) == x + y[..j] && Strip(m, w[..e]) == x + y[..n]
  {
    q, e := Kept(m, w, 0)[|x|+j], Kept(m, w, 0)[|x|+n-1] + 1;
    CutAtKept(m, w, x, y, j, 0);
    CutAtKept(m, w, x, y, n - 1, 1);
    Spread(m, w, |x| + j, |x| + n - 1);
    KeptPlace(m, w, 0, |x| + n - 1);
  }

  lemma {:induction false} NothingHeld(s: string)
    requires forall i :: 0 <= i < |s| ==> !HeldText(s[i..])
    ensures HeldStart(s) == |s|
  {
    if s != "" {
      assert s[0..] == s;
      forall i | 0 <= i < |s[1..]| ensures !HeldText(s[1..][i..]) { DropDrop(s, 1, i); }
      NothingHeld(s[1..]);
    }
  }

  lemma {:induction false} NothingHeldAfterPrivate(w: string, p: nat, q: nat)
    requires p < q <= |w| && PrivateLength(w[p..q]) == q - p
    ensures HeldStart(w[..q]) == q
  {
    assert w[..q][p..] == w[p..q];
    forall i | 0 <= i < q ensures !HeldText(w[..q][i..]) { NotHeldAfterPrivate(w[..q], p, i); }
    NothingHeld(w[..q]);
  }

  lemma {:induction false} SwitchEndsInLetter(y: string, enter: bool)
    requires SwitchLength(y, enter) > 0
    ensures y[SwitchLength(y, enter) - 1] == if enter then 'h' else 'l'
  {
  }

  lemma {:induction false} NothingHeldAfterLetter(w: string)
    requires w != "" && (w[|w|-1] == 'h' || w[|w|-1] == 'l')
    ensures HeldStart(w) == |w|
  {
    forall i | 0 <= i < |w| ensures !HeldText(w[i..]) { LetterIsNotHeld(w[i..]); }
    NothingHeld(w);
  }

  /** Where the switch is, and where it is broken. */
  lemma {:induction false} BrokenPlace(m: Matcher, w: string) returns (x: string, y: string, n: nat, j: nat)
    requires !Unbroken(SWITCHES, Strip(m, w), Kept(m, w, 0), false)
    ensures Strip(m, w) == x + y && Divides(SWITCHES, x, y, false)
    ensures 0 < j < n == SWITCHES(y, !Route(SWITCHES, BLANK, x).inAlt)
    ensures Kept(m, w, 0)[|x|+j] != Kept(m, w, 0)[|x|+j-1] + 1
  {
    SwitchFacts();
    x, y := FirstBroken(SWITCHES, BLANK, Strip(m, w), Kept(m, w, 0));
    n := SWITCHES(y, !Route(SWITCHES, BLANK, x).inAlt);
    j := Gap(Kept(m, w, 0)[|x|..], n);
  }

  /** The screens two chunks give, and the screens the same text gives in one, by what the text is sanitised to. */
  lemma {:induction false} TwoChunksScreens(a: string, b: string, u: string, z: string) returns (chunks: seq<string>)
    requires HeldStart(a) == |a| && HeldStart(a + b) == |a + b| && StripPrivate(a) == u && StripPrivate(a + b) == u + z
    ensures Flatten(chunks) == a + b && FeedAll(chunks).screens == Route(SWITCHES, Route(SWITCHES, BLANK, u), z)
    ensures Expected(a + b) == Route(SWITCHES, BLANK, u + z)
  {
    chunks := [a, b];
    TwoChunks(a, b);
    SameRest(u, Passes("", b), z);
    assert Decided(a + b) == a + b;
  }

  lemma {:induction false} CutDisagrees(w: string, q: nat, e: nat, x: string, y: string, n: nat, j: nat) returns (chunks: seq<string>)
    requires q <= e <= |w| && HeldStart(w[..q]) == q && HeldStart(w[..e]) == e
    requires Divides(SWITCHES, x, y, false) && 0 < j < n == SWITCHES(y, !Route(SWITCHES, BLANK, x).inAlt)
    requires StripPrivate(w[..q]) == x + y[..j] && StripPrivate(w[..e]) == x + y[..n]
    ensures Flatten(chunks) == w[..e] && FeedAll(chunks).screens != Expected(w[..e])
  {
    assert w[..q] + w[q..e] == w[..e];
    assert x + y[..n] == (x + y[..j]) + y[j..n];
    chunks := TwoChunksScreens(w[..q], w[q..e], x + y[..j], y[j..n]);
    CutBroken(x, y, n, j);
  }

  /** Cut after the removed sequence inside the switch: then the switch is not acted on. */
  lemma {:induction false} BrokenCut(w: string) returns (chunks: seq<string>)
    requires !ExposesNoSwitch(w)
    ensures Flatten(chunks) <= w && FeedAll(chunks).screens != Expected(Flatten(chunks))
  {
    PrivateIsLocal();
    var x, y, n, j := BrokenPlace(PrivateLength, w);
    var q, e := CutsAtKept(PrivateLength, w, x, y, j, n);
    var p := GapIsMatch(PrivateLength, w, 0, |x| + j);
    NothingHeldAfterPrivate(w, p, q);
    NothingHeldAfterPart(w, e, y, !Route(SWITCHES, BLANK, x).inAlt);
    chunks := CutDisagrees(w, q, e, x, y, n, j);
  }

  lemma {:induction false} NothingHeldAfterPart(w: string, e: nat, y: string, enter: bool)
    requires 0 < e <= |w| && SwitchLength(y, enter) > 0 && w[e-1] == y[SwitchLength(y, enter) - 1]
    ensures HeldStart(w[..e]) == e
  {
    SwitchEndsInLetter(y, enter);
    NothingHeldAfterLetter(w[..e]);
  }

  /**
   However the stream is cut and at every moment of it, the two screens are the same, if and only if sanitising the
   stream puts together no switch that the router acts on.
   */
  lemma {:induction false} ScreensIgnoreCutsIff(w: string)
    ensures CutsAgree(w) <==> ExposesNoSwitch(w)
  {
    if ExposesNoSwitch(w) {
      forall chunks: seq<string> | Flatten(chunks) <= w ensures FeedAll(chunks).screens == Expected(Flatten(chunks)) {
        UnbrokenCutsAgree(chunks, w);
      }
    } else {
      var chunks := BrokenCut(w);
    }
  }

  /** A switch with a key-protocol sequence inside it. */
  const EXPOSED: string := [ESC, ESC, '[', '>', '4', 'm', '[', '?', '4', '7', 'h']

  const SWITCH_47: string := [ESC, '[', '?', '4', '7', 'h']

  lemma {:induction false} ExposedLengths()
    ensures PrivateLength(EXPOSED) == 0 && PrivateLength(EXPOSED[1..]) == 5
    ensures forall i :: 6 <= i < |EXPOSED| ==> PrivateLength(EXPOSED[i..]) == 0
  {
    assert EXPOSED[1..][3..] == "4m[?47h";
    assert !Param(EXPOSED[1..][3..][1]);
    assert Params(EXPOSED[1..][3..]) == 1;
  }

  lemma {:induction false} ExposedRest()
    ensures [EXPOSED[0]] + EXPOSED[6..] == SWITCH_47
  {
  }

  lemma {:induction false} StripsTo(w: string, n: nat, t: string)
    requires w != "" && PrivateLength(w) == 0 && PrivateLength(w[1..]) == n > 0 && t == [w[0]] + w[1+n..] && |t| > 5
    requires forall i :: n < i < |w| ==> PrivateLength(w[i..]) == 0
    ensures StripPrivate(w) == t && Kept(PrivateLength, w, 0)[0] == 0 && Kept(PrivateLength, w, 0)[5] == n + 5
  {
    OneRemoved(PrivateLength, w, n, 5);
  }

  lemma {:induction false} HeadIsBroken(sw: Switches, t: string, ks: seq<nat>)
    requires |t| == |ks| && t != "" && sw(t, true) > 0 && ks[sw(t, true) - 1] != ks[0] + sw(t, true) - 1
    ensures !Unbroken(sw, t, ks, false)
  {
  }

  /** Its two halves around the inner sequence do not switch; in one piece it does. */
  lemma {:induction false} ExposedIsCut()
    ensures SwitchLength(StripPrivate(EXPOSED), true) == 6 && !CutsAgree(EXPOSED)
  {
    ExposedLengths();
    ExposedRest();
    StripsTo(EXPOSED, 5, SWITCH_47);
    assert SwitchLength(SWITCH_47, true) == 6;
    HeadIsBroken(SWITCHES, StripPrivate(EXPOSED), Kept(PrivateLength, EXPOSED, 0));
    ScreensIgnoreCutsIff(EXPOSED);
  }
}
