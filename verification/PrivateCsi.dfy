/**
 The sanitiser every terminal byte passes through (service/terminal_snapshot.py): control sequences that negotiate
 capabilities are removed, and a chunk that ends inside one keeps the beginning back for the next chunk.
 */
module PrivateCsi {
  import opened Common
  import opened Removal

  const ESC: char := '\U{1B}'

  predicate Param(c: char) {
    '0' <= c <= '9' || c == ';' || c == ':'
  }

  predicate Final(c: char) {
    '@' <= c <= '~'
  }

  predicate Negotiation(c: char) {
    c == '<' || c == '>' || c == '='
  }

  /** How many parameter characters the text starts with. */
  function Params(s: string): (n: nat)
    ensures n <= |s|
    ensures forall i :: 0 <= i < n ==> Param(s[i])
    ensures n < |s| ==> !Param(s[n])
  {
    if s == "" || !Param(s[0]) then 0 else 1 + Params(s[1..])
  }

  /** The length of the private sequence the text starts with, or 0. */
  function PrivateLength(s: string): (n: nat)
    ensures n <= |s|
  {
    if |s| < 4 || s[0] != ESC || s[1] != '[' then 0 else
    var n := 3 + Params(s[3..]);
    if n < |s| && ((Negotiation(s[2]) && Final(s[n])) || (s[2] == '?' && s[n] == 'm')) then n + 1 else 0
  }

  /** `strip_private_sgr`. */
  function StripPrivate(s: string): string {
    Strip(PrivateLength, s)
  }

  function Chomp(s: string): string {
    if s != "" && s[|s|-1] == '\n' then s[..|s|-1] else s
  }

  predicate HeldBody(b: string) {
    || b == ""
    || (b[0] == '[' && (|b| == 1 || ((Negotiation(b[1]) || b[1] == '?') && Params(b[2..]) == |b| - 2)))
  }

  /** The text is the beginning of a private sequence; the end anchor also matches before one final newline. */
  predicate HeldText(t: string) {
    t != "" && t[0] == ESC && HeldBody(Chomp(t[1..]))
  }

  /** Where the part held back begins; the length of the text when nothing is. */
  function HeldStart(s: string): (h: nat)
    ensures h <= |s|
    ensures h < |s| ==> HeldText(s[h..])
  {
    if s == "" || HeldText(s) then 0 else 1 + HeldStart(s[1..])
  }

  lemma {:induction false} HeldStartIsFirst(s: string, i: nat)
    requires i < HeldStart(s)
    ensures !HeldText(s[i..])
  {
    if i > 0 {
      HeldStartIsFirst(s[1..], i - 1);
      assert s[1..][i-1..] == s[i..];
    }
  }

  // ---------------------------------------------------------------------------------------------
  // Sequences at a cut

  lemma {:induction false} ParamsAppend(a: string, b: string)
    ensures Params(a) < |a| ==> Params(a + b) == Params(a)
    ensures Params(a) == |a| ==> Params(a + b) >= |a|
    ensures Params(a + b) < |a| ==> Params(a) == Params(a + b)
  {
    if a != "" && Param(a[0]) {
      assert (a + b)[1..] == a[1..] + b;
      ParamsAppend(a[1..], b);
    }
  }

  lemma {:induction false} PrivateLocal(a: string, b: string)
    ensures PrivateLength(a) > 0 ==> PrivateLength(a + b) == PrivateLength(a)
    ensures 0 < PrivateLength(a + b) <= |a| ==> PrivateLength(a) == PrivateLength(a + b)
  {
    if |a| >= 4 {
      assert (a + b)[3..] == a[3..] + b;
      ParamsAppend(a[3..], b);
    }
  }

  lemma {:induction false} PrivateHasNoEsc(s: string)
    ensures PrivateLength(s) > 0 ==> s[0] == ESC && ESC !in s[1..PrivateLength(s)]
  {
  }

  lemma {:induction false} HeldHasNoEsc(t: string)
    requires HeldText(t)
    ensures ESC !in t[1..]
  {
  }

  lemma {:induction false} HeldBodyPrefix(b: string, m: nat)
    requires m <= |b| && HeldBody(b)
    ensures HeldBody(b[..m])
  {
  }

  lemma {:induction false} NotNewline(b: string)
    requires HeldBody(b)
    ensures Chomp(b) == b
  {
  }

  /** Every beginning of a held text is held. */
  lemma {:induction false} HeldPrefix(t: string, m: nat)
    requires HeldText(t) && 0 < m <= |t|
    ensures HeldText(t[..m])
  {
    if m < |t| {
      var b := Chomp(t[1..]);
      HeldBodyPrefix(b, m - 1);
      NotNewline(b[..m-1]);
      assert t[..m][1..] == b[..m-1];
    } else {
      assert t[..m] == t;
    }
  }

  /** Every proper beginning of a private sequence is held. */
  lemma {:induction false} PrivateBeginsHeld(s: string, m: nat)
    requires 0 < m < PrivateLength(s)
    ensures HeldText(s[..m])
  {
    var b := s[1..m];
    if m >= 3 {
      assert s[3..] == s[3..m] + s[m..];
      ParamsAppend(s[3..m], s[m..]);
      assert b[2..] == s[3..m];
    }
    NotNewline(b);
    assert s[..m][1..] == b;
  }

  /** `a` has been passed on and `p` is what is held back. */
  predicate Settled(a: string, p: string) {
    HeldStart(a + p) == |a|
  }

  lemma {:induction false} SettledHolds(a: string, p: string)
    requires Settled(a, p)
    ensures p != "" ==> HeldText(p) && p[0] == ESC && ESC !in p[1..]
  {
    assert (a + p)[|a|..] == p;
    if p != "" {
      HeldHasNoEsc(p);
    }
  }

  /** Text that starts in `a` and runs past it contains the first held character, or, with none held, the end of `a`. */
  lemma {:induction false} RunsPast(a: string, p: string, c: string, i: nat, t: string)
    requires i < |a| && t <= a[i..] + (p + c) && |t| > |a| - i
    ensures if p == "" then t[..|a|-i] == (a + p)[i..] else t[1..][|a|-i-1] == p[0]
  {
  }

  /** Whatever follows, no text whose beginnings are all held, and which has one ESC only, spans the boundary. */
  lemma {:induction false} NoneSpans(a: string, p: string, c: string, i: nat, t: string)
    requires Settled(a, p) && i < |a| && t <= a[i..] + (p + c) && t != ""
    requires ESC !in t[1..] && forall m :: 0 < m < |t| ==> HeldText(t[..m])
    ensures |t| <= |a| - i
  {
    SettledHolds(a, p);
    HeldStartIsFirst(a + p, i);
    if |t| > |a| - i {
      RunsPast(a, p, c, i, t);
    }
  }

  lemma {:induction false} HeldBeginnings(t: string)
    requires HeldText(t)
    ensures ESC !in t[1..] && forall m :: 0 < m < |t| ==> HeldText(t[..m])
  {
    HeldHasNoEsc(t);
    forall m | 0 < m < |t| ensures HeldText(t[..m]) { HeldPrefix(t, m); }
  }

  lemma {:induction false} NoneHeldBefore(a: string, p: string, c: string, i: nat)
    requires Settled(a, p) && i < |a|
    ensures !HeldText(a[i..] + (p + c))
  {
    HeldStartIsFirst(a + p, i);
    var t := a[i..] + (p + c);
    if HeldText(t) {
      HeldBeginnings(t);
      NoneSpans(a, p, c, i, t);
      SameEnd(a, p, c, i);
    }
  }

  lemma {:induction false} SameEnd(a: string, p: string, c: string, i: nat)
    requires i < |a|
    ensures |p + c| == 0 ==> a[i..] + (p + c) == (a + p)[i..]
  {
  }

  lemma {:induction false} HeldSkips(a: string, s: string)
    requires forall i :: 0 <= i < |a| ==> !HeldText(a[i..] + s)
    ensures HeldStart(a + s) == |a| + HeldStart(s)
  {
    if a == "" {
      assert a + s == s;
    } else {
      assert a[0..] == a;
      assert (a + s)[1..] == a[1..] + s;
      forall i | 0 <= i < |a[1..]| ensures !HeldText(a[1..][i..] + s) {
        assert a[1..][i..] == a[i+1..];
      }
      HeldSkips(a[1..], s);
    }
  }

  lemma {:induction false} PrivateIsLocal()
    ensures Local(PrivateLength)
  {
    forall a: string, b: string | PrivateLength(a) > 0 || PrivateLength(a + b) <= |a|
      ensures PrivateLength(a + b) == PrivateLength(a)
    {
      PrivateLocal(a, b);
    }
  }

  lemma {:induction false} SettledApart(a: string, p: string, c: string, x: string)
    requires Settled(a, p) && x <= p + c
    ensures Apart(PrivateLength, a, x)
  {
    forall i | 0 <= i < |a| ensures PrivateLength(a[i..] + x) <= |a| - i {
      var s := a[i..] + x;
      var n := PrivateLength(s);
      if n > 0 {
        PrivateHasNoEsc(s);
        forall m | 0 < m < |s[..n]| ensures HeldText(s[..n][..m]) {
          PrivateBeginsHeld(s, m);
          assert s[..n][..m] == s[..m];
        }
        assert s[..n][1..] == s[1..n];
        NoneSpans(a, p, c, i, s[..n]);
      }
    }
  }

  lemma {:induction false} ChunkSettles(a: string, p: string, c: string)
    requires Settled(a, p)
    ensures var h := HeldStart(p + c); Settled(a + (p + c)[..h], (p + c)[h..])
  {
    var s := p + c;
    forall i | 0 <= i < |a| ensures !HeldText(a[i..] + s) { NoneHeldBefore(a, p, c, i); }
    HeldSkips(a, s);
    SplitAt(a, s, HeldStart(s));
  }

  /** One chunk: what it passes on continues the sanitised stream, and what it holds is what the whole stream holds. */
  lemma {:induction false} ChunkContinues(a: string, p: string, c: string)
    requires Settled(a, p)
    ensures var h := HeldStart(p + c);
      Settled(a + (p + c)[..h], (p + c)[h..]) && StripPrivate(a + (p + c)[..h]) == StripPrivate(a) + StripPrivate((p + c)[..h])
  {
    ChunkSettles(a, p, c);
    var x := (p + c)[..HeldStart(p + c)];
    SettledApart(a, p, c, x);
    PrivateIsLocal();
    StripAppend(PrivateLength, a, x);
  }
}
