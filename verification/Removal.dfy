/**
 Removing every match of a pattern from a text, as a global substitution with the empty string does: the leftmost
 match is taken, and the search goes on after it. A pattern is known by the length of its match at the start of a text.
 */
module Removal {
  import opened Common

  type Matcher = f: string -> nat | (forall s :: f(s) <= |s|) witness (s: string) => 0

  /** What is left of `w` from index `i` on. */
  function From(m: Matcher, w: string, i: nat): string
    requires i <= |w|
    decreases |w| - i
  {
    if i == |w| then "" else
    var n := m(w[i..]);
    if n > 0 then From(m, w, i + n) else [w[i]] + From(m, w, i + 1)
  }

  function Strip(m: Matcher, w: string): string {
    From(m, w, 0)
  }

  /** Where the characters that are left were. */
  function Kept(m: Matcher, w: string, i: nat): (ks: seq<nat>)
    requires i <= |w|
    ensures |ks| == |From(m, w, i)|
    decreases |w| - i
  {
    if i == |w| then [] else
    var n := m(w[i..]);
    if n > 0 then Kept(m, w, i + n) else [i] + Kept(m, w, i + 1)
  }

  lemma {:induction false} KeptPlace(m: Matcher, w: string, i: nat, k: nat)
    requires i <= |w| && k < |From(m, w, i)|
    ensures i <= Kept(m, w, i)[k] < |w| && w[Kept(m, w, i)[k]] == From(m, w, i)[k]
    decreases |w| - i
  {
    var n := m(w[i..]);
    if n > 0 {
      KeptPlace(m, w, i + n, k);
    } else if k > 0 {
      KeptPlace(m, w, i + 1, k - 1);
    }
  }

  lemma {:induction false} KeptRises(m: Matcher, w: string, i: nat, k: nat)
    requires i <= |w| && k + 1 < |From(m, w, i)|
    ensures Kept(m, w, i)[k] < Kept(m, w, i)[k+1]
    decreases |w| - i
  {
    var n := m(w[i..]);
    if n > 0 {
      KeptRises(m, w, i + n, k);
    } else if k > 0 {
      KeptRises(m, w, i + 1, k - 1);
    } else {
      KeptPlace(m, w, i + 1, 0);
    }
  }

  /** A match depends on the matched characters only. */
  ghost predicate Local(m: Matcher) {
    forall a: string, b: string {:trigger m(a + b)} :: (m(a) > 0 || m(a + b) <= |a|) ==> m(a + b) == m(a)
  }

  /** No match of `a + x` that starts in `a` ends in `x`. */
  predicate Apart(m: Matcher, a: string, x: string) {
    forall i {:trigger a[i..]} :: 0 <= i < |a| ==> m(a[i..] + x) <= |a| - i
  }

  lemma {:induction false} SameMatch(m: Matcher, a: string, x: string, i: nat)
    requires Local(m) && Apart(m, a, x) && i < |a|
    ensures m((a + x)[i..]) == m(a[i..])
  {
    assert (a + x)[i..] == a[i..] + x;
  }

  lemma {:induction false} FromSplits(m: Matcher, a: string, x: string, i: nat)
    requires Local(m) && Apart(m, a, x) && i <= |a|
    ensures From(m, a + x, i) == From(m, a, i) + From(m, a + x, |a|)
    decreases |a| - i
  {
    if i < |a| {
      SameMatch(m, a, x, i);
      var n := m(a[i..]);
      FromSplits(m, a, x, if n > 0 then i + n else i + 1);
      if n == 0 {
        Associate([a[i]], From(m, a, i + 1), From(m, a + x, |a|));
      }
    }
  }

  ghost predicate KeptInTwo(m: Matcher, a: string, x: string, i: nat) {
    i <= |a| && Kept(m, a + x, i) == Kept(m, a, i) + Kept(m, a + x, |a|)
  }

  lemma {:induction false} KeptInTwoStep(m: Matcher, a: string, x: string, i: nat)
    requires i < |a| && m((a + x)[i..]) == m(a[i..]) == 0 && KeptInTwo(m, a, x, i + 1)
    ensures KeptInTwo(m, a, x, i)
  {
  }

  lemma {:induction false} KeptSplits(m: Matcher, a: string, x: string, i: nat)
    requires Local(m) && Apart(m, a, x) && i <= |a|
    ensures KeptInTwo(m, a, x, i)
    decreases |a| - i
  {
    if i < |a| {
      SameMatch(m, a, x, i);
      var n := m(a[i..]);
      KeptSplits(m, a, x, if n > 0 then i + n else i + 1);
      if n == 0 {
        KeptInTwoStep(m, a, x, i);
      }
    }
  }

  lemma {:induction false} FromShifts(m: Matcher, a: string, x: string, j: nat)
    requires j <= |x|
    ensures From(m, a + x, |a| + j) == From(m, x, j)
    decreases |x| - j
  {
    if j < |x| {
      assert (a + x)[|a| + j..] == x[j..];
      var n := m(x[j..]);
      FromShifts(m, a, x, if n > 0 then j + n else j + 1);
    }
  }

  lemma {:induction false} StripAppend(m: Matcher, a: string, x: string)
    requires Local(m) && Apart(m, a, x)
    ensures Strip(m, a + x) == Strip(m, a) + Strip(m, x)
    ensures Kept(m, a + x, 0) == Kept(m, a, 0) + Kept(m, a + x, |a|)
  {
    FromSplits(m, a, x, 0);
    KeptSplits(m, a, x, 0);
    FromShifts(m, a, x, 0);
  }

  lemma {:induction false} ConsTake(c: char, s: string, k: nat)
    requires k <= |s|
    ensures ([c] + s)[..k+1] == [c] + s[..k]
  {
  }

  lemma {:induction false} MatchBefore(m: Matcher, w: string, i: nat, q: nat)
    requires Local(m) && i < q <= |w| && i + m(w[i..]) <= q
    ensures m(w[..q][i..]) == m(w[i..])
  {
    assert w[..q][i..] + w[q..] == w[i..];
  }

  /** Of `w[i..]`, the part before index `q` leaves the first `j` characters. */
  predicate Leaves(m: Matcher, w: string, i: nat, q: nat, j: nat) {
    i <= q <= |w| && j <= |From(m, w, i)| && From(m, w[..q], i) == From(m, w, i)[..j]
  }

  lemma {:induction false} LeavesMatch(m: Matcher, w: string, i: nat, q: nat, j: nat)
    requires Local(m) && i < |w| && m(w[i..]) > 0 && Leaves(m, w, i + m(w[i..]), q, j)
    ensures Leaves(m, w, i, q, j)
  {
    MatchBefore(m, w, i, q);
  }

  lemma {:induction false} LeavesChar(m: Matcher, w: string, i: nat, q: nat, j: nat)
    requires Local(m) && i < |w| && m(w[i..]) == 0 && Leaves(m, w, i + 1, q, j)
    ensures Leaves(m, w, i, q, j + 1)
  {
    MatchBefore(m, w, i, q);
    ConsTake(w[i], From(m, w, i + 1), j);
  }

  lemma {:induction false} LeavesNone(m: Matcher, w: string, i: nat)
    requires i <= |w|
    ensures Leaves(m, w, i, i, 0)
  {
  }

  lemma {:induction false} KeptTail(m: Matcher, w: string, i: nat, k: nat)
    requires i < |w| && m(w[i..]) == 0 && k < |From(m, w, i)|
    ensures Kept(m, w, i)[k] == if k == 0 then i else Kept(m, w, i + 1)[k-1]
  {
  }

  /** Where the k-th character that stays is. */
  function Nth(m: Matcher, w: string, i: nat, k: nat): nat
    requires i <= |w| && k < |From(m, w, i)|
    decreases |w| - i
  {
    var n := m(w[i..]);
    if n > 0 then Nth(m, w, i + n, k) else if k == 0 then i else Nth(m, w, i + 1, k - 1)
  }

  lemma {:induction false} NthIsKept(m: Matcher, w: string, i: nat, k: nat)
    requires i <= |w| && k < |From(m, w, i)|
    ensures Nth(m, w, i, k) == Kept(m, w, i)[k]
    decreases |w| - i
  {
    var n := m(w[i..]);
    if n > 0 {
      NthIsKept(m, w, i + n, k);
    } else {
      KeptTail(m, w, i, k);
      if k > 0 {
        NthIsKept(m, w, i + 1, k - 1);
      }
    }
  }

  /** Going through `w` from index `i`, the removal stops at index `q` having kept `j` characters. */
  predicate Arrives(m: Matcher, w: string, i: nat, q: nat, j: nat)
    decreases |w| - i
  {
    if i >= q || i >= |w| then i == q <= |w| && j == 0 else
    var n := m(w[i..]);
    if n > 0 then Arrives(m, w, i + n, q, j) else j > 0 && Arrives(m, w, i + 1, q, j - 1)
  }

  lemma {:induction false} ArrivesAtNth(m: Matcher, w: string, i: nat, k: nat, d: nat)
    requires i <= |w| && k < |From(m, w, i)| && d <= 1
    ensures i <= Nth(m, w, i, k) < |w| && Arrives(m, w, i, Nth(m, w, i, k) + d, k + d)
    decreases |w| - i
  {
    var n := m(w[i..]);
    if n > 0 {
      ArrivesAtNth(m, w, i + n, k, d);
    } else if k > 0 {
      ArrivesAtNth(m, w, i + 1, k - 1, d);
    }
  }

  lemma {:induction false} ArrivedLeaves(m: Matcher, w: string, i: nat, q: nat, j: nat)
    requires Local(m) && Arrives(m, w, i, q, j)
    ensures Leaves(m, w, i, q, j)
    decreases |w| - i
  {
    if i >= q || i >= |w| {
      LeavesNone(m, w, i);
    } else if m(w[i..]) > 0 {
      ArrivedLeaves(m, w, i + m(w[i..]), q, j);
      LeavesMatch(m, w, i, q, j);
    } else {
      ArrivedLeaves(m, w, i + 1, q, j - 1);
      LeavesChar(m, w, i, q, j - 1);
    }
  }

  /** The text up to a character that stays (with it, when `d` is 1) is cleaned as if it were alone. */
  lemma {:induction false} LeavesUpTo(m: Matcher, w: string, i: nat, k: nat, d: nat)
    requires Local(m) && i <= |w| && k < |From(m, w, i)| && d <= 1
    ensures Leaves(m, w, i, Nth(m, w, i, k) + d, k + d)
  {
    ArrivesAtNth(m, w, i, k, d);
    ArrivedLeaves(m, w, i, Nth(m, w, i, k) + d, k + d);
  }

  /** Text in which nothing matches is kept. */
  lemma {:induction false} NoneRemoved(m: Matcher, w: string, i: nat)
    requires i <= |w| && forall j :: i <= j < |w| ==> m(w[j..]) == 0
    ensures From(m, w, i) == w[i..]
    decreases |w| - i
  {
    if i < |w| {
      NoneRemoved(m, w, i + 1);
    }
  }

  lemma {:induction false} NoneMoved(m: Matcher, w: string, i: nat, k: nat)
    requires i <= |w| && (forall j :: i <= j < |w| ==> m(w[j..]) == 0) && k < |From(m, w, i)|
    ensures Kept(m, w, i)[k] == i + k
    decreases |w| - i
  {
    if k > 0 {
      KeptTail(m, w, i, k);
      NoneMoved(m, w, i + 1, k - 1);
    }
  }

  /** One match, after the first character. */
  lemma {:induction false} OneRemoved(m: Matcher, w: string, n: nat, k: nat)
    requires w != "" && m(w) == 0 && m(w[1..]) == n > 0 && forall j :: 1 + n <= j < |w| ==> m(w[j..]) == 0
    requires 0 < k < |w| - n
    ensures Strip(m, w) == [w[0]] + w[1+n..] && Kept(m, w, 0)[0] == 0 && Kept(m, w, 0)[k] == n + k
  {
    assert w[0..] == w;
    NoneRemoved(m, w, 1 + n);
    assert From(m, w, 1) == From(m, w, 1 + n) && Kept(m, w, 1) == Kept(m, w, 1 + n);
    NoneMoved(m, w, 1 + n, k - 1);
    KeptTail(m, w, 0, k);
    KeptTail(m, w, 0, 0);
  }

  /** A character that does not follow the one kept before it follows a removed match. */
  lemma {:induction false} GapIsMatch(m: Matcher, w: string, i: nat, k: nat) returns (p: nat)
    requires Local(m) && i <= |w| && k < |From(m, w, i)|
    requires if k == 0 then Kept(m, w, i)[0] != i else Kept(m, w, i)[k] != Kept(m, w, i)[k-1] + 1
    ensures p < Kept(m, w, i)[k] <= |w| && m(w[p..Kept(m, w, i)[k]]) == Kept(m, w, i)[k] - p
    decreases |w| - i
  {
    KeptPlace(m, w, i, k);
    var q := Kept(m, w, i)[k];
    var n := m(w[i..]);
    if n > 0 && k == 0 && q == i + n {
      p := i;
      MatchBefore(m, w, i, q);
      assert w[..q][i..] == w[i..q];
    } else if n > 0 {
      p := GapIsMatch(m, w, i + n, k);
    } else {
      p := GapIsMatch(m, w, i + 1, k - 1);
    }
  }
}
