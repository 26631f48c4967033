/**
 A stream as a list of blocks, each of which a matcher takes whole or finds nothing in, and each of which is a switch or
 holds none: what removal leaves, and where the router puts it, is then known block by block.
 */
module Blocks {
  import opened Common
  import opened Removal
  import opened Routing

  /** A block of text: whether it is removed, and whether it is an enter or a leave. */
  datatype Block = Block(text: string, gone: bool, enters: bool, leaves: bool)

  function Whole(bs: seq<Block>): string {
    if bs == [] then "" else bs[0].text + Whole(bs[1..])
  }

  /** What removal leaves. */
  function Left(bs: seq<Block>): string {
    if bs == [] then "" else (if bs[0].gone then "" else bs[0].text) + Left(bs[1..])
  }

  predicate TurnsAt(b: Block, inAlt: bool) {
    !b.gone && if inAlt then b.leaves else b.enters
  }

  function ShowBlock(r: Screens, b: Block): Screens {
    if b.gone then r else if TurnsAt(b, r.inAlt) then Screens(r.main, "", !r.inAlt) else Fed(r, b.text)
  }

  function ShowBlocks(r: Screens, bs: seq<Block>): Screens
    decreases |bs|
  {
    if bs == [] then r else ShowBlocks(ShowBlock(r, bs[0]), bs[1..])
  }

  /** How a matcher reads a block in front of the rest: it takes it whole, or finds nothing anywhere in it. */
  ghost predicate Reads(m: Matcher, b: Block, rest: string) {
    if b.gone then b.text != "" && m(b.text + rest) == |b.text|
    else forall k :: 0 <= k < |b.text| ==> m((b.text + rest)[k..]) == 0
  }

  /** How the router reads a block that is left: it is a switch, or none begins in it. */
  ghost predicate Turns(sw: Switches, b: Block, rest: string) {
    forall k, enter :: 0 <= k < |b.text| ==>
      sw((b.text + rest)[k..], enter) == if k == 0 && (if enter then b.enters else b.leaves) then |b.text| else 0
  }

  ghost predicate AllRead(m: Matcher, sw: Switches, bs: seq<Block>)
    decreases |bs|
  {
    bs == [] || (
      && Reads(m, bs[0], Whole(bs[1..])) && (!bs[0].gone ==> bs[0].text != "" && Turns(sw, bs[0], Left(bs[1..])))
      && AllRead(m, sw, bs[1..]))
  }

  // ---------------------------------------------------------------------------------------------
  // What is left, and where it was

  /** The places of `n` characters from index `i` on. */
  function Places(i: nat, n: nat): (ks: seq<nat>)
    ensures |ks| == n && forall k :: 0 <= k < n ==> ks[k] == i + k
  {
    seq(n, k requires 0 <= k < n => i + k)
  }

  /** From index `i` on, what is left of `w` is `a` and then what is left from `j` on, with every character in its place. */
  ghost predicate KeepsHere(m: Matcher, w: string, i: nat, j: nat, a: string) {
    && i + |a| == j <= |w|
    && From(m, w, i) == a + From(m, w, j)
    && Kept(m, w, i) == Places(i, |a|) + Kept(m, w, j)
  }

  lemma {:induction false} KeepsText(m: Matcher, w: string, i: nat, j: nat)
    requires i <= j <= |w| && forall k :: i <= k < j ==> m(w[k..]) == 0
    ensures KeepsHere(m, w, i, j, w[i..j])
    decreases j - i
  {
    if i < j {
      KeepsText(m, w, i + 1, j);
      KeepsOneMore(m, w, i, j);
    }
  }

  lemma {:induction false} KeepsOneMore(m: Matcher, w: string, i: nat, j: nat)
    requires i < j <= |w| && m(w[i..]) == 0 && KeepsHere(m, w, i + 1, j, w[i+1..j])
    ensures KeepsHere(m, w, i, j, w[i..j])
  {
    assert w[i..j] == [w[i]] + w[i+1..j];
    assert Places(i, j - i) == [i] + Places(i + 1, j - i - 1);
    Associate([w[i]], w[i+1..j], From(m, w, j));
    Associate([i], Places(i + 1, j - i - 1), Kept(m, w, j));
  }

  ghost predicate RemovesHere(m: Matcher, w: string, i: nat, j: nat) {
    i <= j <= |w| && From(m, w, i) == From(m, w, j) && Kept(m, w, i) == Kept(m, w, j)
  }

  lemma {:induction false} BlockRemoved(m: Matcher, w: string, i: nat, n: nat)
    requires i < |w| && m(w[i..]) == n > 0
    ensures RemovesHere(m, w, i, i + n)
  {
  }

  lemma {:induction false} BlockKept(m: Matcher, w: string, i: nat, a: string, rest: string)
    requires i <= |w| && w[i..] == a + rest && forall k :: 0 <= k < |a| ==> m((a + rest)[k..]) == 0
    ensures KeepsHere(m, w, i, i + |a|, a)
  {
    var j := i + |a|;
    forall k | i <= k < j ensures m(w[k..]) == 0 { assert w[k..] == w[i..][k-i..]; }
    KeepsText(m, w, i, j);
    assert w[i..j] == (a + rest)[..|a|] == a;
  }

  ghost predicate ReadHere(m: Matcher, w: string, i: nat, b: Block) {
    var j := i + |b.text|;
    if b.gone then RemovesHere(m, w, i, j) else KeepsHere(m, w, i, j, b.text)
  }

  lemma {:induction false} FirstRead(m: Matcher, w: string, i: nat, b: Block, rest: string)
    requires i <= |w| && w[i..] == b.text + rest && Reads(m, b, rest)
    ensures ReadHere(m, w, i, b) && i + |b.text| <= |w| && w[i + |b.text|..] == rest
  {
    if b.gone { BlockRemoved(m, w, i, |b.text|); } else { BlockKept(m, w, i, b.text, rest); }
    assert w[i + |b.text|..] == w[i..][|b.text|..];
  }

  lemma {:induction false} LeftStep(m: Matcher, w: string, i: nat, b: Block, t: string)
    requires ReadHere(m, w, i, b) && i + |b.text| <= |w| && From(m, w, i + |b.text|) == t
    ensures From(m, w, i) == (if b.gone then "" else b.text) + t
  {
    if b.gone { assert "" + t == t; }
  }

  lemma {:induction false} EndIsEmpty(m: Matcher, w: string, i: nat)
    requires i <= |w| && w[i..] == ""
    ensures From(m, w, i) == ""
  {
  }

  lemma {:induction false} LeftFrom(m: Matcher, sw: Switches, w: string, i: nat, bs: seq<Block>)
    requires i <= |w| && w[i..] == Whole(bs) && AllRead(m, sw, bs)
    ensures From(m, w, i) == Left(bs)
    decreases |bs|
  {
    if bs == [] {
      EndIsEmpty(m, w, i);
    } else {
      FirstRead(m, w, i, bs[0], Whole(bs[1..]));
      LeftFrom(m, sw, w, i + |bs[0].text|, bs[1..]);
      LeftStep(m, w, i, bs[0], Left(bs[1..]));
    }
  }

  // ---------------------------------------------------------------------------------------------
  // Where it is shown

  lemma {:induction false} RouteSkips(sw: Switches, r: Screens, a: string, t: string)
    requires forall i :: 0 <= i < |a| ==> sw((a + t)[i..], !r.inAlt) == 0
    ensures Route(sw, r, a + t) == Route(sw, Fed(r, a), t)
    decreases |a|
  {
    if a == "" {
      assert a + t == t;
      FedNothing(r);
    } else {
      var s := a + t;
      assert s[0..] == s && s[1..] == a[1..] + t;
      forall i | 0 <= i < |a[1..]| ensures sw((a[1..] + t)[i..], !r.inAlt) == 0 { assert (a[1..] + t)[i..] == s[i+1..]; }
      RouteSkips(sw, Fed(r, [a[0]]), a[1..], t);
      FedTwice(r, [a[0]], a[1..]);
      assert [a[0]] + a[1..] == a;
    }
  }

  lemma {:induction false} RouteBlock(sw: Switches, r: Screens, b: Block, t: string)
    requires !b.gone && b.text != "" && Turns(sw, b, t)
    ensures Route(sw, r, b.text + t) == Route(sw, ShowBlock(r, b), t)
  {
    if TurnsAt(b, r.inAlt) {
      var s := b.text + t;
      assert s[0..] == s && s[|b.text|..] == t;
    } else {
      RouteSkips(sw, r, b.text, t);
    }
  }

  lemma {:induction false} RouteBlocks(m: Matcher, sw: Switches, r: Screens, bs: seq<Block>)
    requires AllRead(m, sw, bs)
    ensures Route(sw, r, Left(bs)) == ShowBlocks(r, bs)
    decreases |bs|
  {
    if bs != [] {
      RouteBlocks(m, sw, ShowBlock(r, bs[0]), bs[1..]);
      if bs[0].gone {
        assert "" + Left(bs[1..]) == Left(bs[1..]);
      } else {
        RouteBlock(sw, r, bs[0], Left(bs[1..]));
      }
    }
  }

  // ---------------------------------------------------------------------------------------------
  // Removal puts no switch together

  lemma {:induction false} UnbrokenSkips(sw: Switches, a: string, t: string, ka: seq<nat>, kt: seq<nat>, inAlt: bool)
    requires |a| == |ka| && |t| == |kt| && forall i :: 0 <= i < |a| ==> sw((a + t)[i..], !inAlt) == 0
    ensures Unbroken(sw, a + t, ka + kt, inAlt) <==> Unbroken(sw, t, kt, inAlt)
    decreases |a|
  {
    if a == "" {
      assert a + t == t && ka + kt == kt;
    } else {
      var s := a + t;
      assert s[0..] == s && s[1..] == a[1..] + t && (ka + kt)[1..] == ka[1..] + kt;
      forall i | 0 <= i < |a[1..]| ensures sw((a[1..] + t)[i..], !inAlt) == 0 { assert (a[1..] + t)[i..] == s[i+1..]; }
      UnbrokenSkips(sw, a[1..], t, ka[1..], kt, inAlt);
    }
  }

  lemma {:induction false} UnbrokenBlock(sw: Switches, b: Block, t: string, kt: seq<nat>, i: nat, inAlt: bool)
    requires !b.gone && b.text != "" && Turns(sw, b, t) && |t| == |kt| && Unbroken(sw, t, kt, if TurnsAt(b, inAlt) then !inAlt else inAlt)
    ensures Unbroken(sw, b.text + t, Places(i, |b.text|) + kt, inAlt)
  {
    var ka := Places(i, |b.text|);
    if TurnsAt(b, inAlt) {
      var s, ks, n := b.text + t, ka + kt, |b.text|;
      assert s[0..] == s && s[n..] == t && ks[n..] == kt && ks[n-1] == ka[n-1] && ks[0] == ka[0];
    } else {
      UnbrokenSkips(sw, b.text, t, ka, kt, inAlt);
    }
  }

  ghost predicate ExposesNone(m: Matcher, sw: Switches, w: string, i: nat, inAlt: bool) {
    i <= |w| && Unbroken(sw, From(m, w, i), Kept(m, w, i), inAlt)
  }

  lemma {:induction false} BlockExposesNone(m: Matcher, sw: Switches, w: string, i: nat, b: Block, t: string, inAlt: bool)
    requires ReadHere(m, w, i, b) && (!b.gone ==> b.text != "" && Turns(sw, b, t)) && i + |b.text| <= |w| && From(m, w, i + |b.text|) == t
    requires ExposesNone(m, sw, w, i + |b.text|, if TurnsAt(b, inAlt) then !inAlt else inAlt)
    ensures ExposesNone(m, sw, w, i, inAlt)
  {
    if !b.gone { UnbrokenBlock(sw, b, t, Kept(m, w, i + |b.text|), i, inAlt); }
  }

  lemma {:induction false} EndExposesNone(m: Matcher, sw: Switches, w: string, inAlt: bool)
    ensures ExposesNone(m, sw, w, |w|, inAlt)
  {
  }

  lemma {:induction false} NextBlock(m: Matcher, sw: Switches, w: string, i: nat, bs: seq<Block>)
    requires i <= |w| && w[i..] == Whole(bs) && AllRead(m, sw, bs) && bs != []
    ensures ReadHere(m, w, i, bs[0]) && AllRead(m, sw, bs[1..]) && (!bs[0].gone ==> bs[0].text != "" && Turns(sw, bs[0], Left(bs[1..])))
    ensures var j := i + |bs[0].text|; j <= |w| && w[j..] == Whole(bs[1..]) && From(m, w, j) == Left(bs[1..])
  {
    FirstRead(m, w, i, bs[0], Whole(bs[1..]));
    LeftFrom(m, sw, w, i + |bs[0].text|, bs[1..]);
  }

  lemma {:induction false} BlocksExposeNone(m: Matcher, sw: Switches, w: string, i: nat, bs: seq<Block>, inAlt: bool)
    requires i <= |w| && w[i..] == Whole(bs) && AllRead(m, sw, bs)
    ensures ExposesNone(m, sw, w, i, inAlt)
    decreases |bs|
  {
    if bs == [] {
      EndExposesNone(m, sw, w, inAlt);
    } else {
      var b := bs[0];
      NextBlock(m, sw, w, i, bs);
      BlocksExposeNone(m, sw, w, i + |b.text|, bs[1..], if TurnsAt(b, inAlt) then !inAlt else inAlt);
      BlockExposesNone(m, sw, w, i, b, Left(bs[1..]), inAlt);
    }
  }
}
