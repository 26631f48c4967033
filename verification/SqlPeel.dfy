/**
 Removing parenthesised text from the inside (service/change_feed.py, `_peel`). The text is a sequence of tokens, read
 from SQL whose comments and string literals are already gone; white space is no token.
 */
module SqlPeel {
  import opened Common

  datatype Token = Open | Close | Comma | Equals | Word(text: string) | Other(text: string)

  predicate Paren(t: Token) {
    t == Open || t == Close
  }

  /** How many tokens precede the first parenthesis. */
  function BeforeParen(s: seq<Token>): (n: nat)
    ensures n <= |s| && (n < |s| ==> Paren(s[n]))
    ensures forall i :: 0 <= i < n ==> !Paren(s[i])
  {
    if s == [] || Paren(s[0]) then 0 else 1 + BeforeParen(s[1..])
  }

  /** The length of the pair without parentheses inside that the text starts with, or 0. */
  function InnerLength(s: seq<Token>): (n: nat)
    ensures n <= |s|
  {
    if s == [] || s[0] != Open then 0 else
    var n := 1 + BeforeParen(s[1..]);
    if n < |s| && s[n] == Close then n + 1 else 0
  }

  /** One pass of the substitution. */
  function Pass(s: seq<Token>): seq<Token> {
    if s == [] then [] else
    var n := InnerLength(s);
    if n > 0 then Pass(s[n..]) else [s[0]] + Pass(s[1..])
  }

  lemma {:induction false} PassShrinks(s: seq<Token>)
    ensures |Pass(s)| <= |s| && (|Pass(s)| == |s| ==> Pass(s) == s && forall i :: 0 <= i < |s| ==> InnerLength(s[i..]) == 0)
    decreases |s|
  {
    if s != [] {
      var n := InnerLength(s);
      PassShrinks(s[if n > 0 then n else 1..]);
      if n == 0 && |Pass(s)| == |s| {
        forall i | 0 <= i < |s| ensures InnerLength(s[i..]) == 0 {
          if i > 0 {
            assert s[1..][i-1..] == s[i..];
          } else {
            assert s[0..] == s;
          }
        }
      }
    }
  }

  // ---------------------------------------------------------------------------------------------
  // Reading once, with a stack

  /** Where the last open parenthesis is; -1 if there is none. */
  function LastOpen(out: seq<Token>): (i: int)
    ensures -1 <= i < |out| && (i >= 0 ==> out[i] == Open)
    ensures forall j :: i < j < |out| ==> out[j] != Open
  {
    if out == [] then -1 else if out[|out|-1] == Open then |out| - 1 else LastOpen(out[..|out|-1])
  }

  /** A closing parenthesis takes away everything from the open one it closes; without one it stays. */
  function Put(out: seq<Token>, t: Token): seq<Token> {
    if t == Close && LastOpen(out) >= 0 then out[..LastOpen(out)] else out + [t]
  }

  function Read(out: seq<Token>, s: seq<Token>): seq<Token>
    decreases |s|
  {
    if s == [] then out else Read(Put(out, s[0]), s[1..])
  }

  lemma {:induction false} ReadAppend(out: seq<Token>, a: seq<Token>, b: seq<Token>)
    ensures Read(out, a + b) == Read(Read(out, a), b)
    decreases |a|
  {
    if a == [] {
      assert a + b == b;
    } else {
      assert (a + b)[1..] == a[1..] + b;
      ReadAppend(Put(out, a[0]), a[1..], b);
    }
  }

  lemma {:induction false} ReadPlain(out: seq<Token>, s: seq<Token>)
    requires forall i :: 0 <= i < |s| ==> !Paren(s[i])
    ensures Read(out, s) == out + s
    decreases |s|
  {
    if s == [] {
      assert out + s == out;
    } else {
      ReadPlain(out + [s[0]], s[1..]);
      assert (out + [s[0]]) + s[1..] == out + s;
    }
  }

  lemma {:induction false} LastOpenIs(out: seq<Token>, plain: seq<Token>)
    requires forall i :: 0 <= i < |plain| ==> !Paren(plain[i])
    ensures LastOpen((out + [Open]) + plain) == |out|
  {
    var s := (out + [Open]) + plain;
    assert s[|out|] == Open;
    assert forall j :: |out| < j < |s| ==> s[j] == plain[j - |out| - 1];
  }

  lemma {:induction false} ReadInner(out: seq<Token>, s: seq<Token>)
    requires InnerLength(s) > 0
    ensures Read(out, s[..InnerLength(s)]) == out
  {
    var n := InnerLength(s);
    var plain := s[1..n-1];
    assert forall i :: 0 <= i < |plain| ==> plain[i] == s[1..][i];
    assert s[..n] == [Open] + (plain + [Close]);
    ReadAppend(out, [Open], plain + [Close]);
    assert Read(out, [Open]) == out + [Open] by { assert [Open][1..] == []; }
    ReadAppend(out + [Open], plain, [Close]);
    ReadPlain(out + [Open], plain);
    LastOpenIs(out, plain);
    var t := (out + [Open]) + plain;
    assert Read(t, [Close]) == Put(t, Close) by { assert [Close][1..] == []; }
    assert t[..|out|] == out;
  }

  /** A pass does not change what one reading leaves. */
  lemma {:induction false} PassKeepsReading(out: seq<Token>, s: seq<Token>)
    ensures Read(out, Pass(s)) == Read(out, s)
    decreases |s|
  {
    if s != [] {
      var n := InnerLength(s);
      if n > 0 {
        PassKeepsReading(out, s[n..]);
        ReadInner(out, s);
        ReadAppend(out, s[..n], s[n..]);
        Cut(s, n);
      } else {
        PassKeepsReading(Put(out, s[0]), s[1..]);
        assert ([s[0]] + Pass(s[1..]))[1..] == Pass(s[1..]);
      }
    }
  }

  lemma {:induction false} ParenComes(s: seq<Token>, k: nat)
    requires k < |s| && Paren(s[k])
    ensures BeforeParen(s) <= k
  {
  }

  /** An open parenthesis before a closing one encloses an innermost pair. */
  lemma {:induction false} PairInside(s: seq<Token>, i: nat, j: nat) returns (k: nat)
    requires i < j < |s| && s[i] == Open && s[j] == Close
    ensures k < |s| && InnerLength(s[k..]) > 0
    decreases j - i
  {
    var n := i + 1 + BeforeParen(s[i+1..]);
    assert s[i..][1..] == s[i+1..];
    ParenComes(s[i+1..], j - i - 1);
    assert Paren(s[i+1..][n-i-1]);
    if s[n] == Close {
      k := i;
    } else {
      k := PairInside(s, n, j);
    }
  }

  predicate NoOpenBeforeClose(s: seq<Token>) {
    forall i, j :: 0 <= i < j < |s| && s[i] == Open ==> s[j] != Close
  }

  lemma {:induction false} PeeledIsFlat(s: seq<Token>)
    requires Pass(s) == s
    ensures NoOpenBeforeClose(s)
  {
    PassShrinks(s);
    forall i: nat, j: nat | i < j < |s| && s[i] == Open ensures s[j] != Close {
      if s[j] == Close {
        var k := PairInside(s, i, j);
      }
    }
  }

  lemma {:induction false} FlatStays(out: seq<Token>, s: seq<Token>)
    requires s != [] && NoOpenBeforeClose(out + s)
    ensures Put(out, s[0]) == out + [s[0]]
  {
    if s[0] == Close {
      forall i | 0 <= i < |out| ensures out[i] != Open {
        assert (out + s)[i] == out[i] && (out + s)[|out|] == Close;
      }
    }
  }

  lemma {:induction false} ReadFlat(out: seq<Token>, s: seq<Token>)
    requires NoOpenBeforeClose(out + s)
    ensures Read(out, s) == out + s
    decreases |s|
  {
    if s == [] {
      assert out + s == out;
    } else {
      FlatStays(out, s);
      assert (out + [s[0]]) + s[1..] == out + s;
      ReadFlat(out + [s[0]], s[1..]);
    }
  }

  /** `_peel`: the fixpoint of the pass is what one reading with a stack leaves, on every text. */
  method Peel(text: seq<Token>) returns (peeled: seq<Token>)
    ensures peeled == Read([], text) && Pass(peeled) == peeled && NoOpenBeforeClose(peeled)
  {
    peeled := text;
    var previous := peeled;
    var first := true;
    while first || previous != peeled
      invariant Read([], peeled) == Read([], text)
      invariant !first ==> peeled == Pass(previous)
      decreases if first then 1 else 0, |previous|
    {
      PassShrinks(previous);
      PassKeepsReading([], peeled);
      previous, peeled, first := peeled, Pass(peeled), false;
    }
    PeeledIsFlat(peeled);
    assert [] + peeled == peeled;
    ReadFlat([], peeled);
  }

  // ---------------------------------------------------------------------------------------------
  // Balanced text

  /** Every parenthesis closes, starting `depth` deep. */
  predicate Closes(s: seq<Token>, depth: nat)
    decreases |s|
  {
    if s == [] then depth == 0
    else match s[0]
      case Open => Closes(s[1..], depth + 1)
      case Close => depth > 0 && Closes(s[1..], depth - 1)
      case _ => Closes(s[1..], depth)
  }

  /** The tokens outside every parenthesis. */
  function Outside(s: seq<Token>, depth: nat): seq<Token>
    decreases |s|
  {
    if s == [] then []
    else match s[0]
      case Open => Outside(s[1..], depth + 1)
      case Close => Outside(s[1..], if depth > 0 then depth - 1 else 0)
      case _ => (if depth == 0 then [s[0]] else []) + Outside(s[1..], depth)
  }

  function Opens(out: seq<Token>): nat {
    if out == [] then 0 else Opens(out[..|out|-1]) + if out[|out|-1] == Open then 1 else 0
  }

  /** What precedes the first open parenthesis. */
  function Base(out: seq<Token>): seq<Token> {
    if Opens(out) == 0 then out else Base(out[..|out|-1])
  }

  lemma {:induction false} OpensIsOpen(out: seq<Token>)
    ensures Opens(out) == 0 <==> LastOpen(out) < 0
  {
    if out != [] {
      OpensIsOpen(out[..|out|-1]);
    }
  }

  lemma {:induction false} BaseAppend(out: seq<Token>, t: Token)
    ensures Opens(out + [t]) == Opens(out) + if t == Open then 1 else 0
    ensures Base(out + [t]) == if t == Open || Opens(out) > 0 then Base(out) else out + [t]
  {
  }

  lemma {:induction false} BaseClose(out: seq<Token>)
    requires LastOpen(out) >= 0
    ensures Opens(out[..LastOpen(out)]) == Opens(out) - 1 && Base(out[..LastOpen(out)]) == Base(out)
  {
    OpensIsOpen(out);
    if out[|out|-1] != Open {
      var front := out[..|out|-1];
      BaseClose(front);
      assert front[..LastOpen(front)] == out[..LastOpen(out)];
    }
  }

  lemma {:induction false} ReadBalancedStep(out: seq<Token>, s: seq<Token>, depth: nat)
    requires s != [] && !Paren(s[0]) && Opens(out) == depth && Read(out + [s[0]], s[1..]) == Base(out + [s[0]]) + Outside(s[1..], depth)
    ensures Read(out, s) == Base(out) + Outside(s, depth)
  {
  }

  lemma {:induction false} ReadBalanced(out: seq<Token>, s: seq<Token>, depth: nat)
    requires Opens(out) == depth && Closes(s, depth)
    ensures Read(out, s) == Base(out) + Outside(s, depth)
    decreases |s|
  {
    if s == [] {
      assert Base(out) + [] == Base(out);
    } else if s[0] == Open {
      BaseAppend(out, Open);
      ReadBalanced(out + [Open], s[1..], depth + 1);
    } else if s[0] == Close {
      OpensIsOpen(out);
      BaseClose(out);
      ReadBalanced(out[..LastOpen(out)], s[1..], depth - 1);
    } else {
      BaseAppend(out, s[0]);
      ReadBalanced(out + [s[0]], s[1..], depth);
      ReadBalancedStep(out, s, depth);
    }
  }

  /** On balanced text the peeled text is what stands outside every parenthesis. */
  lemma {:induction false} PeelIsProjection(s: seq<Token>)
    requires Closes(s, 0)
    ensures Read([], s) == Outside(s, 0)
  {
    ReadBalanced([], s, 0);
  }
}
