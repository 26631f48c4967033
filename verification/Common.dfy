/** Small pieces shared by the models: an optional value, and the decimal form of a count. */
module Common {
  datatype Option<+T> = None | Some(value: T)

  function Max(a: int, b: int): int {
    if a >= b then a else b
  }

  function Min(a: int, b: int): int {
    if a <= b then a else b
  }

  function Decimal(n: nat): string {
    if n < 10 then ["0123456789"[n]] else Decimal(n / 10) + ["0123456789"[n % 10]]
  }

  lemma {:induction false} Associate<T>(a: seq<T>, b: seq<T>, c: seq<T>)
    ensures (a + b) + c == a + (b + c)
  {
  }

  lemma {:induction false} InitLast<T>(s: seq<T>)
    requires s != []
    ensures s[..|s|-1] + [s[|s|-1]] == s
  {
  }

  lemma {:induction false} SplitAt<T>(a: seq<T>, s: seq<T>, k: nat)
    requires k <= |s|
    ensures (a + s[..k]) + s[k..] == a + s
  {
  }

  lemma {:induction false} Cut<T>(s: seq<T>, k: nat)
    requires k <= |s|
    ensures s[..k] + s[k..] == s
  {
  }

  lemma {:induction false} DropDrop<T>(s: seq<T>, m: nat, j: nat)
    requires m + j <= |s|
    ensures s[m..][j..] == s[m+j..]
  {
  }

  /** The pieces one after the other. */
  function Flatten<T>(pieces: seq<seq<T>>): seq<T> {
    if pieces == [] then [] else Flatten(pieces[..|pieces|-1]) + pieces[|pieces|-1]
  }

  lemma {:induction false} SameRest<T>(a: seq<T>, b: seq<T>, c: seq<T>)
    requires a + b == a + c
    ensures b == c
  {
    assert (a + b)[|a|..] == b && (a + c)[|a|..] == c;
  }
}
