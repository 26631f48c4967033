/** Colours written as six hexadecimal digits, in either case, come out as the numbers they say. */
module HexColours {
  import opened TerminalAnsi

  const LOWER_DIGITS: string := "0123456789abcdef"
  const UPPER_DIGITS: string := "0123456789ABCDEF"

  function Digit(n: nat, upper: bool): char
    requires n < 16
  {
    if upper then UPPER_DIGITS[n] else LOWER_DIGITS[n]
  }

  /** A number below 256 as two digits. */
  function Hex2(n: nat, upper: bool): string
    requires n < 256
  {
    [Digit(n / 16, upper), Digit(n % 16, upper)]
  }

  /** Red, green, blue, each in a case of its own. */
  function Written(r: nat, g: nat, b: nat, upper: (bool, bool, bool)): string
    requires r < 256 && g < 256 && b < 256
  {
    Hex2(r, upper.0) + Hex2(g, upper.1) + Hex2(b, upper.2)
  }

  lemma {:induction false} DigitReads(n: nat, upper: bool)
    requires n < 16
    ensures HexDigit(LowerChar(Digit(n, upper))) == n
  {
  }

  lemma {:induction false} LowerAt(s: string, i: nat)
    requires i < |s|
    ensures Lower(s)[i] == LowerChar(s[i])
  {
    if i > 0 { LowerAt(s[1..], i - 1); }
  }

  lemma {:induction false} LookupMisses(table: seq<(string, nat)>, name: string, none: nat)
    requires forall i :: 0 <= i < |table| ==> table[i].0 != name
    ensures Lookup(table, name, none) == none
  {
    if table != [] {
      assert table[0].0 != name;
      forall i | 0 <= i < |table[1..]| ensures table[1..][i].0 != name { assert table[1..][i] == table[i+1]; }
      LookupMisses(table[1..], name, none);
    }
  }

  /** No colour name is made of six hexadecimal digits. */
  lemma {:induction false} NotAName(name: string)
    requires IsHex(name)
    ensures NamedCode(name) == 0 && PaletteIndex(name) == 16
  {
    assert HexDigit(name[0]) >= 0 && name[0] != 'y';
    forall i | 0 <= i < |NAMED| ensures NAMED[i].0 != name { assert |NAMED[i].0| != 6 || NAMED[i].0[0] == 'y'; }
    forall i | 0 <= i < |PALETTE| ensures PALETTE[i].0 != name { assert |PALETTE[i].0| != 6 || PALETTE[i].0[0] == 'y'; }
    LookupMisses(NAMED, name, 0);
    LookupMisses(PALETTE, name, 16);
  }

  lemma {:induction false} ByteReads(name: string, i: nat, n: nat, upper: bool)
    requires i + 1 < |name| && n < 256 && name[i] == LowerChar(Hex2(n, upper)[0]) && name[i+1] == LowerChar(Hex2(n, upper)[1])
    ensures HexByte(name, i) == n && HexDigit(name[i]) >= 0 && HexDigit(name[i+1]) >= 0
  {
    DigitReads(n / 16, upper);
    DigitReads(n % 16, upper);
  }

  /** Every 24-bit colour is printed, and understood, as the three numbers it was written from. */
  lemma {:induction false} WrittenColourReadsBack(r: nat, g: nat, b: nat, upper: (bool, bool, bool), background: bool)
    requires r < 256 && g < 256 && b < 256
    ensures var value := Written(r, g, b, upper);
      ColorSgr(value, background) == [if background then 48 else 38, 2, r, g, b] && Shade(value) == Rgb(r, g, b)
  {
    var value := Written(r, g, b, upper);
    var name := Lower(value);
    forall i | 0 <= i < 6 ensures name[i] == LowerChar(value[i]) { LowerAt(value, i); }
    ByteReads(name, 0, r, upper.0);
    ByteReads(name, 2, g, upper.1);
    ByteReads(name, 4, b, upper.2);
    assert IsHex(name);
    NotAName(name);
    assert |value| == 6 && |"default"| == 7;
  }

  const UPPER_CASE: string := "ABCDEFGHIJKLMNOPQRSTUVWXYZ"
  const LOWER_CASE: string := "abcdefghijklmnopqrstuvwxyz"

  lemma {:induction false} CapitalReads(k: nat)
    requires k < 26
    ensures LowerChar(UPPER_CASE[k]) == LOWER_CASE[k] && LowerChar(LOWER_CASE[k]) == LOWER_CASE[k]
  {
  }

  /** Names may be written in any case: the k-th capital is read as the k-th small letter, and what is no capital as itself. */
  lemma {:induction false} CaseIsIgnored(s: string, i: nat, k: nat)
    requires i < |s| && k < 26
    ensures s[i] == UPPER_CASE[k] || s[i] == LOWER_CASE[k] ==> Lower(s)[i] == LOWER_CASE[k]
    ensures !('A' <= s[i] <= 'Z') ==> Lower(s)[i] == s[i]
  {
    LowerAt(s, i);
    CapitalReads(k);
  }
}
