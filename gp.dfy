/**
 * get_suffix of pyxidust/gp.py (and its twin get_letters in utils.py): an
 * endless generator of names for tools that refuse digits.  It yields the
 * base followed by A to Z, then by AA to ZZ, then AAA to ZZZ, and so on.
 * The generator is modelled by the first `count` values it yields.
 */
module Gp {
  import opened Strings

  /** string.ascii_uppercase */
  const UPPER: string := "ABCDEFGHIJKLMNOPQRSTUVWXYZ"

  lemma UpperLetters()
    ensures |UPPER| == 26
    ensures forall i :: 0 <= i < 26 ==> UPPER[i] as int == 'A' as int + i
  {
  }

  /** The n-th value (from 0): the n % 26-th letter, written n / 26 + 1 times */
  function SuffixAt(base: string, n: nat): string {
    base + Repeat(UPPER[n % 26], n / 26 + 1)
  }

  lemma DivMod26(k: nat, i: nat)
    requires i < 26
    ensures (26 * k + i) / 26 == k && (26 * k + i) % 26 == i
  {
  }

  /** 'Z' is the last letter and only the last */
  lemma OnlyLastIsZ(i: nat)
    requires i < 26
    ensures (UPPER[i] == 'Z') == (i == 25)
  {
    UpperLetters();
  }

  /** The i-th value of round `round` (from 1) is the i-th letter written `round` times */
  lemma SuffixInRound(base: string, round: nat, i: nat)
    requires 1 <= round && i < 26
    ensures SuffixAt(base, 26 * (round - 1) + i) == base + Repeat(UPPER[i], round)
  {
    DivMod26(round - 1, i);
  }

  /** The first `count` values of get_suffix(base): `loops` grows after each 'Z' */
  method Suffixes(base: string, count: nat) returns (out: seq<string>)
    ensures |out| == count && forall n :: 0 <= n < count ==> out[n] == SuffixAt(base, n)
  {
    out := [];
    var loops := 1;
    while |out| < count
      invariant |out| <= count && 1 <= loops && (|out| < count ==> |out| == 26 * (loops - 1))
      invariant forall n :: 0 <= n < |out| ==> out[n] == SuffixAt(base, n)
      decreases count - |out|
    {
      out, loops := Round(base, count, out, loops);
    }
  }

  /**
   * One pass of `for letter in string.ascii_uppercase`, stopped early once
   * `count` values are out: each letter written `loops` times, `loops`
   * raised at 'Z'.
   */
  method Round(base: string, count: nat, out0: seq<string>, loops0: nat) returns (out: seq<string>, loops: nat)
    requires 1 <= loops0 && |out0| == 26 * (loops0 - 1) && |out0| < count
    requires forall n :: 0 <= n < |out0| ==> out0[n] == SuffixAt(base, n)
    ensures |out0| < |out| <= count && 1 <= loops && (|out| < count ==> |out| == 26 * (loops - 1))
    ensures forall n :: 0 <= n < |out| ==> out[n] == SuffixAt(base, n)
  {
    out, loops := out0, loops0;
    var i := 0;
    while i < |UPPER| && |out| < count
      invariant 0 <= i <= 26 && |out| <= count
      invariant |out| == 26 * (loops0 - 1) + i
      invariant loops == if i == 26 then loops0 + 1 else loops0
      invariant forall n :: 0 <= n < |out| ==> out[n] == SuffixAt(base, n)
    {
      var letter := UPPER[i];
      SuffixInRound(base, loops0, i);
      OnlyLastIsZ(i);
      ghost var before := out;
      out := out + [base + Repeat(letter, loops)];
      forall n | 0 <= n < |out| ensures out[n] == SuffixAt(base, n) {
        if n < |before| {
          assert out[n] == before[n];
        } else {
          assert n == 26 * (loops0 - 1) + i && out[n] == base + Repeat(UPPER[i], loops0);
        }
      }
      if letter == 'Z' {
        loops := loops + 1;
      }
      i := i + 1;
    }
  }

  /** The first 26 values are the base followed by one letter, 'A' first */
  lemma FirstRound(base: string, n: nat)
    requires n < 26
    ensures SuffixAt(base, n) == base + [UPPER[n]]
    ensures n == 0 ==> SuffixAt(base, n) == base + "A"
    ensures n == 1 ==> SuffixAt(base, n) == base + "B"
  {
  }

  /** Every value is the base followed by one upper-case letter, repeated */
  lemma SuffixShape(base: string, n: nat)
    ensures StartsWith(SuffixAt(base, n), base)
    ensures |SuffixAt(base, n)| == |base| + n / 26 + 1
    ensures forall j :: |base| <= j < |SuffixAt(base, n)| ==> 'A' <= SuffixAt(base, n)[j] <= 'Z'
  {
    var s := SuffixAt(base, n);
    assert s[..|base|] == base;
    UpperLetters();
    forall j | |base| <= j < |s| ensures 'A' <= s[j] <= 'Z' {
      assert s[j] == UPPER[n % 26];
    }
  }

  /** The suffix grows by one letter exactly after a value ending in 'Z' */
  lemma SuffixGrowsAfterZ(base: string, n: nat)
    ensures |SuffixAt(base, n + 1)| == |SuffixAt(base, n)| + (if UPPER[n % 26] == 'Z' then 1 else 0)
  {
    UpperLetters();
    var k, i := n / 26, n % 26;
    assert n == 26 * k + i;
    if i == 25 {
      DivMod26(k + 1, 0);
      assert n + 1 == 26 * (k + 1) + 0;
    } else {
      DivMod26(k, i + 1);
      assert n + 1 == 26 * k + (i + 1);
    }
  }

  /** No two values are equal */
  lemma SuffixesUnique(base: string, m: nat, n: nat)
    requires SuffixAt(base, m) == SuffixAt(base, n)
    ensures m == n
  {
    SuffixShape(base, m);
    SuffixShape(base, n);
    UpperLetters();
    assert SuffixAt(base, m)[|base|] == UPPER[m % 26];
    assert SuffixAt(base, n)[|base|] == UPPER[n % 26];
    assert m == 26 * (m / 26) + m % 26;
    assert n == 26 * (n / 26) + n % 26;
  }
}
