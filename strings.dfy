/**
 * The Python string built-ins the modelled code relies on: the ASCII
 * character classes of str.isalpha/isspace/isnumeric and
 * string.punctuation, str(int), int(str), zfill, count, split, splitlines,
 * replace, startswith/endswith, and the ordering of str values.
 */
module Strings {
  import opened Builtins

  // ---------------------------------------------------------------------
  // Character classes (ASCII range of Python's definitions)
  // ---------------------------------------------------------------------

  /** string.punctuation */
  const PUNCTUATION: string := "!\"#$%&'()*+,-./:;<=>?@[\\]^_`{|}~"

  predicate IsAlpha(c: char) { 'a' <= c <= 'z' || 'A' <= c <= 'Z' }
  predicate IsNumeric(c: char) { '0' <= c <= '9' }
  /** str.isspace: tab, LF, VT, FF, CR, the four separators 0x1C-0x1F, and space */
  predicate IsSpace(c: char) { 9 <= c as int <= 13 || 28 <= c as int <= 32 }
  predicate IsPunct(c: char) { c in PUNCTUATION }
  /** The boundaries str.splitlines breaks at (a CR LF pair counts once) */
  predicate IsLineBreak(c: char) {
    10 <= c as int <= 13 || 28 <= c as int <= 30 || c as int == 0x85 || c as int == 0x2028 || c as int == 0x2029
  }

  /** string.punctuation is the four ASCII runs between the letters, digits and space */
  lemma PunctRanges(c: char)
    requires IsPunct(c)
    ensures 33 <= c as int <= 47 || 58 <= c as int <= 64 || 91 <= c as int <= 96 || 123 <= c as int <= 126
  {
    var i :| 0 <= i < |PUNCTUATION| && PUNCTUATION[i] == c;
  }

  /** Letters and digits are not punctuation */
  lemma AlphanumericNotPunct(c: char)
    requires IsAlpha(c) || IsNumeric(c)
    ensures !IsPunct(c)
  {
    if IsPunct(c) {
      PunctRanges(c);
    }
  }

  predicate HasAlpha(s: string) { exists i :: 0 <= i < |s| && IsAlpha(s[i]) }
  predicate HasNumeric(s: string) { exists i :: 0 <= i < |s| && IsNumeric(s[i]) }
  predicate HasSpace(s: string) { exists i :: 0 <= i < |s| && IsSpace(s[i]) }
  predicate HasPunct(s: string) { exists i :: 0 <= i < |s| && IsPunct(s[i]) }
  predicate HasLineBreak(s: string) { exists i :: 0 <= i < |s| && IsLineBreak(s[i]) }
  predicate AllNumeric(s: string) { forall i :: 0 <= i < |s| ==> IsNumeric(s[i]) }

  // ---------------------------------------------------------------------
  // Small sequence helpers
  // ---------------------------------------------------------------------

  function Repeat(c: char, n: nat): (r: string)
    ensures |r| == n && forall i :: 0 <= i < n ==> r[i] == c
  {
    seq(n, _ => c)
  }

  predicate StartsWith(s: string, prefix: string) {
    |prefix| <= |s| && s[..|prefix|] == prefix
  }

  predicate EndsWith(s: string, suffix: string) {
    |suffix| <= |s| && s[|s| - |suffix|..] == suffix
  }

  /** Python slicing s[n:], which is empty when s is shorter than n */
  function DropPrefix(s: string, n: nat): string {
    if n <= |s| then s[n..] else ""
  }

  /** str.count of a single character */
  function Count(s: string, c: char): nat {
    if s == [] then 0 else (if s[0] == c then 1 else 0) + Count(s[1..], c)
  }

  lemma {:induction false} CountZero(s: string, c: char)
    ensures Count(s, c) == 0 <==> c !in s
  {
    if s != [] {
      CountZero(s[1..], c);
      assert c in s <==> s[0] == c || c in s[1..];
    }
  }

  lemma {:induction false} CountAppend(a: string, b: string, c: char)
    ensures Count(a + b, c) == Count(a, c) + Count(b, c)
  {
    if a != [] {
      assert (a + b)[1..] == a[1..] + b;
      CountAppend(a[1..], b, c);
    } else {
      assert a + b == b;
    }
  }

  /** Python's < on str: code-point lexicographic order, a proper prefix first */
  predicate LexLess(a: string, b: string) {
    if a == [] then b != []
    else if b == [] then false
    else if a[0] != b[0] then a[0] < b[0]
    else LexLess(a[1..], b[1..])
  }

  // ---------------------------------------------------------------------
  // str(int) and int(str)
  // ---------------------------------------------------------------------

  function DigitChar(d: nat): (c: char)
    requires d < 10
    ensures IsNumeric(c)
  {
    ('0' as int + d) as char
  }

  function DigitValue(c: char): nat
    requires IsNumeric(c)
  {
    c as int - '0' as int
  }

  /** str(n) for a non-negative integer: its shortest decimal numeral */
  function Dec(n: nat): (r: string)
    ensures 1 <= |r| && AllNumeric(r)
    ensures (r[0] == '0') == (n == 0)
  {
    if n < 10 then [DigitChar(n)] else Dec(n / 10) + [DigitChar(n % 10)]
  }

  /** str(i) for any integer */
  function IntToString(i: int): string {
    if i < 0 then "-" + Dec(-i) else Dec(i)
  }

  /** The value of a string of decimal digits, most significant first */
  function DigitsValue(s: string): nat
    requires AllNumeric(s)
  {
    if s == [] then 0 else DigitsValue(s[..|s| - 1]) * 10 + DigitValue(s[|s| - 1])
  }

  lemma {:induction false} DecRoundTrip(n: nat)
    ensures DigitsValue(Dec(n)) == n
  {
    if n >= 10 {
      var s := Dec(n);
      assert s[..|s| - 1] == Dec(n / 10);
      DecRoundTrip(n / 10);
    }
  }

  lemma {:induction false} DigitsValueLeadingZeros(k: nat, s: string)
    requires AllNumeric(s)
    ensures AllNumeric(Repeat('0', k) + s)
    ensures DigitsValue(Repeat('0', k) + s) == DigitsValue(s)
  {
    var z := Repeat('0', k);
    if s == [] {
      assert z + s == z;
      if k > 0 {
        assert z[..k - 1] == Repeat('0', k - 1);
        DigitsValueLeadingZeros(k - 1, []);
        assert Repeat('0', k - 1) + [] == Repeat('0', k - 1);
      }
    } else {
      var t := z + s;
      assert t[..|t| - 1] == z + s[..|s| - 1];
      DigitsValueLeadingZeros(k, s[..|s| - 1]);
    }
  }

  /** Decimal numerals of different numbers differ */
  lemma DecInjective(a: nat, b: nat)
    requires Dec(a) == Dec(b)
    ensures a == b
  {
    DecRoundTrip(a);
    DecRoundTrip(b);
  }

  lemma IntToStringInjective(a: int, b: int)
    requires IntToString(a) == IntToString(b)
    ensures a == b
  {
    if a < 0 {
      assert IntToString(a)[0] == '-';
      assert b < 0;
      assert Dec(-a) == IntToString(a)[1..];
      assert Dec(-b) == IntToString(b)[1..];
      DecInjective(-a, -b);
    } else {
      assert IsNumeric(IntToString(a)[0]);
      assert b >= 0;
      DecInjective(a, b);
    }
  }

  function StripLeft(s: string): (r: string)
    ensures |r| <= |s|
    ensures r != [] ==> !IsSpace(r[0])
  {
    if s != [] && IsSpace(s[0]) then StripLeft(s[1..]) else s
  }

  function StripRight(s: string): (r: string)
    ensures |r| <= |s|
  {
    if s != [] && IsSpace(s[|s| - 1]) then StripRight(s[..|s| - 1]) else s
  }

  /** str.strip() */
  function Strip(s: string): string {
    StripRight(StripLeft(s))
  }

  function RemoveUnderscores(s: string): string {
    if s == [] then [] else (if s[0] == '_' then [] else [s[0]]) + RemoveUnderscores(s[1..])
  }

  /** Digits with single underscores between them, as int() accepts */
  predicate IsGroupedDigits(s: string) {
    && 0 < |s|
    && IsNumeric(s[0]) && IsNumeric(s[|s| - 1])
    && (forall i :: 0 <= i < |s| ==> IsNumeric(s[i]) || s[i] == '_')
    && (forall i :: 0 <= i < |s| - 1 ==> !(s[i] == '_' && s[i + 1] == '_'))
  }

  lemma {:induction false} RemoveUnderscoresNumeric(s: string)
    requires forall i :: 0 <= i < |s| ==> IsNumeric(s[i]) || s[i] == '_'
    ensures AllNumeric(RemoveUnderscores(s))
  {
    if s != [] {
      RemoveUnderscoresNumeric(s[1..]);
    }
  }

  lemma {:induction false} RemoveUnderscoresNone(s: string)
    requires AllNumeric(s)
    ensures RemoveUnderscores(s) == s
  {
    if s != [] {
      RemoveUnderscoresNone(s[1..]);
    }
  }

  function ParseUnsigned(s: string): (r: Option<int>)
    ensures r.Some? ==> 0 <= r.value
  {
    if IsGroupedDigits(s) then
      RemoveUnderscoresNumeric(s);
      Some(DigitsValue(RemoveUnderscores(s)))
    else None
  }

  /**
   * int(s) for a str: surrounding whitespace is ignored, one optional sign,
   * then decimal digits possibly grouped by single underscores; anything
   * else raises ValueError (here: None).
   */
  function ParseInt(s: string): Option<int> {
    var t := Strip(s);
    if 0 < |t| && (t[0] == '+' || t[0] == '-') then
      match ParseUnsigned(t[1..])
      case None => None
      case Some(v) => Some(if t[0] == '-' then -v else v)
    else ParseUnsigned(t)
  }

  lemma {:induction false} StripNumeric(s: string)
    requires AllNumeric(s)
    ensures Strip(s) == s
  {
    assert StripLeft(s) == s;
    assert StripRight(s) == s;
  }

  /** int(s) reads back any string of decimal digits, leading zeros included */
  lemma ParseIntDigits(s: string)
    requires 0 < |s| && AllNumeric(s)
    ensures ParseInt(s) == Some(DigitsValue(s))
  {
    StripNumeric(s);
    RemoveUnderscoresNone(s);
  }

  /** int(str(n)) == n */
  lemma ParseIntDec(n: nat)
    ensures ParseInt(Dec(n)) == Some(n)
  {
    ParseIntDigits(Dec(n));
    DecRoundTrip(n);
  }

  /** int(str(i)) == i for every integer */
  lemma ParseIntIntToString(i: int)
    ensures ParseInt(IntToString(i)) == Some(i)
  {
    if i < 0 {
      ParseIntNegative(-i);
    } else {
      ParseIntDec(i);
    }
  }

  lemma ParseIntNegative(n: nat)
    ensures ParseInt("-" + Dec(n)) == Some(-(n as int))
  {
    var d := Dec(n);
    var t := "-" + d;
    assert t[0] == '-' && t[1..] == d;
    assert Strip(t) == t by {
      assert StripLeft(t) == t;
      assert t[|t| - 1] == d[|d| - 1];
      assert StripRight(t) == t;
    }
    assert ParseUnsigned(d) == Some(n) by {
      RemoveUnderscoresNone(d);
      DecRoundTrip(n);
    }
  }

  /** str.zfill(width) */
  function ZFill(s: string, width: nat): string {
    if width <= |s| then s
    else if 0 < |s| && (s[0] == '+' || s[0] == '-') then [s[0]] + Repeat('0', width - |s|) + s[1..]
    else Repeat('0', width - |s|) + s
  }

  /** The four-digit counter numeral: str(k).zfill(4) */
  function Pad4(k: nat): string {
    ZFill(Dec(k), 4)
  }

  lemma {:induction false} DecLength(n: nat, w: nat)
    requires n < Pow10(w)
    ensures |Dec(n)| <= w || (n == 0 && w == 0)
  {
    if n >= 10 {
      DecLength(n / 10, w - 1);
    }
  }

  function Pow10(w: nat): nat {
    if w == 0 then 1 else 10 * Pow10(w - 1)
  }

  /** Counter values 0..9999 render as exactly four digits, and read back */
  lemma Pad4Facts(k: nat)
    requires k <= 9999
    ensures |Pad4(k)| == 4 && AllNumeric(Pad4(k))
    ensures ParseInt(Pad4(k)) == Some(k)
  {
    assert Pow10(4) == 10000;
    DecLength(k, 4);
    var d := Dec(k);
    assert Pad4(k) == Repeat('0', 4 - |d|) + d;
    DigitsValueLeadingZeros(4 - |d|, d);
    ParseIntDigits(Pad4(k));
    DecRoundTrip(k);
  }

  lemma Pad4Injective(a: nat, b: nat)
    requires a <= 9999 && b <= 9999 && Pad4(a) == Pad4(b)
    ensures a == b
  {
    Pad4Facts(a);
    Pad4Facts(b);
  }

  // ---------------------------------------------------------------------
  // Searching, splitting and replacing
  // ---------------------------------------------------------------------

  predicate OccursAt(s: string, sub: string, j: int) {
    0 <= j && j + |sub| <= |s| && s[j..j + |sub|] == sub
  }

  /** The first occurrence of sub at or after index j */
  function IndexFrom(s: string, sub: string, j: nat): (r: Option<nat>)
    requires 0 < |sub|
    ensures r.Some? ==> j <= r.value && OccursAt(s, sub, r.value)
    ensures r.Some? ==> forall k :: j <= k < r.value ==> !OccursAt(s, sub, k)
    ensures r.None? ==> forall k :: j <= k ==> !OccursAt(s, sub, k)
    decreases |s| - j
  {
    if |s| < j + |sub| then None
    else if OccursAt(s, sub, j) then Some(j)
    else IndexFrom(s, sub, j + 1)
  }

  /** str.find for a non-empty needle: the first occurrence, if any */
  function IndexOf(s: string, sub: string): (r: Option<nat>)
    requires 0 < |sub|
    ensures r.Some? ==> OccursAt(s, sub, r.value)
    ensures r.Some? ==> forall j :: 0 <= j < r.value ==> !OccursAt(s, sub, j)
    ensures r.None? ==> forall j :: !OccursAt(s, sub, j)
  {
    IndexFrom(s, sub, 0)
  }

  /** The first occurrence of a one-character needle is its first index */
  lemma IndexOfChar(a: string, c: char, b: string)
    requires c !in a
    ensures IndexOf(a + [c] + b, [c]) == Some(|a|)
  {
    var s := a + [c] + b;
    assert OccursAt(s, [c], |a|) by { assert s[|a|..|a| + 1] == [c]; }
    forall j | 0 <= j < |a| ensures !OccursAt(s, [c], j) {
      assert s[j..j + 1] == [a[j]];
    }
  }

  lemma IndexOfCharAbsent(s: string, c: char)
    requires c !in s
    ensures IndexOf(s, [c]) == None
  {
    forall j | 0 <= j < |s| ensures !OccursAt(s, [c], j) {
      assert s[j..j + 1] == [s[j]];
    }
  }

  /** str.split(sep) for a non-empty separator */
  function Split(s: string, sep: string): (r: seq<string>)
    requires 0 < |sep|
    ensures 1 <= |r|
    decreases |s|
  {
    match IndexOf(s, sep)
    case None => [s]
    case Some(i) => [s[..i]] + Split(s[i + |sep|..], sep)
  }

  /** sep.join(parts) */
  function JoinWith(sep: string, parts: seq<string>): string {
    if |parts| == 0 then ""
    else if |parts| == 1 then parts[0]
    else parts[0] + sep + JoinWith(sep, parts[1..])
  }

  lemma JoinCons(sep: string, first: string, rest: seq<string>)
    requires 1 <= |rest|
    ensures JoinWith(sep, [first] + rest) == first + sep + JoinWith(sep, rest)
  {
    assert ([first] + rest)[1..] == rest;
  }

  /** A split at the first occurrence i: the piece before it, then the split of the rest */
  lemma SplitAt(s: string, sep: string, i: nat)
    requires 0 < |sep| && IndexOf(s, sep) == Some(i)
    ensures i + |sep| <= |s| && s == s[..i] + sep + s[i + |sep|..]
    ensures Split(s, sep) == [s[..i]] + Split(s[i + |sep|..], sep)
  {
    assert OccursAt(s, sep, i);
    assert s[i..i + |sep|] == sep;
    assert s == s[..i] + s[i..i + |sep|] + s[i + |sep|..];
  }

  /** Joining the pieces of a split with the same separator restores the string */
  lemma {:induction false} SplitJoin(s: string, sep: string)
    requires 0 < |sep|
    ensures JoinWith(sep, Split(s, sep)) == s
    decreases |s|
  {
    match IndexOf(s, sep)
    case None =>
    case Some(i) =>
      var rest := s[i + |sep|..];
      SplitAt(s, sep, i);
      SplitJoin(rest, sep);
      JoinCons(sep, s[..i], Split(rest, sep));
  }

  lemma SplitCharCons(a: string, c: char, b: string)
    requires c !in a
    ensures Split(a + [c] + b, [c]) == [a] + Split(b, [c])
  {
    var s := a + [c] + b;
    IndexOfChar(a, c, b);
    assert s[..|a|] == a;
    assert s[|a| + 1..] == b;
  }

  lemma SplitCharNone(s: string, c: char)
    requires c !in s
    ensures Split(s, [c]) == [s]
  {
    IndexOfCharAbsent(s, c);
  }

  /** Splitting a join of separator-free pieces gives the pieces back */
  lemma {:induction false} JoinSplitChar(parts: seq<string>, c: char)
    requires 1 <= |parts|
    requires forall i :: 0 <= i < |parts| ==> c !in parts[i]
    ensures Split(JoinWith([c], parts), [c]) == parts
  {
    if |parts| == 1 {
      SplitCharNone(parts[0], c);
    } else {
      var rest := JoinWith([c], parts[1..]);
      assert JoinWith([c], parts) == parts[0] + [c] + rest;
      assert forall i :: 0 <= i < |parts[1..]| ==> c !in parts[1..][i] by {
        forall i | 0 <= i < |parts[1..]| ensures c !in parts[1..][i] {
          assert parts[1..][i] == parts[i + 1];
        }
      }
      assert Split(rest, [c]) == parts[1..] by {
        JoinSplitChar(parts[1..], c);
      }
      SplitCharCons(parts[0], c, rest);
      assert [parts[0]] + parts[1..] == parts;
    }
  }

  /** str.replace(old, new), every occurrence, left to right */
  function Replace(s: string, find: string, repl: string): string
    decreases |s|
  {
    if |find| == 0 then Interleave(s, repl)
    else
      match IndexOf(s, find)
      case None => s
      case Some(i) => s[..i] + repl + Replace(s[i + |find|..], find, repl)
  }

  /** 'abc'.replace('', '#') == '#a#b#c#' */
  function Interleave(s: string, repl: string): string {
    if s == [] then repl else repl + [s[0]] + Interleave(s[1..], repl)
  }

  /** Removing a trailing extension whose first character occurs nowhere earlier */
  lemma ReplaceExtension(x: string, ext: string)
    requires 0 < |ext| && ext[0] !in x
    ensures Replace(x + ext, ext, "") == x
  {
    var s := x + ext;
    assert OccursAt(s, ext, |x|) by { assert s[|x|..|x| + |ext|] == ext; }
    assert s[..|x|] == x;
    assert s[|x| + |ext|..] == [];
  }

  // ---------------------------------------------------------------------
  // str.splitlines() and str.split() without a separator
  // ---------------------------------------------------------------------

  function FirstLineBreak(s: string): (r: Option<nat>)
    ensures r.Some? ==> r.value < |s| && IsLineBreak(s[r.value]) && !HasLineBreak(s[..r.value])
    ensures r.None? ==> !HasLineBreak(s)
  {
    if s == [] then None
    else if IsLineBreak(s[0]) then Some(0)
    else
      match FirstLineBreak(s[1..])
      case None => None
      case Some(k) =>
        assert s[..k + 1] == [s[0]] + s[1..][..k];
        Some(k + 1)
  }

  /** str.splitlines(): no trailing empty piece, CR LF is one boundary */
  function SplitLines(s: string): seq<string>
    decreases |s|
  {
    if s == [] then []
    else
      match FirstLineBreak(s)
      case None => [s]
      case Some(i) =>
        var next := if s[i] == '\r' && i + 1 < |s| && s[i + 1] == '\n' then i + 2 else i + 1;
        [s[..i]] + SplitLines(s[next..])
  }

  /** The content file.write(piece); file.write('\n') leaves for each piece */
  function Lines(pieces: seq<string>): string {
    if pieces == [] then "" else pieces[0] + "\n" + Lines(pieces[1..])
  }

  /** No piece splitlines returns contains a line boundary */
  lemma {:induction false} SplitLinesNoBreaks(s: string)
    ensures forall k :: 0 <= k < |SplitLines(s)| ==> !HasLineBreak(SplitLines(s)[k])
    decreases |s|
  {
    if s != [] {
      match FirstLineBreak(s)
      case None =>
      case Some(i) =>
        var next := if s[i] == '\r' && i + 1 < |s| && s[i + 1] == '\n' then i + 2 else i + 1;
        SplitLinesNoBreaks(s[next..]);
    }
  }

  lemma {:induction false} FirstLineBreakAt(x: string, c: char, y: string)
    requires !HasLineBreak(x) && IsLineBreak(c)
    ensures FirstLineBreak(x + [c] + y) == Some(|x|)
  {
    if x != [] {
      assert (x + [c] + y)[1..] == x[1..] + [c] + y;
      assert !IsLineBreak(x[0]);
      assert !HasLineBreak(x[1..]) by {
        forall i | 0 <= i < |x| - 1 ensures !IsLineBreak(x[1..][i]) {
          assert x[1..][i] == x[i + 1];
        }
      }
      FirstLineBreakAt(x[1..], c, y);
    }
  }

  /** Writing pieces one per line and reading them back with splitlines is lossless */
  lemma {:induction false} SplitLinesOfLines(pieces: seq<string>)
    requires forall k :: 0 <= k < |pieces| ==> !HasLineBreak(pieces[k])
    ensures SplitLines(Lines(pieces)) == pieces
  {
    if pieces != [] {
      var p := pieces[0];
      var rest := Lines(pieces[1..]);
      var s := p + "\n" + rest;
      assert Lines(pieces) == s;
      assert SplitLines(s) == [p] + SplitLines(rest) by {
        FirstLineBreakAt(p, '\n', rest);
        assert s[|p|] == '\n';
        assert s[..|p|] == p;
        assert s[|p| + 1..] == rest;
      }
      assert SplitLines(rest) == pieces[1..] by {
        assert forall k :: 0 <= k < |pieces[1..]| ==> !HasLineBreak(pieces[1..][k]) by {
          forall k | 0 <= k < |pieces[1..]| ensures !HasLineBreak(pieces[1..][k]) {
            assert pieces[1..][k] == pieces[k + 1];
          }
        }
        SplitLinesOfLines(pieces[1..]);
      }
      assert [p] + pieces[1..] == pieces;
    }
  }

  function FirstSpace(s: string): (r: Option<nat>)
    ensures r.Some? ==> r.value < |s| && IsSpace(s[r.value]) && !HasSpace(s[..r.value])
    ensures r.None? ==> !HasSpace(s)
  {
    if s == [] then None
    else if IsSpace(s[0]) then Some(0)
    else
      match FirstSpace(s[1..])
      case None => None
      case Some(k) =>
        assert s[..k + 1] == [s[0]] + s[1..][..k];
        Some(k + 1)
  }

  /** str.split() with no separator: runs of whitespace separate, empty pieces dropped */
  function SplitWhitespace(s: string): (r: seq<string>)
    ensures forall k :: 0 <= k < |r| ==> r[k] != [] && !HasSpace(r[k])
    decreases |s|
  {
    var t := StripLeft(s);
    if t == [] then []
    else
      match FirstSpace(t)
      case None => [t]
      case Some(i) => [t[..i]] + SplitWhitespace(t[i..])
  }

  // ---------------------------------------------------------------------
  // Paths
  // ---------------------------------------------------------------------

  /** os.path.join(root, name) on Windows, for a relative name */
  function PathJoin(root: string, name: string): string {
    if root == [] || root[|root| - 1] == '\\' || root[|root| - 1] == '/' then root + name
    else root + "\\" + name
  }
}
