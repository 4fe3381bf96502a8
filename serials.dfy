/**
 * Serial numbers of pyxidust/projects.py: a base 'YYYYRRRR' (the year
 * followed by a number read from the counter file) and a composite
 * 'YYYYRRRR-CCCC' with a four-digit counter.  This module holds the pure
 * part: what new_serial decides for a given serial, what get_serial reads
 * and writes, and which dialogs validate_serial shows.  The file itself is
 * the state of Pyxidust.Workspace.
 */
module Serials {
  import opened Builtins
  import opened Strings

  // ---------------------------------------------------------------------
  // get_serial and new_serial
  // ---------------------------------------------------------------------

  /**
   * get_serial: the year followed by str(n + 1), where n is int() of the
   * counter file; a file that int() rejects raises ValueError.
   */
  function NextBase(year: int, counter: string): (r: Result<string>)
    ensures ParseInt(counter).None? <==> r == Err(ValueError)
    ensures r.Ok? ==> exists n :: ParseInt(counter) == Some(n) && r.value == IntToString(year) + IntToString(n + 1)
  {
    match ParseInt(counter)
    case None => Err(ValueError)
    case Some(n) => Ok(IntToString(year) + IntToString(n + 1))
  }

  /** What new_serial decides for a serial that is not None, before it touches the counter */
  datatype Step = Minted(serial: string) | Rollover | Fails(error: PyError)

  /**
   * new_serial(serial) for a given serial (pyxidust/projects.py:529-539):
   * 8 characters gain '-0001'; 13 characters are unpacked at the one '-',
   * the part after it read with int() and incremented, a result above 9999
   * asking for a fresh base; any other length leaves serial_new unbound.
   */
  function Increment(serial: string): Step {
    if |serial| == 8 then Minted(serial + "-0001")
    else if |serial| == 13 then
      var parts := Split(serial, "-");
      if |parts| != 2 then Fails(ValueError)
      else
        match ParseInt(parts[1])
        case None => Fails(ValueError)
        case Some(k) =>
          if k + 1 > 9999 then Rollover else Minted(parts[0] + "-" + ZFill(IntToString(k + 1), 4))
    else Fails(UnboundLocalError("serial_new"))
  }

  /** The result of one new_serial call and the counter file afterwards */
  datatype Minting = Minting(result: Result<string>, counter: string)

  /** f'{get_serial()}-0001': the counter file ends up holding the whole base */
  function FreshSerial(year: int, counter: string): Minting {
    match NextBase(year, counter)
    case Err(e) => Minting(Err(e), counter)
    case Ok(base) => Minting(Ok(base + "-0001"), base)
  }

  /** new_serial(serial) as a transition of the counter file */
  function Mint(year: int, counter: string, serial: Option<string>): Minting {
    match serial
    case None => FreshSerial(year, counter)
    case Some(s) =>
      match Increment(s)
      case Minted(t) => Minting(Ok(t), counter)
      case Rollover => FreshSerial(year, counter)
      case Fails(e) => Minting(Err(e), counter)
  }

  // ---------------------------------------------------------------------
  // validate_serial
  // ---------------------------------------------------------------------

  /** The dialogs validate_serial can show */
  datatype Notice = Letters | Spaces | Special | Format

  function NoticeText(n: Notice): string {
    match n
    case Letters => "Serial number must not contain letters"
    case Spaces => "Serial number cannot have spaces"
    case Special => "Serial number cannot have special characters"
    case Format => "Serial # format is 00000000 or 00000000-0000"
  }

  /** _check_numeric: letters are looked for first, then whitespace, then punctuation */
  function CheckNumeric(value: string): seq<Notice> {
    if HasAlpha(value) then [Letters]
    else if HasSpace(value) then [Spaces]
    else if HasPunct(value) then [Special]
    else []
  }

  /** The two shapes validate_serial accepts */
  predicate HasSerialShape(s: string) {
    |s| == 8 || (|s| == 13 && Count(s, '-') == 1 && s[8] == '-')
  }

  /** validate_serial: the dialogs shown, in order; it returns nothing and stops nothing */
  function ValidateSerial(s: string): seq<Notice> {
    if |s| == 8 then CheckNumeric(s)
    else if |s| == 13 && Count(s, '-') == 1 && s[8] == '-' then
      CountDashShape(s);
      ShapeSplit(s);
      var parts := Split(s, "-");
      CheckNumeric(parts[0]) + CheckNumeric(parts[1])
    else [Format]
  }

  /** A string none of the three checks flags */
  predicate Clean(s: string) {
    !HasAlpha(s) && !HasSpace(s) && !HasPunct(s)
  }

  /** The serials the documentation describes: 8 digits, optionally '-' and 4 digits */
  predicate DigitSerial(s: string) {
    (|s| == 8 && AllNumeric(s)) ||
    (|s| == 13 && AllNumeric(s[..8]) && s[8] == '-' && AllNumeric(s[9..]))
  }

  // ---------------------------------------------------------------------
  // Properties
  // ---------------------------------------------------------------------

  /** A 13-character serial with its one '-' at index 8 unpacks into the 8 and 4 characters around it */
  lemma ShapeSplit(s: string)
    requires |s| == 13 && s[8] == '-' && '-' !in s[..8] && '-' !in s[9..]
    ensures Split(s, "-") == [s[..8], s[9..]]
  {
    assert s == s[..8] + ['-'] + s[9..];
    SplitCharCons(s[..8], '-', s[9..]);
    SplitCharNone(s[9..], '-');
  }

  lemma CountDashShape(s: string)
    requires |s| == 13 && Count(s, '-') == 1 && s[8] == '-'
    ensures '-' !in s[..8] && '-' !in s[9..]
  {
    assert s == s[..8] + (['-'] + s[9..]);
    CountAppend(s[..8], ['-'] + s[9..], '-');
    CountAppend(['-'], s[9..], '-');
    CountZero(s[..8], '-');
    CountZero(s[9..], '-');
  }

  lemma DashShapeCount(s: string)
    requires |s| == 13 && s[8] == '-' && '-' !in s[..8] && '-' !in s[9..]
    ensures Count(s, '-') == 1
  {
    assert s == s[..8] + (['-'] + s[9..]);
    CountAppend(s[..8], ['-'] + s[9..], '-');
    CountAppend(['-'], s[9..], '-');
    CountZero(s[..8], '-');
    CountZero(s[9..], '-');
  }

  /** validate_serial reports a format error exactly when the shape is wrong, and then only that */
  lemma ValidateSerialFormat(s: string)
    ensures Format in ValidateSerial(s) <==> !HasSerialShape(s)
    ensures !HasSerialShape(s) ==> ValidateSerial(s) == [Format]
  {
    if |s| == 13 && Count(s, '-') == 1 && s[8] == '-' {
      CountDashShape(s);
      ShapeSplit(s);
    }
  }

  /**
   * validate_serial is silent exactly for a well-shaped serial whose
   * segments contain no letter, whitespace or punctuation.
   */
  lemma ValidateSerialSilent(s: string)
    ensures ValidateSerial(s) == [] <==> Silent(s)
  {
    if |s| == 8 {
      CheckNumericSilent(s);
    } else if |s| == 13 && Count(s, '-') == 1 && s[8] == '-' {
      SilentComposite(s);
    } else {
      assert ValidateSerial(s) == [Format];
    }
  }

  /** The serials validate_serial shows no dialog for */
  predicate Silent(s: string) {
    (|s| == 8 && Clean(s)) ||
    (|s| == 13 && Count(s, '-') == 1 && s[8] == '-' && Clean(s[..8]) && Clean(s[9..]))
  }

  lemma SilentComposite(s: string)
    requires |s| == 13 && Count(s, '-') == 1 && s[8] == '-'
    ensures ValidateSerial(s) == [] <==> Clean(s[..8]) && Clean(s[9..])
  {
    CountDashShape(s);
    ShapeSplit(s);
    assert ValidateSerial(s) == CheckNumeric(s[..8]) + CheckNumeric(s[9..]);
    CheckNumericSilent(s[..8]);
    CheckNumericSilent(s[9..]);
  }

  lemma CheckNumericSilent(value: string)
    ensures CheckNumeric(value) == [] <==> Clean(value)
  {
  }

  /** The first class found decides: a '-' inside an 8-character serial is a special-character error */
  lemma DashInBaseIsSpecial(s: string)
    requires |s| == 8 && '-' in s && !HasAlpha(s) && !HasSpace(s)
    ensures ValidateSerial(s) == [Special]
  {
    var i :| 0 <= i < |s| && s[i] == '-';
    assert IsPunct(s[i]);
  }

  lemma DigitsAreClean(s: string)
    requires AllNumeric(s)
    ensures Clean(s)
  {
    assert forall i :: 0 <= i < |s| ==> !IsPunct(s[i]) by {
      forall i | 0 <= i < |s| ensures !IsPunct(s[i]) {
        AlphanumericNotPunct(s[i]);
      }
    }
  }

  /** Every serial of the documented form passes validation */
  lemma DigitSerialValid(s: string)
    requires DigitSerial(s)
    ensures ValidateSerial(s) == []
  {
    if |s| == 8 {
      DigitsAreClean(s);
    } else {
      assert '-' !in s[..8] by { assert forall i :: 0 <= i < 8 ==> IsNumeric(s[..8][i]); }
      assert '-' !in s[9..] by { assert forall i :: 0 <= i < 4 ==> IsNumeric(s[9..][i]); }
      DashShapeCount(s);
      DigitsAreClean(s[..8]);
      DigitsAreClean(s[9..]);
      ValidateSerialSilent(s);
    }
  }

  /**
   * new_serial on 'B-CCCC' (B without '-', CCCC digits): the counter is
   * incremented and zero-padded back to four digits, or, past 9999, a fresh
   * base is asked for.
   */
  lemma IncrementComposite(base: string, suffix: string)
    requires |base| == 8 && '-' !in base
    requires |suffix| == 4 && AllNumeric(suffix)
    ensures var k := DigitsValue(suffix);
      Increment(base + "-" + suffix) ==
        if k + 1 <= 9999 then Minted(base + "-" + Pad4(k + 1)) else Rollover
  {
    var s := base + "-" + suffix;
    assert s[..8] == base && s[9..] == suffix;
    assert '-' !in suffix by { assert forall i :: 0 <= i < 4 ==> IsNumeric(suffix[i]); }
    ShapeSplit(s);
    ParseIntDigits(suffix);
  }

  /** The counter suffix as new_serial writes it: B-zfill4(k) becomes B-zfill4(k + 1), or rolls over at 9999 */
  lemma IncrementPadded(base: string, k: nat)
    requires |base| == 8 && '-' !in base && k <= 9999
    ensures Increment(base + "-" + Pad4(k)) ==
      if k + 1 <= 9999 then Minted(base + "-" + Pad4(k + 1)) else Rollover
  {
    Pad4Facts(k);
    ParseIntDigits(Pad4(k));
    IncrementComposite(base, Pad4(k));
  }

  /** new_serial on B-zfill4(k) below the rollover mints B-zfill4(k + 1) and leaves the counter file alone */
  lemma MintPadded(year: int, counter: string, base: string, k: nat)
    requires |base| == 8 && '-' !in base && k + 1 <= 9999
    ensures Mint(year, counter, Some(base + "-" + Pad4(k))) == Minting(Ok(base + "-" + Pad4(k + 1)), counter)
  {
    IncrementPadded(base, k);
  }

  /** Minting keeps the documented shape: a digit serial is followed by a 13-character digit serial */
  lemma IncrementKeepsShape(s: string)
    requires DigitSerial(s)
    ensures Increment(s).Minted? ==> DigitSerial(Increment(s).serial) && |Increment(s).serial| == 13
  {
    if |s| == 8 {
      assert AllNumeric("0001");
      ComposedShape(s, "0001");
    } else {
      assert s == s[..8] + "-" + s[9..];
      assert '-' !in s[..8] by { assert forall i :: 0 <= i < 8 ==> IsNumeric(s[..8][i]); }
      IncrementComposite(s[..8], s[9..]);
      var k := DigitsValue(s[9..]);
      if k + 1 <= 9999 {
        Pad4Facts(k + 1);
        ComposedShape(s[..8], Pad4(k + 1));
      }
    }
  }

  /** Eight digits, '-' and four digits make a 13-character digit serial */
  lemma ComposedShape(base: string, suffix: string)
    requires |base| == 8 && AllNumeric(base)
    requires |suffix| == 4 && AllNumeric(suffix)
    ensures DigitSerial(base + "-" + suffix) && |base + "-" + suffix| == 13
  {
    var t := base + "-" + suffix;
    assert t[..8] == base && t[9..] == suffix;
  }

  /** Only the None branch and the rollover branch touch the counter file */
  lemma MintCounterUnchanged(year: int, counter: string, serial: Option<string>)
    requires serial.Some? && Increment(serial.value) != Rollover
    ensures Mint(year, counter, serial).counter == counter
  {
  }

  /**
   * The None and rollover branches: the serial is the fresh base plus
   * '-0001', and the counter file afterwards holds that base, year prefix
   * included.
   */
  lemma MintFresh(year: int, counter: string, serial: Option<string>, n: int)
    requires serial.None? || Increment(serial.value) == Rollover
    requires ParseInt(counter) == Some(n)
    ensures Mint(year, counter, serial) ==
      Minting(Ok(IntToString(year) + IntToString(n + 1) + "-0001"), IntToString(year) + IntToString(n + 1))
  {
  }

  /** Validation is advisory: an 8-character serial with letters still gains '-0001' */
  lemma AdvisoryValidation()
    ensures ValidateSerial("2023ABCD") == [Letters]
    ensures Mint(2023, "100", Some("2023ABCD")) == Minting(Ok("2023ABCD-0001"), "100")
  {
    assert IsAlpha("2023ABCD"[4]);
    assert "2023ABCD" + "-0001" == "2023ABCD-0001";
  }

  // ---------------------------------------------------------------------
  // The counter file holds the whole serial
  // ---------------------------------------------------------------------

  lemma {:induction false} DecLowerBound(n: nat, w: nat)
    requires 1 <= w && Pow10(w - 1) <= n
    ensures w <= |Dec(n)|
  {
    if w > 1 {
      assert Pow10(w - 1) == 10 * Pow10(w - 2);
      DecLowerBound(n / 10, w - 1);
    }
  }

  lemma {:induction false} DigitsValueLowerBound(s: string)
    requires 0 < |s| && AllNumeric(s) && s[0] != '0'
    ensures Pow10(|s| - 1) <= DigitsValue(s)
  {
    if |s| > 1 {
      var init := s[..|s| - 1];
      assert init[0] == s[0];
      DigitsValueLowerBound(init);
    } else {
      assert DigitsValue(s) == DigitsValue([]) * 10 + DigitValue(s[0]);
    }
  }

  /** A digit string without a leading zero, incremented, keeps at least its length */
  lemma SuccessorLength(s: string)
    requires 0 < |s| && AllNumeric(s) && s[0] != '0'
    ensures |s| <= |Dec(DigitsValue(s) + 1)|
  {
    DigitsValueLowerBound(s);
    DecLowerBound(DigitsValue(s) + 1, |s|);
  }

  lemma BaseDigits(year: nat, m: nat)
    requires 1 <= year
    ensures var b := Dec(year) + Dec(m);
      0 < |b| && AllNumeric(b) && b[0] != '0' && ParseInt(b) == Some(DigitsValue(b))
  {
    var b := Dec(year) + Dec(m);
    assert b[0] == Dec(year)[0];
    assert AllNumeric(b) by {
      forall i | 0 <= i < |b| ensures IsNumeric(b[i]) {
        if i < |Dec(year)| { assert b[i] == Dec(year)[i]; } else { assert b[i] == Dec(m)[i - |Dec(year)|]; }
      }
    }
    ParseIntDigits(b);
  }

  /**
   * Because get_serial writes the year-prefixed base back, the next call
   * reads that whole base as its counter: the second base is at least as
   * long as the year and the first base together.
   */
  lemma SecondBaseGrows(year: nat, counter: string, b1: string, b2: string)
    requires 1 <= year
    requires NextBase(year, counter) == Ok(b1) && NextBase(year, b1) == Ok(b2)
    requires 0 <= ParseInt(counter).value + 1
    ensures |Dec(year)| + |b1| <= |b2|
  {
    var m: nat := ParseInt(counter).value + 1;
    assert b1 == Dec(year) + Dec(m);
    BaseDigits(year, m);
    SuccessorLength(b1);
    assert b2 == Dec(year) + Dec(DigitsValue(b1) + 1);
  }

  /**
   * So with a four-digit year the second fresh serial from one counter file
   * is no longer a base new_serial can extend: '-0001' makes it at least 17
   * characters, and new_serial on it leaves serial_new unbound.
   */
  lemma SecondFreshSerialStalls(year: nat, counter: string, n: nat)
    requires 1000 <= year <= 9999
    requires ParseInt(counter) == Some(n) && |Dec(n + 1)| == 4
    ensures FreshSerial(year, counter).result.Ok?
    ensures var m := FreshSerial(year, FreshSerial(year, counter).counter);
      m.result.Ok? && Increment(m.result.value) == Fails(UnboundLocalError("serial_new"))
  {
    SecondFreshSerialLength(year, counter, n);
  }

  /** The second fresh serial has at least 17 characters */
  lemma SecondFreshSerialLength(year: nat, counter: string, n: nat)
    requires 1000 <= year <= 9999
    requires ParseInt(counter) == Some(n) && |Dec(n + 1)| == 4
    ensures FreshSerial(year, counter).result.Ok?
    ensures var m := FreshSerial(year, FreshSerial(year, counter).counter);
      m.result.Ok? && 17 <= |m.result.value|
  {
    assert |Dec(year)| == 4 by {
      assert Pow10(4) == 10000;
      DecLength(year, 4);
      DecLowerBound(year, 4);
    }
    var b1 := Dec(year) + Dec(n + 1);
    FreshFromParsed(year, counter, n);
    assert ParseInt(b1) == Some(DigitsValue(b1)) by {
      assert AllNumeric(b1);
      ParseIntDigits(b1);
    }
    var b2 := Dec(year) + Dec(DigitsValue(b1) + 1);
    FreshFromParsed(year, b1, DigitsValue(b1));
    assert 12 <= |b2| by {
      SecondBaseGrows(year, counter, b1, b2);
    }
  }

  /** A fresh serial from a counter file holding n: the base year, n + 1, and '-0001' */
  lemma FreshFromParsed(year: nat, counter: string, n: int)
    requires ParseInt(counter) == Some(n) && 0 <= n + 1
    ensures FreshSerial(year, counter) == Minting(Ok(Dec(year) + Dec(n + 1) + "-0001"), Dec(year) + Dec(n + 1))
  {
  }
}
