/**
 * The general-purpose helpers of utils.py: its copy of new_serial (which
 * keeps a bare counter rather than a year-prefixed one), change_name, the
 * number generator, validate_string, file_parse, and options 1 and 3 of
 * get_time.  The letter generator get_letters is the same code as
 * get_suffix and lives in the Gp module.
 */
module Utils {
  import opened Builtins
  import opened Strings
  import opened Serials

  // ---------------------------------------------------------------------
  // new_serial
  // ---------------------------------------------------------------------

  /** _get_serial then the write: the counter file gets str(int(text) + 1), with no year */
  function PlainFresh(counter: string): (m: Minting)
    ensures ParseInt(counter).None? <==> m == Minting(Err(ValueError), counter)
  {
    match ParseInt(counter)
    case None => Minting(Err(ValueError), counter)
    case Some(n) => Minting(Ok(IntToString(n + 1) + "-0001"), IntToString(n + 1))
  }

  /** new_serial(serial_file, serial_number) as a transition of the counter file */
  function PlainMint(counter: string, serial: Option<string>): Minting {
    match serial
    case None => PlainFresh(counter)
    case Some(s) =>
      match Increment(s)
      case Minted(t) => Minting(Ok(t), counter)
      case Rollover => PlainFresh(counter)
      case Fails(e) => Minting(Err(e), counter)
  }

  /** The text file holding the base serial number */
  class CounterFile {
    var text: string

    constructor (text: string)
      ensures this.text == text
    {
      this.text := text;
    }

    /**
     * new_serial: a fresh serial (no serial given, or the suffix would pass
     * 9999) rewrites the file with the next counter; otherwise the file is
     * left alone.  Validation of the given serial only shows dialogs.
     */
    method NewSerial(serial: Option<string>) returns (r: Result<string>)
      modifies this
      ensures PlainMint(old(text), serial) == Minting(r, text)
    {
      if serial.Some? {
        match Increment(serial.value)
        case Minted(t) => return Ok(t);
        case Fails(e) => return Err(e);
        case Rollover =>
      }
      match ParseInt(text)
      case None => r := Err(ValueError);
      case Some(n) =>
        text := IntToString(n + 1);
        r := Ok(text + "-0001");
    }
  }

  /**
   * Unlike the year-prefixed copy in pyxidust/projects.py, this counter
   * keeps counting: two fresh serials in a row are n+1 and n+2.
   */
  lemma PlainFreshTwice(counter: string, n: int)
    requires ParseInt(counter) == Some(n)
    ensures PlainFresh(counter) == Minting(Ok(IntToString(n + 1) + "-0001"), IntToString(n + 1))
    ensures PlainFresh(PlainFresh(counter).counter) == Minting(Ok(IntToString(n + 2) + "-0001"), IntToString(n + 2))
  {
    ParseIntIntToString(n + 1);
  }

  /** Only a fresh serial touches the file */
  lemma PlainMintCounter(counter: string, serial: Option<string>)
    ensures PlainMint(counter, serial).counter != counter ==>
      ParseInt(counter).Some? && PlainMint(counter, serial).counter == IntToString(ParseInt(counter).value + 1) &&
      (serial.None? || Increment(serial.value) == Rollover)
  {
  }

  // ---------------------------------------------------------------------
  // change_name
  // ---------------------------------------------------------------------

  /** The names of the files os.walk lists that end with the extension, in walk order */
  function Matching(walk: seq<seq<string>>, extension: string): seq<string> {
    if |walk| == 0 then []
    else Matching(walk[..|walk| - 1], extension) + Matching1(walk[|walk| - 1], extension)
  }

  function Matching1(files: seq<string>, extension: string): seq<string> {
    if |files| == 0 then []
    else
      var last := files[|files| - 1];
      Matching1(files[..|files| - 1], extension) + (if EndsWith(last, extension) then [last] else [])
  }

  /** A rename os.rename(photo, f'{serial}{extension}'): the file and its serial */
  datatype Rename = Rename(from: string, serial: int)

  /** The name the file is given */
  function Target(r: Rename, extension: string): string {
    IntToString(r.serial) + extension
  }

  /** The renames of the matching files when the counter started at `start` */
  function Renamed(start: int, names: seq<string>): (r: seq<Rename>)
    ensures |r| == |names|
  {
    if |names| == 0 then []
    else Renamed(start, names[..|names| - 1]) + [Rename(names[|names| - 1], start + |names|)]
  }

  lemma RenamedSnoc(start: int, names: seq<string>, name: string)
    ensures Renamed(start, names + [name]) ==
      Renamed(start, names) + [Rename(name, start + |names| + 1)]
  {
    assert (names + [name])[..|names|] == names;
  }

  lemma RenamedAppend(start: int, a: seq<string>, b: seq<string>)
    ensures Renamed(start, a + b) == Renamed(start, a) + Renamed(start + |a|, b)
  {
    var whole, parts := Renamed(start, a + b), Renamed(start, a) + Renamed(start + |a|, b);
    forall k | 0 <= k < |a + b|
      ensures whole[k] == parts[k]
    {
      RenamedAt(start, a + b, k);
      if k < |a| {
        RenamedAt(start, a, k);
      } else {
        RenamedAt(start + |a|, b, k - |a|);
      }
    }
  }

  /** The k-th matching file is renamed to the counter plus k + 1, followed by the extension */
  lemma {:induction false} RenamedAt(start: int, names: seq<string>, k: nat)
    requires k < |names|
    ensures Renamed(start, names)[k] == Rename(names[k], start + k + 1)
  {
    var n := |names| - 1;
    if k < n {
      RenamedAt(start, names[..n], k);
    }
  }

  lemma MatchingStep(walk: seq<seq<string>>, i: nat, extension: string)
    requires i < |walk|
    ensures Matching(walk[..i + 1], extension) == Matching(walk[..i], extension) + Matching1(walk[i], extension)
  {
    assert walk[..i + 1][..i] == walk[..i];
  }

  /** The counter file holds its old text until the first rename, then the last serial */
  lemma CounterStep(start: int, counter0: string, serialMid: int, counterMid: string, serial1: int, counter1: string)
    requires start <= serialMid <= serial1
    requires counterMid == if serialMid == start then counter0 else IntToString(serialMid)
    requires counter1 == if serial1 == serialMid then counterMid else IntToString(serial1)
    ensures counter1 == if serial1 == start then counter0 else IntToString(serial1)
  {
  }

  /** The working directory change_name renames in, with its counter file */
  class PhotoFolder {
    var counter: string
    var renames: seq<Rename>

    constructor (counter: string)
      ensures this.counter == counter && renames == []
    {
      this.counter := counter;
      renames := [];
    }

    /**
     * change_name: every file with the extension is renamed to the next
     * number followed by the extension, and the counter file is rewritten
     * after each rename.  A counter file that is not an integer raises
     * ValueError before anything is renamed.
     */
    method ChangeName(extension: string, walk: seq<seq<string>>) returns (error: Option<PyError>)
      modifies this
      ensures ParseInt(old(counter)).None? ==> error == Some(ValueError) && counter == old(counter) && renames == old(renames)
      ensures ParseInt(old(counter)).Some? ==>
        var start := ParseInt(old(counter)).value;
        var names := Matching(walk, extension);
        error.None? &&
        renames == old(renames) + Renamed(start, names) &&
        counter == if |names| == 0 then old(counter) else IntToString(start + |names|)
    {
      var parsed := ParseInt(counter);
      if parsed.None? {
        return Some(ValueError);
      }
      var start := parsed.value;
      var serial := RenameWalk(extension, walk, start);
      error := None;
    }

    /** The outer loop over the directories of the walk, the counter at `start` */
    method RenameWalk(extension: string, walk: seq<seq<string>>, start: int) returns (serial: int)
      modifies this
      ensures serial == start + |Matching(walk, extension)|
      ensures renames == old(renames) + Renamed(start, Matching(walk, extension))
      ensures counter == if serial == start then old(counter) else IntToString(serial)
    {
      serial := start;
      var i := 0;
      while i < |walk|
        invariant 0 <= i <= |walk|
        invariant serial == start + |Matching(walk[..i], extension)|
        invariant renames == old(renames) + Renamed(start, Matching(walk[..i], extension))
        invariant counter == if serial == start then old(counter) else IntToString(serial)
      {
        serial := RenameDirectory(extension, walk, i, start, old(renames), old(counter), serial);
        i := i + 1;
      }
      assert walk[..|walk|] == walk;
    }

    /** One pass of the outer loop: the files of walk[i] continue the renaming of walk[..i] */
    method RenameDirectory(extension: string, walk: seq<seq<string>>, i: nat, start: int,
                           ghost renames0: seq<Rename>, ghost counter0: string, serial0: int) returns (serial: int)
      requires i < |walk|
      requires serial0 == start + |Matching(walk[..i], extension)|
      requires renames == renames0 + Renamed(start, Matching(walk[..i], extension))
      requires counter == if serial0 == start then counter0 else IntToString(serial0)
      modifies this
      ensures serial == start + |Matching(walk[..i + 1], extension)|
      ensures renames == renames0 + Renamed(start, Matching(walk[..i + 1], extension))
      ensures counter == if serial == start then counter0 else IntToString(serial)
    {
      ghost var counterMid := counter;
      serial := RenameFiles(extension, walk[i], serial0);
      MatchingStep(walk, i, extension);
      RenamedAppend(start, Matching(walk[..i], extension), Matching1(walk[i], extension));
      AppendAssoc(renames0, Renamed(start, Matching(walk[..i], extension)), Renamed(serial0, Matching1(walk[i], extension)));
      CounterStep(start, counter0, serial0, counterMid, serial, counter);
    }

    /** The inner loop: the files of one directory, the counter at `serial0` */
    method RenameFiles(extension: string, files: seq<string>, serial0: int) returns (serial: int)
      modifies this
      ensures serial == serial0 + |Matching1(files, extension)|
      ensures renames == old(renames) + Renamed(serial0, Matching1(files, extension))
      ensures counter == if serial == serial0 then old(counter) else IntToString(serial)
    {
      serial := serial0;
      var j := 0;
      while j < |files|
        invariant 0 <= j <= |files|
        invariant serial == serial0 + |Matching1(files[..j], extension)|
        invariant renames == old(renames) + Renamed(serial0, Matching1(files[..j], extension))
        invariant counter == if serial == serial0 then old(counter) else IntToString(serial)
      {
        var photo := files[j];
        ghost var m := Matching1(files[..j], extension);
        assert files[..j + 1][..j] == files[..j];
        assert Matching1(files[..j + 1], extension) == m + (if EndsWith(photo, extension) then [photo] else []);
        if EndsWith(photo, extension) {
          RenamedSnoc(serial0, m, photo);
          serial := serial + 1;
          renames := renames + [Rename(photo, serial)];
          AppendAssoc(old(renames), Renamed(serial0, m), [Rename(photo, serial)]);
          counter := IntToString(serial);
        } else {
          assert m + [] == m;
        }
        j := j + 1;
      }
      assert files[..|files|] == files;
    }
  }

  /** Dropping the same suffix from two equal strings leaves equal prefixes */
  lemma SameSuffix(x: string, y: string, e: string)
    requires x + e == y + e
    ensures x == y
  {
    assert |x| == |y|;
    assert x == (x + e)[..|x|];
    assert y == (y + e)[..|y|];
  }

  /**
   * change_name gives the k-th matching file, in walk order, the name
   * str(start + k + 1) + extension: every new name keeps the extension and
   * no two files get the same name.
   */
  lemma ChangeNameTargets(start: int, names: seq<string>, extension: string)
    ensures forall k :: 0 <= k < |names| ==>
      Renamed(start, names)[k].from == names[k] && EndsWith(Target(Renamed(start, names)[k], extension), extension)
    ensures forall a, b :: 0 <= a < b < |names| ==>
      Target(Renamed(start, names)[a], extension) != Target(Renamed(start, names)[b], extension)
  {
    forall k | 0 <= k < |names|
      ensures Renamed(start, names)[k].from == names[k] && EndsWith(Target(Renamed(start, names)[k], extension), extension)
    {
      TargetKeepsExtension(start, names, extension, k);
    }
    forall a, b | 0 <= a < b < |names|
      ensures Target(Renamed(start, names)[a], extension) != Target(Renamed(start, names)[b], extension)
    {
      TargetsDistinct(start, names, extension, a, b);
    }
  }

  lemma TargetKeepsExtension(start: int, names: seq<string>, extension: string, k: nat)
    requires k < |names|
    ensures Renamed(start, names)[k].from == names[k] && EndsWith(Target(Renamed(start, names)[k], extension), extension)
  {
    RenamedAt(start, names, k);
    var t := Target(Renamed(start, names)[k], extension);
    assert t[|t| - |extension|..] == extension;
  }

  lemma TargetsDistinct(start: int, names: seq<string>, extension: string, a: nat, b: nat)
    requires a < b < |names|
    ensures Target(Renamed(start, names)[a], extension) != Target(Renamed(start, names)[b], extension)
  {
    var ra, rb := Renamed(start, names)[a], Renamed(start, names)[b];
    assert ra.serial != rb.serial by {
      RenamedAt(start, names, a);
      RenamedAt(start, names, b);
    }
    if Target(ra, extension) == Target(rb, extension) {
      TargetInjective(ra, rb, extension);
    }
  }

  /** Two renames with the same new name carry the same serial */
  lemma TargetInjective(r1: Rename, r2: Rename, extension: string)
    requires Target(r1, extension) == Target(r2, extension)
    ensures r1.serial == r2.serial
  {
    SameSuffix(IntToString(r1.serial), IntToString(r2.serial), extension);
    IntToStringInjective(r1.serial, r2.serial);
  }

  /** The files renamed are exactly the files of the walk that end with the extension */
  lemma {:induction false} Matching1Exact(files: seq<string>, extension: string)
    ensures forall x :: x in Matching1(files, extension) <==> x in files && EndsWith(x, extension)
  {
    if |files| > 0 {
      var n := |files| - 1;
      Matching1Exact(files[..n], extension);
      assert files == files[..n] + [files[n]];
    }
  }

  lemma {:induction false} MatchingExact(walk: seq<seq<string>>, extension: string)
    ensures forall x :: x in Matching(walk, extension) <==>
      EndsWith(x, extension) && exists d :: 0 <= d < |walk| && x in walk[d]
  {
    if |walk| > 0 {
      var n := |walk| - 1;
      MatchingExact(walk[..n], extension);
      Matching1Exact(walk[n], extension);
      forall x | EndsWith(x, extension) && (exists d :: 0 <= d < |walk| && x in walk[d])
        ensures x in Matching(walk, extension)
      {
        var d :| 0 <= d < |walk| && x in walk[d];
        if d < n {
          assert walk[..n][d] == walk[d];
        }
      }
      forall x | x in Matching(walk, extension)
        ensures exists d :: 0 <= d < |walk| && x in walk[d]
      {
        if x in Matching(walk[..n], extension) {
          var d :| 0 <= d < n && x in walk[..n][d];
          assert walk[..n][d] == walk[d];
        }
      }
    }
  }

  // ---------------------------------------------------------------------
  // get_numbers
  // ---------------------------------------------------------------------

  /** The n-th value (from 0) the generator yields */
  function NumberAt(base: string, n: nat): string {
    base + IntToString(n + 1)
  }

  /** The first `count` values of get_numbers(base) */
  method Numbers(base: string, count: nat) returns (out: seq<string>)
    ensures |out| == count && forall n :: 0 <= n < count ==> out[n] == NumberAt(base, n)
  {
    out := [];
    var counter := 1;
    while |out| < count
      invariant |out| <= count && counter == |out| + 1
      invariant forall n :: 0 <= n < |out| ==> out[n] == NumberAt(base, n)
    {
      out := out + [base + IntToString(counter)];
      counter := counter + 1;
    }
  }

  /** Every value starts with the base and no two values are equal */
  lemma NumbersUnique(base: string, m: nat, n: nat)
    ensures StartsWith(NumberAt(base, n), base)
    ensures NumberAt(base, m) == NumberAt(base, n) ==> m == n
  {
    assert NumberAt(base, n)[..|base|] == base;
    if NumberAt(base, m) == NumberAt(base, n) {
      assert IntToString(m + 1) == NumberAt(base, m)[|base|..];
      assert IntToString(n + 1) == NumberAt(base, n)[|base|..];
      IntToStringInjective(m + 1, n + 1);
    }
  }

  // ---------------------------------------------------------------------
  // validate_string
  // ---------------------------------------------------------------------

  /** The checks after the length test, in order */
  function CharacterChecks(option: string, text: string): bool {
    if HasSpace(text) then false
    else if HasPunct(text) then false
    else if option == "alpha" then !HasNumeric(text)
    else if option == "numeric" then !HasAlpha(text)
    else true
  }

  /**
   * As written: the maximum arrives as a string and is compared with
   * str(len(text)) as strings, so '5' < '10' is false and '10' < '9' is true.
   */
  function ValidateStringAsWritten(length: string, option: string, text: string): (bool, string) {
    if LexLess(length, IntToString(|text|)) then (false, text)
    else (CharacterChecks(option, text), text)
  }

  /** With the maximum compared as a number */
  function ValidateString(maximum: int, option: string, text: string): (bool, string) {
    if maximum < |text| then (false, text)
    else (CharacterChecks(option, text), text)
  }

  /**
   * The corrected check accepts exactly the texts within the maximum with
   * no whitespace or punctuation, no digits under 'alpha' and no letters
   * under 'numeric', and always hands the text back unchanged.
   */
  lemma ValidateStringAccepts(maximum: int, option: string, text: string)
    ensures ValidateString(maximum, option, text).1 == text
    ensures ValidateString(maximum, option, text).0 <==>
      |text| <= maximum && !HasSpace(text) && !HasPunct(text) &&
      (option == "alpha" ==> !HasNumeric(text)) && (option == "numeric" ==> !HasAlpha(text))
  {
  }

  /** As written, the text also comes back unchanged, and whitespace or punctuation always fails */
  lemma ValidateStringAsWrittenRejects(length: string, option: string, text: string)
    ensures ValidateStringAsWritten(length, option, text).1 == text
    ensures HasSpace(text) || HasPunct(text) ==> !ValidateStringAsWritten(length, option, text).0
  {
  }

  /** Letters alone pass every character check under 'alpha' */
  lemma LettersPass(text: string)
    requires forall i :: 0 <= i < |text| ==> IsAlpha(text[i])
    ensures CharacterChecks("alpha", text)
  {
    assert !HasSpace(text) && !HasNumeric(text);
    assert !HasPunct(text) by {
      forall i | 0 <= i < |text| ensures !IsPunct(text[i]) {
        AlphanumericNotPunct(text[i]);
      }
    }
  }

  lemma TenAndNine(ten: string, nine: string)
    requires ten == "10" && nine == "9"
    ensures IntToString(10) == ten && IntToString(9) == nine
  {
    assert Dec(10) == Dec(1) + [DigitChar(0)];
  }

  /** Any ten-letter text passes a maximum of '5', and its first nine letters fail a maximum of '10' */
  lemma ValidateStringLengthMisread(five: string, ten: string, letters: string)
    requires five == "5" && ten == "10"
    requires |letters| == 10 && forall i :: 0 <= i < |letters| ==> IsAlpha(letters[i])
    ensures ValidateStringAsWritten(five, "alpha", letters).0
    ensures !ValidateStringAsWritten(ten, "alpha", letters[..9]).0
    ensures !ValidateString(5, "alpha", letters).0 && ValidateString(10, "alpha", letters[..9]).0
  {
    TenAndNine(ten, "9");
    assert !LexLess(five, ten);
    assert LexLess(ten, "9");
    LettersPass(letters);
    LettersPass(letters[..9]);
  }

  // ---------------------------------------------------------------------
  // file_parse
  // ---------------------------------------------------------------------

  /** What file_parse returns: the text, the list of pieces, or None for an unknown option */
  datatype Parsed = Text(text: string) | Pieces(pieces: seq<string>) | Nothing

  /** The value returned and, for options 6 to 9, what the write file then holds */
  datatype Parse = Parse(value: Parsed, written: Option<string>)

  predicate Replaces(option: string) { option in {"4", "5", "8", "9"} }
  predicate SplitsAtSeparator(option: string) { option in {"2", "4", "6", "8"} }
  predicate Writes(option: string) { option in {"6", "7", "8", "9"} }
  predicate KnownOption(option: string) { option in {"1", "2", "3", "4", "5", "6", "7", "8", "9"} }

  /** str.replace(find_chars, replace_chars): None for either is a TypeError */
  function ReplaceArg(text: string, find: Option<string>, repl: Option<string>): Result<string> {
    if find.None? || repl.None? then Err(TypeError)
    else Ok(Replace(text, find.value, repl.value))
  }

  /** str.split(split_chars): None splits on whitespace runs, '' is a ValueError */
  function SplitArg(text: string, split: Option<string>): Result<seq<string>> {
    match split
    case None => Ok(SplitWhitespace(text))
    case Some(sep) => if sep == "" then Err(ValueError) else Ok(Split(text, sep))
  }

  /**
   * file_parse.  `read` is the content of read_file (None when it does not
   * exist); `writeFile` says whether a write path was given.
   */
  function FileParse(option: string, read: Option<string>, writeFile: bool,
                     find: Option<string>, repl: Option<string>, split: Option<string>): Result<Parse> {
    if !KnownOption(option) then Ok(Parse(Nothing, None))
    else if read.None? then Err(FileNotFoundError)
    else if option == "1" then Ok(Parse(Text(read.value), None))
    else
      var prepared := if Replaces(option) then ReplaceArg(read.value, find, repl) else Ok(read.value);
      if prepared.Err? then Err(prepared.error)
      else
        var pieces := if SplitsAtSeparator(option) then SplitArg(prepared.value, split) else Ok(SplitLines(prepared.value));
        if pieces.Err? then Err(pieces.error)
        else if !Writes(option) then Ok(Parse(Pieces(pieces.value), None))
        else if !writeFile then Err(TypeError)
        else Ok(Parse(Pieces(pieces.value), Some(Lines(pieces.value))))
  }

  /**
   * The options that write leave one line per piece, so reading the written
   * file back with option 3 returns the same pieces; for options 7 and 9 no
   * piece can hold a line break, so this always holds.
   */
  lemma FileParseReadBack(option: string, read: Option<string>, find: Option<string>, repl: Option<string>, split: Option<string>)
    requires Writes(option)
    requires FileParse(option, read, true, find, repl, split).Ok?
    requires var v := FileParse(option, read, true, find, repl, split).value.value;
      !SplitsAtSeparator(option) || (v.Pieces? && forall k :: 0 <= k < |v.pieces| ==> !HasLineBreak(v.pieces[k]))
    ensures var p := FileParse(option, read, true, find, repl, split).value;
      p.value.Pieces? && p.written.Some? &&
      FileParse("3", p.written, false, None, None, None) == Ok(Parse(p.value, None))
  {
    var p := FileParse(option, read, true, find, repl, split).value;
    if !SplitsAtSeparator(option) {
      var prepared := if Replaces(option) then ReplaceArg(read.value, find, repl) else Ok(read.value);
      SplitLinesNoBreaks(prepared.value);
    }
    SplitLinesOfLines(p.value.pieces);
  }

  /** Options 4, 5, 8 and 9 are options 2, 3, 6 and 7 run on the replaced text */
  lemma ReplaceBeforeSplit(option: string, plain: string, text: string, writeFile: bool, find: string, repl: string, split: Option<string>)
    requires (option, plain) in {("4", "2"), ("5", "3"), ("8", "6"), ("9", "7")}
    ensures FileParse(option, Some(text), writeFile, Some(find), Some(repl), split) ==
            FileParse(plain, Some(Replace(text, find, repl)), writeFile, None, None, split)
  {
  }

  /** A missing replacement raises TypeError, an empty separator ValueError, and neither writes */
  lemma FileParseErrors(option: string, text: string, writeFile: bool, find: Option<string>, repl: Option<string>, split: Option<string>)
    ensures Replaces(option) && (find.None? || repl.None?) ==>
      FileParse(option, Some(text), writeFile, find, repl, split) == Err(TypeError)
    ensures SplitsAtSeparator(option) && !Replaces(option) && split == Some("") ==>
      FileParse(option, Some(text), writeFile, find, repl, split) == Err(ValueError)
    ensures KnownOption(option) ==> FileParse(option, None, writeFile, find, repl, split) == Err(FileNotFoundError)
  {
  }

  // ---------------------------------------------------------------------
  // get_time, options 1 and 3
  // ---------------------------------------------------------------------

  /** Option 1: the two previous years as strings, from the current year */
  function PreviousYears(year: int): (string, string) {
    (IntToString(year - 1), IntToString(year - 2))
  }

  /** Both strings read back as the two years before the current one */
  lemma PreviousYearsParse(year: int)
    ensures ParseInt(PreviousYears(year).0) == Some(year - 1)
    ensures ParseInt(PreviousYears(year).1) == Some(year - 2)
    ensures PreviousYears(year).0 != PreviousYears(year).1
  {
    ParseIntIntToString(year - 1);
    ParseIntIntToString(year - 2);
  }

  /** The suffixes dictionary of option 3, in insertion order */
  const SUFFIXES: seq<(string, seq<int>)> := [
    ("st", [1, 21, 31]),
    ("nd", [2, 22]),
    ("rd", [3, 23]),
    ("th", [4, 5, 6, 7, 8, 9, 10, 11, 12, 13, 14, 15, 16, 17, 18, 19, 20, 24, 25, 26, 27, 28, 29, 30])]

  /** The key the nested loop leaves in `suffix`: the last entry whose tuple holds the day */
  function LastKeyWith(table: seq<(string, seq<int>)>, day: int): Option<string> {
    if |table| == 0 then None
    else if day in table[|table| - 1].1 then Some(table[|table| - 1].0)
    else LastKeyWith(table[..|table| - 1], day)
  }

  /** The English ordinal suffix of a day of the month */
  function Ordinal(day: int): string {
    if 11 <= day <= 13 then "th"
    else if day % 10 == 1 then "st"
    else if day % 10 == 2 then "nd"
    else if day % 10 == 3 then "rd"
    else "th"
  }

  /** The loop `for key, value in suffixes.items(): for i in value: if day == i: suffix = key` */
  method DaySuffix(day: int) returns (suffix: Option<string>)
    ensures suffix == LastKeyWith(SUFFIXES, day)
  {
    suffix := None;
    var k := 0;
    while k < |SUFFIXES|
      invariant 0 <= k <= |SUFFIXES|
      invariant suffix == LastKeyWith(SUFFIXES[..k], day)
    {
      var (key, value) := SUFFIXES[k];
      ghost var before := suffix;
      var i := 0;
      while i < |value|
        invariant 0 <= i <= |value|
        invariant suffix == if day in value[..i] then Some(key) else before
      {
        assert value[..i + 1] == value[..i] + [value[i]];
        if day == value[i] {
          suffix := Some(key);
        }
        i := i + 1;
      }
      assert value[..|value|] == value;
      assert SUFFIXES[..k + 1][..k] == SUFFIXES[..k];
      k := k + 1;
    }
    assert SUFFIXES[..|SUFFIXES|] == SUFFIXES;
  }

  /** The ordinal rule spelt out for the days of a month */
  lemma OrdinalOfDay(day: int)
    requires 1 <= day <= 31
    ensures Ordinal(day) ==
      if day == 1 || day == 21 || day == 31 then "st"
      else if day == 2 || day == 22 then "nd"
      else if day == 3 || day == 23 then "rd"
      else "th"
  {
    var q, r := day / 10, day % 10;
    assert day == 10 * q + r && 0 <= r < 10;
    assert 0 <= q <= 3;
  }

  /** The nested loop's result, entry by entry from the last */
  lemma TableLookup(day: int)
    ensures LastKeyWith(SUFFIXES, day) ==
      if day in SUFFIXES[3].1 then Some("th")
      else if day in SUFFIXES[2].1 then Some("rd")
      else if day in SUFFIXES[1].1 then Some("nd")
      else if day in SUFFIXES[0].1 then Some("st")
      else None
  {
    var t := SUFFIXES;
    var t3, t2, t1 := t[..3], t[..3][..2], t[..3][..2][..1];
    assert t3[2] == t[2] && t2[1] == t[1] && t1[0] == t[0] && t1[..0] == [];
    assert LastKeyWith(t1, day) == if day in t[0].1 then Some("st") else None;
    assert LastKeyWith(t2, day) == if day in t[1].1 then Some("nd") else LastKeyWith(t1, day);
    assert LastKeyWith(t3, day) == if day in t[2].1 then Some("rd") else LastKeyWith(t2, day);
  }

  /** Which tuple holds each day of the month */
  lemma TableMembers(day: int)
    requires 1 <= day <= 31
    ensures day in SUFFIXES[0].1 <==> day == 1 || day == 21 || day == 31
    ensures day in SUFFIXES[1].1 <==> day == 2 || day == 22
    ensures day in SUFFIXES[2].1 <==> day == 3 || day == 23
    ensures day in SUFFIXES[3].1 <==> !(day in SUFFIXES[0].1 || day in SUFFIXES[1].1 || day in SUFFIXES[2].1)
  {
    ThMembers(day);
  }

  lemma ThMembers(day: int)
    ensures day in SUFFIXES[3].1 <==> 4 <= day <= 20 || 24 <= day <= 30
  {
    var th := SUFFIXES[3].1;
    assert th == [4, 5, 6, 7, 8, 9, 10, 11, 12, 13, 14, 15, 16, 17, 18, 19, 20, 24, 25, 26, 27, 28, 29, 30];
    forall i | 0 <= i < |th| ensures 4 <= th[i] <= 20 || 24 <= th[i] <= 30 { }
    if 4 <= day <= 20 {
      assert th[day - 4] == day;
    } else if 24 <= day <= 30 {
      assert th[day - 7] == day;
    }
  }

  /** Days outside the month are in no tuple */
  lemma TableOutside(day: int)
    requires !(1 <= day <= 31)
    ensures forall k :: 0 <= k < 4 ==> day !in SUFFIXES[k].1
  {
  }

  /** The table gives every day of the month its English ordinal suffix, and nothing else a suffix */
  lemma SuffixTableIsOrdinal(day: int)
    ensures LastKeyWith(SUFFIXES, day) == if 1 <= day <= 31 then Some(Ordinal(day)) else None
  {
    TableLookup(day);
    if 1 <= day <= 31 {
      OrdinalOfDay(day);
      TableMembers(day);
    } else {
      TableOutside(day);
    }
  }

  /**
   * Option 3: the clock's '%I:%M %p, %A, %B %d' and ', %Y' renderings with
   * the day's suffix between them; a day outside the table leaves `suffix`
   * unassigned.
   */
  method PrettyTime(front: string, day: int, back: string) returns (r: Result<string>)
    ensures 1 <= day <= 31 ==> r == Ok(front + Ordinal(day) + back)
    ensures !(1 <= day <= 31) ==> r == Err(UnboundLocalError("suffix"))
  {
    var suffix := DaySuffix(day);
    SuffixTableIsOrdinal(day);
    if suffix.None? {
      return Err(UnboundLocalError("suffix"));
    }
    r := Ok(front + suffix.value + back);
  }
}
