/**
 * The state pyxidust/projects.py keeps on disk: the counter file SERIALS,
 * which get_serial overwrites, and the catalog file CATALOG, which
 * log_project appends to.  A Workspace holds both contents and the
 * configured YEAR; its methods are the operations of pyxidust/projects.py
 * that read or write them.
 */
module Pyxidust {
  import opened Builtins
  import opened Strings
  import opened Serials

  // ---------------------------------------------------------------------
  // log_project
  // ---------------------------------------------------------------------

  /** The three names log_project derives from a base serial */
  datatype ProjectNames = ProjectNames(folderName: string, mapName: string, mapSerial: string)

  function NamesFor(serial: string, name: string): ProjectNames {
    ProjectNames(serial + "_" + name, serial + "-0001" + "_" + name + ".aprx", serial + "-0001")
  }

  /**
   * The text log_project appends: a newline, then serial, name,
   * description, user and time stamp separated by ','.  The stamp is
   * strftime('%m/%d/%y,%H:%M:%S'), itself two comma-separated fields.
   */
  function CatalogEntry(serial: string, name: string, description: string, creator: string, date: string, clock: string): string {
    "\n" + (serial + "," + (name + "," + (description + "," + (creator + "," + (date + "," + clock)))))
  }

  // ---------------------------------------------------------------------
  // add_map: parsing the file names
  // ---------------------------------------------------------------------

  /** The files of a directory listing that end with '.aprx', in listing order */
  function AprxFiles(listing: seq<string>): (r: seq<string>)
    ensures forall i :: 0 <= i < |r| ==> EndsWith(r[i], ".aprx")
  {
    if |listing| == 0 then []
    else
      var last := listing[|listing| - 1];
      AprxFiles(listing[..|listing| - 1]) + (if EndsWith(last, ".aprx") then [last] else [])
  }

  /** The 'bottom' .aprx file; pop() on an empty list raises IndexError */
  function LastAprx(listing: seq<string>): Result<string> {
    var files := AprxFiles(listing);
    if |files| == 0 then Err(IndexError) else Ok(files[|files| - 1])
  }

  /** file.replace('.aprx', '').split('_') unpacked into a serial and a title */
  function ParseAprx(file: string): Result<(string, string)> {
    var parts := Split(Replace(file, ".aprx", ""), "_");
    if |parts| != 2 then Err(ValueError) else Ok((parts[0], parts[1]))
  }

  /** What add_map reads from the file names before it creates anything */
  datatype Seeds = Seeds(serialLast: string, serialOld: string, title: string)

  /**
   * The last .aprx file gives the last serial used, the chosen file the
   * serial to replace and the title; each serial loses its first `drop`
   * characters (serial_name[3:] in the source).
   */
  function AddMapSeeds(listing: seq<string>, filename: string, drop: nat): Result<Seeds> {
    match LastAprx(listing)
    case Err(e) => Err(e)
    case Ok(aprx) =>
      match ParseAprx(aprx)
      case Err(e) => Err(e)
      case Ok(last) =>
        match ParseAprx(filename)
        case Err(e) => Err(e)
        case Ok(chosen) => Ok(Seeds(DropPrefix(last.0, drop), DropPrefix(chosen.0, drop), chosen.1))
  }

  // ---------------------------------------------------------------------
  // add_map: the copies
  // ---------------------------------------------------------------------

  /**
   * The arguments of add_map other than the quantity, and the templates
   * folder that `from pyxidust.config import LAYOUTS` is taken to give.
   * pyxidust/config.py defines no LAYOUTS, so the source raises ImportError
   * at that import; every add_map member here describes the code past it.
   */
  datatype MapRequest = MapRequest(directory: string, filename: string, option: string, template: Option<string>, layouts: string)

  /** Map and layout looked up in the copy, the text element value replaced, and the serial it becomes */
  datatype Renaming = Renaming(mapName: string, layoutName: string, textFrom: string, textTo: string)

  /** One run of _create_project: the copy made and the renaming done inside it */
  datatype Creation = Creation(source: string, destination: string, projectNew: string, renaming: Option<Renaming>)

  /** f'{template}' renders None as 'None' */
  function TemplateText(template: Option<string>): string {
    match template
    case None => "None"
    case Some(t) => t
  }

  /** _create_project with the current serial_new */
  function MakeCopy(req: MapRequest, seeds: Seeds, serialNew: string): Creation {
    var source := if req.option == "clone" then PathJoin(req.directory, req.filename)
                  else req.layouts + "\\\\" + TemplateText(req.template) + ".aprx";
    var projectNew := serialNew + "_" + seeds.title;
    var renaming :=
      if req.option == "clone" then
        var projectOld := seeds.serialOld + "_" + seeds.title;
        Some(Renaming(projectOld, projectOld, seeds.serialOld, serialNew))
      else if req.option == "scratch" then Some(Renaming("Map", "Layout", "SERIAL_NUMBER", serialNew))
      else None;
    Creation(source, req.directory + "\\\\" + projectNew + ".aprx", projectNew, renaming)
  }

  /** The copies made, the exception that stopped the run if any, and the counter file afterwards */
  datatype MapRun = MapRun(copies: seq<Creation>, error: Option<PyError>, counter: string)

  /** The loop of add_map: make a copy under serialNew, then serialNew = new_serial(serialNew) */
  function CopyRun(year: int, counter: string, req: MapRequest, seeds: Seeds, serialNew: string, n: nat): MapRun
    decreases n
  {
    if n == 0 then MapRun([], None, counter)
    else
      var c := MakeCopy(req, seeds, serialNew);
      var m := Mint(year, counter, Some(serialNew));
      match m.result
      case Err(e) => MapRun([c], Some(e), m.counter)
      case Ok(t) =>
        var rest := CopyRun(year, m.counter, req, seeds, t, n - 1);
        MapRun([c] + rest.copies, rest.error, rest.counter)
  }

  /** add_map from the directory listing to the end of the loop; range() of a negative quantity is empty */
  function AddMapRun(year: int, counter: string, listing: seq<string>, req: MapRequest, quantity: int, drop: nat): MapRun {
    match AddMapSeeds(listing, req.filename, drop)
    case Err(e) => MapRun([], Some(e), counter)
    case Ok(seeds) =>
      var m := Mint(year, counter, Some(seeds.serialLast));
      match m.result
      case Err(e) => MapRun([], Some(e), m.counter)
      case Ok(first) => CopyRun(year, m.counter, req, seeds, first, if quantity < 0 then 0 else quantity)
  }

  /** The dialogs of validate_serial shown by the loop's new_serial calls, in order */
  function CopyNotices(year: int, counter: string, serialNew: string, n: nat): seq<Notice>
    decreases n
  {
    if n == 0 then []
    else
      var m := Mint(year, counter, Some(serialNew));
      ValidateSerial(serialNew) +
        (match m.result
         case Err(_) => []
         case Ok(t) => CopyNotices(year, m.counter, t, n - 1))
  }

  /** The dialogs add_map shows: those of its first new_serial call, then those of the loop */
  function AddMapNotices(year: int, counter: string, listing: seq<string>, filename: string, quantity: int, drop: nat): seq<Notice> {
    match AddMapSeeds(listing, filename, drop)
    case Err(_) => []
    case Ok(seeds) =>
      var m := Mint(year, counter, Some(seeds.serialLast));
      ValidateSerial(seeds.serialLast) +
        (match m.result
         case Err(_) => []
         case Ok(first) => CopyNotices(year, m.counter, first, if quantity < 0 then 0 else quantity))
  }

  // ---------------------------------------------------------------------
  // The workspace
  // ---------------------------------------------------------------------

  class Workspace {
    /** YEAR of the configuration */
    const year: int
    /** Contents of the counter file SERIALS */
    var serials: string
    /** Contents of the catalog file CATALOG */
    var catalog: string

    constructor (year: int, serials: string, catalog: string)
      ensures this.year == year && this.serials == serials && this.catalog == catalog
    {
      this.year := year;
      this.serials := serials;
      this.catalog := catalog;
    }

    /** get_serial: read the counter, write the new base back and return it */
    method GetSerial() returns (r: Result<string>)
      modifies this`serials
      ensures r == NextBase(year, old(serials))
      ensures serials == if r.Ok? then r.value else old(serials)
    {
      var n := ParseInt(serials);
      if n.None? {
        return Err(ValueError);
      }
      var serial := IntToString(year) + IntToString(n.value + 1);
      serials := serial;
      return Ok(serial);
    }

    /**
     * new_serial: the serial minted and the dialogs validate_serial showed
     * on the way; the counter file changes only through get_serial.
     */
    method NewSerial(serial: Option<string>) returns (r: Result<string>, notices: seq<Notice>)
      modifies this`serials
      ensures notices == if serial.Some? then ValidateSerial(serial.value) else []
      ensures r == Mint(year, old(serials), serial).result
      ensures serials == Mint(year, old(serials), serial).counter
    {
      notices := [];
      if serial.None? {
        r := FreshFromCounter();
        return;
      }
      notices := ValidateSerial(serial.value);
      match Increment(serial.value)
      case Minted(t) =>
        r := Ok(t);
      case Rollover =>
        r := FreshFromCounter();
      case Fails(e) =>
        r := Err(e);
    }

    /** f'{get_serial()}-0001' */
    method FreshFromCounter() returns (r: Result<string>)
      modifies this`serials
      ensures r == FreshSerial(year, old(serials)).result
      ensures serials == FreshSerial(year, old(serials)).counter
    {
      var base := GetSerial();
      if base.Err? {
        return Err(base.error);
      }
      return Ok(base.value + "-0001");
    }

    /** log_project: append one entry to the catalog and return the derived names */
    method LogProject(description: string, name: string, serial: string, creator: string, date: string, clock: string)
      returns (names: ProjectNames)
      modifies this`catalog
      ensures names == NamesFor(serial, name)
      ensures catalog == old(catalog) + CatalogEntry(serial, name, description, creator, date, clock)
    {
      catalog := catalog + ("\n" + serial + "," + name + "," + description + "," + creator + "," + date + "," + clock);
      names := ProjectNames(serial + "_" + name, serial + "-0001" + "_" + name + ".aprx", serial + "-0001");
    }

    /** add_map as written, past its import: both serials lose their first three characters */
    method AddMapAsWritten(listing: seq<string>, req: MapRequest, quantity: int)
      returns (copies: seq<Creation>, error: Option<PyError>, notices: seq<Notice>)
      modifies this`serials
      ensures var run := AddMapRun(year, old(serials), listing, req, quantity, 3);
        copies == run.copies && error == run.error && serials == run.counter
      ensures notices == AddMapNotices(year, old(serials), listing, req.filename, quantity, 3)
    {
      copies, error, notices := AddMapFrom(listing, req, quantity, 3);
    }

    /** add_map with the parsed serials used whole */
    method AddMap(listing: seq<string>, req: MapRequest, quantity: int)
      returns (copies: seq<Creation>, error: Option<PyError>, notices: seq<Notice>)
      modifies this`serials
      ensures var run := AddMapRun(year, old(serials), listing, req, quantity, 0);
        copies == run.copies && error == run.error && serials == run.counter
      ensures notices == AddMapNotices(year, old(serials), listing, req.filename, quantity, 0)
    {
      copies, error, notices := AddMapFrom(listing, req, quantity, 0);
    }

    method AddMapFrom(listing: seq<string>, req: MapRequest, quantity: int, drop: nat)
      returns (copies: seq<Creation>, error: Option<PyError>, notices: seq<Notice>)
      modifies this`serials
      ensures var run := AddMapRun(year, old(serials), listing, req, quantity, drop);
        copies == run.copies && error == run.error && serials == run.counter
      ensures notices == AddMapNotices(year, old(serials), listing, req.filename, quantity, drop)
    {
      var seeds := AddMapSeeds(listing, req.filename, drop);
      if seeds.Err? {
        return [], Some(seeds.error), [];
      }
      var serialNew, shown := NewSerial(Some(seeds.value.serialLast));
      if serialNew.Err? {
        return [], Some(serialNew.error), shown;
      }
      var more;
      copies, error, more := CopyLoop(req, seeds.value, serialNew.value, if quantity < 0 then 0 else quantity);
      notices := shown + more;
    }

    /** for _ in range(0, quantity): _create_project(); serial_new = new_serial(serial_new) */
    method CopyLoop(req: MapRequest, seeds: Seeds, first: string, n: nat)
      returns (copies: seq<Creation>, error: Option<PyError>, notices: seq<Notice>)
      modifies this`serials
      ensures var run := CopyRun(year, old(serials), req, seeds, first, n);
        copies == run.copies && error == run.error && serials == run.counter
      ensures notices == CopyNotices(year, old(serials), first, n)
    {
      ghost var target := CopyRun(year, serials, req, seeds, first, n);
      ghost var shownAll := CopyNotices(year, serials, first, n);
      copies := [];
      error := None;
      notices := [];
      var serialNew := first;
      var left := n;
      CompletedStart(year, req, seeds, serials, first, n);
      while 0 < left && error.None?
        invariant Completed(year, req, seeds, copies, error, notices, serials, serialNew, left) == (target, shownAll)
        decreases left
      {
        copies, error, notices, serialNew := CopyPass(req, seeds, serialNew, left, copies, notices);
        left := left - 1;
      }
      CompletedDone(year, req, seeds, copies, error, notices, serials, serialNew, left);
    }

    /** One pass of the loop: a copy under serialNew, then new_serial(serialNew) */
    method CopyPass(req: MapRequest, seeds: Seeds, serialNew: string, m: nat, copies0: seq<Creation>, notices0: seq<Notice>)
      returns (copies: seq<Creation>, error: Option<PyError>, notices: seq<Notice>, next: string)
      requires 0 < m
      modifies this`serials
      ensures Completed(year, req, seeds, copies, error, notices, serials, next, m - 1) ==
              Completed(year, req, seeds, copies0, None, notices0, old(serials), serialNew, m)
    {
      RunPass(year, serials, req, seeds, serialNew, m, copies0);
      NoticesPass(year, serials, serialNew, m, notices0);
      var copy := MakeCopy(req, seeds, serialNew);
      var minted, shown := NewSerial(Some(serialNew));
      copies := copies0 + [copy];
      notices := notices0 + shown;
      if minted.Err? {
        error := Some(minted.error);
        next := serialNew;
        assert notices + [] == notices;
      } else {
        error := None;
        next := minted.value;
      }
    }
  }

  /**
   * The run and the dialogs the loop will have produced once done, from its
   * state with m passes left: with no error yet, the passes to come complete
   * it; after an error, it is complete.
   */
  function Completed(year: int, req: MapRequest, seeds: Seeds, copies: seq<Creation>, error: Option<PyError>,
                     notices: seq<Notice>, counter: string, serialNew: string, m: nat): (MapRun, seq<Notice>)
  {
    if error.Some? then (MapRun(copies, error, counter), notices)
    else (Prefixed(copies, CopyRun(year, counter, req, seeds, serialNew, m)), notices + CopyNotices(year, counter, serialNew, m))
  }

  /** Before the first pass, the whole run is still to come */
  lemma CompletedStart(year: int, req: MapRequest, seeds: Seeds, counter: string, first: string, n: nat)
    ensures Completed(year, req, seeds, [], None, [], counter, first, n) ==
            (CopyRun(year, counter, req, seeds, first, n), CopyNotices(year, counter, first, n))
  {
    var run := CopyRun(year, counter, req, seeds, first, n);
    assert [] + run.copies == run.copies;
    assert [] + CopyNotices(year, counter, first, n) == CopyNotices(year, counter, first, n);
  }

  /** With no pass left or after an error, the loop's state is the whole run */
  lemma CompletedDone(year: int, req: MapRequest, seeds: Seeds, copies: seq<Creation>, error: Option<PyError>,
                    notices: seq<Notice>, counter: string, serialNew: string, m: nat)
    requires m == 0 || error.Some?
    ensures Completed(year, req, seeds, copies, error, notices, counter, serialNew, m) == (MapRun(copies, error, counter), notices)
  {
    if error.None? {
      assert copies + [] == copies;
      assert notices + [] == notices;
    }
  }

  /** One pass of the loop: its copy, then the passes after it unless its new_serial raised */
  lemma RunPass(year: int, counter: string, req: MapRequest, seeds: Seeds, s: string, n: nat, made: seq<Creation>)
    requires 0 < n
    ensures var m := Mint(year, counter, Some(s));
      var c := MakeCopy(req, seeds, s);
      Prefixed(made, CopyRun(year, counter, req, seeds, s, n)) ==
        if m.result.Err? then MapRun(made + [c], Some(m.result.error), m.counter)
        else Prefixed(made + [c], CopyRun(year, m.counter, req, seeds, m.result.value, n - 1))
  {
    var m := Mint(year, counter, Some(s));
    if m.result.Ok? {
      AppendAssoc(made, [MakeCopy(req, seeds, s)], CopyRun(year, m.counter, req, seeds, m.result.value, n - 1).copies);
    }
  }

  /** One pass of the loop: its new_serial's dialogs, then those of the passes after it */
  lemma NoticesPass(year: int, counter: string, s: string, n: nat, before: seq<Notice>)
    requires 0 < n
    ensures var m := Mint(year, counter, Some(s));
      before + CopyNotices(year, counter, s, n) ==
        (before + ValidateSerial(s)) + (if m.result.Err? then [] else CopyNotices(year, m.counter, m.result.value, n - 1))
  {
    var m := Mint(year, counter, Some(s));
    AppendAssoc(before, ValidateSerial(s), if m.result.Err? then [] else CopyNotices(year, m.counter, m.result.value, n - 1));
  }

  /** A run with copies made before it */
  function Prefixed(made: seq<Creation>, run: MapRun): MapRun {
    MapRun(made + run.copies, run.error, run.counter)
  }

  // ---------------------------------------------------------------------
  // Properties
  // ---------------------------------------------------------------------

  /** A catalog entry reads back, field by field, when no field holds ',' */
  lemma CatalogEntryFields(serial: string, name: string, description: string, creator: string, date: string, clock: string)
    requires ',' !in serial && ',' !in name && ',' !in description && ',' !in creator && ',' !in date && ',' !in clock
    ensures var e := CatalogEntry(serial, name, description, creator, date, clock);
      e[0] == '\n' && Split(e[1..], ",") == [serial, name, description, creator, date, clock]
  {
    var fields := [serial, name, description, creator, date, clock];
    var e := CatalogEntry(serial, name, description, creator, date, clock);
    CatalogEntryJoined(serial, name, description, creator, date, clock);
    assert e[1..] == JoinWith(",", fields);
    assert forall i :: 0 <= i < |fields| ==> ',' !in fields[i] by {
      forall i | 0 <= i < |fields| ensures ',' !in fields[i] {
        if i == 0 { assert fields[i] == serial; }
        else if i == 1 { assert fields[i] == name; }
        else if i == 2 { assert fields[i] == description; }
        else if i == 3 { assert fields[i] == creator; }
        else if i == 4 { assert fields[i] == date; }
        else { assert fields[i] == clock; }
      }
    }
    JoinSplitChar(fields, ',');
  }

  /** The entry is a newline followed by the six fields joined with ',' */
  lemma CatalogEntryJoined(serial: string, name: string, description: string, creator: string, date: string, clock: string)
    ensures CatalogEntry(serial, name, description, creator, date, clock) ==
      "\n" + JoinWith(",", [serial, name, description, creator, date, clock])
  {
    var f5 := [clock];
    var f4 := [date] + f5;
    var f3 := [creator] + f4;
    var f2 := [description] + f3;
    var f1 := [name] + f2;
    var f0 := [serial] + f1;
    JoinCons(",", date, f5);
    JoinCons(",", creator, f4);
    JoinCons(",", description, f3);
    JoinCons(",", name, f2);
    JoinCons(",", serial, f1);
    assert f0 == [serial, name, description, creator, date, clock];
  }

  /** The map name log_project returns parses back into its serial and title */
  lemma LoggedMapNameParses(serial: string, name: string)
    requires '_' !in serial && '.' !in serial && '_' !in name && '.' !in name
    ensures ParseAprx(NamesFor(serial, name).mapName) == Ok((serial + "-0001", name))
  {
    var stem := serial + "-0001" + "_" + name;
    assert NamesFor(serial, name).mapName == stem + ".aprx";
    assert '.' !in stem;
    ReplaceExtension(stem, ".aprx");
    assert '_' !in serial + "-0001";
    assert stem == (serial + "-0001") + ['_'] + name;
    SplitCharCons(serial + "-0001", '_', name);
    SplitCharNone(name, '_');
  }

  /** The file name add_map expects for a serial and a title */
  function AprxName(serial: string, title: string): string {
    serial + "_" + title + ".aprx"
  }

  lemma ParseAprxName(serial: string, title: string)
    requires '_' !in serial && '.' !in serial && '_' !in title && '.' !in title
    ensures ParseAprx(AprxName(serial, title)) == Ok((serial, title))
  {
    var stem := serial + "_" + title;
    assert AprxName(serial, title) == stem + ".aprx";
    assert '.' !in stem;
    ReplaceExtension(stem, ".aprx");
    assert stem == serial + ['_'] + title;
    SplitCharCons(serial, '_', title);
    SplitCharNone(title, '_');
  }

  /** A composite serial of base, '-' and a padded counter */
  function Composite(base: string, k: nat): string {
    base + "-" + Pad4(k)
  }

  lemma CompositeChars(base: string, k: nat)
    requires k <= 9999 && '_' !in base && '.' !in base
    ensures '_' !in Composite(base, k) && '.' !in Composite(base, k)
  {
    Pad4Facts(k);
    assert forall i :: 0 <= i < 4 ==> IsNumeric(Pad4(k)[i]);
  }

  /** The copies made under B-(c), B-(c+1), ... B-(c+n-1) */
  function Copies(req: MapRequest, seeds: Seeds, base: string, c: nat, n: nat): (r: seq<Creation>)
    ensures |r| == n
    decreases n
  {
    if n == 0 then [] else [MakeCopy(req, seeds, Composite(base, c))] + Copies(req, seeds, base, c + 1, n - 1)
  }

  /** The i-th copy is made under the serial B-(c+i) */
  lemma {:induction false} CopiesAt(req: MapRequest, seeds: Seeds, base: string, c: nat, n: nat)
    ensures forall i :: 0 <= i < n ==> Copies(req, seeds, base, c, n)[i] == MakeCopy(req, seeds, Composite(base, c + i))
    decreases n
  {
    if n > 0 {
      CopiesAt(req, seeds, base, c + 1, n - 1);
      var r := Copies(req, seeds, base, c, n);
      forall i | 0 <= i < n
        ensures r[i] == MakeCopy(req, seeds, Composite(base, c + i))
      {
        if i > 0 {
          assert r[i] == Copies(req, seeds, base, c + 1, n - 1)[i - 1];
        }
      }
    }
  }

  /** So the i-th copy lands in the directory as B-(c+i)_title.aprx */
  lemma CopiesDestinations(req: MapRequest, seeds: Seeds, base: string, c: nat, n: nat)
    ensures forall i :: 0 <= i < n ==>
      Copies(req, seeds, base, c, n)[i].destination == req.directory + "\\\\" + Composite(base, c + i) + "_" + seeds.title + ".aprx"
  {
    CopiesAt(req, seeds, base, c, n);
  }

  /** One pass of the loop whose new_serial call mints t without touching the counter file */
  lemma CopyRunStep(year: int, counter: string, req: MapRequest, seeds: Seeds, s: string, t: string, n: nat)
    requires 0 < n && Mint(year, counter, Some(s)) == Minting(Ok(t), counter)
    ensures var rest := CopyRun(year, counter, req, seeds, t, n - 1);
      CopyRun(year, counter, req, seeds, s, n) == MapRun([MakeCopy(req, seeds, s)] + rest.copies, rest.error, rest.counter)
  {
  }

  /**
   * Each pass of the add_map loop names its copy with the next counter
   * value and mints the one after it, touching the counter file only past
   * 9999.
   */
  lemma {:induction false} CopyRunCounts(year: int, counter: string, req: MapRequest, seeds: Seeds, base: string, c: nat, n: nat)
    requires |base| == 8 && '-' !in base && c + n <= 9999
    ensures CopyRun(year, counter, req, seeds, Composite(base, c), n) == MapRun(Copies(req, seeds, base, c, n), None, counter)
    decreases n
  {
    if n > 0 {
      MintPadded(year, counter, base, c);
      CopyRunStep(year, counter, req, seeds, Composite(base, c), Composite(base, c + 1), n);
      CopyRunCounts(year, counter, req, seeds, base, c + 1, n - 1);
    }
  }

  /** Passes over digit composites within 9999 show no dialog */
  lemma {:induction false} CopyNoticesSilent(year: int, counter: string, base: string, c: nat, n: nat)
    requires |base| == 8 && AllNumeric(base) && c + n <= 9999
    ensures CopyNotices(year, counter, Composite(base, c), n) == []
    decreases n
  {
    if n > 0 {
      Pad4Facts(c);
      ComposedShape(base, Pad4(c));
      DigitSerialValid(Composite(base, c));
      assert '-' !in base by { assert forall i :: 0 <= i < 8 ==> IsNumeric(base[i]); }
      MintPadded(year, counter, base, c);
      CopyNoticesSilent(year, counter, base, c + 1, n - 1);
    }
  }

  lemma LastAprxIs(listing: seq<string>, serial: string, title: string)
    requires 0 < |listing| && listing[|listing| - 1] == AprxName(serial, title)
    ensures LastAprx(listing) == Ok(AprxName(serial, title))
  {
    var last := AprxName(serial, title);
    assert listing[..|listing| - 1] + [last] == listing;
    assert EndsWith(last, ".aprx") by {
      assert last == (serial + "_" + title) + ".aprx";
    }
  }

  /** What add_map reads from a listing ending in serial_title.aprx and a chosen chosen_title.aprx */
  lemma SeedsOf(listing: seq<string>, filename: string, drop: nat, serial: string, lastTitle: string, chosen: string, title: string)
    requires '_' !in serial && '.' !in serial && '_' !in lastTitle && '.' !in lastTitle
    requires '_' !in chosen && '.' !in chosen && '_' !in title && '.' !in title
    requires 0 < |listing| && listing[|listing| - 1] == AprxName(serial, lastTitle)
    requires filename == AprxName(chosen, title)
    ensures AddMapSeeds(listing, filename, drop) == Ok(Seeds(DropPrefix(serial, drop), DropPrefix(chosen, drop), title))
  {
    LastAprxIs(listing, serial, lastTitle);
    ParseAprxName(serial, lastTitle);
    ParseAprxName(chosen, title);
  }

  lemma RunStart(year: int, counter: string, listing: seq<string>, req: MapRequest, quantity: nat, drop: nat, seeds: Seeds, first: string)
    requires AddMapSeeds(listing, req.filename, drop) == Ok(seeds)
    requires Mint(year, counter, Some(seeds.serialLast)) == Minting(Ok(first), counter)
    ensures AddMapRun(year, counter, listing, req, quantity, drop) == CopyRun(year, counter, req, seeds, first, quantity)
  {
  }

  /**
   * add_map with whole serials: when the last .aprx file of the listing
   * carries B-CCCC, the copies are made under B-(CCCC+1) ... B-(CCCC+quantity),
   * one per pass, with the chosen file's serial and title, and the counter
   * file is untouched while the counter stays within 9999.
   */
  lemma AddMapNamesCopies(year: int, counter: string, listing: seq<string>, req: MapRequest, quantity: nat,
                        base: string, c: nat, lastTitle: string, chosen: string, title: string)
    requires |base| == 8 && '-' !in base && '_' !in base && '.' !in base
    requires '_' !in lastTitle && '.' !in lastTitle && '_' !in chosen && '.' !in chosen && '_' !in title && '.' !in title
    requires c + 1 + quantity <= 9999
    requires 0 < |listing| && listing[|listing| - 1] == AprxName(Composite(base, c), lastTitle)
    requires req.filename == AprxName(chosen, title)
    ensures AddMapRun(year, counter, listing, req, quantity, 0) ==
      MapRun(Copies(req, Seeds(Composite(base, c), chosen, title), base, c + 1, quantity), None, counter)
  {
    var seeds := Seeds(Composite(base, c), chosen, title);
    CompositeChars(base, c);
    SeedsOf(listing, req.filename, 0, Composite(base, c), lastTitle, chosen, title);
    MintPadded(year, counter, base, c);
    RunStart(year, counter, listing, req, quantity, 0, seeds, Composite(base, c + 1));
    CopyRunCounts(year, counter, req, seeds, base, c + 1, quantity);
  }
  /** The same run shows no dialog when the base is all digits */
  lemma AddMapSilent(year: int, counter: string, listing: seq<string>, req: MapRequest, quantity: nat,
                     base: string, c: nat, lastTitle: string, chosen: string, title: string)
    requires |base| == 8 && AllNumeric(base) && '_' !in base && '.' !in base
    requires '_' !in lastTitle && '.' !in lastTitle && '_' !in chosen && '.' !in chosen && '_' !in title && '.' !in title
    requires c + 1 + quantity <= 9999
    requires 0 < |listing| && listing[|listing| - 1] == AprxName(Composite(base, c), lastTitle)
    requires req.filename == AprxName(chosen, title)
    ensures AddMapNotices(year, counter, listing, req.filename, quantity, 0) == []
  {
    CompositeChars(base, c);
    SeedsOf(listing, req.filename, 0, Composite(base, c), lastTitle, chosen, title);
    assert '-' !in base by { assert forall i :: 0 <= i < 8 ==> IsNumeric(base[i]); }
    MintPadded(year, counter, base, c);
    CopyNoticesSilent(year, counter, base, c, 1);
    CopyNoticesSilent(year, counter, base, c + 1, quantity);
  }


  /**
   * As written, add_map cuts three characters off a serial of either
   * documented length, so new_serial sees 5 or 10 characters and stops
   * with serial_new unbound before the first copy.
   */
  lemma AddMapAsWrittenStalls(year: int, counter: string, listing: seq<string>, req: MapRequest, quantity: int,
                              serial: string, lastTitle: string, chosen: string, title: string)
    requires |serial| == 8 || |serial| == 13
    requires '_' !in serial && '.' !in serial && '_' !in lastTitle && '.' !in lastTitle
    requires '_' !in chosen && '.' !in chosen && '_' !in title && '.' !in title
    requires 0 < |listing| && listing[|listing| - 1] == AprxName(serial, lastTitle)
    requires req.filename == AprxName(chosen, title)
    ensures AddMapRun(year, counter, listing, req, quantity, 3) == MapRun([], Some(UnboundLocalError("serial_new")), counter)
    ensures AddMapNotices(year, counter, listing, req.filename, quantity, 3) == [Format]
  {
    var seeds := Seeds(DropPrefix(serial, 3), DropPrefix(chosen, 3), title);
    assert AddMapSeeds(listing, req.filename, 3) == Ok(seeds) by {
      SeedsOf(listing, req.filename, 3, serial, lastTitle, chosen, title);
    }
    assert Increment(seeds.serialLast) == Fails(UnboundLocalError("serial_new")) by {
      assert |DropPrefix(serial, 3)| == |serial| - 3;
    }
    RunFailsAtStart(year, counter, listing, req, quantity, 3, seeds, UnboundLocalError("serial_new"));
    assert !HasSerialShape(seeds.serialLast) by {
      assert |DropPrefix(serial, 3)| == |serial| - 3;
    }
    ValidateSerialFormat(seeds.serialLast);
  }

  /** A last serial new_serial refuses stops add_map before its first copy */
  lemma RunFailsAtStart(year: int, counter: string, listing: seq<string>, req: MapRequest, quantity: int, drop: nat,
                        seeds: Seeds, e: PyError)
    requires AddMapSeeds(listing, req.filename, drop) == Ok(seeds)
    requires Increment(seeds.serialLast) == Fails(e)
    ensures AddMapRun(year, counter, listing, req, quantity, drop) == MapRun([], Some(e), counter)
  {
  }

  /** The file name of the documented add_map call: '20232179-0003_GPSPoints.aprx' */
  lemma DocumentedName()
    ensures AprxName(Composite("20232179", 3), "GPSPoints") == "20232179-0003_GPSPoints.aprx"
  {
    assert Composite("20232179", 3) == "20232179-0003" by {
      PadThree();
    }
  }

  lemma PadThree()
    ensures Pad4(3) == "0003"
  {
    assert Dec(3) == ['3'];
    assert Repeat('0', 3) == "000";
  }

  /** Neither the documented serial nor its title holds '_' or '.' */
  lemma DocumentedSegments()
    ensures '_' !in "20232179-0003" && '.' !in "20232179-0003" && '_' !in "GPSPoints" && '.' !in "GPSPoints"
  {
    forall i | 0 <= i < 13 ensures "20232179-0003"[i] != '_' && "20232179-0003"[i] != '.' { }
    forall i | 0 <= i < 9 ensures "GPSPoints"[i] != '_' && "GPSPoints"[i] != '.' { }
  }

  /** The documented clone call, as written, shows the format dialog and makes no copy */
  lemma DocumentedCloneCallStalls(year: int, counter: string, directory: string, layouts: string, name: string)
    requires name == "20232179-0003_GPSPoints.aprx"
    ensures AddMapRun(year, counter, [name], MapRequest(directory, name, "clone", None, layouts), 3, 3)
      == MapRun([], Some(UnboundLocalError("serial_new")), counter)
    ensures AddMapNotices(year, counter, [name], name, 3, 3) == [Format]
  {
    assert AprxName("20232179-0003", "GPSPoints") == name;
    DocumentedSegments();
    AddMapAsWrittenStalls(year, counter, [name], MapRequest(directory, name, "clone", None, layouts), 3,
      "20232179-0003", "GPSPoints", "20232179-0003", "GPSPoints");
  }

  /** The documented clone call, with whole serials, makes -0004, -0005 and -0006 */
  lemma DocumentedCloneCallCopies(year: int, counter: string, directory: string, layouts: string, name: string)
    requires name == "20232179-0003_GPSPoints.aprx"
    ensures var run := AddMapRun(year, counter, [name], MapRequest(directory, name, "clone", None, layouts), 3, 0);
      |run.copies| == 3 && run.error == None && run.counter == counter &&
      run.copies[2].destination == directory + "\\\\" + Composite("20232179", 6) + "_" + "GPSPoints" + ".aprx"
  {
    DocumentedName();
    DocumentedSegments();
    CompositeChars("20232179", 3);
    var req := MapRequest(directory, name, "clone", None, layouts);
    AddMapNamesCopies(year, counter, [name], req, 3, "20232179", 3, "GPSPoints", Composite("20232179", 3), "GPSPoints");
    CopiesDestinations(req, Seeds(Composite("20232179", 3), Composite("20232179", 3), "GPSPoints"), "20232179", 4, 3);
  }

  /** ... and shows no dialog on the way */
  lemma DocumentedCloneCallSilent(year: int, counter: string, directory: string, layouts: string, name: string)
    requires name == "20232179-0003_GPSPoints.aprx"
    ensures AddMapNotices(year, counter, [name], name, 3, 0) == []
  {
    DocumentedName();
    DocumentedSegments();
    assert AllNumeric("20232179") by {
      forall i | 0 <= i < 8 ensures IsNumeric("20232179"[i]) { }
    }
    var req := MapRequest(directory, name, "clone", None, layouts);
    AddMapSilent(year, counter, [name], req, 3, "20232179", 3, "GPSPoints", Composite("20232179", 3), "GPSPoints");
  }
}
