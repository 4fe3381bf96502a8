# pyxidust: serial numbers, the project catalog and the string utilities

pyxidust is a toolbox for ESRI ArcGIS Pro. This project models its parts that are not calls into ArcGIS, pandas or tkinter.

**Serial numbers.** A project serial is a year-prefixed base `YYYYRRRR`. A map serial is a composite `YYYYRRRR-CCCC`.
- `get_serial` reads an integer counter file and writes the new base back.
- `new_serial` adds `-0001` to a base. It increments and zero-pads the counter of a composite, or asks for a fresh base past 9999.
- `validate_serial` shows advisory dialogs.
- `validate_project` runs an ordered chain of argument checks.
- `log_project` derives three names and appends one catalog line.
- `add_map` parses the last `.aprx` file name and mints one serial per copy.

**The catalog and index.**
- `get_metadata` numbers the files of a walk from 1.
- `create_index` writes `ID|NAME` index files for maps, layers and layouts, and left-joins them to the catalog.
- `delete_project` removes the ArcGIS Pro leftovers of a project folder.

**The utilities of `utils.py` and `pyxidust/gp.py`.**
- The letter and number name generators.
- `validate_string`.
- The `change_name` renumbering loop.
- The `file_parse` options.
- Options 1 and 3 of `get_time`.
- The bare-counter copy of `new_serial`.

**How the state is modelled.**
- The counter file and the catalog are fields of a class, `Pyxidust.Workspace`. `get_serial`, `new_serial`, `log_project` and `add_map` are methods that change those fields.
- The working directory of `change_name` is a class with the counter text and the list of renames.
- The project directory of `create_index` is a class with the catalog, the three index files and the three joins.
- The loops of the source are `while` loops proved against recursive specification functions. Every property is stated on those functions.
- `os.walk` results, file listings, the user name, the clock and the contents of ArcGIS projects are parameters.

Modules:
- `Builtins`: `Option`, `Result` and the Python exceptions raised.
- `Strings`: ASCII character classes, `int()`, `str()`, `zfill`, `split`, `join`, `replace`, `splitlines` and `os.path.join`.
- `Serials`, `ProjectChecks`, `Pyxidust`, `CatalogIndex` and `Cleanup`: `pyxidust/projects.py`.
- `Projects`: the top-level `projects.py`.
- `Utils`: `utils.py`.
- `Gp`: `get_suffix` of `pyxidust/gp.py`.

Some behaviour is kept as the code has it:
- The counter file receives the whole year-prefixed serial.
- Validation of a serial only shows dialogs.
- A serial of another length leaves `serial_new` unbound.

Consequences of this are proved. With a four-digit year and a four-digit counter, the second fresh serial from one counter file is at least 17 characters long, and `new_serial` cannot extend it. An 8-character serial with letters still gains `-0001`.

Where the code fails in a way its documentation does not intend, both readings are modelled (see "## Findings"). The rest of the model uses the corrected one.

## Model

| member | source | states |
|---|---|---|
| Serials.NextBase | pyxidust/projects.py:287-292 | get_serial yields the year followed by str(n+1) for the integer n in the counter file. An unreadable file, and only that, is a ValueError |
| Serials.MintFresh | pyxidust/projects.py:521-523 | new_serial(None) and a suffix past 9999 both return the fresh base plus "-0001". The counter file then holds exactly that base, year included |
| Serials.MintCounterUnchanged | pyxidust/projects.py:529-539 | every branch other than None and rollover leaves the counter file as it was |
| Serials.MintPadded | pyxidust/projects.py:532-539 | B-zfill4(k) below the rollover becomes B-zfill4(k+1), and the counter file is untouched |
| Serials.IncrementPadded | pyxidust/projects.py:532-539 | on B-zfill4(k), new_serial mints B-zfill4(k+1) while k+1 <= 9999, and asks for a fresh base otherwise |
| Serials.IncrementComposite | pyxidust/projects.py:532-539 | for any 4-digit suffix, its int() value k decides: B-zfill4(k+1) or rollover |
| Serials.IncrementKeepsShape | pyxidust/projects.py:529-539 | a serial of the documented digit shape is followed by a 13-character serial of the same shape |
| Serials.AdvisoryValidation | pyxidust/projects.py:527-530 | "2023ABCD" draws the letters dialog and still becomes "2023ABCD-0001", counter untouched |
| Serials.SecondBaseGrows | pyxidust/projects.py:288-290 | because the whole base is written back, the next base is at least as long as the year and the first base together |
| Serials.SecondFreshSerialStalls | pyxidust/projects.py:288-290 | with a four-digit year and a 4-digit counter, new_serial cannot extend the second fresh serial from one file (serial_new unbound) |
| Serials.SecondFreshSerialLength | pyxidust/projects.py:288-290 | that second fresh serial has at least 17 characters |
| Serials.ValidateSerialFormat | pyxidust/projects.py:648-661 | the format dialog appears exactly when the length is not 8 and the serial is not 13 characters with one '-' at index 8. It then appears alone |
| Serials.ValidateSerialSilent | pyxidust/projects.py:629-661 | validate_serial shows nothing exactly for a well-shaped serial whose segments hold no letter, whitespace or punctuation |
| Serials.SilentComposite | pyxidust/projects.py:654-657 | a 13-character serial is silent exactly when both of its segments are clean |
| Serials.CheckNumericSilent | pyxidust/projects.py:629-641 | _check_numeric shows nothing exactly for a string with no letter, whitespace or punctuation |
| Serials.DashInBaseIsSpecial | pyxidust/projects.py:631-639 | the first class found decides: a '-' in an 8-character serial without letters or spaces gives only the special-characters dialog |
| Serials.DigitSerialValid | pyxidust/projects.py:648-657 | every serial of the documented digit forms passes validation silently |
| Serials.ShapeSplit | pyxidust/projects.py:655 | a 13-character serial with its only '-' at index 8 splits into the 8 and 4 characters around it |
| Serials.CountDashShape | pyxidust/projects.py:654 | count('-') == 1 with '-' at index 8 leaves no '-' in either segment |
| Serials.DashShapeCount | pyxidust/projects.py:654 | the converse: one '-' at index 8 and none elsewhere is count('-') == 1 |
| Serials.BaseDigits | pyxidust/projects.py:288 | a year followed by str(m) is a digit string without a leading zero, and int() reads it whole |
| Serials.FreshFromParsed | pyxidust/projects.py:523 | f'{get_serial()}-0001' from a file holding n is str(YEAR) + str(n+1) + "-0001", and the file then holds the base |
| ProjectChecks.FirstFailing | pyxidust/projects.py:586-601 | the message of the first failing check of a list, None exactly when none fails |
| ProjectChecks.FirstErrorIsFirstFailing | pyxidust/projects.py:586-601 | the if/elif chain reports exactly the first failing check of the seven, in their written order |
| ProjectChecks.FirstErrorNone | pyxidust/projects.py:586-601 | no message exactly when every one of the seven checks passes |
| ProjectChecks.SpacesInDescriptionOnly | pyxidust/projects.py:586-598 | a description with spaces passes, and the same text as a name is refused for its spaces |
| ProjectChecks.ValidateProjectAsWrittenRaises | pyxidust/projects.py:586-607 | as written, acceptable arguments, and only those, end in UnboundLocalError on `error` |
| ProjectChecks.ValidateProjectPasses | pyxidust/projects.py:586-607 | corrected, acceptable arguments pass. Any other arguments stop with the first failing check's dialog, then the restart dialog |
| Projects.ValidateProjectAsWrittenRaises | projects.py:185-208 | as written, the message comes back exactly when some check fails, and acceptable arguments raise |
| Projects.ValidateProjectFirstFailure | projects.py:185-208 | corrected, None exactly on acceptable arguments, otherwise the first failing message in the fixed order (template checked against LAYOUTS) |
| Projects.LengthLimits | projects.py:195-203 | a description over 50 characters and a name over 15 are refused, each with its own message |
| Projects.NewProject | projects.py:47-58 | a validation message exits before get_serial, with the counter and the catalog unchanged. Otherwise the counter advances and exactly one catalog entry is appended |
| Projects.FirstWithFiles | projects.py:292-298 | the first directory of the walk holding a file, every earlier one holding none |
| Projects.RemoveFolders | projects.py:293-295 | the folder loop removes root/folder for each folder named exactly '.backups' or 'Index', in order |
| Projects.RemoveFiles | projects.py:296-298 | the corrected file loop removes root/file for each file ending in '.aprx', in order |
| Projects.DeleteProjectAsWritten | projects.py:292-298 | as written, the folder loops run up to and including the first directory holding a file, where AttributeError stops the walk |
| Projects.DeleteProject | projects.py:292-298 | corrected, the removals are the folder and file removals of every directory, in walk order |
| Projects.FolderRemovalsExact | projects.py:293-295 | a path is removed by the folder loop exactly when it is root joined with a '.backups' or 'Index' folder |
| Projects.FileRemovalsExact | projects.py:296-298 | a path is removed by the corrected file loop exactly when it is root joined with a file ending in '.aprx' |
| Projects.WalkFolderRemovalsExact | projects.py:292-295 | over the whole walk, the folders removed are exactly the '.backups' and 'Index' folders of every directory |
| Pyxidust.Workspace.constructor | pyxidust/projects.py:285-290 | a workspace holds the configured year, the counter file and the catalog as given |
| Pyxidust.Workspace.GetSerial | pyxidust/projects.py:282-292 | returns NextBase of the old counter file. On success the file then holds exactly the returned string. On failure it is unchanged |
| Pyxidust.Workspace.NewSerial | pyxidust/projects.py:497-541 | returns new_serial's result and leaves the counter file as Mint says. The dialogs shown are validate_serial's for a given serial, and none for None |
| Pyxidust.Workspace.FreshFromCounter | pyxidust/projects.py:523 | f'{get_serial()}-0001' and the counter file afterwards |
| Pyxidust.Workspace.LogProject | pyxidust/projects.py:357-373 | returns (serial_name, serial-0001_name.aprx, serial-0001). The catalog is its old content plus exactly one entry |
| Pyxidust.CatalogEntryFields | pyxidust/projects.py:372 | the entry is '\n' followed by the serial, name, description, user, date and time, which split back on ',' when no field holds one |
| Pyxidust.CatalogEntryJoined | pyxidust/projects.py:372 | the entry is '\n' followed by the six fields joined with ',' |
| Pyxidust.LoggedMapNameParses | pyxidust/projects.py:366 | the map name log_project returns parses back into serial-0001 and the name, as add_map reads file names |
| Pyxidust.AprxFiles | pyxidust/projects.py:48 | the listing filtered to names ending in '.aprx', in order |
| Pyxidust.LastAprxIs | pyxidust/projects.py:48 | when the listing ends with an .aprx name, pop() returns it |
| Pyxidust.ParseAprxName | pyxidust/projects.py:50-53 | replace('.aprx','').split('_') gives back the serial and title of serial_title.aprx |
| Pyxidust.SeedsOf | pyxidust/projects.py:48-54 | what add_map reads from the last file and the chosen file: both serials with their first `drop` characters cut, and the title |
| Pyxidust.CompositeChars | pyxidust/projects.py:539 | a composite serial adds no '_' or '.' to its base |
| Pyxidust.Copies | pyxidust/projects.py:89-91 | n copies are made for n passes |
| Pyxidust.CopiesAt | pyxidust/projects.py:56-90 | the i-th copy is made under serial B-(c+i) |
| Pyxidust.CopiesDestinations | pyxidust/projects.py:60 | the i-th copy is written to directory\\B-(c+i)_title.aprx |
| Pyxidust.CopyRunStep | pyxidust/projects.py:89-91 | one pass of the loop: a copy under the current serial, then the run continues from the next serial |
| Pyxidust.CopyRunCounts | pyxidust/projects.py:88-91 | while the counter stays within 9999, n passes make the copies under B-(c)…B-(c+n-1) with no error and the counter file untouched |
| Pyxidust.RunStart | pyxidust/projects.py:88-89 | the run begins with new_serial(serial_last) |
| Pyxidust.RunFailsAtStart | pyxidust/projects.py:88 | a last serial that new_serial refuses stops add_map before any copy |
| Pyxidust.Workspace.AddMapAsWritten | pyxidust/projects.py:48-91 | add_map as written once the import at line 45 succeeds, with three characters cut from each parsed serial: its copies, error and counter file are those of AddMapRun, and its validate_serial dialogs are those of AddMapNotices |
| Pyxidust.Workspace.AddMap | pyxidust/projects.py:48-91 | add_map with whole serials: its copies, error and counter file are those of AddMapRun, and its validate_serial dialogs are those of AddMapNotices |
| Pyxidust.Workspace.AddMapFrom | pyxidust/projects.py:48-91 | the shared body: seeds, the first new_serial, then the loop. The dialogs are those of the first new_serial followed by those of the loop |
| Pyxidust.Workspace.CopyLoop | pyxidust/projects.py:89-91 | the loop makes a copy, then calls new_serial, stopping at the first exception, exactly as CopyRun describes. The dialogs of its new_serial calls are CopyNotices, in order |
| Pyxidust.AddMapNamesCopies | pyxidust/projects.py:48-91 | with whole serials and a last file B-CCCC, the copies are B-(CCCC+1)…B-(CCCC+quantity) with the chosen title, and the counter file is untouched |
| Pyxidust.AddMapSilent | pyxidust/projects.py:88-91 | with an all-digit base B and a last file B-CCCC, no new_serial call of the run shows a dialog while the counter stays within 9999 |
| Pyxidust.CopyNoticesSilent | pyxidust/projects.py:89-91 | passes of the loop over digit composites within 9999 show no dialog |
| Pyxidust.AddMapAsWrittenStalls | pyxidust/projects.py:51-54 | once the import at line 45 succeeds, a serial of either documented length loses three characters, so new_serial shows the format dialog, leaves serial_new unbound, and no copy is made |
| Pyxidust.DocumentedName | pyxidust/projects.py:35 | the documented file name is the composite 20232179-0003 with the title GPSPoints |
| Pyxidust.DocumentedCloneCallStalls | pyxidust/projects.py:34-35 | the documented clone call, once the import at line 45 succeeds, shows only the format dialog, makes no copy and fails with serial_new unbound |
| Pyxidust.DocumentedCloneCallCopies | pyxidust/projects.py:34-35 | the same call with whole serials makes three copies, the last 20232179-0006_GPSPoints.aprx, counter untouched |
| Pyxidust.DocumentedCloneCallSilent | pyxidust/projects.py:34-35 | the same call with whole serials shows no validate_serial dialog |
| CatalogIndex.Numbered | pyxidust/projects.py:272-277 | row i of the catalog is the (i+1)-th file found, with ID i+1 |
| CatalogIndex.ProjectDirectory.GetMetadata | pyxidust/projects.py:259-278 | the catalog ends with every file found numbered from 1 in walk order. It is left unwritten when none is found |
| CatalogIndex.DirHitsExact | pyxidust/projects.py:264-268 | a directory's files found are exactly those with the extension, at their joined path |
| CatalogIndex.HitsExact | pyxidust/projects.py:263-268 | the catalog lists exactly the files of the walk with the extension |
| CatalogIndex.ProjectDirectory.CreateIndex | pyxidust/projects.py:149-204 | fails with FileNotFoundError exactly when no catalog exists and none is written, and then leaves the index files and joins as they were. Otherwise the catalog is renumbered and the index files and joins are those of the opened projects |
| CatalogIndex.ProjectDirectory.WriteIndex | pyxidust/projects.py:167-204 | writes the three index files and the three left joins of the given lists |
| CatalogIndex.Opened | pyxidust/projects.py:156 | the k-th project is the one at the k-th catalog path |
| CatalogIndex.ListAttributes | pyxidust/projects.py:159-165 | the loop over enumerate(projects, start=1) fills the three lists as Frames, Layers and Layouts |
| CatalogIndex.ListMaps | pyxidust/projects.py:160-163 | one line per map and one per layer of it, under the project's ID |
| CatalogIndex.ListNames | pyxidust/projects.py:162-165 | one line per layer or layout name, in order |
| CatalogIndex.NameEntries | pyxidust/projects.py:162-165 | the i-th line carries the ID and the i-th name |
| CatalogIndex.MapEntries | pyxidust/projects.py:160-161 | the i-th line carries the ID and the i-th map's name |
| CatalogIndex.EntryLines | pyxidust/projects.py:161-170 | the i-th body line is str(ID), a bar, then the name of the i-th entry |
| CatalogIndex.FramesOfProjects | pyxidust/projects.py:159-161 | every map line has an ID in 1..number of projects, and that project has a map of that name |
| CatalogIndex.LayersOfProjects | pyxidust/projects.py:159-163 | every layer line has an ID in range, and that project has a layer of that name |
| CatalogIndex.LayoutsOfProjects | pyxidust/projects.py:164-165 | every layout line has an ID in range, and that project has a layout of that name |
| CatalogIndex.LayerEntriesOfMaps | pyxidust/projects.py:160-163 | a project's layer lines carry its ID and the name of a layer of one of its maps |
| CatalogIndex.RowsWithId | pyxidust/projects.py:195-204 | the catalog rows the merge matches for an ID all carry that ID |
| CatalogIndex.RowsWithIdUnique | pyxidust/projects.py:182-204 | with distinct IDs, an ID in the catalog matches exactly its own row |
| CatalogIndex.RowsWithIdAbsent | pyxidust/projects.py:195-204 | an ID no row carries matches nothing |
| CatalogIndex.JoinOneNumbered | pyxidust/projects.py:195-204 | a line whose ID is in 1..rows meets exactly the row of that ID |
| CatalogIndex.LeftJoinOneEach | pyxidust/projects.py:195-204 | when each line meets one row, the left merge has one row per line, in line order |
| CatalogIndex.LeftJoinNumbered | pyxidust/projects.py:195-204 | joined to the catalog, every line keeps its place and meets the row of its ID. Nothing is dropped or duplicated |
| CatalogIndex.MapsJoinedToTheirProject | pyxidust/projects.py:156-204 | MapsJoined has one row per map line, in order, each with the catalog row of the project holding that map |
| CatalogIndex.LayersJoinedToTheirProject | pyxidust/projects.py:156-204 | the same for LayersJoined and the project holding the layer |
| CatalogIndex.LayoutsJoinedToTheirProject | pyxidust/projects.py:156-204 | the same for LayoutsJoined and the project holding the layout |
| CatalogIndex.ReadEntry | pyxidust/projects.py:184-189 | a line read back with the bar as separator yields an entry whose ID is int() of the first field |
| CatalogIndex.ReadEntryLine | pyxidust/projects.py:161-189 | an ID-bar-NAME line reads back as its entry when the name holds no bar or line break, is not a NaN token of read_csv and does not open with a quote |
| CatalogIndex.ReadEntriesLines | pyxidust/projects.py:169-189 | the body lines read back as the entries they were written from, for names as in ReadEntryLine |
| CatalogIndex.IndexTextRoundTrip | pyxidust/projects.py:168-189 | an index file written by create_index reads back, after its header, as the lines it was written from, for names as in ReadEntryLine. With no lines the file is the header and a blank line, which reads as an empty table |
| Cleanup.RemovalsOf | pyxidust/projects.py:227-234 | every removal attempted for a name is root joined with that name |
| Cleanup.RemovalsOfCount | pyxidust/projects.py:228-234 | one removal attempt per default name matched |
| Cleanup.MatchCountPositive | pyxidust/projects.py:229-233 | some default name is matched exactly when the count of matches is positive |
| Cleanup.RemovedExactlyWhenMatching | pyxidust/projects.py:226-234 | a name is removed exactly when it starts or ends with a default name, once per default name it matches |
| Cleanup.RemovalsOfStep | pyxidust/projects.py:228-230 | the loop over default names, one item at a time |
| Cleanup.DottedIndexRemovedTwice | pyxidust/projects.py:228-230 | '.Index' matches both '.' and 'Index', so two removals of the same path are attempted. The second raises FileNotFoundError |
| Cleanup.ProjectFileRemovedOnce | pyxidust/projects.py:231-234 | stem.aprx with no '.' in the stem matches only '.aprx' and is removed once |
| Gp.Suffixes | pyxidust/gp.py:568-574 | the first `count` values yielded are, in order, the n-th closed-form value SuffixAt(base, n) |
| Gp.Round | pyxidust/gp.py:570-574 | one pass of the for loop continues the closed form and raises `loops` after 'Z' |
| Gp.SuffixInRound | pyxidust/gp.py:570-571 | the i-th value of round r is the i-th letter written r times |
| Gp.OnlyLastIsZ | pyxidust/gp.py:573 | letter.startswith('Z') holds for the last letter only |
| Gp.UpperLetters | pyxidust/gp.py:566 | ascii_uppercase has 26 letters, 'A' to 'Z' in order |
| Gp.FirstRound | pyxidust/gp.py:561-563 | the first 26 values are the base and one letter, so 'filename_A' and then 'filename_B' |
| Gp.SuffixShape | pyxidust/gp.py:571 | every value starts with the base and is followed by one upper-case letter repeated n/26+1 times |
| Gp.SuffixGrowsAfterZ | pyxidust/gp.py:573-574 | the suffix grows by one letter exactly after a value ending in 'Z' |
| Gp.SuffixesUnique | pyxidust/gp.py:547-556 | no two values are equal |
| Utils.PlainFresh | utils.py:520-530 | _get_serial plus the write: str(n+1)-0001, with str(n+1) and no year written to the file. An unreadable file is a ValueError, and only that |
| Utils.CounterFile.constructor | utils.py:522-529 | the serial file holds the given text |
| Utils.CounterFile.NewSerial | utils.py:492-553 | the result and the new file content are PlainMint of the old content |
| Utils.PlainFreshTwice | utils.py:520-530 | two fresh serials in a row are n+1 and n+2: this copy keeps counting |
| Utils.PlainMintCounter | utils.py:526-551 | the file changes only for None or a rollover, and then holds str(n+1) |
| Utils.Renamed | utils.py:55-60 | one rename per matching file |
| Utils.RenamedAt | utils.py:57-60 | the k-th matching file is renamed with the counter start+k+1 |
| Utils.RenamedSnoc | utils.py:57-60 | a further matching file takes the next counter |
| Utils.RenamedAppend | utils.py:55-60 | the renames of two runs of files are those of the first, then those of the second continuing its counter |
| Utils.PhotoFolder.constructor | utils.py:52 | the folder starts with the given counter text and no renames |
| Utils.PhotoFolder.ChangeName | utils.py:52-62 | an unreadable counter raises ValueError before any rename. Otherwise the k-th matching file in walk order becomes str(start+k)+extension, and the counter file ends at start + number of matches (untouched if none) |
| Utils.PhotoFolder.RenameWalk | utils.py:55-62 | the outer loop: renames and counter after every directory of the walk |
| Utils.PhotoFolder.RenameDirectory | utils.py:55-62 | one directory continues the renames and the counter of the directories before it |
| Utils.PhotoFolder.RenameFiles | utils.py:56-62 | the inner loop: each matching file renamed with the next counter, which is written back after each rename |
| Utils.ChangeNameTargets | utils.py:57-60 | every new name keeps the extension, and no two files get the same new name |
| Utils.TargetKeepsExtension | utils.py:60 | the k-th new name ends with the extension and renames the k-th matching file |
| Utils.TargetsDistinct | utils.py:58-60 | two different matching files get different names |
| Utils.TargetInjective | utils.py:60 | equal new names mean equal counters |
| Utils.Matching1Exact | utils.py:56-57 | the files of a directory renamed are exactly those ending with the extension |
| Utils.MatchingExact | utils.py:55-57 | over the walk, the files renamed are exactly those ending with the extension |
| Utils.Numbers | utils.py:337-341 | the first `count` values are base + str(n+1), n from 0 |
| Utils.NumbersUnique | utils.py:337-341 | every value starts with the base, and no two values are equal |
| Utils.ValidateStringAccepts | utils.py:716-729 | corrected, the text comes back unchanged. It is accepted exactly within the maximum, with no whitespace or punctuation, no digit under 'alpha' and no letter under 'numeric' |
| Utils.ValidateStringAsWrittenRejects | utils.py:716-729 | as written, the text comes back unchanged, and whitespace or punctuation always fails |
| Utils.LettersPass | utils.py:719-725 | letters alone pass every character check under 'alpha' |
| Utils.ValidateStringLengthMisread | utils.py:717 | as written, ten letters pass a maximum of '5', and nine letters fail a maximum of '10'. Compared as numbers, the reverse holds |
| Utils.FileParseReadBack | utils.py:181-219 | options 6-9 write one line per piece, so reading the file back with option 3 gives the same pieces |
| Utils.ReplaceBeforeSplit | utils.py:169-219 | options 4, 5, 8 and 9 are options 2, 3, 6 and 7 on the replaced text |
| Utils.FileParseErrors | utils.py:151-219 | a missing find or replace string raises TypeError, an empty separator ValueError and a missing file FileNotFoundError |
| Utils.PreviousYearsParse | utils.py:388-394 | option 1's two strings read back as the two years before the current one, and differ |
| Utils.DaySuffix | utils.py:410-413 | the nested loop leaves the key of the last tuple holding the day |
| Utils.SuffixTableIsOrdinal | utils.py:404-413 | the table gives days 1..31 their English ordinal suffix (1, 21, 31 st; 2, 22 nd; 3, 23 rd; others th), and other days none |
| Utils.TableLookup | utils.py:410-413 | the loop's result read tuple by tuple from the last |
| Utils.TableMembers | utils.py:404-406 | which tuple holds each day of the month |
| Utils.ThMembers | utils.py:405-406 | the 'th' tuple holds exactly 4..20 and 24..30 |
| Utils.TableOutside | utils.py:404-406 | days outside 1..31 are in no tuple |
| Utils.OrdinalOfDay | utils.py:404-406 | the English ordinal rule spelt out for days 1..31 |
| Utils.PrettyTime | utils.py:402-420 | option 3 is the two clock renderings with the day's ordinal suffix between them. A day outside the table leaves `suffix` unbound |
| Strings.ParseIntIntToString | pyxidust/projects.py:288 | int(str(i)) == i |
| Strings.ParseIntDec | pyxidust/projects.py:288 | int() reads back a decimal rendering |
| Strings.ParseIntDigits | pyxidust/projects.py:534 | int() of a digit string is its value, leading zeros included |
| Strings.DecRoundTrip | pyxidust/projects.py:288 | the value of str(n) is n |
| Strings.IntToStringInjective | utils.py:59-60 | different numbers have different str() |
| Strings.Pad4Facts | pyxidust/projects.py:535 | str(k).zfill(4) for k <= 9999 is four digits, and int() reads it back as k |
| Strings.Pad4Injective | pyxidust/projects.py:535 | different counters get different zfill(4) renderings |
| Strings.SplitJoin | pyxidust/projects.py:533 | joining the pieces of split(sep) with sep gives back the string |
| Strings.JoinSplitChar | pyxidust/projects.py:169 | splitting a join on a character no piece holds gives back the pieces |
| Strings.SplitLinesOfLines | utils.py:186-194 | splitlines() of pieces written each followed by '\n' gives back the pieces |
| Strings.SplitLinesNoBreaks | utils.py:166 | no piece of splitlines() holds a line break |
| Strings.ReplaceExtension | pyxidust/projects.py:50 | replace('.aprx', '') strips the extension from a stem without '.' |
| Strings.PunctRanges | pyxidust/projects.py:627 | string.punctuation is the ASCII ranges 33-47, 58-64, 91-96 and 123-126 |
| Strings.AlphanumericNotPunct | pyxidust/projects.py:631-637 | no letter or digit is punctuation |

## Left out

- ArcGIS: every arcpy call. add_map's `_create_project` is modelled as the copy it makes (source, destination, new project name) and the renaming it asks for. The renaming's effect inside the project is not modelled.
- The file system, the clock and the user name are parameters: directory listings and `os.walk` results (order, and pruning of removed folders), file modification times, `getpass.getuser()`, the strftime renderings and the current day.
- pandas: `read_csv`, `concat`, `merge` and `to_csv` are modelled as sequences of rows. The CSV text of Catalog.csv and of the joined files is not.
- Dialogs, `exit()` and `tk_message` become returned values; the validate_serial dialogs of `add_map` are its `notices`. The project directory creation after `log_project` in `new_project` and `archive_project` are not modelled.
- Python's Unicode character classes: `isalpha`, `isspace` and `isnumeric` are modelled on ASCII, and `string.punctuation` exactly.
- Generators: `get_suffix`, `get_letters` and `get_numbers` are modelled by their first `count` values. `get_letters` in utils.py:245-251 is the same loop as `get_suffix` and shares the Gp model.
- `get_time` options 2 and 4 only format the clock. They are not modelled.
- utils.py `validate_serial`: it refers to an undefined `SPECIAL` and to `pyxidust.gui`, which is not part of this model. The `pyxidust/projects.py` version is modelled instead. 
- Utils.CounterFile.NewSerial: utils.py `validate_serial` cannot run as written. It imports `pyxidust.gui`, which is not part of this model. A given serial of length 8, or of length 13 with its one '-' at index 8, whose segments hold no letter and no whitespace reaches the undefined `SPECIAL` at utils.py:671 and raises NameError. That includes the docstring's own '20231234-0001'. The model lets the validation return and gives PlainMint's serial instead.
- `validate_project` in projects.py imports LAYOUTS from pyxidust/config.py, which defines none. The model uses the LAYOUTS of config.py:28-29, as if the import succeeded.
- Utils.PhotoFolder.ChangeName: the source calls `os.chdir(directory)` and then `os.rename(photo, …)` with the bare file name. A matching file found in a subdirectory of the walk therefore raises FileNotFoundError, or renames a top-level file of the same name instead. On Windows, a target name that already exists (for example `101.jpg` listed after `a.jpg`, with the counter at 100) raises FileExistsError. The model has no file system. It renames every matching file of every directory in walk order, records the file name and its new number rather than the path, and never fails after the counter is read. Utils.PhotoFolder.RenameWalk has the same gap.
- `get_metadata` in utils.py:255-313 is the same loop as the modelled `pyxidust/projects.py` one. 
- CatalogIndex.ReadEntryLine: read_csv's parsing is modelled only as splitting on '|' and '\n'. The NaN tokens (NA_VALUES), quoting and column dtype inference are not modelled. The round trip is therefore stated only for names read_csv keeps as text: names that are not a NaN token and do not open with '"'. A column whose every name reads as a number (such as '01' or '1.50') is inferred as numeric by pandas and written back changed. The model does not capture this.
- CatalogIndex.ReadEntriesLines: the same restriction on names as CatalogIndex.ReadEntryLine, for every line.
- CatalogIndex.IndexTextRoundTrip: the same restriction on names as CatalogIndex.ReadEntryLine. A name that read_csv reads as NaN, such as 'NA', '' or 'null', becomes an empty field in the joined files. It is outside the round trip.
- Projects.NewProject: as written, the wrapper imports `tk_message` from `pyxidust.projects` at projects.py:45. That module defines `message_window` instead, so the wrapper raises ImportError before anything runs. Line 46 would also bind the `validate_project` of pyxidust/projects.py:579, which shows its dialogs and exits itself instead of returning a message. The model takes the wrapper as the file evidently means it: the imports succeed, `validate_project` is this file's own version (projects.py:191-208, corrected as in "## Findings"), and a returned message leads to `exit()`. `get_serial` and `log_project` are the pyxidust/projects.py ones, as imported.
- Pyxidust.Workspace.AddMapAsWritten: as written, `add_map` raises ImportError at pyxidust/projects.py:45, because pyxidust/config.py defines no `LAYOUTS`. The model assumes the import succeeds and yields a templates folder path, the `layouts` field of `MapRequest`. Pyxidust.AddMapAsWrittenStalls and Pyxidust.DocumentedCloneCallStalls describe the code past that import.
- Cleanup.RemovedExactlyWhenMatching: `delete_project` of `pyxidust/projects.py` is modelled per name (which removals it attempts and how many), not as a loop over a tree. The second removal of a name raising FileNotFoundError is stated in prose only.
- Other repository functions (lidar tools, geoprocessing wrappers, sessions, `clear_folder`, `collapse_path`, `trim_scale`) are outside this model.

## Findings

| source | as written | input that shows it | evidently intended | confidence | as-written member | corrected member |
|---|---|---|---|---|---|---|
| pyxidust/projects.py:603 | `error` is assigned only when a check fails, then read unconditionally | description 'survey', name 'Map', template 'P_08x11' raises UnboundLocalError | valid arguments pass | high, not executed | ProjectChecks.ValidateProjectAsWrittenRaises | ProjectChecks.ValidateProjectPasses |
| projects.py:208 | `return error` with `error` never initialised | the same arguments raise instead of returning None | None returned for valid arguments | high, not executed | Projects.ValidateProjectAsWrittenRaises | Projects.ValidateProjectFirstFailure |
| pyxidust/projects.py:51 | once the import at line 45 succeeds, `serial_name_last[3:]` and `serial_name[3:]` cut three characters from each serial | the documented call with '20232179-0003_GPSPoints.aprx' gives new_serial '32179-0003', a 10-character serial, so serial_new is unbound | copies 20232179-0004 to -0006 | medium, not executed | Pyxidust.DocumentedCloneCallStalls | Pyxidust.DocumentedCloneCallCopies |
| projects.py:297 | `file.ednswith('.aprx')` | any directory of the walk holding a file raises AttributeError | `file.endswith('.aprx')` | high, not executed | Projects.DeleteProjectAsWritten | Projects.FileRemovalsExact |
| utils.py:717 | `length < str(len(text))` compares strings | length '5' lets ten letters through, and length '10' refuses nine | compare int(length) with len(text) | high, not executed | Utils.ValidateStringLengthMisread | Utils.ValidateStringAccepts |
