/**
 * The catalog and index of a project directory (get_metadata and
 * create_index in pyxidust/projects.py).  get_metadata numbers every file
 * with the extension from 1 in walk order and writes Catalog.csv;
 * create_index opens each catalogued project in that order, writes one
 * 'ID|NAME' line per map, layer and layout under the project's position,
 * and left-joins those lines back to the catalog on ID.
 *
 * The directory walk, the modification times and the contents of each
 * project are inputs; the CSV encoding of Catalog.csv and of the joined
 * tables is not modelled, only their rows.
 */
module CatalogIndex {
  import opened Builtins
  import opened Strings

  // ---------------------------------------------------------------------
  // get_metadata
  // ---------------------------------------------------------------------

  /** A file as the walk reports it, with its modification time already rendered */
  datatype FileStat = FileStat(name: string, modified: string)

  /** One step of os.walk, with the files of that directory */
  datatype WalkDir = WalkDir(root: string, files: seq<FileStat>)

  /** A file found: the three lists name, path and time grow together */
  datatype Hit = Hit(name: string, path: string, modified: string)

  /** A row of Catalog.csv: the index shifted to start at 1 and named ID */
  datatype CatalogRow = CatalogRow(id: nat, name: string, path: string, modified: string)

  /** The files of one directory that end with the extension, in order */
  function DirHits(root: string, files: seq<FileStat>, extension: string): seq<Hit> {
    if |files| == 0 then []
    else
      var f := files[|files| - 1];
      DirHits(root, files[..|files| - 1], extension) +
        (if EndsWith(f.name, extension) then [Hit(f.name, PathJoin(root, f.name), f.modified)] else [])
  }

  /** The files of the whole walk that end with the extension, in walk order */
  function Hits(walk: seq<WalkDir>, extension: string): seq<Hit> {
    if |walk| == 0 then []
    else
      var d := walk[|walk| - 1];
      Hits(walk[..|walk| - 1], extension) + DirHits(d.root, d.files, extension)
  }

  /** The data frame written: row i is the (i+1)-th file found */
  function Numbered(hits: seq<Hit>): (rows: seq<CatalogRow>)
    ensures |rows| == |hits|
    ensures forall i :: 0 <= i < |rows| ==> rows[i] == CatalogRow(i + 1, hits[i].name, hits[i].path, hits[i].modified)
  {
    seq(|hits|, i requires 0 <= i < |hits| => CatalogRow(i + 1, hits[i].name, hits[i].path, hits[i].modified))
  }

  // ---------------------------------------------------------------------
  // create_index: the attribute lists
  // ---------------------------------------------------------------------

  /** A map of a project and the names of its layers */
  datatype MapFrame = MapFrame(name: string, layers: seq<string>)

  /** What arcpy lists in a project: its maps and the names of its layouts */
  datatype Project = Project(maps: seq<MapFrame>, layouts: seq<string>)

  /** One 'ID|NAME' line of Maps.csv, Layers.csv or Layouts.csv */
  datatype Entry = Entry(id: nat, name: string)

  function NameEntries(id: nat, names: seq<string>): (r: seq<Entry>)
    ensures |r| == |names|
    ensures forall i :: 0 <= i < |r| ==> r[i] == Entry(id, names[i])
  {
    if |names| == 0 then []
    else NameEntries(id, names[..|names| - 1]) + [Entry(id, names[|names| - 1])]
  }

  function MapEntries(id: nat, maps: seq<MapFrame>): (r: seq<Entry>)
    ensures |r| == |maps|
    ensures forall i :: 0 <= i < |r| ==> r[i] == Entry(id, maps[i].name)
  {
    if |maps| == 0 then []
    else MapEntries(id, maps[..|maps| - 1]) + [Entry(id, maps[|maps| - 1].name)]
  }

  function LayerEntries(id: nat, maps: seq<MapFrame>): seq<Entry> {
    if |maps| == 0 then []
    else LayerEntries(id, maps[..|maps| - 1]) + NameEntries(id, maps[|maps| - 1].layers)
  }

  /** map_frames, map_layers and map_layouts after the first |projects| projects */
  function Frames(projects: seq<Project>): seq<Entry> {
    if |projects| == 0 then []
    else Frames(projects[..|projects| - 1]) + MapEntries(|projects|, projects[|projects| - 1].maps)
  }

  function Layers(projects: seq<Project>): seq<Entry> {
    if |projects| == 0 then []
    else Layers(projects[..|projects| - 1]) + LayerEntries(|projects|, projects[|projects| - 1].maps)
  }

  function Layouts(projects: seq<Project>): seq<Entry> {
    if |projects| == 0 then []
    else Layouts(projects[..|projects| - 1]) + NameEntries(|projects|, projects[|projects| - 1].layouts)
  }

  /** The body of a written index file: 'ID|NAME' lines joined by newlines */
  function EntryLine(e: Entry): string {
    Dec(e.id) + "|" + e.name
  }

  function EntryLines(entries: seq<Entry>): (r: seq<string>)
    ensures |r| == |entries|
    ensures forall i :: 0 <= i < |r| ==> r[i] == EntryLine(entries[i])
  {
    seq(|entries|, i requires 0 <= i < |entries| => EntryLine(entries[i]))
  }

  /** f'{header}\n{body}' with the body '\n'.join of the lines */
  function IndexText(header: string, entries: seq<Entry>): string {
    header + "\n" + JoinWith("\n", EntryLines(entries))
  }

  // ---------------------------------------------------------------------
  // create_index: the joins
  // ---------------------------------------------------------------------

  /** A row of a joined table: the attribute line and the catalog row it met, if any */
  datatype Joined = Joined(entry: Entry, info: Option<CatalogRow>)

  /** The catalog rows with a given ID, in catalog order */
  function RowsWithId(info: seq<CatalogRow>, id: nat): (r: seq<CatalogRow>)
    ensures forall i :: 0 <= i < |r| ==> r[i].id == id
  {
    if |info| == 0 then []
    else (if info[0].id == id then [info[0]] else []) + RowsWithId(info[1..], id)
  }

  /** merge(how='left') on ID: every attribute line meets each matching catalog row, or none */
  function JoinOne(e: Entry, info: seq<CatalogRow>): seq<Joined> {
    var rows := RowsWithId(info, e.id);
    if |rows| == 0 then [Joined(e, None)]
    else seq(|rows|, i requires 0 <= i < |rows| => Joined(e, Some(rows[i])))
  }

  function LeftJoin(attributes: seq<Entry>, info: seq<CatalogRow>): seq<Joined> {
    if |attributes| == 0 then []
    else JoinOne(attributes[0], info) + LeftJoin(attributes[1..], info)
  }

  // ---------------------------------------------------------------------
  // The project directory
  // ---------------------------------------------------------------------

  /** The files get_metadata and create_index write in the directory */
  class ProjectDirectory {
    /** Catalog.csv, absent until a file with the extension is found */
    var catalog: Option<seq<CatalogRow>>
    var maps: string
    var layers: string
    var layouts: string
    var mapsJoined: seq<Joined>
    var layersJoined: seq<Joined>
    var layoutsJoined: seq<Joined>

    constructor (catalog: Option<seq<CatalogRow>>)
      ensures this.catalog == catalog
      ensures maps == "" && layers == "" && layouts == ""
      ensures mapsJoined == [] && layersJoined == [] && layoutsJoined == []
    {
      this.catalog := catalog;
      maps := "";
      layers := "";
      layouts := "";
      mapsJoined := [];
      layersJoined := [];
      layoutsJoined := [];
    }

    /**
     * get_metadata: the catalog is rewritten after every file found, so it
     * ends with every file found numbered from 1; when none is found it is
     * not written at all.
     */
    method GetMetadata(extension: string, walk: seq<WalkDir>)
      modifies this`catalog
      ensures catalog == if |Hits(walk, extension)| == 0 then old(catalog) else Some(Numbered(Hits(walk, extension)))
    {
      var hits: seq<Hit> := [];
      var i := 0;
      while i < |walk|
        invariant 0 <= i <= |walk|
        invariant hits == Hits(walk[..i], extension)
        invariant catalog == if |hits| == 0 then old(catalog) else Some(Numbered(hits))
      {
        var dir := walk[i];
        ghost var before := hits;
        var j := 0;
        while j < |dir.files|
          invariant 0 <= j <= |dir.files|
          invariant hits == before + DirHits(dir.root, dir.files[..j], extension)
          invariant catalog == if |hits| == 0 then old(catalog) else Some(Numbered(hits))
        {
          var file := dir.files[j];
          assert dir.files[..j + 1][..j] == dir.files[..j];
          if EndsWith(file.name, extension) {
            hits := hits + [Hit(file.name, PathJoin(dir.root, file.name), file.modified)];
            catalog := Some(Numbered(hits));
          }
          j := j + 1;
        }
        assert dir.files[..|dir.files|] == dir.files;
        assert walk[..i + 1][..i] == walk[..i];
        i := i + 1;
      }
      assert walk[..|walk|] == walk;
    }

    /**
     * create_index: catalogue the .aprx files, list every project's maps,
     * layers and layouts under its position, write the three index files
     * and join each back to the catalog.  Reading a catalog that was never
     * written raises FileNotFoundError before any index file is written.
     * `open` gives the contents of the project at a path.
     */
    method CreateIndex(walk: seq<WalkDir>, open: string -> Project) returns (error: Option<PyError>)
      modifies this
      ensures error.Some? ==>
        error == Some(FileNotFoundError) &&
        maps == old(maps) && layers == old(layers) && layouts == old(layouts) &&
        mapsJoined == old(mapsJoined) && layersJoined == old(layersJoined) && layoutsJoined == old(layoutsJoined)
      ensures error.None? ==> catalog.Some? && Indexed(catalog.value, open)
      ensures error.None? <==> (old(catalog).Some? || |Hits(walk, ".aprx")| > 0)
      ensures catalog == if |Hits(walk, ".aprx")| == 0 then old(catalog) else Some(Numbered(Hits(walk, ".aprx")))
    {
      GetMetadata(".aprx", walk);
      if catalog.None? {
        return Some(FileNotFoundError);
      }
      var rows := catalog.value;
      var frames, layerList, layoutList := ListAttributes(Opened(rows, open));
      WriteIndex(rows, frames, layerList, layoutList);
      return None;
    }

    /** The writes of create_index once the lists are built: the three index files and the three joins */
    method WriteIndex(rows: seq<CatalogRow>, frames: seq<Entry>, layerList: seq<Entry>, layoutList: seq<Entry>)
      modifies this`maps, this`layers, this`layouts, this`mapsJoined, this`layersJoined, this`layoutsJoined
      ensures Written(rows, frames, layerList, layoutList)
    {
      maps := IndexText("ID|MAP_NAME", frames);
      layers := IndexText("ID|LAYER_NAME", layerList);
      layouts := IndexText("ID|LAYOUT_NAME", layoutList);
      layersJoined := LeftJoin(layerList, rows);
      layoutsJoined := LeftJoin(layoutList, rows);
      mapsJoined := LeftJoin(frames, rows);
    }

    /** The index files and joins hold the given lists of maps, layers and layouts */
    ghost predicate Written(rows: seq<CatalogRow>, frames: seq<Entry>, layerList: seq<Entry>, layoutList: seq<Entry>)
      reads this
    {
      maps == IndexText("ID|MAP_NAME", frames) &&
      layers == IndexText("ID|LAYER_NAME", layerList) &&
      layouts == IndexText("ID|LAYOUT_NAME", layoutList) &&
      mapsJoined == LeftJoin(frames, rows) &&
      layersJoined == LeftJoin(layerList, rows) &&
      layoutsJoined == LeftJoin(layoutList, rows)
    }

    /** The three index files and joins written for a catalog */
    ghost predicate Indexed(rows: seq<CatalogRow>, open: string -> Project)
      reads this
    {
      var projects := Opened(rows, open);
      Written(rows, Frames(projects), Layers(projects), Layouts(projects))
    }
  }

  /** The projects opened from the catalog's FILE_PATH column, in catalog order */
  function Opened(rows: seq<CatalogRow>, open: string -> Project): (r: seq<Project>)
    ensures |r| == |rows| && forall k :: 0 <= k < |rows| ==> r[k] == open(rows[k].path)
  {
    seq(|rows|, k requires 0 <= k < |rows| => open(rows[k].path))
  }

  /** The loop over enumerate(projects, start=1) filling the three lists */
  method ListAttributes(projects: seq<Project>) returns (frames: seq<Entry>, layers: seq<Entry>, layouts: seq<Entry>)
    ensures frames == Frames(projects) && layers == Layers(projects) && layouts == Layouts(projects)
  {
    frames, layers, layouts := [], [], [];
    var k := 0;
    while k < |projects|
      invariant 0 <= k <= |projects|
      invariant frames == Frames(projects[..k]) && layers == Layers(projects[..k]) && layouts == Layouts(projects[..k])
    {
      var fs, ls := ListMaps(k + 1, projects[k].maps);
      var lys := ListNames(k + 1, projects[k].layouts);
      frames, layers, layouts := frames + fs, layers + ls, layouts + lys;
      assert projects[..k + 1][..k] == projects[..k];
      k := k + 1;
    }
    assert projects[..|projects|] == projects;
  }

  /** The loop over a project's maps: one line per map, one per layer of it */
  method ListMaps(identifier: nat, maps: seq<MapFrame>) returns (frames: seq<Entry>, layers: seq<Entry>)
    ensures frames == MapEntries(identifier, maps) && layers == LayerEntries(identifier, maps)
  {
    frames, layers := [], [];
    var m := 0;
    while m < |maps|
      invariant 0 <= m <= |maps|
      invariant frames == MapEntries(identifier, maps[..m]) && layers == LayerEntries(identifier, maps[..m])
    {
      var ls := ListNames(identifier, maps[m].layers);
      frames := frames + [Entry(identifier, maps[m].name)];
      layers := layers + ls;
      assert maps[..m + 1][..m] == maps[..m];
      m := m + 1;
    }
    assert maps[..|maps|] == maps;
  }

  /** The innermost loops: one line per layer or layout name */
  method ListNames(identifier: nat, names: seq<string>) returns (entries: seq<Entry>)
    ensures entries == NameEntries(identifier, names)
  {
    entries := [];
    var l := 0;
    while l < |names|
      invariant 0 <= l <= |names|
      invariant entries == NameEntries(identifier, names[..l])
    {
      assert names[..l + 1][..l] == names[..l];
      entries := entries + [Entry(identifier, names[l])];
      l := l + 1;
    }
    assert names[..|names|] == names;
  }

  // ---------------------------------------------------------------------
  // Properties
  // ---------------------------------------------------------------------

  /** Every file of a directory found is one with the extension, at its joined path; and every such file is found */
  lemma {:induction false} DirHitsExact(root: string, files: seq<FileStat>, extension: string)
    ensures forall h :: h in DirHits(root, files, extension) <==>
      exists f :: f in files && EndsWith(f.name, extension) && h == Hit(f.name, PathJoin(root, f.name), f.modified)
  {
    if |files| > 0 {
      var init := files[..|files| - 1];
      DirHitsExact(root, init, extension);
      assert files == init + [files[|files| - 1]];
    }
  }

  /** The catalog lists exactly the files of the walk with the extension */
  lemma {:induction false} HitsExact(walk: seq<WalkDir>, extension: string)
    ensures forall h :: h in Hits(walk, extension) <==>
      exists k, f :: 0 <= k < |walk| && f in walk[k].files && EndsWith(f.name, extension) &&
                     h == Hit(f.name, PathJoin(walk[k].root, f.name), f.modified)
  {
    if |walk| > 0 {
      var n := |walk| - 1;
      HitsExact(walk[..n], extension);
      DirHitsExact(walk[n].root, walk[n].files, extension);
      forall h | h in Hits(walk, extension)
        ensures exists k, f :: 0 <= k < |walk| && f in walk[k].files && EndsWith(f.name, extension) &&
                               h == Hit(f.name, PathJoin(walk[k].root, f.name), f.modified)
      {
        if h in Hits(walk[..n], extension) {
          var k, f :| 0 <= k < n && f in walk[..n][k].files && EndsWith(f.name, extension) &&
                      h == Hit(f.name, PathJoin(walk[..n][k].root, f.name), f.modified);
          assert walk[..n][k] == walk[k];
        }
      }
      forall k, f | 0 <= k < |walk| && f in walk[k].files && EndsWith(f.name, extension)
        ensures Hit(f.name, PathJoin(walk[k].root, f.name), f.modified) in Hits(walk, extension)
      {
        if k < n {
          assert walk[..n][k] == walk[k];
        }
      }
    }
  }

  /** The project has a map of that name */
  predicate HasMap(project: Project, name: string) {
    exists j :: 0 <= j < |project.maps| && project.maps[j].name == name
  }

  /** Some map of the project has a layer of that name */
  predicate HasLayer(project: Project, name: string) {
    exists j :: 0 <= j < |project.maps| && name in project.maps[j].layers
  }

  /** Every line listed names the map, layer or layout of the project at its ID */
  lemma {:induction false} FramesOfProjects(projects: seq<Project>)
    ensures forall e :: e in Frames(projects) ==> 1 <= e.id <= |projects| && HasMap(projects[e.id - 1], e.name)
  {
    if |projects| > 0 {
      var n := |projects| - 1;
      FramesOfProjects(projects[..n]);
      forall e | e in Frames(projects)
        ensures 1 <= e.id <= |projects| &&
          HasMap(projects[e.id - 1], e.name)
      {
        if e in Frames(projects[..n]) {
          assert projects[..n][e.id - 1] == projects[e.id - 1];
        } else {
          var j :| 0 <= j < |MapEntries(n + 1, projects[n].maps)| && MapEntries(n + 1, projects[n].maps)[j] == e;
        }
      }
    }
  }

  lemma {:induction false} LayoutsOfProjects(projects: seq<Project>)
    ensures forall e :: e in Layouts(projects) ==> 1 <= e.id <= |projects| && e.name in projects[e.id - 1].layouts
  {
    if |projects| > 0 {
      var n := |projects| - 1;
      LayoutsOfProjects(projects[..n]);
      forall e | e in Layouts(projects)
        ensures 1 <= e.id <= |projects| && e.name in projects[e.id - 1].layouts
      {
        if e in Layouts(projects[..n]) {
          assert projects[..n][e.id - 1] == projects[e.id - 1];
        } else {
          var j :| 0 <= j < |NameEntries(n + 1, projects[n].layouts)| && NameEntries(n + 1, projects[n].layouts)[j] == e;
        }
      }
    }
  }

  lemma {:induction false} LayerEntriesOfMaps(id: nat, maps: seq<MapFrame>)
    ensures forall e :: e in LayerEntries(id, maps) ==>
      e.id == id && exists j :: 0 <= j < |maps| && e.name in maps[j].layers
  {
    if |maps| > 0 {
      var n := |maps| - 1;
      LayerEntriesOfMaps(id, maps[..n]);
      forall e | e in LayerEntries(id, maps)
        ensures e.id == id && exists j :: 0 <= j < |maps| && e.name in maps[j].layers
      {
        if e in LayerEntries(id, maps[..n]) {
          var j :| 0 <= j < n && e.name in maps[..n][j].layers;
          assert maps[..n][j] == maps[j];
        } else {
          var i :| 0 <= i < |NameEntries(id, maps[n].layers)| && NameEntries(id, maps[n].layers)[i] == e;
        }
      }
    }
  }

  lemma {:induction false} LayersOfProjects(projects: seq<Project>)
    ensures forall e :: e in Layers(projects) ==> 1 <= e.id <= |projects| && HasLayer(projects[e.id - 1], e.name)
  {
    if |projects| > 0 {
      var n := |projects| - 1;
      LayersOfProjects(projects[..n]);
      LayerEntriesOfMaps(n + 1, projects[n].maps);
      forall e | e in Layers(projects)
        ensures 1 <= e.id <= |projects| &&
          HasLayer(projects[e.id - 1], e.name)
      {
        if e in Layers(projects[..n]) {
          assert projects[..n][e.id - 1] == projects[e.id - 1];
        }
      }
    }
  }

  /** No two catalog rows share an ID */
  predicate DistinctIds(info: seq<CatalogRow>) {
    forall a, b :: 0 <= a < b < |info| ==> info[a].id != info[b].id
  }

  /** With distinct IDs, an ID present in the catalog meets exactly its own row */
  lemma {:induction false} RowsWithIdUnique(info: seq<CatalogRow>, j: nat)
    requires DistinctIds(info) && j < |info|
    ensures RowsWithId(info, info[j].id) == [info[j]]
  {
    if j == 0 {
      RowsWithIdAbsent(info[1..], info[0].id);
    } else {
      RowsWithIdUnique(info[1..], j - 1);
    }
  }

  lemma {:induction false} RowsWithIdAbsent(info: seq<CatalogRow>, id: nat)
    requires forall a :: 0 <= a < |info| ==> info[a].id != id
    ensures RowsWithId(info, id) == []
  {
    if |info| > 0 {
      RowsWithIdAbsent(info[1..], id);
    }
  }

  /**
   * Joined to the catalog it was built from, every attribute line keeps
   * its place and meets exactly the catalog row of its ID: the join neither
   * drops nor duplicates a line.
   */
  lemma LeftJoinNumbered(attributes: seq<Entry>, hits: seq<Hit>)
    requires forall i :: 0 <= i < |attributes| ==> 1 <= attributes[i].id <= |hits|
    ensures var rows := Numbered(hits);
      |LeftJoin(attributes, rows)| == |attributes| &&
      forall i :: 0 <= i < |attributes| ==>
        LeftJoin(attributes, rows)[i] == Joined(attributes[i], Some(rows[attributes[i].id - 1]))
  {
    var rows := Numbered(hits);
    forall i | 0 <= i < |attributes|
      ensures JoinOne(attributes[i], rows) == [Joined(attributes[i], Some(rows[attributes[i].id - 1]))]
    {
      JoinOneNumbered(attributes[i], hits);
    }
    LeftJoinOneEach(attributes, rows);
  }

  /** When every line meets exactly one row, the join has one row per line, in order */
  lemma {:induction false} LeftJoinOneEach(attributes: seq<Entry>, info: seq<CatalogRow>)
    requires forall i :: 0 <= i < |attributes| ==> |JoinOne(attributes[i], info)| == 1
    ensures |LeftJoin(attributes, info)| == |attributes|
    ensures forall i :: 0 <= i < |attributes| ==> LeftJoin(attributes, info)[i] == JoinOne(attributes[i], info)[0]
  {
    if |attributes| > 0 {
      var tail := attributes[1..];
      assert forall i :: 0 <= i < |tail| ==> |JoinOne(tail[i], info)| == 1 by {
        forall i | 0 <= i < |tail| ensures |JoinOne(tail[i], info)| == 1 {
          assert tail[i] == attributes[i + 1];
        }
      }
      LeftJoinOneEach(tail, info);
      var first := JoinOne(attributes[0], info);
      var rest := LeftJoin(tail, info);
      assert LeftJoin(attributes, info) == first + rest;
      forall i | 0 <= i < |attributes|
        ensures LeftJoin(attributes, info)[i] == JoinOne(attributes[i], info)[0]
      {
        if i > 0 {
          assert attributes[i] == tail[i - 1];
          assert LeftJoin(attributes, info)[i] == rest[i - 1];
        }
      }
    }
  }

  /** A line whose ID is in the catalog meets exactly the row of that ID */
  lemma JoinOneNumbered(e: Entry, hits: seq<Hit>)
    requires 1 <= e.id <= |hits|
    ensures JoinOne(e, Numbered(hits)) == [Joined(e, Some(Numbered(hits)[e.id - 1]))]
  {
    var rows := Numbered(hits);
    assert DistinctIds(rows);
    RowsWithIdUnique(rows, e.id - 1);
  }

  /**
   * After create_index, Maps.csv joined to the catalog has one row per map
   * of every catalogued project, in order, each carrying the catalog row of
   * the project the map belongs to.
   */
  lemma MapsJoinedToTheirProject(hits: seq<Hit>, open: string -> Project)
    ensures var rows := Numbered(hits);
      var frames := Frames(Opened(rows, open));
      (forall i :: 0 <= i < |frames| ==> 1 <= frames[i].id <= |rows|) &&
      |LeftJoin(frames, rows)| == |frames| &&
      forall i :: 0 <= i < |frames| ==>
        var r := rows[frames[i].id - 1];
        LeftJoin(frames, rows)[i] == Joined(frames[i], Some(r)) &&
        HasMap(open(r.path), frames[i].name)
  {
    var rows := Numbered(hits);
    var projects := Opened(rows, open);
    FramesOfProjects(projects);
    var frames := Frames(projects);
    assert forall i :: 0 <= i < |frames| ==> frames[i] in frames;
    LeftJoinNumbered(frames, hits);
  }

  /** The same for Layers.csv and Layouts.csv */
  lemma LayersJoinedToTheirProject(hits: seq<Hit>, open: string -> Project)
    ensures var rows := Numbered(hits);
      var layers := Layers(Opened(rows, open));
      (forall i :: 0 <= i < |layers| ==> 1 <= layers[i].id <= |rows|) &&
      |LeftJoin(layers, rows)| == |layers| &&
      forall i :: 0 <= i < |layers| ==>
        var r := rows[layers[i].id - 1];
        LeftJoin(layers, rows)[i] == Joined(layers[i], Some(r)) &&
        HasLayer(open(r.path), layers[i].name)
  {
    var rows := Numbered(hits);
    var projects := Opened(rows, open);
    LayersOfProjects(projects);
    var layers := Layers(projects);
    assert forall i :: 0 <= i < |layers| ==> layers[i] in layers;
    LeftJoinNumbered(layers, hits);
  }

  lemma LayoutsJoinedToTheirProject(hits: seq<Hit>, open: string -> Project)
    ensures var rows := Numbered(hits);
      var layouts := Layouts(Opened(rows, open));
      (forall i :: 0 <= i < |layouts| ==> 1 <= layouts[i].id <= |rows|) &&
      |LeftJoin(layouts, rows)| == |layouts| &&
      forall i :: 0 <= i < |layouts| ==>
        var r := rows[layouts[i].id - 1];
        LeftJoin(layouts, rows)[i] == Joined(layouts[i], Some(r)) && layouts[i].name in open(r.path).layouts
  {
    var rows := Numbered(hits);
    var projects := Opened(rows, open);
    LayoutsOfProjects(projects);
    var layouts := Layouts(projects);
    assert forall i :: 0 <= i < |layouts| ==> layouts[i] in layouts;
    LeftJoinNumbered(layouts, hits);
  }

  // ---------------------------------------------------------------------
  // Reading an index file back
  // ---------------------------------------------------------------------

  /** read_csv(sep='|') of one body line: an integer ID and a name */
  function ReadEntry(line: string): (r: Option<Entry>)
    ensures r.Some? ==> ParseInt(Split(line, "|")[0]) == Some(r.value.id)
  {
    var parts := Split(line, "|");
    if |parts| != 2 then None
    else match ParseInt(parts[0])
      case None => None
      case Some(id) => if id < 0 then None else Some(Entry(id, parts[1]))
  }

  /** Every body line read as an entry; one unreadable line fails the whole file */
  function ReadEntries(lines: seq<string>): Option<seq<Entry>> {
    if forall i :: 0 <= i < |lines| ==> ReadEntry(lines[i]).Some? then
      Some(seq(|lines|, i requires 0 <= i < |lines| => ReadEntry(lines[i]).value))
    else None
  }

  /** The lines without the blank ones, which read_csv skips */
  function NonBlank(lines: seq<string>): (r: seq<string>)
    ensures forall i :: 0 <= i < |r| ==> r[i] != ""
  {
    if |lines| == 0 then []
    else if lines[0] == "" then NonBlank(lines[1..])
    else [lines[0]] + NonBlank(lines[1..])
  }

  lemma {:induction false} NonBlankKeeps(lines: seq<string>)
    requires forall i :: 0 <= i < |lines| ==> lines[i] != ""
    ensures NonBlank(lines) == lines
  {
    if |lines| > 0 {
      NonBlankKeeps(lines[1..]);
      assert [lines[0]] + lines[1..] == lines;
    }
  }

  /** The lines after the header, blank lines skipped, read as entries */
  function ReadIndex(text: string): Option<seq<Entry>> {
    ReadEntries(NonBlank(Split(text, "\n")[1..]))
  }

  /** The strings read_csv reads as NaN by default */
  const NA_VALUES: set<string> := {
    "", "#N/A", "#N/A N/A", "#NA", "-1.#IND", "-1.#QNAN", "-NaN", "-nan", "1.#IND", "1.#QNAN",
    "<NA>", "N/A", "NA", "NULL", "NaN", "None", "n/a", "nan", "null"
  }

  /**
   * A name that survives the 'ID|NAME' line format and that read_csv keeps
   * as text: no separator or line break, not a NaN token, and not opened
   * by a quote.
   */
  predicate PlainName(name: string) {
    '|' !in name && '\n' !in name && '\r' !in name &&
    name !in NA_VALUES && name[0] != '"'
  }

  lemma ReadEntryLine(e: Entry)
    requires PlainName(e.name)
    ensures ReadEntry(EntryLine(e)) == Some(e)
    ensures '\n' !in EntryLine(e)
  {
    var d := Dec(e.id);
    assert '|' !in d && '\n' !in d by {
      forall i | 0 <= i < |d| ensures d[i] != '|' && d[i] != '\n' {
        assert IsNumeric(d[i]);
      }
    }
    SplitCharCons(d, '|', e.name);
    SplitCharNone(e.name, '|');
    assert EntryLine(e) == d + ['|'] + e.name;
    ParseIntDec(e.id);
  }

  lemma ReadEntriesLines(entries: seq<Entry>)
    requires forall i :: 0 <= i < |entries| ==> PlainName(entries[i].name)
    ensures ReadEntries(EntryLines(entries)) == Some(entries)
  {
    var lines := EntryLines(entries);
    forall i | 0 <= i < |lines| ensures ReadEntry(lines[i]) == Some(entries[i]) {
      ReadEntryLine(entries[i]);
    }
    assert ReadEntries(lines).Some?;
    assert ReadEntries(lines).value == entries;
  }

  /**
   * An index file written by create_index reads back as the lines it was
   * written from, when no name holds the separator or a line break and the
   * header has no line break. With no lines the file is the header and a
   * blank line, which reads as an empty table.
   */
  lemma IndexTextRoundTrip(header: string, entries: seq<Entry>)
    requires '\n' !in header
    requires forall i :: 0 <= i < |entries| ==> PlainName(entries[i].name)
    ensures ReadIndex(IndexText(header, entries)) == Some(entries)
  {
    if |entries| == 0 {
      // 'ID|NAME\n' alone: one blank line after the header, an empty table
      assert IndexText(header, entries) == header + ['\n'] + "";
      SplitCharCons(header, '\n', "");
      SplitCharNone("", '\n');
      assert Split(IndexText(header, entries), "\n")[1..] == [""];
      assert NonBlank([""]) == [];
      var none: seq<string> := [];
      assert |ReadEntries(none).value| == 0;
      return;
    }
    var lines := EntryLines(entries);
    var all := [header] + lines;
    forall i | 0 <= i < |lines| ensures '\n' !in lines[i] {
      ReadEntryLine(entries[i]);
    }
    assert all[1..] == lines;
    assert JoinWith("\n", all) == header + "\n" + JoinWith("\n", lines);
    JoinSplitChar(all, '\n');
    forall i | 0 <= i < |lines| ensures lines[i] != "" {
      assert 0 < |Dec(entries[i].id)|;
    }
    NonBlankKeeps(lines);
    ReadEntriesLines(entries);
  }
}
