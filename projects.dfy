/**
 * The top-level projects.py: validate_project returning its message,
 * new_project ordering validation before the counter is touched, and
 * delete_project removing the ArcGIS Pro leftovers of a project folder.
 * get_serial and log_project of this file are the same code as those of
 * pyxidust/projects.py and are the Pyxidust.Workspace methods.
 */
module Projects {
  import opened Builtins
  import opened Strings
  import opened Serials
  import opened ProjectChecks
  import opened Pyxidust

  // ---------------------------------------------------------------------
  // validate_project
  // ---------------------------------------------------------------------

  /** As written: the first failing check's message, or UnboundLocalError when all pass */
  function ValidateProjectAsWritten(description: string, name: string, template: string): Result<Option<string>> {
    match FirstError(description, name, template, LAYOUTS)
    case Some(message) => Ok(Some(message))
    case None => Err(UnboundLocalError("error"))
  }

  /** With `error` starting at None: the first failing check's message, None when all pass */
  function ValidateProject(description: string, name: string, template: string): Option<string> {
    FirstError(description, name, template, LAYOUTS)
  }

  /** As written, the message comes back exactly when some check fails; valid arguments raise */
  lemma ValidateProjectAsWrittenRaises(description: string, name: string, template: string)
    ensures ValidateProjectAsWritten(description, name, template).Err? <==> Acceptable(description, name, template, LAYOUTS)
    ensures ValidateProjectAsWritten(description, name, template).Ok? ==>
      ValidateProjectAsWritten(description, name, template).value == ValidateProject(description, name, template)
  {
    FirstErrorNone(description, name, template, LAYOUTS);
  }

  /** The corrected check returns None exactly on acceptable arguments, else the first failure in order */
  lemma ValidateProjectFirstFailure(description: string, name: string, template: string)
    ensures ValidateProject(description, name, template).None? <==> Acceptable(description, name, template, LAYOUTS)
    ensures ValidateProject(description, name, template) == FirstFailing(Checks(description, name, template, LAYOUTS))
  {
    FirstErrorNone(description, name, template, LAYOUTS);
    FirstErrorIsFirstFailing(description, name, template, LAYOUTS);
  }

  /** Description length over 50 and name length over 15 are refused, each with its own message */
  lemma LengthLimits(description: string, name: string, template: string)
    requires !HasNumeric(description) && !HasPunct(description)
    ensures |description| > 50 ==> ValidateProject(description, name, template) == Some(DESCRIPTION_LENGTH)
    ensures |description| <= 50 && !HasSpace(name) && !HasPunct(name) && |name| > 15 ==>
      ValidateProject(description, name, template) == Some(NAME_LENGTH)
  {
  }

  // ---------------------------------------------------------------------
  // new_project
  // ---------------------------------------------------------------------

  /** How the wrapper of new_project ends before the wrapped function runs */
  datatype Start = Exited(message: string) | Failed(error: PyError) | Created(names: ProjectNames)

  /**
   * The wrapper of new_project up to create_folder: validation first, and
   * only when it returns no message the counter is read and the catalog
   * entry written.  The user name and the two time-stamp fields are inputs.
   */
  method NewProject(ws: Workspace, description: string, name: string, template: string,
                    creator: string, date: string, clock: string) returns (start: Start)
    modifies ws
    ensures ValidateProject(description, name, template).Some? ==>
      start == Exited(ValidateProject(description, name, template).value) &&
      ws.serials == old(ws.serials) && ws.catalog == old(ws.catalog)
    ensures ValidateProject(description, name, template).None? ==>
      match NextBase(ws.year, old(ws.serials))
      case Err(e) => start == Failed(e) && ws.serials == old(ws.serials) && ws.catalog == old(ws.catalog)
      case Ok(serial) =>
        start == Created(NamesFor(serial, name)) && ws.serials == serial &&
        ws.catalog == old(ws.catalog) + CatalogEntry(serial, name, description, creator, date, clock)
  {
    var error := ValidateProject(description, name, template);
    if error.Some? {
      return Exited(error.value);
    }
    var serial := ws.GetSerial();
    if serial.Err? {
      return Failed(serial.error);
    }
    var names := ws.LogProject(description, name, serial.value, creator, date, clock);
    return Created(names);
  }

  // ---------------------------------------------------------------------
  // delete_project
  // ---------------------------------------------------------------------

  /** One step of os.walk: a directory, its sub-folder names and its file names */
  datatype WalkEntry = WalkEntry(root: string, folders: seq<string>, files: seq<string>)

  /** The paths removed so far, in order */
  class Tree {
    var removed: seq<string>

    constructor ()
      ensures removed == []
    {
      removed := [];
    }
  }

  /** The folders delete_project removes: exactly '.backups' and 'Index' */
  predicate ProjectFolder(folder: string) {
    folder == ".backups" || folder == "Index"
  }

  /** The removals of the folder loop of one directory */
  function FolderRemovals(root: string, folders: seq<string>): seq<string> {
    if |folders| == 0 then []
    else
      var last := folders[|folders| - 1];
      FolderRemovals(root, folders[..|folders| - 1]) + (if ProjectFolder(last) then [PathJoin(root, last)] else [])
  }

  /** The removals of the file loop of one directory, with file.endswith('.aprx') */
  function FileRemovals(root: string, files: seq<string>): seq<string> {
    if |files| == 0 then []
    else
      var last := files[|files| - 1];
      FileRemovals(root, files[..|files| - 1]) + (if EndsWith(last, ".aprx") then [PathJoin(root, last)] else [])
  }

  /** The folder removals of the whole walk */
  function WalkFolderRemovals(walk: seq<WalkEntry>): seq<string> {
    if |walk| == 0 then []
    else
      var e := walk[|walk| - 1];
      WalkFolderRemovals(walk[..|walk| - 1]) + FolderRemovals(e.root, e.folders)
  }

  /** Folder and file removals of the whole walk */
  function WalkRemovals(walk: seq<WalkEntry>): seq<string> {
    if |walk| == 0 then []
    else
      var e := walk[|walk| - 1];
      WalkRemovals(walk[..|walk| - 1]) + FolderRemovals(e.root, e.folders) + FileRemovals(e.root, e.files)
  }

  /** The first directory of the walk that holds a file */
  function FirstWithFiles(walk: seq<WalkEntry>): (r: Option<nat>)
    ensures r.Some? ==> r.value < |walk| && |walk[r.value].files| > 0 &&
                        forall m :: 0 <= m < r.value ==> |walk[m].files| == 0
    ensures r.None? ==> forall m :: 0 <= m < |walk| ==> |walk[m].files| == 0
  {
    if |walk| == 0 then None
    else if |walk[0].files| > 0 then Some(0)
    else
      var r := FirstWithFiles(walk[1..]);
      if r.None? then
        assert forall m :: 0 <= m < |walk| ==> |walk[m].files| == 0 by {
          forall m | 0 <= m < |walk| ensures |walk[m].files| == 0 {
            if m > 0 { assert walk[m] == walk[1..][m - 1]; }
          }
        }
        None
      else
        assert forall m :: 0 <= m < r.value + 1 ==> |walk[m].files| == 0 by {
          forall m | 0 <= m < r.value + 1 ensures |walk[m].files| == 0 {
            if m > 0 { assert walk[m] == walk[1..][m - 1]; }
          }
        }
        Some(r.value + 1)
  }

  /** The folder loop of one directory: shutil.rmtree on '.backups' and 'Index' */
  method RemoveFolders(tree: Tree, root: string, folders: seq<string>)
    modifies tree
    ensures tree.removed == old(tree.removed) + FolderRemovals(root, folders)
  {
    var j := 0;
    while j < |folders|
      invariant 0 <= j <= |folders|
      invariant tree.removed == old(tree.removed) + FolderRemovals(root, folders[..j])
    {
      var folder := folders[j];
      assert folders[..j + 1][..j] == folders[..j];
      if folder == ".backups" || folder == "Index" {
        tree.removed := tree.removed + [PathJoin(root, folder)];
      }
      j := j + 1;
    }
    assert folders[..|folders|] == folders;
  }

  /** The file loop of one directory, with endswith('.aprx'): os.remove on each project file */
  method RemoveFiles(tree: Tree, root: string, files: seq<string>)
    modifies tree
    ensures tree.removed == old(tree.removed) + FileRemovals(root, files)
  {
    var j := 0;
    while j < |files|
      invariant 0 <= j <= |files|
      invariant tree.removed == old(tree.removed) + FileRemovals(root, files[..j])
    {
      var file := files[j];
      assert files[..j + 1][..j] == files[..j];
      if EndsWith(file, ".aprx") {
        tree.removed := tree.removed + [PathJoin(root, file)];
      }
      j := j + 1;
    }
    assert files[..|files|] == files;
  }

  /**
   * delete_project as written: the folder loop of each directory runs, and
   * the first file met raises AttributeError, because str has no method
   * 'ednswith'.
   */
  method DeleteProjectAsWritten(tree: Tree, walk: seq<WalkEntry>) returns (error: Option<PyError>)
    modifies tree
    ensures match FirstWithFiles(walk)
      case None => error == None && tree.removed == old(tree.removed) + WalkFolderRemovals(walk)
      case Some(k) => error == Some(AttributeError) && tree.removed == old(tree.removed) + WalkFolderRemovals(walk[..k + 1])
  {
    var i := 0;
    while i < |walk|
      invariant 0 <= i <= |walk|
      invariant forall m :: 0 <= m < i ==> |walk[m].files| == 0
      invariant tree.removed == old(tree.removed) + WalkFolderRemovals(walk[..i])
    {
      var entry := walk[i];
      RemoveFolders(tree, entry.root, entry.folders);
      WalkFolderRemovalsStep(walk, i);
      AppendAssoc(old(tree.removed), WalkFolderRemovals(walk[..i]), FolderRemovals(entry.root, entry.folders));
      if |entry.files| > 0 {
        FirstWithFilesAt(walk, i);
        return Some(AttributeError);
      }
      i := i + 1;
    }
    FirstWithFilesNone(walk);
    assert walk[..|walk|] == walk;
    return None;
  }

  lemma WalkFolderRemovalsStep(walk: seq<WalkEntry>, i: nat)
    requires i < |walk|
    ensures WalkFolderRemovals(walk[..i + 1]) == WalkFolderRemovals(walk[..i]) + FolderRemovals(walk[i].root, walk[i].folders)
  {
    assert walk[..i + 1][..i] == walk[..i];
  }

  lemma WalkRemovalsStep(walk: seq<WalkEntry>, i: nat)
    requires i < |walk|
    ensures WalkRemovals(walk[..i + 1]) ==
      WalkRemovals(walk[..i]) + FolderRemovals(walk[i].root, walk[i].folders) + FileRemovals(walk[i].root, walk[i].files)
  {
    assert walk[..i + 1][..i] == walk[..i];
  }

  /** The first directory with a file is the one the loop raises at */
  lemma FirstWithFilesAt(walk: seq<WalkEntry>, i: nat)
    requires i < |walk| && |walk[i].files| > 0
    requires forall m :: 0 <= m < i ==> |walk[m].files| == 0
    ensures FirstWithFiles(walk) == Some(i)
  {
  }

  lemma FirstWithFilesNone(walk: seq<WalkEntry>)
    requires forall m :: 0 <= m < |walk| ==> |walk[m].files| == 0
    ensures FirstWithFiles(walk) == None
  {
  }

  /** delete_project with file.endswith('.aprx'): project folders and project files are removed */
  method DeleteProject(tree: Tree, walk: seq<WalkEntry>)
    modifies tree
    ensures tree.removed == old(tree.removed) + WalkRemovals(walk)
  {
    var i := 0;
    while i < |walk|
      invariant 0 <= i <= |walk|
      invariant tree.removed == old(tree.removed) + WalkRemovals(walk[..i])
    {
      var entry := walk[i];
      RemoveFolders(tree, entry.root, entry.folders);
      RemoveFiles(tree, entry.root, entry.files);
      WalkRemovalsStep(walk, i);
      ghost var done := WalkRemovals(walk[..i]);
      ghost var folders := FolderRemovals(entry.root, entry.folders);
      AppendAssoc(old(tree.removed), done, folders);
      AppendAssoc(old(tree.removed), done + folders, FileRemovals(entry.root, entry.files));
      i := i + 1;
    }
    assert walk[..|walk|] == walk;
  }

  // ---------------------------------------------------------------------
  // Which paths are removed
  // ---------------------------------------------------------------------

  /** The folder loop removes exactly the project folders of a directory */
  lemma {:induction false} FolderRemovalsExact(root: string, folders: seq<string>, path: string)
    ensures path in FolderRemovals(root, folders) <==>
      exists j :: 0 <= j < |folders| && ProjectFolder(folders[j]) && path == PathJoin(root, folders[j])
  {
    if |folders| > 0 {
      var init := folders[..|folders| - 1];
      FolderRemovalsExact(root, init, path);
      if exists j :: 0 <= j < |folders| && ProjectFolder(folders[j]) && path == PathJoin(root, folders[j]) {
        var j :| 0 <= j < |folders| && ProjectFolder(folders[j]) && path == PathJoin(root, folders[j]);
        if j < |folders| - 1 {
          assert init[j] == folders[j];
        }
      } else {
        forall j | 0 <= j < |init| ensures !(ProjectFolder(init[j]) && path == PathJoin(root, init[j])) {
          assert init[j] == folders[j];
        }
      }
    }
  }

  /** The file loop, once corrected, removes exactly the .aprx files of a directory */
  lemma {:induction false} FileRemovalsExact(root: string, files: seq<string>, path: string)
    ensures path in FileRemovals(root, files) <==>
      exists j :: 0 <= j < |files| && EndsWith(files[j], ".aprx") && path == PathJoin(root, files[j])
  {
    if |files| > 0 {
      var init := files[..|files| - 1];
      FileRemovalsExact(root, init, path);
      if exists j :: 0 <= j < |files| && EndsWith(files[j], ".aprx") && path == PathJoin(root, files[j]) {
        var j :| 0 <= j < |files| && EndsWith(files[j], ".aprx") && path == PathJoin(root, files[j]);
        if j < |files| - 1 {
          assert init[j] == files[j];
        }
      } else {
        forall j | 0 <= j < |init| ensures !(EndsWith(init[j], ".aprx") && path == PathJoin(root, init[j])) {
          assert init[j] == files[j];
        }
      }
    }
  }

  /** A path the walk's folder loops remove */
  predicate RemovedFolder(walk: seq<WalkEntry>, path: string) {
    exists i, j :: 0 <= i < |walk| && 0 <= j < |walk[i].folders| &&
      ProjectFolder(walk[i].folders[j]) && path == PathJoin(walk[i].root, walk[i].folders[j])
  }

  /** As written, the only paths removed are '.backups' and 'Index' folders of the walk, and all of those */
  lemma {:induction false} WalkFolderRemovalsExact(walk: seq<WalkEntry>, path: string)
    ensures path in WalkFolderRemovals(walk) <==> RemovedFolder(walk, path)
  {
    if |walk| > 0 {
      var init := walk[..|walk| - 1];
      var e := walk[|walk| - 1];
      WalkFolderRemovalsExact(init, path);
      FolderRemovalsExact(e.root, e.folders, path);
      if RemovedFolder(walk, path) {
        var i, j :| 0 <= i < |walk| && 0 <= j < |walk[i].folders| &&
          ProjectFolder(walk[i].folders[j]) && path == PathJoin(walk[i].root, walk[i].folders[j]);
        if i < |walk| - 1 {
          assert init[i] == walk[i];
        }
      }
      if RemovedFolder(init, path) {
        var i, j :| 0 <= i < |init| && 0 <= j < |init[i].folders| &&
          ProjectFolder(init[i].folders[j]) && path == PathJoin(init[i].root, init[i].folders[j]);
        assert init[i] == walk[i];
      }
    }
  }
}
