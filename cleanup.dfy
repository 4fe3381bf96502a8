/**
 * The name test of delete_project in pyxidust/projects.py: inside each
 * directory of the walk, every folder and file whose name starts or ends
 * with one of the default ArcGIS Pro names is removed, once per default
 * name it matches.
 */
module Cleanup {
  import opened Builtins
  import opened Strings

  /** DEFAULT_FILES of pyxidust/config.py */
  const DEFAULT_FILES: seq<string> := [".aprx", ".temp", ".tmp"]
  /** DEFAULT_FOLDERS of pyxidust/config.py */
  const DEFAULT_FOLDERS: seq<string> := [".", "Index", "GPMessages", "Raster"]

  /** folder.startswith(item) or folder.endswith(item) */
  predicate Matches(name: string, item: string) {
    StartsWith(name, item) || EndsWith(name, item)
  }

  /** The removals `for item in items: if matches: remove(join(root, name))` attempts for one name */
  function RemovalsOf(root: string, name: string, items: seq<string>): (r: seq<string>)
    ensures forall i :: 0 <= i < |r| ==> r[i] == PathJoin(root, name)
  {
    if |items| == 0 then []
    else (if Matches(name, items[0]) then [PathJoin(root, name)] else []) + RemovalsOf(root, name, items[1..])
  }

  /** How many of the items a name matches */
  function MatchCount(name: string, items: seq<string>): nat {
    if |items| == 0 then 0
    else (if Matches(name, items[0]) then 1 else 0) + MatchCount(name, items[1..])
  }

  /** One removal attempt per matching item */
  lemma {:induction false} RemovalsOfCount(root: string, name: string, items: seq<string>)
    ensures |RemovalsOf(root, name, items)| == MatchCount(name, items)
  {
    if |items| > 0 {
      RemovalsOfCount(root, name, items[1..]);
    }
  }

  lemma {:induction false} MatchCountPositive(name: string, items: seq<string>)
    ensures MatchCount(name, items) > 0 <==> exists i :: 0 <= i < |items| && Matches(name, items[i])
  {
    if |items| > 0 {
      MatchCountPositive(name, items[1..]);
      if Matches(name, items[0]) {
      } else if MatchCount(name, items[1..]) > 0 {
        var i :| 0 <= i < |items[1..]| && Matches(name, items[1..][i]);
        assert Matches(name, items[i + 1]);
      } else {
        forall i | 0 <= i < |items| ensures !Matches(name, items[i]) {
          if i > 0 { assert items[i] == items[1..][i - 1]; }
        }
      }
    }
  }

  /**
   * A name is removed when it starts or ends with a default name; one that
   * matches two of them is removed twice, so the second rmtree or remove
   * finds the path gone and raises FileNotFoundError.
   */
  lemma RemovedExactlyWhenMatching(root: string, name: string, items: seq<string>)
    ensures RemovalsOf(root, name, items) != [] <==> exists i :: 0 <= i < |items| && Matches(name, items[i])
    ensures |RemovalsOf(root, name, items)| == MatchCount(name, items)
  {
    RemovalsOfCount(root, name, items);
    MatchCountPositive(name, items);
  }

  lemma RemovalsOfStep(root: string, name: string, items: seq<string>)
    requires 0 < |items|
    ensures RemovalsOf(root, name, items) ==
      (if Matches(name, items[0]) then [PathJoin(root, name)] else []) + RemovalsOf(root, name, items[1..])
  {
  }

  /** '.Index' both starts with '.' and ends with 'Index': two removals of the same folder */
  lemma DottedIndexRemovedTwice(root: string)
    ensures RemovalsOf(root, ".Index", DEFAULT_FOLDERS) == [PathJoin(root, ".Index"), PathJoin(root, ".Index")]
  {
    var n := ".Index";
    var items := DEFAULT_FOLDERS;
    assert Matches(n, ".") by { assert n[..1] == "."; }
    assert Matches(n, "Index") by { assert n[1..] == "Index"; }
    assert !Matches(n, "GPMessages");
    assert !Matches(n, "Raster") by {
      assert n[..6][0] != "Raster"[0];
      assert n[0..][0] != "Raster"[0];
    }
    assert items[1..][1..][1..][1..] == [];
    RemovalsOfStep(root, n, items[1..][1..][1..]);
    RemovalsOfStep(root, n, items[1..][1..]);
    RemovalsOfStep(root, n, items[1..]);
    RemovalsOfStep(root, n, items);
  }

  /** A project file matches only '.aprx' and is removed once */
  lemma ProjectFileRemovedOnce(root: string, stem: string)
    requires '.' !in stem
    ensures RemovalsOf(root, stem + ".aprx", DEFAULT_FILES) == [PathJoin(root, stem + ".aprx")]
  {
    var f := stem + ".aprx";
    var items := DEFAULT_FILES;
    assert EndsWith(f, ".aprx") by { assert f[|f| - 5..] == ".aprx"; }
    assert !Matches(f, ".temp") by {
      assert f[|f| - 5..][1] == 'a';
      if |stem| > 0 { assert f[..5][0] == stem[0]; } else { assert f[..5] == ".aprx"; }
    }
    assert !Matches(f, ".tmp") by {
      assert f[|f| - 4..][0] == 'a';
      if |stem| > 0 { assert f[..4][0] == stem[0]; } else { assert f[..4][1] == 'a'; }
    }
    assert items[1..][1..][1..] == [];
    RemovalsOfStep(root, f, items[1..][1..]);
    RemovalsOfStep(root, f, items[1..]);
    RemovalsOfStep(root, f, items);
  }
}
