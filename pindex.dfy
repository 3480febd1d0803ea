/** The `Pindex` class of pindex.py. Its index database is the field `rows`,
    the rows of the `pindex` table; the file system it touches is reduced to
    the directories it ensures exist (`dirs`) and the files it deletes
    (`removed`). Every public method is one step of the machine in `Model`;
    `Abstract()` gives the state that machine speaks of. */
module Index {
  import opened Basics
  import opened PathTree
  import Table
  import Modes
  import opened Model

  class Pindex {
    const layout: Layout
    var rows: seq<string>
    var dirs: set<string>
    var removed: set<string>

    /** The table keeps its UNIQUE constraint and the tree root exists. */
    ghost predicate Valid()
      reads this
    {
      Table.Unique(rows) && layout.tree in dirs
    }

    ghost function Abstract(): (s: State)
      reads this
    {
      State(Table.Names(rows), dirs, removed)
    }

    /** `Pindex(path)`: the tree root is `path + "/pindex.tree"` and is
        created; the table is created if absent, so its rows are whatever the
        database file already held (`stored`, empty for a new folder). The
        folder defaults to "pindex", as in the source. */
    constructor (digest: string -> Digest, stored: seq<string>, folder: string := "pindex")
      requires Table.Unique(stored)
      ensures Valid()
      ensures layout.tree == Root(folder) && layout.digest == digest
      ensures rows == stored && dirs == {Root(folder)} && removed == {}
    {
      layout := Layout(Root(folder), digest);
      dirs := {Root(folder)};
      rows := stored;
      removed := {};
    }

    /** `_makepath(name, mkdirs)`; no directories unless asked for. */
    method MakePath(name: Option<string>, mkdirs: bool := false) returns (p: Option<string>)
      modifies this`dirs
      ensures p == PathFor(layout, name)
      ensures dirs == Materialize(layout, old(dirs), name, mkdirs)
    {
      if name.None? {
        return None;
      }
      var d := layout.digest(name.value);
      if mkdirs {
        var leaf := LeafDir(layout.tree, d);
        dirs := dirs + ShardDirs(layout.tree, d);
        MaterializedPathSame(layout.tree, d);
        return Some(leaf + "/" + d[6..]);
      } else {
        return Some(EntryPath(layout.tree, d));
      }
    }

    /** `create(name, mkdirs, exists_ok)`: look the name up, then either
        answer for the existing row or insert a new one. By default the
        directories are made and an existing entry is an error. */
    method Create(name: string, mkdirs: bool := true, existsOk: bool := false) returns (r: Result<string, Error>)
      requires Valid()
      modifies this`rows, this`dirs
      ensures Valid()
      ensures var t := Model.Create(layout, old(Abstract()), name, mkdirs, existsOk);
        Abstract() == t.state && r == t.out
      ensures rows == if name in old(rows) then old(rows) else old(rows) + [name]
    {
      var result := Table.Matching(rows, name);
      Table.MatchingIff(rows, name);
      if |result| != 0 {
        if existsOk {
          var p := MakePath(Some(name), mkdirs);
          return Ok(p.value);
        } else {
          return Err(EntryExists(name));
        }
      }
      var inserted := Table.Insert(rows, name);
      Table.InsertAccepted(rows, name);
      rows := inserted.value;
      var p := MakePath(Some(name), mkdirs);
      return Ok(p.value);
    }

    /** `exists(name)`. */
    method Exists(name: string) returns (b: bool)
      requires Valid()
      ensures b <==> Model.Exists(Abstract(), name)
    {
      var result := Table.Matching(rows, name);
      Table.MatchingIff(rows, name);
      b := |result| != 0;
    }

    /** `get(name)`: the non-materializing path, or `None`. */
    method Get(name: string) returns (p: Option<string>)
      requires Valid()
      ensures p == Model.Get(layout, Abstract(), name)
      ensures p.Some? <==> name in rows
    {
      var result := Table.Matching(rows, name);
      Table.MatchingIff(rows, name);
      if |result| != 0 {
        return PathFor(layout, Some(name));
      }
      return None;
    }

    /** `remove(name)`: delete the row and, when one was deleted, the file at
        the derived path. The source reads the deleted-row count from the list
        `fetchall()` returns, which has no such attribute; the count here is
        that of the delete itself. */
    method Remove(name: string) returns (b: bool)
      requires Valid()
      modifies this`rows, this`removed
      ensures Valid()
      ensures var t := Model.Remove(layout, old(Abstract()), name);
        Abstract() == t.state && b == t.out
      ensures rows == Table.Delete(old(rows), name)
    {
      var after := Table.Delete(rows, name);
      Table.DeleteCount(rows, name);
      Table.DeleteNames(rows, name);
      var rowcount := |rows| - |after|;
      rows := after;
      if rowcount != 0 {
        removed := removed + {PathOf(layout, name)};
        return true;
      }
      return false;
    }

    /** `list()`: the `name` column of every row, collected one row at a time. */
    method List() returns (r: seq<string>)
      requires Valid()
      ensures IsListing(Abstract(), r)
    {
      r := [];
      var i := 0;
      while i < |rows|
        invariant 0 <= i <= |rows|
        invariant r == rows[..i]
      {
        r := r + [rows[i]];
        i := i + 1;
      }
      assert rows[..i] == rows;
    }

    /** `open(name, mode, ...)`, as far as the index is concerned: a binary
        mode first creates the entry, materializing its directories and
        accepting an existing one. The mode defaults to "r", which creates
        nothing. The builtin open the source then calls is not modelled: it
        passes a `name=` keyword the builtin does not accept, so it raises
        `TypeError`, and it names the bare name rather than the derived
        path. */
    method Open(name: string, mode: string := "r")
      requires Valid()
      modifies this`rows, this`dirs
      ensures Valid()
      ensures Abstract() == Model.Open(layout, old(Abstract()), name, mode)
    {
      if Modes.IsBinaryMode(mode) {
        var _ := Create(name, true, true);
      }
    }
  }

  /** A session on a fresh folder: create, look up, create again, a text
      open, list, remove. Removing assumes the caller wrote the entry's file
      after `create`, which makes only its directories. */
  method Session(folder: string, digest: string -> Digest)
  {
    var ix := new Pindex(digest, [], folder);
    var p := ix.Create("a");
    assert p == Ok(EntryPath(Root(folder), digest("a")));
    var e := ix.Exists("a");
    assert e;
    var g := ix.Get("a");
    assert g == Some(p.value);
    var again := ix.Create("a", false, false);
    assert again == Err(EntryExists("a"));
    var q := ix.Create("b", false, true);
    Modes.TextModeExamples();
    ix.Open("c");
    var l := ix.List();
    ListingSize(ix.Abstract(), l);
    assert |l| == 2;
    var gone := ix.Remove("a");
    assert gone;
    var missing := ix.Remove("a");
    assert !missing;
    g := ix.Get("a");
    assert g == None;
  }
}
