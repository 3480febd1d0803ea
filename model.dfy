/** The entry index as an abstract state machine. The state is the set of names
    the index holds, the directories ensured to exist under the tree root and
    the files removed from it. Each public operation of `Pindex` runs under
    one lock, so each is one step here. */
module Model {
  import opened Basics
  import opened PathTree
  import Modes
  import Table

  /** The `RuntimeError` `create` raises for a name already indexed. */
  datatype Error = EntryExists(name: string)

  /** The fixed part of an instance: its tree root and the digest function
      (SHA-256 of the UTF-8 encoding, rendered as hex). */
  datatype Layout = Layout(tree: string, digest: string -> Digest)

  datatype State = State(names: set<string>, dirs: set<string>, removed: set<string>)

  /** A new state and what the operation returned. */
  datatype Step<T> = Step(state: State, out: T)

  /** The derived path of a name. */
  function PathOf(L: Layout, name: string): (p: string) {
    EntryPath(L.tree, L.digest(name))
  }

  /** What `_makepath` returns; `None` for a missing name. */
  function PathFor(L: Layout, name: Option<string>): (p: Option<string>) {
    match name
    case None => None
    case Some(n) => Some(PathOf(L, n))
  }

  /** The directories after `_makepath(name, mkdirs)`. */
  function Materialize(L: Layout, dirs: set<string>, name: Option<string>, mkdirs: bool): (dirs': set<string>) {
    if name.Some? && mkdirs then dirs + ShardDirs(L.tree, L.digest(name.value)) else dirs
  }

  /** `create(name, mkdirs, exists_ok)`. */
  function Create(L: Layout, s: State, name: string, mkdirs: bool, existsOk: bool): (t: Step<Result<string, Error>>) {
    if name in s.names then
      if existsOk then Step(s.(dirs := Materialize(L, s.dirs, Some(name), mkdirs)), Ok(PathOf(L, name)))
      else Step(s, Err(EntryExists(name)))
    else
      Step(s.(names := s.names + {name}, dirs := Materialize(L, s.dirs, Some(name), mkdirs)), Ok(PathOf(L, name)))
  }

  /** `exists(name)`. */
  predicate Exists(s: State, name: string) {
    name in s.names
  }

  /** `get(name)`. */
  function Get(L: Layout, s: State, name: string): (p: Option<string>) {
    if name in s.names then PathFor(L, Some(name)) else None
  }

  /** `remove(name)`. */
  function Remove(L: Layout, s: State, name: string): (t: Step<bool>) {
    if name in s.names then Step(s.(names := s.names - {name}, removed := s.removed + {PathOf(L, name)}), true)
    else Step(s, false)
  }

  /** `list()`: some order of the names, each once. */
  predicate IsListing(s: State, r: seq<string>) {
    Table.Unique(r) && Table.Names(r) == s.names
  }

  /** The index part of `open(name, mode)`. */
  function Open(L: Layout, s: State, name: string, mode: string): (s': State) {
    if Modes.IsBinaryMode(mode) then Create(L, s, name, true, true).state else s
  }

  /** `_makepath(None)` is `None`; otherwise both values of `mkdirs` give the
      same path, and `mkdirs` only adds the three shard directories, so a
      second call adds nothing. */
  lemma MakePathSpec(L: Layout, dirs: set<string>, name: Option<string>, mkdirs: bool)
    ensures name.None? ==> PathFor(L, name).None? && Materialize(L, dirs, name, mkdirs) == dirs
    ensures name.Some? ==> PathFor(L, name) == Some(MaterializedPath(L.tree, L.digest(name.value)))
    ensures !mkdirs ==> Materialize(L, dirs, name, mkdirs) == dirs
    ensures Materialize(L, Materialize(L, dirs, name, mkdirs), name, mkdirs) == Materialize(L, dirs, name, mkdirs)
  {
  }

  /** Equal derived paths mean equal digests: the path determines the digest. */
  lemma PathDeterminesDigest(L: Layout, a: string, b: string)
    requires PathOf(L, a) == PathOf(L, b)
    ensures L.digest(a) == L.digest(b)
    ensures DigestOf(L.tree, PathOf(L, a)) == Some(L.digest(a))
  {
    EntryPathInjective(L.tree, L.digest(a), L.digest(b));
    DigestRoundTrip(L.tree, L.digest(a));
  }

  /** Creating a name that is absent adds exactly it and returns its path. */
  lemma CreateFresh(L: Layout, s: State, name: string, mkdirs: bool, existsOk: bool)
    requires name !in s.names
    ensures var t := Create(L, s, name, mkdirs, existsOk);
      t.out == Ok(PathOf(L, name)) && t.state.names == s.names + {name} &&
      (forall x :: x != name ==> (x in t.state.names <==> x in s.names)) &&
      t.state.removed == s.removed
  {
  }

  /** Creating a name that is present never changes the index; it returns the
      same path with `exists_ok` and fails otherwise. */
  lemma CreateExisting(L: Layout, s: State, name: string, mkdirs: bool, existsOk: bool)
    requires name in s.names
    ensures var t := Create(L, s, name, mkdirs, existsOk);
      t.state.names == s.names && t.state.removed == s.removed &&
      t.out == (if existsOk then Ok(PathOf(L, name)) else Err(EntryExists(name))) &&
      (!existsOk ==> t.state == s)
  {
  }

  /** Whatever the outcome, the name is in the index afterwards and the
      directories only grow. */
  lemma CreateLeavesName(L: Layout, s: State, name: string, mkdirs: bool, existsOk: bool)
    ensures var t := Create(L, s, name, mkdirs, existsOk);
      t.state.names == s.names + {name} && s.dirs <= t.state.dirs
  {
  }

  /** Two creates with `exists_ok` return the same path, and the second leaves
      the whole state as the first left it. */
  lemma CreateIdempotent(L: Layout, s: State, name: string, mkdirs: bool)
    ensures var t1 := Create(L, s, name, mkdirs, true);
      var t2 := Create(L, t1.state, name, mkdirs, true);
      t1.out.Ok? && t1.out == t2.out && t2.state == t1.state
  {
  }

  /** A second create without `exists_ok` fails and changes nothing. */
  lemma CreateRejectsDuplicate(L: Layout, s: State, name: string, mkdirs: bool, existsOk: bool)
    ensures var t1 := Create(L, s, name, mkdirs, existsOk);
      var t2 := Create(L, t1.state, name, mkdirs, false);
      t2.out == Err(EntryExists(name)) && t2.state == t1.state
  {
  }

  /** After a successful create, `exists` holds and `get` returns the path
      `create` returned. */
  lemma CreateThenQuery(L: Layout, s: State, name: string, mkdirs: bool, existsOk: bool)
    requires Create(L, s, name, mkdirs, existsOk).out.Ok?
    ensures var t := Create(L, s, name, mkdirs, existsOk);
      Exists(t.state, name) && Get(L, t.state, name) == Some(t.out.value)
  {
  }

  /** `get` answers exactly `exists`, with the non-materializing path, whose
      digest can be read back. */
  lemma GetSpec(L: Layout, s: State, name: string)
    ensures Get(L, s, name).Some? <==> Exists(s, name)
    ensures Get(L, s, name).Some? ==>
      Get(L, s, name) == Some(PathOf(L, name)) &&
      DigestOf(L.tree, Get(L, s, name).value) == Some(L.digest(name))
  {
    DigestRoundTrip(L.tree, L.digest(name));
  }

  /** `remove` answers whether the name was present; afterwards it is absent,
      every other name is unchanged, and its file is the only one removed (and
      only when it was present). */
  lemma RemoveSpec(L: Layout, s: State, name: string)
    ensures var t := Remove(L, s, name);
      t.out == Exists(s, name) && !Exists(t.state, name) &&
      (forall x :: x != name ==> (x in t.state.names <==> x in s.names)) &&
      t.state.dirs == s.dirs &&
      t.state.removed == (if t.out then s.removed + {PathOf(L, name)} else s.removed) &&
      (!t.out ==> t.state == s)
  {
  }

  /** Creating an absent name and removing it restores the index, and the
      removed file is the one `create` returned. */
  lemma CreateRemoveRoundTrip(L: Layout, s: State, name: string, mkdirs: bool)
    requires name !in s.names
    ensures var t1 := Create(L, s, name, mkdirs, false);
      var t2 := Remove(L, t1.state, name);
      t2.out && t2.state.names == s.names &&
      t2.state.removed == s.removed + {t1.out.value} &&
      Get(L, t2.state, name).None?
  {
  }

  /** A listing has exactly as many entries as the index has names. */
  lemma ListingSize(s: State, r: seq<string>)
    requires IsListing(s, r)
    ensures |r| == |s.names|
  {
    Table.UniqueCard(r);
  }

  /** Creating a, b and c and removing b lists a and c with no b. */
  lemma ListingAfterCreateRemove(L: Layout, s: State, a: string, b: string, c: string, r: seq<string>)
    requires s.names == {} && a != b && b != c && a != c
    requires var s1 := Create(L, s, a, true, false).state;
      var s2 := Create(L, s1, b, true, false).state;
      var s3 := Create(L, s2, c, true, false).state;
      IsListing(Remove(L, s3, b).state, r)
    ensures |r| == 2 && (r == [a, c] || r == [c, a])
  {
    var s4 := Remove(L, Create(L, Create(L, Create(L, s, a, true, false).state, b, true, false).state, c, true, false).state, b).state;
    assert s4.names == {a, c};
    ListingSize(s4, r);
    assert r[0] in {a, c} && r[1] in {a, c} && r[0] != r[1];
  }

  /** A binary `open` always leaves the name in the index; any other mode
      changes nothing. */
  lemma OpenSpec(L: Layout, s: State, name: string, mode: string)
    ensures Modes.IsBinaryMode(mode) ==>
      (Exists(Open(L, s, name, mode), name) &&
       Open(L, s, name, mode).names == s.names + {name} &&
       Open(L, s, name, mode).dirs == s.dirs + ShardDirs(L.tree, L.digest(name)))
    ensures !Modes.IsBinaryMode(mode) ==> Open(L, s, name, mode) == s
  {
  }

  /** Opening with "rb" creates the entry; opening with "w" does not. */
  lemma OpenExamples(L: Layout, s: State, name: string)
    ensures Exists(Open(L, s, name, "rb"), name)
    ensures Open(L, s, name, "w") == s
  {
  }
}
