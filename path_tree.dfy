/** The name -> path derivation of the hash tree (pindex.py, `__init__` and
    `_makepath`). The SHA-256 hex digest of a name is abstracted as a value of
    type `Digest`: 64 lower-case hex characters. The path of an entry is
    `tree/d[0:2]/d[2:4]/d[4:6]/d[6:]`. */
module PathTree {
  import opened Basics

  predicate IsHexDigit(c: char) {
    '0' <= c <= '9' || 'a' <= c <= 'f'
  }

  /** What `hexdigest()` of SHA-256 returns: 64 lower-case hex characters. */
  predicate IsDigest(d: string) {
    |d| == 64 && forall i :: 0 <= i < |d| ==> IsHexDigit(d[i])
  }

  /** A run of n zero digits, the smallest digest when n is 64. */
  function Zeros(n: nat): (s: string)
    ensures |s| == n && forall i :: 0 <= i < n ==> s[i] == '0'
  {
    if n == 0 then "" else Zeros(n - 1) + "0"
  }

  type Digest = d: string | IsDigest(d) witness Zeros(64)

  /** The tree root an instance uses for a given folder. */
  function Root(folder: string): (tree: string) {
    folder + "/pindex.tree"
  }

  /** The innermost directory of an entry, the one `os.makedirs` is given
      when `mkdirs` is set. */
  function LeafDir(tree: string, d: Digest): (dir: string) {
    tree + "/" + d[0..2] + "/" + d[2..4] + "/" + d[4..6]
  }

  /** The path string built when `mkdirs` is not set. */
  function EntryPath(tree: string, d: Digest): (p: string) {
    tree + "/" + d[0..2] + "/" + d[2..4] + "/" + d[4..6] + "/" + d[6..]
  }

  /** The path string built when `mkdirs` is set: the leaf directory, then the
      rest of the digest. */
  function MaterializedPath(tree: string, d: Digest): (p: string) {
    LeafDir(tree, d) + "/" + d[6..]
  }

  /** The directories `os.makedirs(LeafDir(..))` ensures exist below the tree
      root (the root itself exists from the constructor on). */
  function ShardDirs(tree: string, d: Digest): (dirs: set<string>) {
    {tree + "/" + d[0..2], tree + "/" + d[0..2] + "/" + d[2..4], LeafDir(tree, d)}
  }

  /** The four fixed-width components of an entry path below the tree root. */
  function Shards(d: Digest): (parts: seq<string>) {
    [d[0..2], d[2..4], d[4..6], d[6..]]
  }

  /** Components joined with "/" separators. */
  function Join(parts: seq<string>): (s: string)
  {
    if |parts| == 0 then ""
    else if |parts| == 1 then parts[0]
    else parts[0] + "/" + Join(parts[1..])
  }

  /** A string cut at every "/"; there is always at least one component. */
  function Split(s: string): (parts: seq<string>)
    ensures |parts| >= 1
  {
    if |s| == 0 then [""]
    else
      var rest := Split(s[1..]);
      if s[0] == '/' then [""] + rest
      else [[s[0]] + rest[0]] + rest[1..]
  }

  /** Recovers the digest from a path under `tree`: strips `tree + "/"`, cuts
      at the separators and glues the components back, provided they have
      the widths 2, 2, 2 and 58 and form a digest. */
  function DigestOf(tree: string, p: string): (d: Option<string>) {
    var prefix := tree + "/";
    if |p| < |prefix| || p[..|prefix|] != prefix then None
    else
      var parts := Split(p[|prefix|..]);
      if |parts| == 4 && |parts[0]| == 2 && |parts[1]| == 2 && |parts[2]| == 2
         && IsDigest(parts[0] + parts[1] + parts[2] + parts[3])
      then Some(parts[0] + parts[1] + parts[2] + parts[3])
      else None
  }

  /** Both branches of `_makepath` build the same string. */
  lemma MaterializedPathSame(tree: string, d: Digest)
    ensures MaterializedPath(tree, d) == EntryPath(tree, d)
  {
  }

  /** The components have widths 2, 2, 2 and 58, hold no separator and give
      back the digest when concatenated. */
  lemma ShardWidths(d: Digest)
    ensures |Shards(d)| == 4
    ensures |Shards(d)[0]| == 2 && |Shards(d)[1]| == 2 && |Shards(d)[2]| == 2 && |Shards(d)[3]| == 58
    ensures forall k :: 0 <= k < 4 ==> '/' !in Shards(d)[k]
    ensures Shards(d)[0] + Shards(d)[1] + Shards(d)[2] + Shards(d)[3] == d
  {
  }

  /** An entry path is the tree root, a separator and the joined components. */
  lemma EntryPathIsJoin(tree: string, d: Digest)
    ensures EntryPath(tree, d) == tree + "/" + Join(Shards(d))
  {
    var s := Shards(d);
    assert Join(s[3..]) == s[3];
    assert Join(s[2..]) == s[2] + "/" + s[3];
    assert Join(s[1..]) == s[1] + "/" + (s[2] + "/" + s[3]);
  }

  lemma {:induction false} SplitNoSeparator(a: string)
    requires '/' !in a
    ensures Split(a) == [a]
  {
    if |a| > 0 {
      assert '/' !in a[1..];
      SplitNoSeparator(a[1..]);
      assert [a[0]] + a[1..] == a;
    }
  }

  lemma {:induction false} SplitAppend(a: string, b: string)
    requires '/' !in a
    ensures Split(a + "/" + b) == [a] + Split(b)
  {
    var s := a + "/" + b;
    if |a| == 0 {
      assert s[1..] == b;
    } else {
      assert s[0] == a[0];
      assert s[1..] == a[1..] + "/" + b;
      assert '/' !in a[1..];
      SplitAppend(a[1..], b);
      assert [a[0]] + a[1..] == a;
    }
  }

  /** Splitting undoes joining components that hold no separator. */
  lemma {:induction false} SplitJoin(parts: seq<string>)
    requires |parts| >= 1
    requires forall k :: 0 <= k < |parts| ==> '/' !in parts[k]
    ensures Split(Join(parts)) == parts
  {
    if |parts| == 1 {
      SplitNoSeparator(parts[0]);
    } else {
      SplitAppend(parts[0], Join(parts[1..]));
      SplitJoin(parts[1..]);
      assert [parts[0]] + parts[1..] == parts;
    }
  }

  /** Joining undoes splitting. */
  lemma {:induction false} JoinSplit(s: string)
    ensures Join(Split(s)) == s
  {
    if |s| > 0 {
      var rest := Split(s[1..]);
      JoinSplit(s[1..]);
      if s[0] == '/' {
        assert ([""] + rest)[1..] == rest;
        assert [s[0]] + s[1..] == s;
      } else {
        var parts := [[s[0]] + rest[0]] + rest[1..];
        assert parts[1..] == rest[1..];
        if |rest| == 1 {
          assert Join(parts) == [s[0]] + rest[0];
        } else {
          assert Join(rest) == rest[0] + "/" + Join(rest[1..]);
          assert Join(parts) == [s[0]] + rest[0] + "/" + Join(rest[1..]);
        }
        assert [s[0]] + s[1..] == s;
      }
    }
  }

  /** Splitting an entry path below the root gives exactly its components. */
  lemma SplitEntryPath(tree: string, d: Digest)
    ensures |EntryPath(tree, d)| == |tree| + 68
    ensures EntryPath(tree, d)[..|tree| + 1] == tree + "/"
    ensures Split(EntryPath(tree, d)[|tree| + 1..]) == Shards(d)
  {
    EntryPathIsJoin(tree, d);
    ShardWidths(d);
    SplitJoin(Shards(d));
    var p := EntryPath(tree, d);
    assert p[|tree| + 1..] == Join(Shards(d));
  }

  /** Round trip: the digest is recovered from the path. */
  lemma DigestRoundTrip(tree: string, d: Digest)
    ensures DigestOf(tree, EntryPath(tree, d)) == Some(d)
  {
    SplitEntryPath(tree, d);
    ShardWidths(d);
  }

  /** The other direction: whatever `DigestOf` recovers is a digest whose entry
      path is the path it was given. */
  lemma DigestOfSound(tree: string, p: string, x: string)
    requires DigestOf(tree, p) == Some(x)
    ensures IsDigest(x) && p == EntryPath(tree, x)
  {
    var prefix := tree + "/";
    var rel := p[|prefix|..];
    var parts := Split(rel);
    assert x == parts[0] + parts[1] + parts[2] + parts[3];
    assert x[0..2] == parts[0];
    assert x[2..4] == parts[1];
    assert x[4..6] == parts[2];
    assert x[6..] == parts[3];
    JoinSplit(rel);
    assert Join(parts[3..]) == parts[3];
    assert Join(parts[2..]) == parts[2] + "/" + parts[3];
    assert Join(parts[1..]) == parts[1] + "/" + (parts[2] + "/" + parts[3]);
    assert rel == parts[0] + "/" + (parts[1] + "/" + (parts[2] + "/" + parts[3]));
    assert p == prefix + rel;
  }

  /** Equal paths imply equal digests. */
  lemma EntryPathInjective(tree: string, d1: Digest, d2: Digest)
    requires EntryPath(tree, d1) == EntryPath(tree, d2)
    ensures d1 == d2
  {
    DigestRoundTrip(tree, d1);
    DigestRoundTrip(tree, d2);
  }

  /** The directories materialized for an entry are three distinct proper
      ancestors of its path, each strictly below the tree root. */
  lemma ShardDirsAreAncestors(tree: string, d: Digest)
    ensures |ShardDirs(tree, d)| == 3
    ensures forall dir :: dir in ShardDirs(tree, d) ==>
      |tree| + 1 < |dir| < |EntryPath(tree, d)| && dir[..|tree| + 1] == tree + "/" &&
      EntryPath(tree, d)[..|dir|] == dir && EntryPath(tree, d)[|dir|] == '/'
  {
  }
}
