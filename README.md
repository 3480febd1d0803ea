# pindex entry index, modelled in Dafny

pindex is a small key-value store. It maps entry names to files in a
hash-sharded directory tree. A one-column database table, `pindex`, records
which names exist. This project models the `Pindex` class of `pindex.py` and
proves properties of that model:

- the index is a state machine over a duplicate-free table of names;
- the name-to-path derivation is fixed-width slicing of the name's SHA-256
  hex digest;
- `open` decides whether to create an entry by looking the mode up in
  constant mode tables.

Files:

- `basics.dfy`: `Option` (Python's `None`) and `Result` (a value or a raised error).
- `path_tree.dfy` (module `PathTree`): the `Digest` type (64 lower-case hex
  characters), the tree root `folder + "/pindex.tree"`, the entry path
  `tree/d[0:2]/d[2:4]/d[4:6]/d[6:]`, the three shard directories, and `Split`,
  `Join` and `DigestOf`, which recover the digest from a path.
- `modes.dfy` (module `Modes`): the mode-string tables and the test
  `IsBinaryMode` that `open` applies.
- `table.dfy` (module `Table`): the `pindex` table as a sequence of rows under
  the uniqueness constraint. Lookup, delete and insert by name are functions on
  that sequence.
- `model.dfy` (module `Model`): the abstract state (the set of indexed names,
  the directories ensured to exist, the files removed). Each public operation is
  one step function. The lemmas relate the steps to each other.
- `pindex.dfy` (module `Index`): class `Pindex`. It has the table's rows as a
  field plus the directory and removed-file sets. Each method is proved to
  perform exactly one step of `Model`, with `Abstract()` as the abstraction.
  `Session` is a client that chains the operations.

The SHA-256 digest of the UTF-8 encoded name is an external function. It is a
parameter of the constructor, of type `string -> Digest`. Nothing assumes it is
injective. The proofs only show that the path determines the digest.

## Model

| member | source | states |
|---|---|---|
| PathTree.MaterializedPathSame | pindex.py:124-129 | the `mkdirs` and non-`mkdirs` branches of `_makepath` build the same string |
| PathTree.ShardWidths | pindex.py:122-129 | the four path components have widths 2, 2, 2 and 58, contain no separator, and concatenate back to the digest |
| PathTree.EntryPathIsJoin | pindex.py:129 | an entry path is the tree root, `/`, then the four components joined by `/` |
| PathTree.SplitJoin | pindex.py:125-129 | cutting at `/` undoes joining separator-free components |
| PathTree.JoinSplit | pindex.py:125-129 | joining undoes cutting at `/`, for every string |
| PathTree.SplitEntryPath | pindex.py:122-129 | an entry path is `tree + "/"` followed by 67 characters, and cutting that remainder at `/` gives exactly the four components |
| PathTree.DigestRoundTrip | pindex.py:122-129 | `DigestOf` strips `tree + "/"` and the separators and returns the digest the path was built from |
| PathTree.DigestOfSound | pindex.py:122-129 | whatever `DigestOf` returns is a digest, and its entry path is the path it was given |
| PathTree.EntryPathInjective | pindex.py:122-129 | equal entry paths mean equal digests |
| PathTree.ShardDirsAreAncestors | pindex.py:124-127 | `mkdirs` materializes three distinct directories; each is strictly below the tree root and is a proper ancestor of the entry path |
| Modes.TextModesLackB | pindex.py:11-47 | no text mode contains the letter `b` |
| Modes.BinaryModesHaveB | pindex.py:48-76 | every binary mode contains the letter `b` |
| Modes.BinaryIffLetterB | pindex.py:47-78 | over all recognised modes, the test `open` makes holds exactly when the mode contains `b`; no mode is both text and binary |
| Modes.BinaryModeExamples | pindex.py:74-76 | `"rb"`, `"wb"` and `"r+b"` pass `open`'s test |
| Modes.TextModeExamples | pindex.py:45-47 | `"w"`, `"r"` and `"a+"` fail `open`'s test |
| Modes.ImplicitCreateDiffers | pindex.py:77 | `"rb"` is not an implicitly creating mode but `"w"` is, so `open`'s test is not the implicit-create table |
| Modes.ImplicitCreateBinaryIsBinary | pindex.py:74-77 | every implicitly creating mode that contains `b` passes `open`'s test |
| Table.MatchingIff | pindex.py:164-165 | the lookup by name returns rows exactly when the name is in the table, and at most one row when the table is unique |
| Table.DeleteMembers | pindex.py:204 | deleting by name keeps every other row and drops every row with that name |
| Table.DeleteNames | pindex.py:204 | after the delete, the table's names are the old names minus the deleted one |
| Table.DeleteCount | pindex.py:204-205 | on a unique table, the delete removes one row if the name was present and none otherwise; the table stays unique |
| Table.InsertAccepted | pindex.py:100-104 | the constraint accepts an insert of an absent name; the table stays unique and gains exactly that name |
| Table.UniqueCard | pindex.py:102 | a unique table has as many rows as distinct names |
| Model.MakePathSpec | pindex.py:119-129 | `_makepath(None)` gives `None` and touches no directory; otherwise the path is the one the `mkdirs` branch builds (the two branches are proved equal by `PathTree.MaterializedPathSame`, which `Index.Pindex.MakePath` uses); without `mkdirs` no directory is created, and materializing twice adds nothing the first call did not |
| Model.PathDeterminesDigest | pindex.py:122-129 | two names with the same derived path have the same digest, and the digest can be read back from the path |
| Model.CreateFresh | pindex.py:171-173 | `create` on an absent name returns its path, adds exactly that name, keeps every other name as it was, and removes no file |
| Model.CreateExisting | pindex.py:164-169 | `create` on a present name never changes the index; with `exists_ok` it returns the path, without it it fails with the already-exists error and changes nothing at all |
| Model.CreateLeavesName | pindex.py:163-173 | whatever `create` returns, the name is indexed afterwards and directories only grow |
| Model.CreateIdempotent | pindex.py:164-173 | two creates with `exists_ok` succeed with the same path, and the second leaves the whole state (names, directories, removed files) as the first left it |
| Model.CreateRejectsDuplicate | pindex.py:164-169 | a second create without `exists_ok` fails with the already-exists error and leaves the state unchanged |
| Model.CreateThenQuery | pindex.py:171-195 | after a successful create, `exists` holds and `get` returns the path `create` returned |
| Model.GetSpec | pindex.py:185-195 | `get` returns a path exactly when `exists` holds; the path is the non-materializing one, and its digest can be read back from it |
| Model.RemoveSpec | pindex.py:197-209 | `remove` returns whether the name was present; afterwards the name is absent and other names are unchanged; the name's file is removed only when the result is true; on false nothing changes |
| Model.CreateRemoveRoundTrip | pindex.py:163-209 | creating an absent name and then removing it restores the names; the removed file is the path `create` returned |
| Model.ListingSize | pindex.py:211-221 | a listing has exactly as many entries as there are indexed names |
| Model.ListingAfterCreateRemove | pindex.py:154-221 | after creating a, b and c in an empty index and removing b, the listing is a and c in some order |
| Model.OpenSpec | pindex.py:140-141 | a binary `open` leaves the name indexed, adds only that name and materializes its shard directories; any other mode changes nothing |
| Model.OpenExamples | pindex.py:140-141 | opening with `"rb"` indexes the name; opening with `"w"` changes nothing |
| Index.Pindex.constructor | pindex.py:88-104 | the folder defaults to `"pindex"`; the tree root is `folder + "/pindex.tree"` and exists; the table holds the stored rows, which satisfy the uniqueness constraint |
| Index.Pindex.MakePath | pindex.py:114-129 | `mkdirs` defaults to false; both branches return the path of `PathFor`, and the directories change as `Materialize` says |
| Index.Pindex.Create | pindex.py:154-173 | with the defaults `mkdirs` true and `exists_ok` false, lookup then insert performs exactly `Model.Create`: same new state, same result; rows gain the name at the end, or are unchanged; the table stays unique |
| Index.Pindex.Exists | pindex.py:175-183 | true exactly when the name is indexed |
| Index.Pindex.Get | pindex.py:185-195 | equals `Model.Get`: a path exactly when the name has a row, `None` otherwise |
| Index.Pindex.Remove | pindex.py:197-209 | delete by name performs exactly `Model.Remove`; the returned flag is whether a row was deleted |
| Index.Pindex.List | pindex.py:211-221 | the result holds every indexed name exactly once |
| Index.Pindex.Open | pindex.py:131-141 | with the mode defaulting to `"r"`, performs exactly `Model.Open`: `create(name, mkdirs=True, exists_ok=True)` when the mode is binary, nothing otherwise |

## Left out

- The SQLite connection, cursors, `commit` and `close` (pindex.py:97, 106-112). The table is a field. Durability across reopening is only reflected by the constructor accepting the rows already stored.
- `threading.Lock` and concurrency (pindex.py:98). Each locked method is one atomic step. The race between two concurrent creates is not a sequential property.
- SHA-256 and UTF-8 encoding (pindex.py:122). These are the `digest` parameter. Its only stated property is its result type.
- `os.makedirs` on the tree root (pindex.py:96) also creates the folder and the folder's ancestors. `dirs` records neither: it starts as the set holding only the tree root, and later gains only shard directories below it.
- The builtin `open` call and its options (pindex.py:143-152). The call passes the keyword `name=`, which Python 3's builtin `open` does not accept (its first parameter is `file`). So it raises `TypeError`, after `create` has already run. Even with that keyword corrected, it would open the bare name rather than the derived path. `Index.Pindex.Open` models only the `create` that precedes the call.
- The mode tables are combined with `|` (pindex.py:47, 76-78). Python lists do not support this, so loading the module raises `TypeError`. The model reads each combination as concatenation.
- `remove` calls `.fetchall()` and then reads `.rowcount` from the resulting list (pindex.py:204-205). The model reads this as "a row was deleted", i.e. the name was present.
- Files are not tracked, only their removal. `create` never creates the entry's file: it inserts the row and makes the directories (pindex.py:124-127, 171-173). So a `remove` right after `create` calls `os.remove` on a missing file, which raises `FileNotFoundError` before the commit (pindex.py:206-207). The model has no set of existing files and cannot express this. `Model.RemoveSpec`, `Model.CreateRemoveRoundTrip`, `Model.ListingAfterCreateRemove` and `Index.Session` describe `remove` as succeeding; they assume the caller wrote the file in between, at the path `create` or `get` returned. `Pindex.open` cannot write it, because its builtin call raises `TypeError`.
- Other failures of `os.remove` or `os.makedirs` are not modelled either: a permission error, or a directory-creation failure after an insert.
- A `None` name is modelled only for `_makepath` (pindex.py:119-120). The public operations take strings.
- The docstring of `open` (pindex.py:133-135) says the entry is created when the mode is a writing one. The code tests membership in the binary mode table, which includes read modes such as `"rb"` and excludes text write modes such as `"w"`. The model follows the code; `Modes.ImplicitCreateDiffers` records the difference.
