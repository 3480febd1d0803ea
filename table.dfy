/** The `pindex` table of the index database: a single text column `name`
    under a uniqueness constraint (pindex.py:100-104), modelled as the
    sequence of its rows. The three statements the class issues (lookup,
    delete and insert by name) are functions on that sequence. */
module Table {
  import opened Basics

  /** The uniqueness constraint: no name occurs in two rows. */
  predicate Unique(rows: seq<string>) {
    forall i, j :: 0 <= i < j < |rows| ==> rows[i] != rows[j]
  }

  /** The set of names the table holds. */
  function Names(rows: seq<string>): (names: set<string>) {
    set x | x in rows
  }

  /** The lookup by name: one result row per matching row. */
  function Matching(rows: seq<string>, name: string): (found: seq<string>) {
    if |rows| == 0 then []
    else (if rows[0] == name then [rows[0]] else []) + Matching(rows[1..], name)
  }

  /** The delete by name: the rows that remain. */
  function Delete(rows: seq<string>, name: string): (rest: seq<string>) {
    if |rows| == 0 then []
    else (if rows[0] == name then [] else [rows[0]]) + Delete(rows[1..], name)
  }

  datatype Violation = UniqueViolation(name: string)

  /** The insert of one name, refused by the uniqueness constraint when the
      name is already present. */
  function Insert(rows: seq<string>, name: string): (r: Result<seq<string>, Violation>) {
    if name in rows then Err(UniqueViolation(name)) else Ok(rows + [name])
  }

  /** A lookup finds something exactly when the name is in the table, and
      never more than one row when the table is unique. */
  lemma {:induction false} MatchingIff(rows: seq<string>, name: string)
    ensures |Matching(rows, name)| != 0 <==> name in rows
    ensures Unique(rows) ==> |Matching(rows, name)| <= 1
  {
    if |rows| > 0 {
      MatchingIff(rows[1..], name);
      assert rows == [rows[0]] + rows[1..];
      if Unique(rows) {
        assert Unique(rows[1..]) by {
          forall i, j | 0 <= i < j < |rows[1..]| ensures rows[1..][i] != rows[1..][j] {
            assert rows[1..][i] == rows[i + 1] && rows[1..][j] == rows[j + 1];
          }
        }
        if rows[0] == name {
          assert name !in rows[1..] by {
            forall k | 0 <= k < |rows[1..]| ensures rows[1..][k] != name {
              assert rows[1..][k] == rows[k + 1];
            }
          }
        }
      }
    }
  }

  /** Deleting removes exactly the given name and keeps every other row. */
  lemma {:induction false} DeleteMembers(rows: seq<string>, name: string)
    ensures forall x :: x in Delete(rows, name) <==> x in rows && x != name
    ensures |Delete(rows, name)| <= |rows|
  {
    if |rows| > 0 {
      DeleteMembers(rows[1..], name);
      assert rows == [rows[0]] + rows[1..];
    }
  }

  lemma DeleteNames(rows: seq<string>, name: string)
    ensures Names(Delete(rows, name)) == Names(rows) - {name}
  {
    DeleteMembers(rows, name);
  }

  /** On a unique table the number of deleted rows, the `rowcount`, is one
      when the name was present and zero otherwise, and the table stays
      unique. */
  lemma {:induction false} DeleteCount(rows: seq<string>, name: string)
    requires Unique(rows)
    ensures |rows| - |Delete(rows, name)| == if name in rows then 1 else 0
    ensures Unique(Delete(rows, name))
  {
    if |rows| > 0 {
      var tail := rows[1..];
      assert Unique(tail) by {
        forall i, j | 0 <= i < j < |tail| ensures tail[i] != tail[j] {
          assert tail[i] == rows[i + 1] && tail[j] == rows[j + 1];
        }
      }
      DeleteCount(tail, name);
      DeleteMembers(tail, name);
      assert rows == [rows[0]] + tail;
      assert rows[0] !in tail by {
        forall k | 0 <= k < |tail| ensures tail[k] != rows[0] {
          assert tail[k] == rows[k + 1];
        }
      }
      var d := Delete(tail, name);
      if rows[0] != name {
        assert Delete(rows, name) == [rows[0]] + d;
        assert rows[0] !in d;
        forall i, j | 0 <= i < j < |[rows[0]] + d| ensures ([rows[0]] + d)[i] != ([rows[0]] + d)[j] {
          if i == 0 {
            assert ([rows[0]] + d)[j] == d[j - 1];
          } else {
            assert ([rows[0]] + d)[i] == d[i - 1] && ([rows[0]] + d)[j] == d[j - 1];
          }
        }
      }
    }
  }

  /** An insert the constraint accepts adds exactly that name and keeps the
      table unique. */
  lemma InsertAccepted(rows: seq<string>, name: string)
    requires Unique(rows) && name !in rows
    ensures Insert(rows, name).Ok?
    ensures Unique(Insert(rows, name).value)
    ensures Names(Insert(rows, name).value) == Names(rows) + {name}
  {
  }

  /** A unique table has as many rows as names. */
  lemma {:induction false} UniqueCard(rows: seq<string>)
    requires Unique(rows)
    ensures |Names(rows)| == |rows|
  {
    if |rows| > 0 {
      var last := |rows| - 1;
      var init := rows[..last];
      assert Unique(init) by {
        forall i, j | 0 <= i < j < |init| ensures init[i] != init[j] {
          assert init[i] == rows[i] && init[j] == rows[j];
        }
      }
      UniqueCard(init);
      assert rows == init + [rows[last]];
      assert rows[last] !in init by {
        forall k | 0 <= k < |init| ensures init[k] != rows[last] {
          assert init[k] == rows[k];
        }
      }
      assert Names(rows) == Names(init) + {rows[last]};
    }
  }
}
