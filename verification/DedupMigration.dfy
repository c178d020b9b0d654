/** Migration 043: delete the older duplicates of each (site, EV) pair, then demand uniqueness. */
module DedupMigration {
  import opened Collections

  /** A row of `heartbeat_ev_mappings` without its primary key; neither pair column is nullable. */
  datatype Row = Row(siteId: int, evId: string, enabled: bool, chargerId: int)

  /** The primary key makes ids distinct, so a table is a map from id to row. */
  type Rows = map<int, Row>

  predicate SamePair(a: Row, b: Row) {
    a.siteId == b.siteId && a.evId == b.evId
  }

  /** The ids the self-join selects: rows for which the same pair has a row with a larger id. */
  function Doomed(rows: Rows): set<int> {
    set h1, h2 | h1 in rows && h2 in rows && SamePair(rows[h1], rows[h2]) && h1 < h2 :: h1
  }

  function Deduplicated(rows: Rows): Rows {
    rows - Doomed(rows)
  }

  ghost predicate UniquePairs(rows: Rows) {
    forall i, j :: i in rows && j in rows && rows[i].siteId == rows[j].siteId && rows[i].evId == rows[j].evId ==> i == j
  }

  /** `id` is the newest row of its pair. */
  ghost predicate Newest(rows: Rows, id: int) {
    && id in rows
    && forall j :: j in rows && rows[id].siteId == rows[j].siteId && rows[id].evId == rows[j].evId ==> j <= id
  }

  class Database {
    var mappings: Rows
    var pairIndex: bool

    constructor (mappings: Rows)
      ensures this.mappings == mappings && !pairIndex
    {
      this.mappings := mappings;
      pairIndex := false;
    }

    /** `CREATE UNIQUE INDEX` fails when two rows share a pair. */
    method CreatePairIndex() returns (ok: bool)
      modifies this`pairIndex
      ensures ok <==> UniquePairs(mappings)
      ensures pairIndex == (old(pairIndex) || ok)
    {
      ok := Doomed(mappings) == {};
      NothingDoomedIff(mappings);
      pairIndex := pairIndex || ok;
    }

    /** `upgrade`: the index is always created, and exactly the newest row of each pair is left. */
    method Upgrade()
      modifies this
      ensures pairIndex && UniquePairs(mappings)
      ensures forall id :: id in mappings <==> Newest(old(mappings), id)
      ensures forall id :: id in mappings ==> id in old(mappings) && mappings[id] == old(mappings)[id]
    {
      KeepsExactlyNewest(mappings);
      mappings := mappings - Doomed(mappings);
      var ok := CreatePairIndex();
    }

    method Downgrade()
      modifies this`pairIndex
      ensures !pairIndex
    {
      pairIndex := false;
    }
  }

  lemma DoomedIff(rows: Rows, id: int)
    ensures id in Doomed(rows) <==> id in rows && exists j :: j in rows && SamePair(rows[id], rows[j]) && id < j
  {
  }

  /** The DELETE leaves exactly the newest row of each pair, unchanged, and pairs are then unique. */
  lemma KeepsExactlyNewest(rows: Rows)
    ensures forall id :: id in Deduplicated(rows) <==> Newest(rows, id)
    ensures forall id :: id in Deduplicated(rows) ==> Deduplicated(rows)[id] == rows[id]
    ensures UniquePairs(Deduplicated(rows))
  {
    forall id
      ensures id in Deduplicated(rows) <==> Newest(rows, id)
    {
      DoomedIff(rows, id);
    }
  }

  function Above(rows: Rows, id: int): set<int> {
    set j | j in rows && id < j
  }

  /** Every group keeps a row: each row's pair still has one, at least as new as the row itself. */
  lemma {:induction false} NoGroupDisappears(rows: Rows, id: int)
    requires id in rows
    ensures exists keep :: Newest(rows, keep) && SamePair(rows[id], rows[keep]) && id <= keep
    decreases Above(rows, id)
  {
    if j :| j in rows && SamePair(rows[id], rows[j]) && id < j {
      assert Above(rows, j) <= Above(rows, id) && j in Above(rows, id) && j !in Above(rows, j);
      NoGroupDisappears(rows, j);
    } else {
      assert Newest(rows, id);
    }
  }

  lemma NothingDoomedIff(rows: Rows)
    ensures Doomed(rows) == {} <==> UniquePairs(rows)
  {
    if !UniquePairs(rows) {
      var i, j :| i in rows && j in rows && SamePair(rows[i], rows[j]) && i != j;
      DoomedIff(rows, if i < j then i else j);
    }
  }

  /** Running the DELETE again deletes nothing; it deletes nothing at all exactly when pairs were unique. */
  lemma SecondRunDeletesNothing(rows: Rows)
    ensures Deduplicated(Deduplicated(rows)) == Deduplicated(rows)
    ensures Deduplicated(rows) == rows <==> UniquePairs(rows)
  {
    KeepsExactlyNewest(rows);
    NothingDoomedIff(Deduplicated(rows));
    NothingDoomedIff(rows);
    if Deduplicated(rows) == rows {
      assert forall id :: id in Doomed(rows) ==> id in rows;
      assert Doomed(rows) == {};
    }
  }

  function PairsOf(rows: Rows): set<(int, string)> {
    set id | id in rows :: (rows[id].siteId, rows[id].evId)
  }

  /** The table keeps exactly the pairs it had, one row each: the row count becomes the pair count. */
  lemma OneRowPerPair(rows: Rows)
    ensures PairsOf(Deduplicated(rows)) == PairsOf(rows)
    ensures |Deduplicated(rows)| == |PairsOf(rows)|
  {
    var kept := Deduplicated(rows);
    KeepsExactlyNewest(rows);
    forall p | p in PairsOf(rows)
      ensures p in PairsOf(kept)
    {
      var id :| id in rows && p == (rows[id].siteId, rows[id].evId);
      NoGroupDisappears(rows, id);
      var keep :| Newest(rows, keep) && SamePair(rows[id], rows[keep]);
      assert keep in kept;
    }
    assert PairsOf(kept) == PairsOf(rows);
    CountPairs(kept);
  }

  lemma {:induction false} CountPairs(rows: Rows)
    requires UniquePairs(rows)
    ensures |rows| == |PairsOf(rows)|
    decreases |rows|
  {
    if rows.Keys != {} {
      var id := AnyElement(rows.Keys);
      var rest := rows - {id};
      var p := (rows[id].siteId, rows[id].evId);
      assert |rest.Keys| == |rows.Keys| - 1 by {
        assert rest.Keys == rows.Keys - {id};
      }
      CountPairs(rest);
      assert PairsOf(rows) == PairsOf(rest) + {p} by {
        forall i | i in rows
          ensures (rows[i].siteId, rows[i].evId) in PairsOf(rest) + {p}
        {
          assert i != id ==> i in rest && rest[i] == rows[i];
        }
      }
      assert p !in PairsOf(rest);
    } else {
      assert PairsOf(rows) == {};
    }
  }
}
