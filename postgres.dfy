/** fetcher/database/postgres/postgres.py: `postgres_write`, the
    existence-checked insert of integration records.  The table is the
    sequence of its rows in insertion order; a row's key is the whole
    `(name, status)` record. */
module Postgres {
  import opened Marketplace

  /** No two rows share a key. */
  predicate Distinct(rows: seq<Integration>)
  {
    forall i, j :: 0 <= i < j < |rows| ==> rows[i] != rows[j]
  }

  /** One iteration of the loop: insert `rec` unless a row with its name and
      status already exists. */
  function Insert(rows: seq<Integration>, rec: Integration): seq<Integration>
  {
    if rec in rows then rows else rows + [rec]
  }

  /** The table after the loop has handled every record of `data`, in order. */
  function InsertAll(rows: seq<Integration>, data: seq<Integration>): seq<Integration>
    decreases |data|
  {
    if data == [] then rows else Insert(InsertAll(rows, data[..|data| - 1]), data[|data| - 1])
  }

  /** Existing rows are kept, in place and in order; at most one row is
      added per record. */
  lemma {:induction false} InsertAllGrows(rows: seq<Integration>, data: seq<Integration>)
    ensures |rows| <= |InsertAll(rows, data)| <= |rows| + |data|
    ensures InsertAll(rows, data)[..|rows|] == rows
    decreases |data|
  {
    if data != [] {
      var prev := InsertAll(rows, data[..|data| - 1]);
      InsertAllGrows(rows, data[..|data| - 1]);
      assert (prev + [data[|data| - 1]])[..|prev|] == prev;
    }
  }

  /** After the write every record of the batch is in the table, and every
      row came either from the old table or from the batch. */
  lemma {:induction false} InsertAllMembers(rows: seq<Integration>, data: seq<Integration>)
    ensures forall x :: x in data ==> x in InsertAll(rows, data)
    ensures forall x :: x in InsertAll(rows, data) ==> x in rows || x in data
    decreases |data|
  {
    if data != [] {
      var init := data[..|data| - 1];
      InsertAllMembers(rows, init);
      assert data == init + [data[|data| - 1]];
      forall x | x in data
        ensures x in InsertAll(rows, data)
      {
        if x != data[|data| - 1] {
          assert x in init;
        }
      }
    }
  }

  /** A duplicate-free table stays duplicate-free. */
  lemma {:induction false} InsertAllDistinct(rows: seq<Integration>, data: seq<Integration>)
    requires Distinct(rows)
    ensures Distinct(InsertAll(rows, data))
    decreases |data|
  {
    if data != [] {
      InsertAllDistinct(rows, data[..|data| - 1]);
    }
  }

  /** A batch whose records are all in the table already inserts nothing. */
  lemma {:induction false} InsertAllPresent(rows: seq<Integration>, data: seq<Integration>)
    requires forall x :: x in data ==> x in rows
    ensures InsertAll(rows, data) == rows
    decreases |data|
  {
    if data != [] {
      var init := data[..|data| - 1];
      assert forall x :: x in init ==> x in data;
      InsertAllPresent(rows, init);
      assert data[|data| - 1] in data;
    }
  }

  /** Writing the same batch a second time leaves the table as the first
      write left it. */
  lemma WriteIdempotent(rows: seq<Integration>, data: seq<Integration>)
    ensures InsertAll(InsertAll(rows, data), data) == InsertAll(rows, data)
  {
    InsertAllMembers(rows, data);
    InsertAllPresent(InsertAll(rows, data), data);
  }

  /** A record repeated within one batch yields a single new row. */
  lemma DuplicateInBatchOneRow(rows: seq<Integration>, rec: Integration)
    requires rec !in rows
    ensures InsertAll(rows, [rec, rec]) == rows + [rec]
  {
    assert [rec, rec][..1] == [rec];
    assert [rec][..0] == [];
    assert InsertAll(rows, [rec]) == rows + [rec];
    assert rec in rows + [rec];
  }

  /** The records of one application that has two scopes with the same
      status become one row. */
  lemma SameStatusTwiceOneRow()
    ensures InsertAll([], Flatten([App(Json.JStr("X"), [Json.JStr("active"), Json.JStr("active")])]))
      == [Integration(Json.JStr("X"), Json.JStr("active"))]
  {
    var a := App(Json.JStr("X"), [Json.JStr("active"), Json.JStr("active")]);
    var rec := Integration(Json.JStr("X"), Json.JStr("active"));
    assert [a][..0] == [];
    assert AppRecords(a) == [rec, rec];
    DuplicateInBatchOneRow([], rec);
  }

  /** The `Integration` table as the ORM presents it. */
  class IntegrationTable {
    var rows: seq<Integration>

    /** The table `generate_schemas()` creates: empty. */
    constructor ()
      ensures rows == []
    {
      rows := [];
    }

    /** `Integration.filter(name=, status=).exists()`. */
    method Exists(name: Json.Json, status: Json.Json) returns (b: bool)
      ensures b <==> Integration(name, status) in rows
    {
      b := Integration(name, status) in rows;
    }

    /** `Integration.create(name=, status=)`: one new row at the end. */
    method Create(name: Json.Json, status: Json.Json)
      modifies this
      ensures rows == old(rows) + [Integration(name, status)]
    {
      rows := rows + [Integration(name, status)];
    }

    /** `postgres_write(data)`: `False` for an empty batch, which leaves the
        table alone; otherwise each record, in order, is inserted unless a
        row with its name and status exists, and the answer is `True`. */
    method Write(data: seq<Integration>) returns (written: bool)
      modifies this
      ensures written == (data != [])
      ensures rows == InsertAll(old(rows), data)
    {
      if data == [] {
        return false;
      }
      var i := 0;
      assert data[..0] == [];
      while i < |data|
        invariant 0 <= i <= |data|
        invariant rows == InsertAll(old(rows), data[..i])
      {
        assert data[..i + 1][..i] == data[..i];
        var integration := data[i];
        var present := Exists(integration.name, integration.status);
        if !present {
          Create(integration.name, integration.status);
        }
        i := i + 1;
      }
      assert data[..i] == data;
      return true;
    }
  }
}
