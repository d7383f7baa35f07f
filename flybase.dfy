/**
 * The `FlyBase` reader of the analysis script: it keeps the annotation rows of the FlyBase
 * disease-model table that carry a gene, a qualifier and a DOID, with every field stripped.
 */
module FlyBaseRows {
  import opened Wrappers
  import opened Text

  /** Column positions in a row of the table. */
  const COL_FBGN_ID := 0
  const COL_DO_QUALIFIER := 3
  const COL_DO_ID := 4
  const COL_DO_TERM := 5

  /** One kept annotation: `fbgn_id`, `do_qualifier`, `do_id` and `do_term`. */
  datatype Record = Record(geneId: string, qualifier: string, doid: string, term: string)

  /** A field as the reader stores it: not empty, and neither starting nor ending in whitespace. */
  predicate Trimmed(s: string)
  {
    s != [] && !IsSpace(s[0]) && !IsSpace(s[|s| - 1])
  }

  /**
   * The filter of `FlyBase.parse` for one row of cells: comment rows (first cell starting with
   * `##`) and rows without a term column are skipped, and so are rows whose gene, qualifier or
   * DOID cell is blank. A row is kept exactly when none of these holds, and the kept fields
   * carry no white space at either end.
   */
  function KeepRow(row: seq<string>): (r: Option<Record>)
    ensures r.Some? <==>
      && |row| > COL_DO_TERM
      && !StartsWith(row[0], "##")
      && !AllSpace(row[COL_FBGN_ID]) && !AllSpace(row[COL_DO_QUALIFIER]) && !AllSpace(row[COL_DO_ID])
    ensures r.Some? ==>
      && Trimmed(r.value.geneId) && Trimmed(r.value.qualifier) && Trimmed(r.value.doid)
      && (r.value.term == [] || Trimmed(r.value.term))
    ensures r.Some? ==> r.value == Record(Strip(row[COL_FBGN_ID]), Strip(row[COL_DO_QUALIFIER]),
                                          Strip(row[COL_DO_ID]), Strip(row[COL_DO_TERM]))
  {
    if row == [] then None
    else if StartsWith(row[0], "##") then None
    else if |row| <= COL_DO_TERM then None
    else
      var fbgnId := Strip(row[COL_FBGN_ID]);
      var doQualifier := Strip(row[COL_DO_QUALIFIER]);
      var doId := Strip(row[COL_DO_ID]);
      var doTerm := Strip(row[COL_DO_TERM]);
      if fbgnId == [] || doQualifier == [] || doId == [] then None
      else Some(Record(fbgnId, doQualifier, doId, doTerm))
  }

  /** The values `keep` yields for the rows of `rows`, in row order. */
  function FilterMap<T>(rows: seq<seq<string>>, keep: seq<string> -> Option<T>): seq<T>
  {
    if rows == [] then []
    else
      var kept := FilterMap(rows[..|rows| - 1], keep);
      match keep(rows[|rows| - 1])
      case Some(v) => kept + [v]
      case None => kept
  }

  /** Some row of `rows` makes `keep` yield `v`. */
  ghost predicate Yields<T>(rows: seq<seq<string>>, keep: seq<string> -> Option<T>, v: T)
  {
    exists i :: 0 <= i < |rows| && keep(rows[i]) == Some(v)
  }

  lemma {:induction false} FilterMapExact<T>(rows: seq<seq<string>>, keep: seq<string> -> Option<T>)
    ensures |FilterMap(rows, keep)| <= |rows|
    ensures forall v :: v in FilterMap(rows, keep) <==> Yields(rows, keep, v)
  {
    if rows != [] {
      var p, last := rows[..|rows| - 1], rows[|rows| - 1];
      FilterMapExact(p, keep);
      forall v ensures Yields(rows, keep, v) <==> Yields(p, keep, v) || keep(last) == Some(v) {
        if Yields(rows, keep, v) {
          var i :| 0 <= i < |rows| && keep(rows[i]) == Some(v);
          if i < |p| {
            assert p[i] == rows[i];
          }
        }
        if Yields(p, keep, v) {
          var i :| 0 <= i < |p| && keep(p[i]) == Some(v);
          assert rows[i] == p[i];
        }
      }
    }
  }

  /** The records kept from `rows`, in row order. */
  function KeptRecords(rows: seq<seq<string>>): seq<Record>
  {
    FilterMap(rows, KeepRow)
  }

  /** Some row of `rows` passes the filter and yields `rec`. */
  ghost predicate FromRow(rows: seq<seq<string>>, rec: Record)
  {
    exists i :: 0 <= i < |rows| && KeepRow(rows[i]) == Some(rec)
  }

  /** The kept records are exactly those of the rows that pass the filter; there are at most as
      many as there are rows. */
  lemma KeptRecordsFilter(rows: seq<seq<string>>)
    ensures |KeptRecords(rows)| <= |rows|
    ensures forall rec :: rec in KeptRecords(rows) <==> FromRow(rows, rec)
  {
    FilterMapExact(rows, KeepRow);
    forall rec ensures FromRow(rows, rec) <==> Yields(rows, KeepRow, rec) {
      if FromRow(rows, rec) {
        var i :| 0 <= i < |rows| && KeepRow(rows[i]) == Some(rec);
        assert Yields(rows, KeepRow, rec);
      }
    }
  }

  /** The reader; `records` is replaced by each call of `Parse`. */
  class FlyBase {
    var records: seq<Record>

    constructor ()
      ensures records == []
    {
      records := [];
    }

    /** `FlyBase.parse` over the rows of the table: the kept records become `records`, which are
        also returned. */
    method Parse(rows: seq<seq<string>>) returns (result: seq<Record>)
      modifies this
      ensures records == KeptRecords(rows)
      ensures result == records
    {
      var results: seq<Record> := [];
      for i := 0 to |rows|
        invariant results == KeptRecords(rows[..i])
      {
        assert rows[..i + 1][..i] == rows[..i];
        var row := rows[i];
        if row == [] {
          continue;
        }
        if StartsWith(row[0], "##") {
          continue;
        }
        if |row| <= COL_DO_TERM {
          continue;
        }
        var fbgnId := Strip(row[COL_FBGN_ID]);
        var doQualifier := Strip(row[COL_DO_QUALIFIER]);
        var doId := Strip(row[COL_DO_ID]);
        var doTerm := Strip(row[COL_DO_TERM]);
        if fbgnId == [] || doQualifier == [] || doId == [] {
          continue;
        }
        results := results + [Record(fbgnId, doQualifier, doId, doTerm)];
      }
      assert rows[..|rows|] == rows;
      records := results;
      result := records;
    }
  }
}
