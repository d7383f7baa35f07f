/**
 * `DiseaseAnalysis` of the FlyBase analysis script: it groups the kept annotations by gene,
 * with the MONDO categories of their DOIDs, and for every (category, qualifier) pair counts the
 * genes in the four cells of a 2x2 contingency table that it hands to Fisher's exact test.
 */
module Analysis {
  import opened Wrappers
  import opened Ordering
  import opened Knowledge
  import opened FlyBaseRows

  /** What `_prepare_data` records for one gene: `qualifiers` and `mondo_categories`. */
  datatype GeneProfile = GeneProfile(qualifiers: set<string>, categories: set<string>)

  /** `gene_info`, `all_qualifiers` and `all_categories` together. */
  datatype Summary = Summary(geneInfo: map<string, GeneProfile>, allQualifiers: set<string>, allCategories: set<string>)

  /** One entry of `analysis_results`: the pair tested, the table `[[A, B], [C, D]]`, the observed
      and expected A, the fold change (`None` for an infinite one) and what the test returned. */
  datatype CellResult<S> = CellResult(
    category: string, qualifier: string, table: seq<seq<nat>>,
    observedA: nat, expectedA: real, foldChange: Option<real>, stats: S)

  /** Every recorded gene has a qualifier and a category, and the two `all_` sets are exactly
      the unions of the genes' sets. */
  ghost predicate Consistent(s: Summary)
  {
    && (forall g :: g in s.geneInfo ==> s.geneInfo[g].qualifiers != {} && s.geneInfo[g].categories != {})
    && (forall q :: q in s.allQualifiers <==> exists g :: g in s.geneInfo && q in s.geneInfo[g].qualifiers)
    && (forall c :: c in s.allCategories <==> exists g :: g in s.geneInfo && c in s.geneInfo[g].categories)
  }

  /** One pass of the record loop of `_prepare_data`, for a record whose DOID has categories
      `cats`: a record without categories is ignored. */
  ghost function Absorb(s: Summary, rec: Record, cats: set<string>): Summary
  {
    if cats == {} then s
    else
      var prior := if rec.geneId in s.geneInfo then s.geneInfo[rec.geneId] else GeneProfile({}, {});
      Summary(
        s.geneInfo[rec.geneId := GeneProfile(prior.qualifiers + {rec.qualifier}, prior.categories + cats)],
        s.allQualifiers + {rec.qualifier},
        s.allCategories + cats)
  }

  /** The record loop of `_prepare_data` over `records`, from the state `s`. */
  ghost function AbsorbAll(kb: MondoKnowledge, s: Summary, records: seq<Record>): Summary
  {
    if records == [] then s
    else
      var rec := records[|records| - 1];
      Absorb(AbsorbAll(kb, s, records[..|records| - 1]), rec, CategoriesOf(kb, rec.doid))
  }

  /** Some record of `records` annotates gene `g` with a DOID that has categories. */
  ghost predicate Annotated(kb: MondoKnowledge, records: seq<Record>, g: string)
  {
    exists i :: 0 <= i < |records| && records[i].geneId == g && CategoriesOf(kb, records[i].doid) != {}
  }

  /** Some record of `records` annotates gene `g` with qualifier `q` and a DOID that has categories. */
  ghost predicate QualifiedAs(kb: MondoKnowledge, records: seq<Record>, g: string, q: string)
  {
    exists i :: 0 <= i < |records| && records[i].geneId == g && records[i].qualifier == q
                && CategoriesOf(kb, records[i].doid) != {}
  }

  /** Some record of `records` annotates gene `g` with a DOID that has category `c`. */
  ghost predicate CategorisedAs(kb: MondoKnowledge, records: seq<Record>, g: string, c: string)
  {
    exists i :: 0 <= i < |records| && records[i].geneId == g && c in CategoriesOf(kb, records[i].doid)
  }

  /** The genes of `genes` whose profile in `info` has category `c` exactly when `hasCat` and
      qualifier `q` exactly when `hasQual`. */
  function Bucket(info: map<string, GeneProfile>, genes: set<string>, c: string, q: string, hasCat: bool, hasQual: bool): set<string>
  {
    set g | g in genes && g in info && (c in info[g].categories) == hasCat && (q in info[g].qualifiers) == hasQual
  }

  /** The genes with category `c`. */
  function Carriers(info: map<string, GeneProfile>, c: string): set<string>
  {
    set g | g in info && c in info[g].categories
  }

  /** The genes with qualifier `q`. */
  function Holders(info: map<string, GeneProfile>, q: string): set<string>
  {
    set g | g in info && q in info[g].qualifiers
  }

  /** `count_A + count_B > 0` for the pair (`c`, `q`). */
  predicate Tested(info: map<string, GeneProfile>, c: string, q: string)
  {
    |Bucket(info, info.Keys, c, q, true, true)| + |Bucket(info, info.Keys, c, q, true, false)| > 0
  }

  /**
   * The result `run_analysis` records for the pair (`c`, `q`): the 2x2 table has the genes with
   * category `c` as its first row and those with qualifier `q` as its first column, and holds
   * every gene once; expected A is what the margins predict under independence, and the fold
   * change is observed over expected, infinite exactly when no gene has the qualifier.
   */
  function CellFor<S>(info: map<string, GeneProfile>, c: string, q: string, fisher: seq<seq<nat>> -> S): (r: CellResult<S>)
    requires Tested(info, c, q)
    ensures r.category == c && r.qualifier == q
    ensures |r.table| == 2 && |r.table[0]| == 2 && |r.table[1]| == 2 && r.observedA == r.table[0][0]
    ensures r.observedA == |Carriers(info, c) * Holders(info, q)|
    ensures r.table[0][0] + r.table[0][1] == |Carriers(info, c)|
    ensures r.table[0][0] + r.table[1][0] == |Holders(info, q)|
    ensures r.table[0][0] + r.table[0][1] + r.table[1][0] + r.table[1][1] == |info| > 0
    ensures r.expectedA == (|Carriers(info, c)| * |Holders(info, q)|) as real / |info| as real
    ensures r.foldChange.None? <==> Holders(info, q) == {}
    ensures r.foldChange.Some? ==> r.foldChange.value * r.expectedA == r.observedA as real
    ensures r.stats == fisher(r.table)
  {
    BucketMargins(info, c, q);
    BucketsPartition(info, c, q);
    BucketBoth(info, c, q);
    var a := |Bucket(info, info.Keys, c, q, true, true)|;
    var b := |Bucket(info, info.Keys, c, q, true, false)|;
    var cc := |Bucket(info, info.Keys, c, q, false, true)|;
    var d := |Bucket(info, info.Keys, c, q, false, false)|;
    var table := [[a, b], [cc, d]];
    var expected := ((a + b) * (a + cc)) as real / (a + b + cc + d) as real;
    ExpectedCount(a, b, cc, a + b + cc + d);
    CellResult(c, q, table, a, expected, if expected > 0.0 then Some(a as real / expected) else None, fisher(table))
  }

  /** The results of the inner loop of `run_analysis` for category `c` over the qualifiers `qs`. */
  function RowCells<S>(info: map<string, GeneProfile>, c: string, qs: seq<string>, fisher: seq<seq<nat>> -> S): seq<CellResult<S>>
  {
    if qs == [] then []
    else
      var q := qs[|qs| - 1];
      RowCells(info, c, qs[..|qs| - 1], fisher) + if Tested(info, c, q) then [CellFor(info, c, q, fisher)] else []
  }

  /** The results of both loops of `run_analysis` over the categories `cs` and qualifiers `qs`. */
  function GridCells<S>(info: map<string, GeneProfile>, cs: seq<string>, qs: seq<string>, fisher: seq<seq<nat>> -> S): seq<CellResult<S>>
  {
    if cs == [] then [] else GridCells(info, cs[..|cs| - 1], qs, fisher) + RowCells(info, cs[|cs| - 1], qs, fisher)
  }

  /** The pairs for which `cells` holds a result. */
  function CellKeys<S>(cells: seq<CellResult<S>>): set<(string, string)>
  {
    set k | 0 <= k < |cells| :: (cells[k].category, cells[k].qualifier)
  }

  /** `x` comes before `y` in the order of the loops over the sorted categories and qualifiers. */
  predicate CellBefore<S>(x: CellResult<S>, y: CellResult<S>)
  {
    StrictlyBelow(x.category, y.category) || (x.category == y.category && StrictlyBelow(x.qualifier, y.qualifier))
  }

  predicate Ascending<S>(cells: seq<CellResult<S>>)
  {
    forall k1, k2 :: 0 <= k1 < k2 < |cells| ==> CellBefore(cells[k1], cells[k2])
  }

  /** Every result is the one `run_analysis` records for its pair. */
  ghost predicate WellFormed<S>(info: map<string, GeneProfile>, cells: seq<CellResult<S>>, fisher: seq<seq<nat>> -> S)
  {
    forall k :: 0 <= k < |cells| ==>
      Tested(info, cells[k].category, cells[k].qualifier) && cells[k] == CellFor(info, cells[k].category, cells[k].qualifier, fisher)
  }

  /**
   * The gene loop of `run_analysis` for one pair: A counts the genes with the category and the
   * qualifier, B those with the category only, C those with the qualifier only, D the rest.
   */
  method TallyCell(info: map<string, GeneProfile>, c: string, q: string) returns (a: nat, b: nat, cc: nat, d: nat)
    ensures a == |Bucket(info, info.Keys, c, q, true, true)| && b == |Bucket(info, info.Keys, c, q, true, false)|
    ensures cc == |Bucket(info, info.Keys, c, q, false, true)| && d == |Bucket(info, info.Keys, c, q, false, false)|
    ensures a + b + cc + d == |info|
    ensures a + b == |Carriers(info, c)| && a + cc == |Holders(info, q)|
  {
    a, b, cc, d := 0, 0, 0, 0;
    var todo := info.Keys;
    while todo != {}
      invariant todo <= info.Keys
      invariant a == |Bucket(info, info.Keys - todo, c, q, true, true)|
      invariant b == |Bucket(info, info.Keys - todo, c, q, true, false)|
      invariant cc == |Bucket(info, info.Keys - todo, c, q, false, true)|
      invariant d == |Bucket(info, info.Keys - todo, c, q, false, false)|
    {
      var gene :| gene in todo;
      var gData := info[gene];
      var hasCat := c in gData.categories;
      var hasQual := q in gData.qualifiers;
      ghost var done := info.Keys - todo;
      BucketAdd(info, done, gene, c, q, true, true);
      BucketAdd(info, done, gene, c, q, true, false);
      BucketAdd(info, done, gene, c, q, false, true);
      BucketAdd(info, done, gene, c, q, false, false);
      if hasCat && hasQual {
        a := a + 1;
      } else if hasCat && !hasQual {
        b := b + 1;
      } else if !hasCat && hasQual {
        cc := cc + 1;
      } else {
        d := d + 1;
      }
      assert info.Keys - (todo - {gene}) == done + {gene};
      todo := todo - {gene};
    }
    assert info.Keys - todo == info.Keys;
    BucketMargins(info, c, q);
    BucketsPartition(info, c, q);
  }

  /** Adding one more gene to the counted ones adds it to the bucket it falls in and leaves the
      others as they were. */
  lemma BucketAdd(info: map<string, GeneProfile>, genes: set<string>, g: string, c: string, q: string, hasCat: bool, hasQual: bool)
    requires g in info && g !in genes
    ensures |Bucket(info, genes + {g}, c, q, hasCat, hasQual)| == |Bucket(info, genes, c, q, hasCat, hasQual)|
      + if (c in info[g].categories) == hasCat && (q in info[g].qualifiers) == hasQual then 1 else 0
  {
    if (c in info[g].categories) == hasCat && (q in info[g].qualifiers) == hasQual {
      assert Bucket(info, genes + {g}, c, q, hasCat, hasQual) == Bucket(info, genes, c, q, hasCat, hasQual) + {g};
    } else {
      assert Bucket(info, genes + {g}, c, q, hasCat, hasQual) == Bucket(info, genes, c, q, hasCat, hasQual);
    }
  }

  /** Expected A, (A+B)(A+C)/N, is positive exactly when some gene has the qualifier, and then
      the fold change times it gives back A. */
  lemma ExpectedCount(a: nat, b: nat, cc: nat, n: nat)
    requires n > 0 && a + b > 0
    ensures ((a + b) * (a + cc)) as real / n as real > 0.0 <==> a + cc > 0
    ensures ((a + b) * (a + cc)) as real / n as real > 0.0 ==>
      (a as real / (((a + b) * (a + cc)) as real / n as real)) * (((a + b) * (a + cc)) as real / n as real) == a as real
  {
    if a + cc > 0 {
      assert (a + b) * (a + cc) > 0;
    } else {
      assert (a + b) * (a + cc) == 0;
    }
  }

  /** A counts the genes with both the category and the qualifier. */
  lemma BucketBoth(info: map<string, GeneProfile>, c: string, q: string)
    ensures Bucket(info, info.Keys, c, q, true, true) == Carriers(info, c) * Holders(info, q)
  {
  }

  /** Every gene falls in exactly one of the four buckets. */
  lemma BucketsPartition(info: map<string, GeneProfile>, c: string, q: string)
    ensures |Bucket(info, info.Keys, c, q, true, true)| + |Bucket(info, info.Keys, c, q, true, false)|
      + |Bucket(info, info.Keys, c, q, false, true)| + |Bucket(info, info.Keys, c, q, false, false)| == |info|
  {
    var tt, tf := Bucket(info, info.Keys, c, q, true, true), Bucket(info, info.Keys, c, q, true, false);
    var ft, ff := Bucket(info, info.Keys, c, q, false, true), Bucket(info, info.Keys, c, q, false, false);
    assert Carriers(info, c) == tt + tf && tt * tf == {};
    assert info.Keys - Carriers(info, c) == ft + ff && ft * ff == {};
    assert info.Keys == Carriers(info, c) + (info.Keys - Carriers(info, c));
  }

  /** A + B is the number of genes with the category, A + C the number with the qualifier. */
  lemma BucketMargins(info: map<string, GeneProfile>, c: string, q: string)
    ensures |Carriers(info, c)| == |Bucket(info, info.Keys, c, q, true, true)| + |Bucket(info, info.Keys, c, q, true, false)|
    ensures |Holders(info, q)| == |Bucket(info, info.Keys, c, q, true, true)| + |Bucket(info, info.Keys, c, q, false, true)|
  {
    var tt, tf, ft := Bucket(info, info.Keys, c, q, true, true), Bucket(info, info.Keys, c, q, true, false), Bucket(info, info.Keys, c, q, false, true);
    assert Carriers(info, c) == tt + tf;
    assert tt * tf == {};
    assert Holders(info, q) == tt + ft;
    assert tt * ft == {};
  }

  /** The two loops of `run_analysis` over the sorted categories `cs` and qualifiers `qs`. */
  method AnalyseCells<S>(info: map<string, GeneProfile>, cs: seq<string>, qs: seq<string>, fisher: seq<seq<nat>> -> S)
    returns (cells: seq<CellResult<S>>)
    ensures cells == GridCells(info, cs, qs, fisher)
  {
    cells := [];
    for i := 0 to |cs|
      invariant cells == GridCells(info, cs[..i], qs, fisher)
    {
      assert cs[..i + 1][..i] == cs[..i];
      var row := AnalyseRow(info, cs[i], qs, fisher);
      cells := cells + row;
    }
    assert cs[..|cs|] == cs;
  }

  /**
   * The inner loop of `run_analysis` for one category: for each qualifier whose pair has
   * `A + B > 0`, the table, the observed and expected A (`(A+B)(A+C)` over the number of
   * genes), the fold change and the test's result.
   */
  method AnalyseRow<S>(info: map<string, GeneProfile>, category: string, qs: seq<string>, fisher: seq<seq<nat>> -> S)
    returns (row: seq<CellResult<S>>)
    ensures row == RowCells(info, category, qs, fisher)
  {
    var totalGenes := |info|;
    row := [];
    for j := 0 to |qs|
      invariant row == RowCells(info, category, qs[..j], fisher)
    {
      assert qs[..j + 1][..j] == qs[..j];
      var qualifier := qs[j];
      var countA, countB, countC, countD := TallyCell(info, category, qualifier);
      if countA + countB > 0 {
        var table := [[countA, countB], [countC, countD]];
        var stats := fisher(table);
        var expectedA := ((countA + countB) * (countA + countC)) as real / totalGenes as real;
        var foldChange := if expectedA > 0.0 then Some(countA as real / expectedA) else None;
        row := row + [CellResult(category, qualifier, table, countA, expectedA, foldChange, stats)];
      }
    }
    assert qs[..|qs|] == qs;
  }

  /** Each result of a row is for category `c`, a qualifier of `qs` and a tested pair, and is
      that pair's result. */
  lemma {:induction false} RowCellsShape<S>(info: map<string, GeneProfile>, c: string, qs: seq<string>, fisher: seq<seq<nat>> -> S)
    ensures WellFormed(info, RowCells(info, c, qs, fisher), fisher)
    ensures forall k :: 0 <= k < |RowCells(info, c, qs, fisher)| ==>
      RowCells(info, c, qs, fisher)[k].category == c && RowCells(info, c, qs, fisher)[k].qualifier in qs
  {
    if qs != [] {
      var p, q := qs[..|qs| - 1], qs[|qs| - 1];
      RowCellsShape(info, c, p, fisher);
      assert qs == p + [q];
      var before, row := RowCells(info, c, p, fisher), RowCells(info, c, qs, fisher);
      forall k | 0 <= k < |row| ensures row[k].category == c && row[k].qualifier in qs {
        if k < |before| {
          assert row[k] == before[k];
        }
      }
    }
  }

  /** A row holds a result for exactly the tested pairs of its category. */
  lemma {:induction false} RowCellsKeys<S>(info: map<string, GeneProfile>, c: string, qs: seq<string>, fisher: seq<seq<nat>> -> S)
    ensures forall x, q :: (x, q) in CellKeys(RowCells(info, c, qs, fisher)) <==> x == c && q in qs && Tested(info, c, q)
  {
    if qs != [] {
      var p, q := qs[..|qs| - 1], qs[|qs| - 1];
      RowCellsKeys(info, c, p, fisher);
      var extra := if Tested(info, c, q) then [CellFor(info, c, q, fisher)] else [];
      assert qs == p + [q];
      CellKeysConcat(RowCells(info, c, p, fisher), extra);
      if Tested(info, c, q) {
        assert extra[0].category == c && extra[0].qualifier == q;
        assert CellKeys(extra) == {(c, q)};
      } else {
        assert CellKeys(extra) == {};
      }
      forall y ensures y in qs <==> y in p || y == q {
      }
    }
  }

  /** A row over strictly sorted qualifiers is in ascending order. */
  lemma {:induction false} RowCellsAscending<S>(info: map<string, GeneProfile>, c: string, qs: seq<string>, fisher: seq<seq<nat>> -> S)
    requires StrictlySorted(qs)
    ensures Ascending(RowCells(info, c, qs, fisher))
  {
    if qs != [] {
      var p, q := qs[..|qs| - 1], qs[|qs| - 1];
      RowCellsAscending(info, c, p, fisher);
      RowCellsShape(info, c, p, fisher);
      var before := RowCells(info, c, p, fisher);
      if Tested(info, c, q) {
        forall k | 0 <= k < |before| ensures CellBefore(before[k], CellFor(info, c, q, fisher)) {
          var j :| 0 <= j < |p| && p[j] == before[k].qualifier;
          assert qs[j] == p[j];
        }
        AscendingConcat(before, [CellFor(info, c, q, fisher)]);
      }
    }
  }

  /** Each result of the grid is its pair's result, for a category of `cs` and a qualifier of
      `qs`; the grid holds exactly the tested pairs. */
  lemma {:induction false} GridCellsShape<S>(info: map<string, GeneProfile>, cs: seq<string>, qs: seq<string>, fisher: seq<seq<nat>> -> S)
    ensures WellFormed(info, GridCells(info, cs, qs, fisher), fisher)
    ensures forall k :: 0 <= k < |GridCells(info, cs, qs, fisher)| ==> GridCells(info, cs, qs, fisher)[k].category in cs
    ensures forall c, q :: (c, q) in CellKeys(GridCells(info, cs, qs, fisher)) <==> c in cs && q in qs && Tested(info, c, q)
  {
    if cs != [] {
      var p, c := cs[..|cs| - 1], cs[|cs| - 1];
      GridCellsShape(info, p, qs, fisher);
      RowCellsShape(info, c, qs, fisher);
      RowCellsKeys(info, c, qs, fisher);
      assert cs == p + [c];
      CellKeysConcat(GridCells(info, p, qs, fisher), RowCells(info, c, qs, fisher));
    }
  }

  /** Over strictly sorted categories and qualifiers the grid is in ascending order, so no pair
      has two results. */
  lemma {:induction false} GridCellsAscending<S>(info: map<string, GeneProfile>, cs: seq<string>, qs: seq<string>, fisher: seq<seq<nat>> -> S)
    requires StrictlySorted(cs) && StrictlySorted(qs)
    ensures Ascending(GridCells(info, cs, qs, fisher))
  {
    if cs != [] {
      var p, c := cs[..|cs| - 1], cs[|cs| - 1];
      GridCellsAscending(info, p, qs, fisher);
      GridCellsShape(info, p, qs, fisher);
      RowCellsAscending(info, c, qs, fisher);
      RowCellsShape(info, c, qs, fisher);
      var before, row := GridCells(info, p, qs, fisher), RowCells(info, c, qs, fisher);
      forall k1, k2 | 0 <= k1 < |before| && 0 <= k2 < |row| ensures CellBefore(before[k1], row[k2]) {
        var j :| 0 <= j < |p| && p[j] == before[k1].category;
        assert cs[j] == p[j];
      }
      AscendingConcat(before, row);
    }
  }

  lemma CellKeysConcat<S>(a: seq<CellResult<S>>, b: seq<CellResult<S>>)
    ensures CellKeys(a + b) == CellKeys(a) + CellKeys(b)
  {
    var ab := a + b;
    forall x | x in CellKeys(a) ensures x in CellKeys(ab) {
      var k :| 0 <= k < |a| && x == (a[k].category, a[k].qualifier);
      assert ab[k] == a[k];
    }
    forall x | x in CellKeys(b) ensures x in CellKeys(ab) {
      var k :| 0 <= k < |b| && x == (b[k].category, b[k].qualifier);
      assert ab[|a| + k] == b[k];
    }
  }

  lemma AscendingConcat<S>(a: seq<CellResult<S>>, b: seq<CellResult<S>>)
    requires Ascending(a) && Ascending(b)
    requires forall k1, k2 :: 0 <= k1 < |a| && 0 <= k2 < |b| ==> CellBefore(a[k1], b[k2])
    ensures Ascending(a + b)
  {
    var ab := a + b;
    forall k1, k2 | 0 <= k1 < k2 < |ab| ensures CellBefore(ab[k1], ab[k2]) {
      if k2 < |a| {
        assert ab[k1] == a[k1] && ab[k2] == a[k2];
      } else if k1 >= |a| {
        assert ab[k1] == b[k1 - |a|] && ab[k2] == b[k2 - |a|];
      } else {
        assert ab[k1] == a[k1] && ab[k2] == b[k2 - |a|];
      }
    }
  }

  /** In a consistent summary every category is carried by some gene, so `A + B > 0` holds for
      every pair and the guard of `run_analysis` never skips one. */
  lemma EveryPairTested(s: Summary, c: string, q: string)
    requires Consistent(s) && c in s.allCategories
    ensures Tested(s.geneInfo, c, q)
  {
    var g :| g in s.geneInfo && c in s.geneInfo[g].categories;
    if q in s.geneInfo[g].qualifiers {
      assert g in Bucket(s.geneInfo, s.geneInfo.Keys, c, q, true, true);
    } else {
      assert g in Bucket(s.geneInfo, s.geneInfo.Keys, c, q, true, false);
    }
  }

  /** One record keeps the summary consistent. */
  lemma AbsorbConsistent(s: Summary, rec: Record, cats: set<string>)
    requires Consistent(s)
    ensures Consistent(Absorb(s, rec, cats))
  {
    if cats != {} {
      var t := Absorb(s, rec, cats);
      forall q | q in s.allQualifiers ensures exists g :: g in t.geneInfo && q in t.geneInfo[g].qualifiers {
        var g :| g in s.geneInfo && q in s.geneInfo[g].qualifiers;
        assert q in t.geneInfo[g].qualifiers;
      }
      forall c | c in s.allCategories ensures exists g :: g in t.geneInfo && c in t.geneInfo[g].categories {
        var g :| g in s.geneInfo && c in s.geneInfo[g].categories;
        assert c in t.geneInfo[g].categories;
      }
      assert rec.qualifier in t.geneInfo[rec.geneId].qualifiers;
      forall c | c in cats ensures c in t.geneInfo[rec.geneId].categories {
      }
    }
  }

  /** The record loop keeps the summary consistent. */
  lemma {:induction false} AbsorbAllConsistent(kb: MondoKnowledge, s: Summary, records: seq<Record>)
    requires Consistent(s)
    ensures Consistent(AbsorbAll(kb, s, records))
  {
    if records != [] {
      var rec := records[|records| - 1];
      AbsorbAllConsistent(kb, s, records[..|records| - 1]);
      AbsorbConsistent(AbsorbAll(kb, s, records[..|records| - 1]), rec, CategoriesOf(kb, rec.doid));
    }
  }

  /** The empty summary `__init__` starts from. */
  function Empty(): Summary
  {
    Summary(map[], {}, {})
  }

  /** From the empty state, `_prepare_data` records a gene exactly when some record annotates
      it with a DOID that has categories. */
  lemma {:induction false} PreparedGenes(kb: MondoKnowledge, records: seq<Record>, g: string)
    ensures g in AbsorbAll(kb, Empty(), records).geneInfo <==> Annotated(kb, records, g)
  {
    if records != [] {
      var p, rec := records[..|records| - 1], records[|records| - 1];
      assert records == p + [rec];
      PreparedGenes(kb, p, g);
      AnnotatedSnoc(kb, p, rec, g);
    }
  }

  /** From the empty state, the qualifiers of a recorded gene are those of the records that
      annotate it with a DOID that has categories. */
  lemma {:induction false} PreparedQualifiers(kb: MondoKnowledge, records: seq<Record>, g: string, q: string)
    requires g in AbsorbAll(kb, Empty(), records).geneInfo
    ensures q in AbsorbAll(kb, Empty(), records).geneInfo[g].qualifiers <==> QualifiedAs(kb, records, g, q)
  {
    var p, rec := records[..|records| - 1], records[|records| - 1];
    assert records == p + [rec];
    QualifiedAsSnoc(kb, p, rec, g, q);
    if g in AbsorbAll(kb, Empty(), p).geneInfo {
      PreparedQualifiers(kb, p, g, q);
    } else {
      PreparedGenes(kb, p, g);
    }
  }

  /** From the empty state, the categories of a recorded gene are those of the DOIDs of all the
      records that annotate it. */
  lemma {:induction false} PreparedCategories(kb: MondoKnowledge, records: seq<Record>, g: string, c: string)
    requires g in AbsorbAll(kb, Empty(), records).geneInfo
    ensures c in AbsorbAll(kb, Empty(), records).geneInfo[g].categories <==> CategorisedAs(kb, records, g, c)
  {
    var p, rec := records[..|records| - 1], records[|records| - 1];
    assert records == p + [rec];
    CategorisedAsSnoc(kb, p, rec, g, c);
    if g in AbsorbAll(kb, Empty(), p).geneInfo {
      PreparedCategories(kb, p, g, c);
    } else {
      PreparedGenes(kb, p, g);
      if CategorisedAs(kb, p, g, c) {
        var i :| 0 <= i < |p| && p[i].geneId == g && c in CategoriesOf(kb, p[i].doid);
        assert Annotated(kb, p, g);
      }
    }
  }

  lemma AnnotatedSnoc(kb: MondoKnowledge, p: seq<Record>, rec: Record, g: string)
    ensures Annotated(kb, p + [rec], g) <==> Annotated(kb, p, g) || (rec.geneId == g && CategoriesOf(kb, rec.doid) != {})
  {
    var r := p + [rec];
    assert r[|p|] == rec;
    if Annotated(kb, r, g) {
      var i :| 0 <= i < |r| && r[i].geneId == g && CategoriesOf(kb, r[i].doid) != {};
      if i < |p| {
        assert p[i] == r[i];
      }
    }
    if Annotated(kb, p, g) {
      var i :| 0 <= i < |p| && p[i].geneId == g && CategoriesOf(kb, p[i].doid) != {};
      assert r[i] == p[i];
    }
  }

  lemma QualifiedAsSnoc(kb: MondoKnowledge, p: seq<Record>, rec: Record, g: string, q: string)
    ensures QualifiedAs(kb, p + [rec], g, q) <==>
      QualifiedAs(kb, p, g, q) || (rec.geneId == g && rec.qualifier == q && CategoriesOf(kb, rec.doid) != {})
  {
    var r := p + [rec];
    assert r[|p|] == rec;
    if QualifiedAs(kb, r, g, q) {
      var i :| 0 <= i < |r| && r[i].geneId == g && r[i].qualifier == q && CategoriesOf(kb, r[i].doid) != {};
      if i < |p| {
        assert p[i] == r[i];
      }
    }
    if QualifiedAs(kb, p, g, q) {
      var i :| 0 <= i < |p| && p[i].geneId == g && p[i].qualifier == q && CategoriesOf(kb, p[i].doid) != {};
      assert r[i] == p[i];
    }
  }

  lemma CategorisedAsSnoc(kb: MondoKnowledge, p: seq<Record>, rec: Record, g: string, c: string)
    ensures CategorisedAs(kb, p + [rec], g, c) <==>
      CategorisedAs(kb, p, g, c) || (rec.geneId == g && c in CategoriesOf(kb, rec.doid))
  {
    var r := p + [rec];
    assert r[|p|] == rec;
    if CategorisedAs(kb, r, g, c) {
      var i :| 0 <= i < |r| && r[i].geneId == g && c in CategoriesOf(kb, r[i].doid);
      if i < |p| {
        assert p[i] == r[i];
      }
    }
    if CategorisedAs(kb, p, g, c) {
      var i :| 0 <= i < |p| && p[i].geneId == g && c in CategoriesOf(kb, p[i].doid);
      assert r[i] == p[i];
    }
  }

  /** The analysis object. `parser` and `kb` are fixed; the other fields are filled in by
      `PrepareData` and `RunAnalysis`. */
  class DiseaseAnalysis<S> {
    const parser: FlyBase
    const kb: MondoKnowledge
    var geneInfo: map<string, GeneProfile>
    var allQualifiers: set<string>
    var allCategories: set<string>
    var analysisResults: seq<CellResult<S>>

    function State(): Summary
      reads this
    {
      Summary(geneInfo, allQualifiers, allCategories)
    }

    ghost predicate Valid()
      reads this
    {
      Consistent(State())
    }

    constructor (parser: FlyBase, kb: MondoKnowledge)
      ensures this.parser == parser && this.kb == kb
      ensures State() == Empty() && analysisResults == []
      ensures Valid()
    {
      this.parser := parser;
      this.kb := kb;
      geneInfo := map[];
      allQualifiers := {};
      allCategories := {};
      analysisResults := [];
    }

    /** `_prepare_data`: every record of the parser whose DOID has categories adds its qualifier
        and those categories to its gene and to the two `all_` sets. */
    method PrepareData()
      requires Valid() && Coherent(kb)
      modifies this
      ensures State() == AbsorbAll(kb, old(State()), parser.records)
      ensures analysisResults == old(analysisResults)
      ensures Valid()
    {
      var records := parser.records;
      for i := 0 to |records|
        invariant State() == AbsorbAll(kb, old(State()), records[..i])
        invariant analysisResults == old(analysisResults)
      {
        assert records[..i + 1][..i] == records[..i];
        var r := records[i];
        var fbgn, qualifier, doid := r.geneId, r.qualifier, r.doid;
        var categories := CategoriesForDoid(kb, doid);
        if categories != {} {
          var profile := if fbgn in geneInfo then geneInfo[fbgn] else GeneProfile({}, {});
          geneInfo := geneInfo[fbgn := GeneProfile(profile.qualifiers + {qualifier}, profile.categories + categories)];
          allQualifiers := allQualifiers + {qualifier};
          allCategories := allCategories + categories;
        }
      }
      assert records[..|records|] == records;
      AbsorbAllConsistent(kb, old(State()), records);
    }

    /**
     * `run_analysis`: prepares the data, then appends one result per (category, qualifier) pair
     * of the two `all_` sets, in sorted order; no pair is skipped, as every category is carried
     * by some gene.
     */
    method RunAnalysis(fisher: seq<seq<nat>> -> S)
      requires Valid() && Coherent(kb)
      modifies this
      ensures State() == AbsorbAll(kb, old(State()), parser.records) && Valid()
      ensures |analysisResults| >= |old(analysisResults)|
      ensures analysisResults[..|old(analysisResults)|] == old(analysisResults)
      ensures WellFormed(geneInfo, analysisResults[|old(analysisResults)|..], fisher)
      ensures Ascending(analysisResults[|old(analysisResults)|..])
      ensures forall c, q :: (c, q) in CellKeys(analysisResults[|old(analysisResults)|..]) <==>
        c in allCategories && q in allQualifiers
    {
      PrepareData();
      var sortedCategories := SortedElements(allCategories);
      var sortedQualifiers := SortedElements(allQualifiers);
      var cells := AnalyseCells(geneInfo, sortedCategories, sortedQualifiers, fisher);
      GridCellsShape(geneInfo, sortedCategories, sortedQualifiers, fisher);
      GridCellsAscending(geneInfo, sortedCategories, sortedQualifiers, fisher);
      forall c, q | c in allCategories && q in allQualifiers ensures Tested(geneInfo, c, q) {
        EveryPairTested(State(), c, q);
      }
      ghost var before := analysisResults;
      analysisResults := analysisResults + cells;
      assert analysisResults[|before|..] == cells;
    }
  }
}
