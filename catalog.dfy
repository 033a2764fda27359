/**
 * The master workbook ("Mutterdatei") as already-parsed sheets, and the two
 * per-sheet table operations of generate_plu_list: the inner join of the week
 * codes with a sheet on PLU (`pd.merge(..., on="PLU", how="inner")`) and the
 * sort of the joined rows by Artikel (`sort_values(by="Artikel")`).
 */
module Catalog {
  import opened PyText

  /** One catalog row, reduced to the two columns the report reads. */
  datatype Row = Row(plu: int, artikel: string)

  /** One sheet of the workbook: its name is the category, `columns` its header. */
  datatype Sheet = Sheet(name: string, columns: set<string>, rows: seq<Row>)

  /** The schema every category sheet must have. */
  predicate HasRequiredColumns(s: Sheet)
  {
    "PLU" in s.columns && "Artikel" in s.columns
  }

  /** The sheet names, in workbook order. */
  function Names(sheets: seq<Sheet>): seq<string>
  {
    if sheets == [] then [] else [sheets[0].name] + Names(sheets[1..])
  }

  /** The i-th name is the i-th sheet's. */
  lemma {:induction false} NamesAt(sheets: seq<Sheet>)
    ensures |Names(sheets)| == |sheets|
    ensures forall i :: 0 <= i < |sheets| ==> Names(sheets)[i] == sheets[i].name
  {
    if sheets != [] {
      NamesAt(sheets[1..]);
    }
  }

  /** No name occurs twice: true of the sheet names of a workbook and of the keys of a dict. */
  predicate Distinct(ks: seq<string>)
  {
    forall i, j :: 0 <= i < j < |ks| ==> ks[i] != ks[j]
  }

  /** Number of rows of `s` carrying PLU `p`. */
  function CountPlu(s: seq<Row>, p: int): nat
  {
    if s == [] then 0 else (if s[0].plu == p then 1 else 0) + CountPlu(s[1..], p)
  }

  /** The rows of a sheet that one week code meets, in sheet order. */
  function Matches(code: int, rows: seq<Row>): seq<Row>
  {
    if rows == [] then []
    else (if rows[0].plu == code then [rows[0]] else []) + Matches(code, rows[1..])
  }

  /** One code meets each row carrying it as often as the sheet holds that row, and no other row. */
  lemma {:induction false} MatchesMultiplicity(code: int, rows: seq<Row>)
    ensures forall x :: multiset(Matches(code, rows))[x] == if x.plu == code then multiset(rows)[x] else 0
  {
    if rows != [] {
      MatchesMultiplicity(code, rows[1..]);
      assert rows == [rows[0]] + rows[1..];
    }
  }

  /**
   * Inner join of the week codes with a sheet on PLU: for every week code, in
   * week order, every sheet row with that PLU. Nothing is de-duplicated, and a
   * code no row carries contributes nothing.
   */
  function Join(week: seq<int>, rows: seq<Row>): seq<Row>
  {
    if week == [] then [] else Matches(week[0], rows) + Join(week[1..], rows)
  }

  /** Every joined row is a sheet row whose PLU is one of the week's codes. */
  lemma {:induction false} JoinSound(week: seq<int>, rows: seq<Row>)
    ensures forall x :: x in Join(week, rows) ==> x.plu in week && x in rows
  {
    if week != [] {
      var m := Matches(week[0], rows);
      JoinSound(week[1..], rows);
      MatchesMultiplicity(week[0], rows);
      forall x | x in m
        ensures x.plu == week[0] && x in rows
      {
        assert x in multiset(m);
      }
    }
  }

  /** `n` copies of `k` added up: multiplication by repeated addition. */
  function Times(n: nat, k: nat): nat
  {
    if n == 0 then 0 else k + Times(n - 1, k)
  }

  lemma {:induction false} TimesIsProduct(n: nat, k: nat)
    ensures Times(n, k) == n * k
  {
    if n > 0 {
      TimesIsProduct(n - 1, k);
    }
  }

  lemma JoinCons(week: seq<int>, rows: seq<Row>)
    requires week != []
    ensures Join(week, rows) == Matches(week[0], rows) + Join(week[1..], rows)
  {
  }

  lemma OccurrencesCons(week: seq<int>, p: int)
    requires week != []
    ensures multiset(week)[p] == (if week[0] == p then 1 else 0) + multiset(week[1..])[p]
  {
    assert week == [week[0]] + week[1..];
  }

  lemma {:induction false} JoinTimes(week: seq<int>, rows: seq<Row>, x: Row)
    ensures multiset(Join(week, rows))[x] == Times(multiset(week)[x.plu], multiset(rows)[x])
  {
    if week != [] {
      JoinCons(week, rows);
      OccurrencesCons(week, x.plu);
      MatchesMultiplicity(week[0], rows);
      JoinTimes(week[1..], rows, x);
    }
  }

  /** Joining a concatenated week joins each part in turn. */
  lemma {:induction false} JoinAppend(a: seq<int>, b: seq<int>, rows: seq<Row>)
    ensures Join(a + b, rows) == Join(a, rows) + Join(b, rows)
  {
    if a == [] {
      assert a + b == b;
    } else {
      assert (a + b)[1..] == a[1..] + b;
      JoinCons(a + b, rows);
      JoinCons(a, rows);
      JoinAppend(a[1..], b, rows);
    }
  }

  /** A week code that no row of the sheet carries adds nothing to its join, wherever it stands. */
  lemma JoinUnmatchedCode(a: seq<int>, p: int, b: seq<int>, rows: seq<Row>)
    requires forall x | x in rows :: x.plu != p
    ensures Join(a + [p] + b, rows) == Join(a + b, rows)
  {
    var m := Matches(p, rows);
    assert m == [] by {
      MatchesMultiplicity(p, rows);
      forall x: Row
        ensures multiset(m)[x] == 0
      {
        if x.plu == p {
          assert x !in rows;
        }
      }
      assert multiset(m) == multiset{};
    }
    assert Join([p], rows) == m by {
      JoinCons([p], rows);
      assert [p][1..] == [];
    }
    JoinAppend(a + [p], b, rows);
    JoinAppend(a, [p], rows);
    JoinAppend(a, b, rows);
  }

  /** Each row occurs in the join (occurrences of its PLU in the week) x (its occurrences in the sheet) times. */
  lemma JoinMultiplicity(week: seq<int>, rows: seq<Row>, x: Row)
    ensures multiset(Join(week, rows))[x] == multiset(week)[x.plu] * multiset(rows)[x]
  {
    JoinTimes(week, rows, x);
    TimesIsProduct(multiset(week)[x.plu], multiset(rows)[x]);
  }

  lemma {:induction false} CountPluAppend(a: seq<Row>, b: seq<Row>, p: int)
    ensures CountPlu(a + b, p) == CountPlu(a, p) + CountPlu(b, p)
  {
    if a == [] {
      assert a + b == b;
    } else {
      assert (a + b)[1..] == a[1..] + b;
      CountPluAppend(a[1..], b, p);
    }
  }

  lemma {:induction false} MatchesCountPlu(code: int, rows: seq<Row>, p: int)
    ensures CountPlu(Matches(code, rows), p) == if code == p then CountPlu(rows, p) else 0
  {
    if rows != [] {
      var head := if rows[0].plu == code then [rows[0]] else [];
      CountPluAppend(head, Matches(code, rows[1..]), p);
      MatchesCountPlu(code, rows[1..], p);
    }
  }

  lemma {:induction false} JoinCountTimes(week: seq<int>, rows: seq<Row>, p: int)
    ensures CountPlu(Join(week, rows), p) == Times(multiset(week)[p], CountPlu(rows, p))
  {
    if week != [] {
      JoinCons(week, rows);
      CountPluAppend(Matches(week[0], rows), Join(week[1..], rows), p);
      MatchesCountPlu(week[0], rows, p);
      OccurrencesCons(week, p);
      JoinCountTimes(week[1..], rows, p);
    }
  }

  /** Per PLU, the join holds (occurrences in the week) x (rows in the sheet) rows. */
  lemma JoinCountPlu(week: seq<int>, rows: seq<Row>, p: int)
    ensures CountPlu(Join(week, rows), p) == multiset(week)[p] * CountPlu(rows, p)
  {
    JoinCountTimes(week, rows, p);
    TimesIsProduct(multiset(week)[p], CountPlu(rows, p));
  }

  /** Row counts per PLU depend only on the multiset of rows. */
  lemma {:induction false} CountPluPermutation(s: seq<Row>, t: seq<Row>, p: int)
    requires multiset(s) == multiset(t)
    ensures CountPlu(s, p) == CountPlu(t, p)
  {
    if s != [] {
      assert s[0] in multiset(t) by {
        assert s[0] in multiset(s);
      }
      var k :| 0 <= k < |t| && t[k] == s[0];
      MultisetRemove(s, t, k);
      CountPluPermutation(s[1..], t[..k] + t[k + 1..], p);
      CountPluRemove(t, k, p);
    }
  }

  lemma MultisetRemove(s: seq<Row>, t: seq<Row>, k: nat)
    requires multiset(s) == multiset(t) && s != [] && k < |t| && t[k] == s[0]
    ensures multiset(s[1..]) == multiset(t[..k] + t[k + 1..])
  {
    assert s == [s[0]] + s[1..];
    assert t == t[..k] + [t[k]] + t[k + 1..];
    calc {
      multiset(s[1..]);
      multiset(s) - multiset{s[0]};
      multiset(t) - multiset{t[k]};
      multiset(t[..k]) + multiset{t[k]} + multiset(t[k + 1..]) - multiset{t[k]};
      multiset(t[..k] + t[k + 1..]);
    }
  }

  lemma CountPluRemove(t: seq<Row>, k: nat, p: int)
    requires k < |t|
    ensures CountPlu(t, p) == CountPlu(t[..k] + t[k + 1..], p) + (if t[k].plu == p then 1 else 0)
  {
    assert t == t[..k] + [t[k]] + t[k + 1..];
    CountPluAppend(t[..k] + [t[k]], t[k + 1..], p);
    CountPluAppend(t[..k], [t[k]], p);
    CountPluAppend(t[..k], t[k + 1..], p);
    assert CountPlu([t[k]], p) == if t[k].plu == p then 1 else 0 by {
      assert [t[k]][1..] == [];
    }
  }

  /** Rows are in non-decreasing Artikel order (code-point order). */
  predicate SortedByArtikel(s: seq<Row>)
  {
    forall i, j :: 0 <= i < j < |s| ==> LessEq(s[i].artikel, s[j].artikel)
  }

  /** A row that no row of a sorted run precedes can go in front of it. */
  lemma SortedCons(y: Row, t: seq<Row>)
    requires SortedByArtikel(t)
    requires forall z | z in t :: LessEq(y.artikel, z.artikel)
    ensures SortedByArtikel([y] + t)
  {
    var r := [y] + t;
    forall i, j | 0 <= i < j < |r| ensures LessEq(r[i].artikel, r[j].artikel) {
      if i == 0 {
        assert r[j] == t[j - 1];
      } else {
        assert r[i] == t[i - 1] && r[j] == t[j - 1];
      }
    }
  }

  /** A row that sorts no later than the head of a sorted run sorts no later than all of it. */
  lemma BoundsSorted(x: Row, s: seq<Row>)
    requires SortedByArtikel(s) && s != [] && LessEq(x.artikel, s[0].artikel)
    ensures forall z | z in s :: LessEq(x.artikel, z.artikel)
  {
    forall z | z in s ensures LessEq(x.artikel, z.artikel) {
      var k :| 0 <= k < |s| && s[k] == z;
      if k > 0 {
        LessEqTransitive(x.artikel, s[0].artikel, z.artikel);
      }
    }
  }

  /** The head of a sorted run sorts no later than anything built from its tail and a row after it. */
  lemma HeadBoundsInsert(x: Row, s: seq<Row>, t: seq<Row>)
    requires SortedByArtikel(s) && s != [] && !LessEq(x.artikel, s[0].artikel)
    requires multiset(t) == multiset(s[1..]) + multiset{x}
    ensures forall z | z in t :: LessEq(s[0].artikel, z.artikel)
  {
    LessEqTotal(x.artikel, s[0].artikel);
    forall z | z in t ensures LessEq(s[0].artikel, z.artikel) {
      assert z in multiset(t);
      if z != x {
        assert z in multiset(s[1..]);
        var k :| 0 <= k < |s[1..]| && s[1..][k] == z;
        assert s[k + 1] == z;
      }
    }
  }

  lemma SortedTail(s: seq<Row>)
    requires SortedByArtikel(s) && s != []
    ensures SortedByArtikel(s[1..])
  {
  }

  lemma MultisetCons(s: seq<Row>, t: seq<Row>, x: Row)
    requires s != [] && multiset(t) == multiset(s[1..]) + multiset{x}
    ensures multiset([s[0]] + t) == multiset(s) + multiset{x}
  {
    assert s == [s[0]] + s[1..];
  }

  /** Places `x` before the first row of `s` it does not follow. */
  function Insert(x: Row, s: seq<Row>): seq<Row>
  {
    if s == [] then [x]
    else if LessEq(x.artikel, s[0].artikel) then [x] + s
    else [s[0]] + Insert(x, s[1..])
  }

  /** Inserting into a sorted run keeps it sorted and adds exactly `x`. */
  lemma {:induction false} InsertSpec(x: Row, s: seq<Row>)
    requires SortedByArtikel(s)
    ensures SortedByArtikel(Insert(x, s))
    ensures multiset(Insert(x, s)) == multiset(s) + multiset{x}
  {
    if s == [] {
    } else if LessEq(x.artikel, s[0].artikel) {
      BoundsSorted(x, s);
      SortedCons(x, s);
    } else {
      SortedTail(s);
      var t := Insert(x, s[1..]);
      InsertSpec(x, s[1..]);
      HeadBoundsInsert(x, s, t);
      SortedCons(s[0], t);
      MultisetCons(s, t, x);
    }
  }

  /**
   * The rows of `s` in Artikel order. Ties keep their input order here;
   * pandas' `sort_values` does not promise any order for ties, and no lemma
   * in this module depends on it.
   */
  function SortByArtikel(s: seq<Row>): seq<Row>
  {
    if s == [] then [] else Insert(s[0], SortByArtikel(s[1..]))
  }

  /** The sort yields Artikel order and a permutation of its input. */
  lemma {:induction false} SortSpec(s: seq<Row>)
    ensures SortedByArtikel(SortByArtikel(s))
    ensures multiset(SortByArtikel(s)) == multiset(s)
  {
    if s != [] {
      SortSpec(s[1..]);
      InsertSpec(s[0], SortByArtikel(s[1..]));
      assert s == [s[0]] + s[1..];
    }
  }

  /** One category's share of the report: the join of the week with the sheet, sorted by Artikel. */
  function MatchAndSort(week: seq<int>, rows: seq<Row>): seq<Row>
  {
    SortByArtikel(Join(week, rows))
  }

  /**
   * A category's rows are sorted by Artikel, are exactly the joined rows
   * (each as often as the join holds it), and are rows of this sheet with a
   * week code.
   */
  lemma MatchAndSortSpec(week: seq<int>, rows: seq<Row>)
    ensures SortedByArtikel(MatchAndSort(week, rows))
    ensures multiset(MatchAndSort(week, rows)) == multiset(Join(week, rows))
    ensures forall x :: x in MatchAndSort(week, rows) ==> x.plu in week && x in rows
  {
    var j := Join(week, rows);
    var r := SortByArtikel(j);
    SortSpec(j);
    JoinSound(week, rows);
    forall x | x in r
      ensures x in j
    {
      assert x in multiset(r);
    }
  }

  /** Join cardinality survives the sort, row by row. */
  lemma MatchAndSortMultiplicity(week: seq<int>, rows: seq<Row>, x: Row)
    ensures multiset(MatchAndSort(week, rows))[x] == multiset(week)[x.plu] * multiset(rows)[x]
  {
    MatchAndSortSpec(week, rows);
    JoinMultiplicity(week, rows, x);
  }

  /** Join cardinality survives the sort, PLU by PLU. */
  lemma MatchAndSortCountPlu(week: seq<int>, rows: seq<Row>, p: int)
    ensures CountPlu(MatchAndSort(week, rows), p) == multiset(week)[p] * CountPlu(rows, p)
  {
    MatchAndSortSpec(week, rows);
    CountPluPermutation(MatchAndSort(week, rows), Join(week, rows), p);
    JoinCountPlu(week, rows, p);
  }
}
