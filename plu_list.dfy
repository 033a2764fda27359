/**
 * generate_plu_list: for each category sheet of the master workbook, in
 * workbook order, check its schema, join the week's PLU codes with it, sort
 * the matches by Artikel and store them under the category; then write a
 * document with one heading per category followed by one "PLU<TAB>Artikel"
 * paragraph per match.
 */
module PluList {
  import opened Wrappers
  import opened Catalog
  import opened Report

  /** The ValueError raised for a category sheet without a `PLU` or `Artikel` column. */
  datatype Error = MissingColumns(category: string)

  /** The text of the ValueError around the category's name. */
  const Opening := "Die Kategorie '"
  const Closing := "' in der Mutterdatei enth\U{e4}lt nicht die ben\U{f6}tigten Spalten 'PLU' oder 'Artikel'."

  /** The text of the ValueError: the category's name stands between `Opening` and `Closing`. */
  function Message(e: Error): (r: string)
    ensures |r| == |Opening| + |e.category| + |Closing|
  {
    Opening + e.category + Closing
  }

  /** Reads the category's name back out of an error text, if it has the error's shape. */
  function CategoryOf(m: string): (r: Option<string>)
    ensures r.Some? ==> |r.value| + |Opening| + |Closing| == |m|
  {
    if |Opening| + |Closing| <= |m| && m[..|Opening|] == Opening && m[|m| - |Closing|..] == Closing
    then Some(m[|Opening|..|m| - |Closing|])
    else None
  }

  /** The error text names its category: reading it back gives exactly that name. */
  lemma MessageNamesCategory(e: Error)
    ensures CategoryOf(Message(e)) == Some(e.category)
  {
    var m := Message(e);
    assert m[..|Opening|] == Opening;
    assert m[|m| - |Closing|..] == Closing;
    assert m[|Opening|..|m| - |Closing|] == e.category;
  }

  /** Index of the first sheet at or after `i`, in workbook order, that lacks a required column. */
  function FirstMissingFrom(sheets: seq<Sheet>, i: nat): (r: Option<nat>)
    requires i <= |sheets|
    ensures r.Some? ==> i <= r.value < |sheets| && !HasRequiredColumns(sheets[r.value])
    decreases |sheets| - i
  {
    if i == |sheets| then None
    else if !HasRequiredColumns(sheets[i]) then Some(i)
    else FirstMissingFrom(sheets, i + 1)
  }

  /** Index of the first sheet, in workbook order, that lacks a required column. */
  function FirstMissing(sheets: seq<Sheet>): Option<nat>
  {
    FirstMissingFrom(sheets, 0)
  }

  /** The scan finds the first sheet without the schema, and finds none only when every sheet has it. */
  lemma {:induction false} FirstMissingFromSpec(sheets: seq<Sheet>, i: nat)
    requires i <= |sheets|
    ensures FirstMissingFrom(sheets, i).None? <==> forall j :: i <= j < |sheets| ==> HasRequiredColumns(sheets[j])
    ensures FirstMissingFrom(sheets, i).Some? ==>
      var k := FirstMissingFrom(sheets, i).value;
      i <= k < |sheets| && !HasRequiredColumns(sheets[k])
        && forall j :: i <= j < k ==> HasRequiredColumns(sheets[j])
    decreases |sheets| - i
  {
    if i < |sheets| && HasRequiredColumns(sheets[i]) {
      FirstMissingFromSpec(sheets, i + 1);
    }
  }

  /** Per sheet, in workbook order, the item the loop stores: the sheet's name and its sorted matches. */
  function PerSheet(week: seq<int>, sheets: seq<Sheet>): seq<Group>
  {
    seq(|sheets|, i requires 0 <= i < |sheets| => Group(sheets[i].name, MatchAndSort(week, sheets[i].rows)))
  }

  /**
   * The first half of generate_plu_list: the schema check and `filtered_data`,
   * or the error for the first sheet without the schema.
   */
  function Filter(catalog: seq<Sheet>, week: seq<int>): Result<seq<Group>, Error>
  {
    match FirstMissing(catalog)
    case Some(k) => Err(MissingColumns(catalog[k].name))
    case None => Ok(Store(PerSheet(week, catalog), |catalog|))
  }

  /** What generate_plu_list returns, or the error it raises, for a workbook and a week. */
  function Generate(catalog: seq<Sheet>, week: seq<int>): Result<seq<Entry>, Error>
  {
    match Filter(catalog, week)
    case Err(e) => Err(e)
    case Ok(gs) => Ok(Render(gs))
  }

  /** `doc.add_paragraph` for each row of a group, in order. */
  method AddParagraphs(doc: seq<Entry>, rows: seq<Row>) returns (out: seq<Entry>)
    ensures out == doc + Paragraphs(Lines(rows))
  {
    out := doc;
    var j := 0;
    while j < |rows|
      invariant 0 <= j <= |rows|
      invariant out == doc + Paragraphs(Lines(rows[..j]))
    {
      assert out + [Paragraph(Line(rows[j]))] == doc + Paragraphs(Lines(rows[..j + 1])) by {
        ParagraphsStep(rows, j);
      }
      out := out + [Paragraph(Line(rows[j]))];
      j := j + 1;
    }
    assert rows[..j] == rows;
  }

  /**
   * The document-writing half of generate_plu_list: per group a level-1
   * heading with the category, then one paragraph per row.
   */
  method WriteDocument(filtered: seq<Group>) returns (doc: seq<Entry>)
    ensures doc == Render(filtered)
  {
    doc := [];
    var k := 0;
    while k < |filtered|
      invariant 0 <= k <= |filtered|
      invariant doc == Render(filtered[..k])
    {
      var g := filtered[k];
      doc := doc + [Heading(g.category)];
      doc := AddParagraphs(doc, g.rows);
      RenderPrefixStep(filtered, k);
      k := k + 1;
    }
    assert filtered[..k] == filtered;
  }

  /**
   * The loop over the category sheets: stops at the first sheet without a
   * `PLU` or `Artikel` column, otherwise stores each sheet's sorted matches
   * under its name.
   */
  method GroupSheets(catalog: seq<Sheet>, week: seq<int>) returns (r: Result<seq<Group>, Error>)
    ensures r == Filter(catalog, week)
  {
    var filtered: seq<Group> := [];
    var i := 0;
    while i < |catalog|
      invariant 0 <= i <= |catalog|
      invariant FirstMissing(catalog) == FirstMissingFrom(catalog, i)
      invariant filtered == Store(PerSheet(week, catalog), i)
    {
      var sheet := catalog[i];
      if !HasRequiredColumns(sheet) {
        return Err(MissingColumns(sheet.name));
      }
      var matched := Join(week, sheet.rows);
      matched := SortByArtikel(matched);
      assert PerSheet(week, catalog)[i] == Group(sheet.name, matched);
      filtered := Assign(filtered, sheet.name, matched);
      i := i + 1;
    }
    r := Ok(filtered);
  }

  /**
   * The PLU list for `week` against the workbook `catalog`: fails naming the
   * first category sheet without a `PLU` or `Artikel` column, otherwise
   * returns the document's entries.
   */
  method GeneratePluList(catalog: seq<Sheet>, week: seq<int>) returns (r: Result<seq<Entry>, Error>)
    ensures r == Generate(catalog, week)
  {
    var filtered := GroupSheets(catalog, week);
    if filtered.Err? {
      return Err(filtered.error);
    }
    var doc := WriteDocument(filtered.value);
    r := Ok(doc);
  }

  /**
   * The list fails exactly when some category sheet lacks a required column,
   * and then it names the first such sheet and produces no document.
   */
  lemma GenerateFails(catalog: seq<Sheet>, week: seq<int>)
    ensures Generate(catalog, week).Err? <==> exists i :: 0 <= i < |catalog| && !HasRequiredColumns(catalog[i])
    ensures Generate(catalog, week).Err? ==>
      exists i :: 0 <= i < |catalog| && !HasRequiredColumns(catalog[i])
        && Generate(catalog, week).error == MissingColumns(catalog[i].name)
        && forall j :: 0 <= j < i ==> HasRequiredColumns(catalog[j])
  {
    FirstMissingFromSpec(catalog, 0);
  }

  /** The sheet names are the keys of the items the loop stores. */
  lemma PerSheetKeys(week: seq<int>, sheets: seq<Sheet>)
    ensures Keys(PerSheet(week, sheets)) == Names(sheets)
  {
    NamesAt(sheets);
  }

  /** Each item the loop stores is named after its sheet and holds that sheet's join, sorted by Artikel in some order of ties. */
  lemma PerSheetSpec(week: seq<int>, sheets: seq<Sheet>)
    ensures forall i :: 0 <= i < |sheets| ==>
      var g := PerSheet(week, sheets)[i];
      g.category == sheets[i].name && SortedByArtikel(g.rows) && multiset(g.rows) == multiset(Join(week, sheets[i].rows))
  {
    forall i | 0 <= i < |sheets|
      ensures var g := PerSheet(week, sheets)[i];
        g.category == sheets[i].name && SortedByArtikel(g.rows) && multiset(g.rows) == multiset(Join(week, sheets[i].rows))
    {
      MatchAndSortSpec(week, sheets[i].rows);
    }
  }

  /** Excel sheet names are unique, so every category sheet yields exactly one group, in workbook order. */
  lemma StoreOnePerSheet(week: seq<int>, sheets: seq<Sheet>)
    requires Distinct(Names(sheets))
    ensures Store(PerSheet(week, sheets), |sheets|) == PerSheet(week, sheets)
  {
    var items := PerSheet(week, sheets);
    PerSheetKeys(week, sheets);
    StoreDistinctItems(items, |sheets|);
    assert items[..|sheets|] == items;
  }

  /** On a well-formed workbook the list is the rendering of one group per sheet, in sheet order. */
  lemma GenerateWellFormed(catalog: seq<Sheet>, week: seq<int>)
    requires forall i :: 0 <= i < |catalog| ==> HasRequiredColumns(catalog[i])
    requires Distinct(Names(catalog))
    ensures Generate(catalog, week) == Ok(Render(PerSheet(week, catalog)))
  {
    FirstMissingFromSpec(catalog, 0);
    StoreOnePerSheet(week, catalog);
  }

  /** Number of rows the week's codes match across all sheets. */
  function MatchedRows(week: seq<int>, sheets: seq<Sheet>): nat
  {
    if sheets == [] then 0
    else MatchedRows(week, sheets[..|sheets| - 1]) + |Join(week, sheets[|sheets| - 1].rows)|
  }

  lemma {:induction false} TotalRowsPerSheet(week: seq<int>, sheets: seq<Sheet>)
    ensures TotalRows(PerSheet(week, sheets)) == MatchedRows(week, sheets)
  {
    if sheets != [] {
      var n := |sheets|;
      var gs := PerSheet(week, sheets);
      TotalRowsPerSheet(week, sheets[..n - 1]);
      assert gs[..n - 1] == PerSheet(week, sheets[..n - 1]);
      assert |gs[n - 1].rows| == |Join(week, sheets[n - 1].rows)| by {
        MatchAndSortSpec(week, sheets[n - 1].rows);
        assert |multiset(gs[n - 1].rows)| == |multiset(Join(week, sheets[n - 1].rows))|;
      }
    }
  }

  /**
   * On a well-formed workbook the document reads back as one group per
   * sheet, in workbook order, each holding that sheet's sorted matches; it
   * has one heading per sheet plus one paragraph per matched row.
   */
  lemma GenerateSucceeds(catalog: seq<Sheet>, week: seq<int>)
    requires forall i :: 0 <= i < |catalog| ==> HasRequiredColumns(catalog[i])
    requires Distinct(Names(catalog))
    ensures Generate(catalog, week).Ok?
    ensures ReadBack(Generate(catalog, week).value) == Some(PerSheet(week, catalog))
    ensures |Generate(catalog, week).value| == |catalog| + MatchedRows(week, catalog)
    ensures ReadBack(Generate(catalog, week).value).Some? &&
      var gs := ReadBack(Generate(catalog, week).value).value;
      |gs| == |catalog| &&
      forall i :: 0 <= i < |catalog| ==>
        gs[i].category == catalog[i].name && SortedByArtikel(gs[i].rows)
          && multiset(gs[i].rows) == multiset(Join(week, catalog[i].rows))
  {
    GenerateWellFormed(catalog, week);
    PerSheetSpec(week, catalog);
    var gs := PerSheet(week, catalog);
    ReadBackRender(gs);
    RenderLength(gs);
    TotalRowsPerSheet(week, catalog);
  }

  /** A sheet none of whose rows carries a week code contributes no rows. */
  lemma NoMatchesNoRows(week: seq<int>, rows: seq<Row>)
    requires forall x :: x in rows ==> x.plu !in week
    ensures MatchAndSort(week, rows) == []
  {
    var m := MatchAndSort(week, rows);
    MatchAndSortSpec(week, rows);
    forall x: Row
      ensures multiset(m)[x] == 0
    {
      assert x in m ==> x in rows && x.plu in week;
    }
    assert multiset(m) == multiset{};
  }

  /** When no week code occurs in any sheet, the document is the category headings alone. */
  lemma NothingMatchedHeadingsOnly(catalog: seq<Sheet>, week: seq<int>)
    requires forall i :: 0 <= i < |catalog| ==> HasRequiredColumns(catalog[i])
    requires Distinct(Names(catalog))
    requires forall i, x :: 0 <= i < |catalog| && x in catalog[i].rows ==> x.plu !in week
    ensures Generate(catalog, week) == Ok(seq(|catalog|, i requires 0 <= i < |catalog| => Heading(catalog[i].name)))
  {
    var gs := PerSheet(week, catalog);
    assert forall i :: 0 <= i < |gs| ==> gs[i].rows == [] by {
      forall i | 0 <= i < |gs|
        ensures gs[i].rows == []
      {
        NoMatchesNoRows(week, catalog[i].rows);
      }
    }
    assert Render(gs) == seq(|catalog|, i requires 0 <= i < |catalog| => Heading(catalog[i].name)) by {
      RenderHeadingsOnly(gs);
    }
    GenerateWellFormed(catalog, week);
  }

  /** Inserting a code that no sheet carries leaves every sheet's matches as they were. */
  lemma PerSheetIgnoresCode(a: seq<int>, p: int, b: seq<int>, sheets: seq<Sheet>)
    requires forall i, x :: 0 <= i < |sheets| && x in sheets[i].rows ==> x.plu != p
    ensures PerSheet(a + [p] + b, sheets) == PerSheet(a + b, sheets)
  {
    forall i | 0 <= i < |sheets|
      ensures Join(a + [p] + b, sheets[i].rows) == Join(a + b, sheets[i].rows)
    {
      JoinUnmatchedCode(a, p, b, sheets[i].rows);
    }
  }

  /** A week code that no sheet carries changes nothing, wherever it appears in the week file. */
  lemma UnmatchedCodeIgnored(catalog: seq<Sheet>, week: seq<int>, k: nat, p: int)
    requires k <= |week|
    requires forall i, x :: 0 <= i < |catalog| && x in catalog[i].rows ==> x.plu != p
    ensures Generate(catalog, week[..k] + [p] + week[k..]) == Generate(catalog, week)
  {
    assert week[..k] + week[k..] == week;
    PerSheetIgnoresCode(week[..k], p, week[k..], catalog);
  }
}
