/**
 * The two data structures generate_plu_list builds after matching: the
 * insertion-ordered dict `filtered_data` from category name to its matched
 * rows, and the Word document, as the sequence of level-1 headings and
 * paragraphs it receives. `ReadBack` is the rendering's inverse.
 */
module Report {
  import opened Wrappers
  import opened PyText
  import opened Catalog

  /** One item of `filtered_data`: a category and its matched, sorted rows. */
  datatype Group = Group(category: string, rows: seq<Row>)

  /** The dict's keys in insertion order. */
  function Keys(gs: seq<Group>): (r: seq<string>)
    ensures |r| == |gs| && forall i :: 0 <= i < |gs| ==> r[i] == gs[i].category
  {
    if gs == [] then [] else [gs[0].category] + Keys(gs[1..])
  }

  /** `filtered_data.get(k)`. */
  function Lookup(gs: seq<Group>, k: string): Option<seq<Row>>
  {
    if gs == [] then None
    else if gs[0].category == k then Some(gs[0].rows)
    else Lookup(gs[1..], k)
  }

  /**
   * `filtered_data[name] = rows` on an insertion-ordered dict: a present key
   * keeps its place and takes the new value, a new key goes to the end.
   */
  function Assign(gs: seq<Group>, name: string, rows: seq<Row>): seq<Group>
  {
    if gs == [] then [Group(name, rows)]
    else if gs[0].category == name then [Group(name, rows)] + gs[1..]
    else [gs[0]] + Assign(gs[1..], name, rows)
  }

  /** How `Keys` and `Lookup` see a non-empty dict: its first item, then the rest. */
  lemma ConsParts(gs: seq<Group>)
    requires gs != []
    ensures gs == [gs[0]] + gs[1..]
    ensures Keys(gs) == [gs[0].category] + Keys(gs[1..])
    ensures forall k :: Lookup(gs, k) == if gs[0].category == k then Some(gs[0].rows) else Lookup(gs[1..], k)
  {
  }

  /** Assigning to a present key keeps the keys and their order. */
  lemma {:induction false} AssignPresent(gs: seq<Group>, name: string, rows: seq<Row>)
    requires name in Keys(gs)
    ensures Keys(Assign(gs, name, rows)) == Keys(gs)
  {
    ConsParts(gs);
    ConsParts(Assign(gs, name, rows));
    if gs[0].category != name {
      AssignPresent(gs[1..], name, rows);
    }
  }

  /** Assigning to a new key appends it. */
  lemma {:induction false} AssignAbsent(gs: seq<Group>, name: string, rows: seq<Row>)
    requires name !in Keys(gs)
    ensures Assign(gs, name, rows) == gs + [Group(name, rows)]
  {
    if gs != [] {
      ConsParts(gs);
      AssignAbsent(gs[1..], name, rows);
      assert [gs[0]] + (gs[1..] + [Group(name, rows)]) == gs + [Group(name, rows)];
    }
  }

  /** After the assignment `get` sees the new value under `name` and the old value under any other key. */
  lemma {:induction false} AssignLookup(gs: seq<Group>, name: string, rows: seq<Row>, k: string)
    ensures Lookup(Assign(gs, name, rows), k) == if k == name then Some(rows) else Lookup(gs, k)
  {
    if gs != [] && gs[0].category != name {
      AssignLookup(gs[1..], name, rows, k);
    }
  }

  /** Assignment keeps the keys distinct. */
  lemma AssignDistinct(gs: seq<Group>, name: string, rows: seq<Row>)
    requires Distinct(Keys(gs))
    ensures Distinct(Keys(Assign(gs, name, rows)))
  {
    if name in Keys(gs) {
      AssignPresent(gs, name, rows);
    } else {
      AssignAbsent(gs, name, rows);
      DistinctKeysAppend(gs, Group(name, rows));
    }
  }

  /** The keys after an assignment: the old ones and the assigned one. */
  lemma AssignKeys(gs: seq<Group>, name: string, rows: seq<Row>)
    ensures forall k :: k in Keys(Assign(gs, name, rows)) <==> k in Keys(gs) || k == name
  {
    if name in Keys(gs) {
      AssignPresent(gs, name, rows);
    } else {
      AssignAbsent(gs, name, rows);
      assert Keys(gs + [Group(name, rows)]) == Keys(gs) + [name];
    }
  }

  lemma DistinctKeysAppend(gs: seq<Group>, g: Group)
    requires Distinct(Keys(gs)) && g.category !in Keys(gs)
    ensures Distinct(Keys(gs + [g]))
  {
    assert Keys(gs + [g]) == Keys(gs) + [g.category];
  }

  /** The dict after assigning the first `n` items in order, each under its category. */
  function Store(items: seq<Group>, n: nat): seq<Group>
    requires n <= |items|
  {
    if n == 0 then [] else Assign(Store(items, n - 1), items[n - 1].category, items[n - 1].rows)
  }

  /** The stored keys never repeat, whatever the items. */
  lemma {:induction false} StoreDistinct(items: seq<Group>, n: nat)
    requires n <= |items|
    ensures Distinct(Keys(Store(items, n)))
  {
    if n > 0 {
      StoreDistinct(items, n - 1);
      AssignDistinct(Store(items, n - 1), items[n - 1].category, items[n - 1].rows);
    }
  }

  /** The stored keys are exactly the categories of the items assigned. */
  lemma {:induction false} StoreKeys(items: seq<Group>, n: nat)
    requires n <= |items|
    ensures forall k :: k in Keys(Store(items, n)) <==> exists i :: 0 <= i < n && items[i].category == k
  {
    if n > 0 {
      StoreKeys(items, n - 1);
      var last := items[n - 1];
      AssignKeys(Store(items, n - 1), last.category, last.rows);
      forall k
        ensures k in Keys(Store(items, n)) <==> exists i :: 0 <= i < n && items[i].category == k
      {
        if k == last.category {
          assert items[n - 1].category == k;
        }
      }
    }
  }

  /** The names of `ks` in the order they first occur, each once. */
  function FirstSeen(ks: seq<string>): seq<string>
  {
    if ks == [] then []
    else
      var seen := FirstSeen(ks[..|ks| - 1]);
      if ks[|ks| - 1] in seen then seen else seen + [ks[|ks| - 1]]
  }

  /** The stored keys are the items' categories in the order each was first assigned. */
  lemma {:induction false} StoreKeyOrder(items: seq<Group>, n: nat)
    requires n <= |items|
    ensures Keys(Store(items, n)) == FirstSeen(Keys(items)[..n])
  {
    if n > 0 {
      StoreKeyOrder(items, n - 1);
      var prev := Store(items, n - 1);
      var last := items[n - 1];
      assert Keys(items)[..n][..n - 1] == Keys(items)[..n - 1];
      if last.category in Keys(prev) {
        AssignPresent(prev, last.category, last.rows);
      } else {
        AssignAbsent(prev, last.category, last.rows);
        assert Keys(prev + [last]) == Keys(prev) + [last.category];
      }
    }
  }

  /** Under each category the dict holds the rows of the last item with that category. */
  lemma {:induction false} StoreLookup(items: seq<Group>, n: nat, i: nat)
    requires i < n <= |items|
    requires forall j :: i < j < n ==> items[j].category != items[i].category
    ensures Lookup(Store(items, n), items[i].category) == Some(items[i].rows)
  {
    var last := items[n - 1];
    AssignLookup(Store(items, n - 1), last.category, last.rows, items[i].category);
    if i < n - 1 {
      StoreLookup(items, n - 1, i);
    }
  }

  /** Items with distinct categories are stored as they are, in order. */
  lemma {:induction false} StoreDistinctItems(items: seq<Group>, n: nat)
    requires n <= |items| && Distinct(Keys(items))
    ensures Store(items, n) == items[..n]
  {
    if n > 0 {
      StoreDistinctItems(items, n - 1);
      var prev := items[..n - 1];
      var last := items[n - 1];
      assert last.category !in Keys(prev) by {
        forall k | 0 <= k < |prev|
          ensures Keys(prev)[k] != last.category
        {
          assert Keys(prev)[k] == Keys(items)[k];
        }
      }
      AssignAbsent(prev, last.category, last.rows);
      assert prev + [last] == items[..n];
    }
  }

  /** One entry of the Word document. */
  datatype Entry =
    | Heading(text: string)    // `doc.add_heading(text, level=1)`
    | Paragraph(text: string)  // `doc.add_paragraph(text)`

  /** The paragraph text of one matched row: its PLU in decimal, a tab, its Artikel. */
  function Line(row: Row): string
  {
    Str(row.plu) + "\t" + row.artikel
  }

  /** Splits a paragraph at its first tab and reads the PLU before it. */
  function ParseLine(t: string): Option<Row>
  {
    match TabIndex(t)
    case None => None
    case Some(k) =>
      match ParseInt(t[..k])
      case None => None
      case Some(p) => Some(Row(p, t[k + 1..]))
  }

  /** A paragraph determines its row: the PLU text has no tab, and Artikel is all that follows it. */
  lemma LineRoundTrip(row: Row)
    ensures ParseLine(Line(row)) == Some(row)
  {
    var u := Str(row.plu);
    var t := Line(row);
    TabIndexAfter(u, row.artikel);
    assert t[..|u|] == u;
    assert t[|u| + 1..] == row.artikel;
    StrRoundTrip(row.plu);
  }

  /** The paragraph texts of a group, one per row, in row order. */
  function Lines(rows: seq<Row>): seq<string>
  {
    seq(|rows|, i requires 0 <= i < |rows| => Line(rows[i]))
  }

  /** One paragraph per text, in order. */
  function Paragraphs(texts: seq<string>): seq<Entry>
  {
    seq(|texts|, i requires 0 <= i < |texts| => Paragraph(texts[i]))
  }

  /** A category's heading followed by its rows. */
  function Section(g: Group): seq<Entry>
  {
    [Heading(g.category)] + Paragraphs(Lines(g.rows))
  }

  /** The document: the sections of the groups, in dict order. */
  function Render(gs: seq<Group>): seq<Entry>
  {
    if gs == [] then [] else Render(gs[..|gs| - 1]) + Section(gs[|gs| - 1])
  }

  function TotalRows(gs: seq<Group>): nat
  {
    if gs == [] then 0 else TotalRows(gs[..|gs| - 1]) + |gs[|gs| - 1].rows|
  }

  /** The document has one heading per group plus one paragraph per matched row. */
  lemma {:induction false} RenderLength(gs: seq<Group>)
    ensures |Render(gs)| == |gs| + TotalRows(gs)
  {
    if gs != [] {
      RenderLength(gs[..|gs| - 1]);
    }
  }

  /** One more row, one more paragraph at the end. */
  lemma ParagraphsStep(rows: seq<Row>, j: nat)
    requires j < |rows|
    ensures Paragraphs(Lines(rows[..j + 1])) == Paragraphs(Lines(rows[..j])) + [Paragraph(Line(rows[j]))]
  {
  }

  /** Appending a group appends its section. */
  lemma RenderStep(gs: seq<Group>, g: Group)
    ensures Render(gs + [g]) == Render(gs) + Section(g)
  {
    assert (gs + [g])[..|gs|] == gs;
  }

  /** Rendering one more group of a list: its heading, then its paragraphs. */
  lemma RenderPrefixStep(gs: seq<Group>, k: nat)
    requires k < |gs|
    ensures Render(gs[..k + 1]) == Render(gs[..k]) + [Heading(gs[k].category)] + Paragraphs(Lines(gs[k].rows))
  {
    assert gs[..k + 1] == gs[..k] + [gs[k]];
    RenderStep(gs[..k], gs[k]);
  }

  /** Groups without rows render to their headings alone. */
  lemma {:induction false} RenderHeadingsOnly(gs: seq<Group>)
    requires forall i :: 0 <= i < |gs| ==> gs[i].rows == []
    ensures Render(gs) == seq(|gs|, i requires 0 <= i < |gs| => Heading(gs[i].category))
  {
    if gs != [] {
      RenderHeadingsOnly(gs[..|gs| - 1]);
    }
  }

  /** The outline of a document: each heading with the paragraph texts under it. */
  datatype Block = Block(heading: string, texts: seq<string>)

  /**
   * Splits a document into blocks: a heading opens a new block, a paragraph
   * joins the latest one. A paragraph before any heading makes it fail.
   */
  function Outline(doc: seq<Entry>): Option<seq<Block>>
  {
    if doc == [] then Some([])
    else
      match Outline(doc[..|doc| - 1])
      case None => None
      case Some(bs) => OutlineStep(bs, doc[|doc| - 1])
  }

  /** One step of `Outline`: the blocks read so far, extended by one entry. */
  function OutlineStep(bs: seq<Block>, e: Entry): Option<seq<Block>>
  {
    match e
    case Heading(c) => Some(bs + [Block(c, [])])
    case Paragraph(t) =>
      if bs == [] then None
      else Some(bs[..|bs| - 1] + [Block(bs[|bs| - 1].heading, bs[|bs| - 1].texts + [t])])
  }

  /** Reads every paragraph text of a block as a PLU line. */
  function ParseLines(texts: seq<string>): Option<seq<Row>>
  {
    if texts == [] then Some([])
    else
      match ParseLines(texts[..|texts| - 1])
      case None => None
      case Some(rows) =>
        match ParseLine(texts[|texts| - 1])
        case None => None
        case Some(row) => Some(rows + [row])
  }

  /** Reads every block as a group. */
  function Decode(bs: seq<Block>): Option<seq<Group>>
  {
    if bs == [] then Some([])
    else
      match Decode(bs[..|bs| - 1])
      case None => None
      case Some(gs) =>
        match ParseLines(bs[|bs| - 1].texts)
        case None => None
        case Some(rows) => Some(gs + [Group(bs[|bs| - 1].heading, rows)])
  }

  /** Reads a document back into the groups it shows. */
  function ReadBack(doc: seq<Entry>): Option<seq<Group>>
  {
    match Outline(doc)
    case None => None
    case Some(bs) => Decode(bs)
  }

  /** The outline a list of groups renders to. */
  function Blocks(gs: seq<Group>): seq<Block>
  {
    seq(|gs|, i requires 0 <= i < |gs| => Block(gs[i].category, Lines(gs[i].rows)))
  }

  lemma OutlineSnoc(doc: seq<Entry>, e: Entry)
    ensures Outline(doc + [e]) == if Outline(doc).None? then None else OutlineStep(Outline(doc).value, e)
  {
    assert (doc + [e])[..|doc|] == doc;
  }

  lemma ParagraphsSnoc(doc: seq<Entry>, c: string, texts: seq<string>)
    requires texts != []
    ensures doc + [Heading(c)] + Paragraphs(texts)
         == doc + [Heading(c)] + Paragraphs(texts[..|texts| - 1]) + [Paragraph(texts[|texts| - 1])]
  {
  }

  /** A heading and the paragraphs after it become one block holding exactly those texts. */
  lemma {:induction false} OutlineSection(doc: seq<Entry>, bs: seq<Block>, c: string, texts: seq<string>)
    requires Outline(doc) == Some(bs)
    ensures Outline(doc + [Heading(c)] + Paragraphs(texts)) == Some(bs + [Block(c, texts)])
  {
    if texts == [] {
      assert doc + [Heading(c)] + Paragraphs(texts) == doc + [Heading(c)];
      OutlineSnoc(doc, Heading(c));
    } else {
      var init := texts[..|texts| - 1];
      var t := texts[|texts| - 1];
      ParagraphsSnoc(doc, c, texts);
      OutlineSection(doc, bs, c, init);
      OutlineSnoc(doc + [Heading(c)] + Paragraphs(init), Paragraph(t));
      var bs' := bs + [Block(c, init)];
      assert bs'[..|bs'| - 1] == bs;
      assert init + [t] == texts;
    }
  }

  /** The last group's section ends the document. */
  lemma RenderSnoc(gs: seq<Group>)
    requires gs != []
    ensures Render(gs) == Render(gs[..|gs| - 1]) + [Heading(gs[|gs| - 1].category)] + Paragraphs(Lines(gs[|gs| - 1].rows))
  {
  }

  /** The document shows, in group order, each category's heading over its lines. */
  lemma {:induction false} OutlineRender(gs: seq<Group>)
    ensures Outline(Render(gs)) == Some(Blocks(gs))
  {
    if gs != [] {
      var init := gs[..|gs| - 1];
      var g := gs[|gs| - 1];
      RenderSnoc(gs);
      OutlineRender(init);
      OutlineSection(Render(init), Blocks(init), g.category, Lines(g.rows));
      BlocksSnoc(gs);
    } else {
      assert Blocks(gs) == [];
    }
  }

  lemma BlocksSnoc(gs: seq<Group>)
    requires gs != []
    ensures Blocks(gs[..|gs| - 1]) + [Block(gs[|gs| - 1].category, Lines(gs[|gs| - 1].rows))] == Blocks(gs)
  {
  }

  lemma BlocksPrefix(gs: seq<Group>)
    requires gs != []
    ensures Blocks(gs)[..|gs| - 1] == Blocks(gs[..|gs| - 1])
  {
  }

  lemma ParseLinesSnoc(texts: seq<string>)
    requires texts != []
    ensures ParseLines(texts) ==
      match ParseLines(texts[..|texts| - 1])
      case None => None
      case Some(rows) =>
        match ParseLine(texts[|texts| - 1])
        case None => None
        case Some(row) => Some(rows + [row])
  {
  }

  /** Texts that each read as a row read, together, as those rows. */
  lemma {:induction false} ParseLinesEach(texts: seq<string>, rows: seq<Row>)
    requires |texts| == |rows|
    requires forall i :: 0 <= i < |texts| ==> ParseLine(texts[i]) == Some(rows[i])
    ensures ParseLines(texts) == Some(rows)
  {
    if texts != [] {
      var n := |texts|;
      ParseLinesEach(texts[..n - 1], rows[..n - 1]);
      ParseLinesSnoc(texts);
      assert rows[..n - 1] + [rows[n - 1]] == rows;
    }
  }

  lemma ParseLinesRoundTrip(rows: seq<Row>)
    ensures ParseLines(Lines(rows)) == Some(rows)
  {
    forall i | 0 <= i < |rows| ensures ParseLine(Lines(rows)[i]) == Some(rows[i]) {
      LineRoundTrip(rows[i]);
    }
    ParseLinesEach(Lines(rows), rows);
  }

  lemma {:induction false} DecodeBlocks(gs: seq<Group>)
    ensures Decode(Blocks(gs)) == Some(gs)
  {
    if gs != [] {
      var init := gs[..|gs| - 1];
      BlocksPrefix(gs);
      DecodeBlocks(init);
      ParseLinesRoundTrip(gs[|gs| - 1].rows);
      assert init + [gs[|gs| - 1]] == gs;
    }
  }

  /** The rendered document determines the groups it came from, in order. */
  lemma ReadBackRender(gs: seq<Group>)
    ensures ReadBack(Render(gs)) == Some(gs)
  {
    OutlineRender(gs);
    DecodeBlocks(gs);
  }
}
