# PLU-Liste: the list generator, in Dafny

The PLU-Liste app takes two inputs. The first is the master workbook (the "Mutterdatei"): one Excel sheet per product category, each with a `PLU` and an `Artikel` column. The second is the week file: a single column of PLU codes with no header.
`generate_plu_list` turns them into a Word document. For each category sheet, in workbook order, it does the following:

- it checks that the sheet has both required columns, and otherwise raises a `ValueError` naming the category;
- it inner-joins the week's codes with the sheet's rows on `PLU`;
- it sorts the matches by `Artikel`;
- it stores the result in the dictionary `filtered_data` under the sheet's name.

It then writes one heading per stored category, followed by one paragraph `"{PLU}<TAB>{Artikel}"` per matched row.

The model takes the workbook and the week file as already-parsed values:

- a workbook is a `seq<Catalog.Sheet>`;
- a sheet has a name, a set of column names and its rows of `(plu, artikel)`;
- the week file is a `seq<int>`.

The document is a sequence of `Report.Entry` values (`Heading(text)` or `Paragraph(text)`). The files are organised as follows:

- `py_text.dfy` (module `PyText`) holds Python's code-point string order and `str()` of an integer, with a parser that reads it back.
- `catalog.dfy` (module `Catalog`) holds the sheets, the inner join (`Join`, the semantics of `pd.merge(..., how="inner")` with the week as the left table) and the sort by `Artikel` (`SortByArtikel`).
- `report.dfy` (module `Report`) holds three things:
  - the insertion-ordered dictionary `filtered_data` (`Assign` is `d[k] = v`, and `Store` is the sequence of assignments the loop makes);
  - the rendering of the document (`Render`);
  - `ReadBack`, which parses a document back into its groups and is the partner of `Render`.
- `plu_list.dfy` (module `PluList`) holds the rest:
  - the function `Generate`, which states what the whole call returns or raises;
  - the imperative methods that do it step by step: `GroupSheets` is the loop over the sheets; `WriteDocument` and `AddParagraphs` are the nested loops that write the document; `GeneratePluList` is the whole function;
  - the lemmas about the result.

Each method is proved equal to its specification function. The properties of the result are proved as lemmas about those functions.

## Model

| member | source | states |
|---|---|---|
| PyText.LessEq | app.py:39 | definition: Python's `<=` on `str`, comparing code points left to right, a proper prefix sorting first |
| PyText.Str | app.py:51 | definition: `str()` of an integer, an optional `-` then decimal digits; the text is never empty and holds no tab |
| PyText.LessEqReflexive | app.py:39 | every string sorts at or before itself under Python's code-point order |
| PyText.LessEqTotal | app.py:39 | any two `Artikel` strings are comparable, one way or the other |
| PyText.LessEqTransitive | app.py:39 | the string order is transitive |
| PyText.LessEqAntisymmetric | app.py:39 | two strings that each sort at or before the other are equal |
| PyText.DigitsRoundTrip | app.py:51 | the decimal digits written for a non-negative PLU parse back to that PLU |
| PyText.StrRoundTrip | app.py:51 | `str()` of any integer PLU, sign included, parses back to the same integer |
| PyText.TabIndexAfter | app.py:51 | in text made of a tab-free part, a tab and anything else, the first tab is right after the tab-free part |
| Catalog.HasRequiredColumns | app.py:35 | definition: the schema check, true when the sheet's columns include both `PLU` and `Artikel` |
| Catalog.Names | app.py:28 | definition: `sheet_names`, the category names in workbook order |
| Catalog.Join | app.py:38 | definition: the inner merge with the week as the left table, giving for each week code in order every sheet row with that PLU, in sheet order |
| Catalog.MatchesMultiplicity | app.py:38 | the rows one week code matches are exactly the sheet's rows with that PLU, each as often as it occurs |
| Catalog.JoinSound | app.py:38 | every joined row has a PLU from the week list and is a row of this same sheet |
| Catalog.JoinMultiplicity | app.py:38 | each row appears in the join (occurrences of its PLU in the week) × (its occurrences in the sheet) times, so duplicates are kept |
| Catalog.JoinCountPlu | app.py:38 | rows with PLU p in the join = (occurrences of p in the week) × (rows with PLU p in the sheet) |
| Catalog.JoinAppend | app.py:38 | the join follows the week order: joining a concatenated week is the concatenation of the joins |
| Catalog.JoinUnmatchedCode | app.py:38 | a week code that no row carries is dropped without a trace, wherever it appears |
| Catalog.CountPluPermutation | app.py:39 | reordering rows does not change how many carry a given PLU |
| Catalog.SortByArtikel | app.py:39 | definition: `sort_values(by="Artikel")` as an insertion sort on code-point order; it keeps ties in input order, which pandas does not promise |
| Catalog.InsertSpec | app.py:39 | inserting a row into a list sorted by `Artikel` keeps it sorted and adds exactly that row |
| Catalog.SortSpec | app.py:39 | the sort yields rows in non-decreasing `Artikel` order that are a permutation of its input |
| Catalog.MatchAndSort | app.py:38-39 | definition: the merge with the week, then the sort by `Artikel` |
| Catalog.MatchAndSortSpec | app.py:38-39 | a sheet's matches are sorted by `Artikel`, are the join's rows as a multiset, and are each a row of the sheet whose PLU is in the week |
| Catalog.MatchAndSortMultiplicity | app.py:38-39 | each row's multiplicity after the sort is still the product from the join |
| Catalog.MatchAndSortCountPlu | app.py:38-39 | after the sort, the count of rows with PLU p is still the product from the join |
| Catalog.NamesAt | app.py:28 | the i-th category name is the name of the i-th sheet, in workbook order |
| Report.Keys | app.py:45 | definition: the dict's keys in insertion order, the order `.items()` follows |
| Report.Assign | app.py:40 | definition: `filtered_data[name] = rows`; a present key keeps its place and takes the new value, and a new key goes to the end |
| Report.AssignPresent | app.py:40 | assigning to a key already in the dict keeps the keys and their order |
| Report.AssignAbsent | app.py:40 | assigning a new key appends it at the end |
| Report.AssignLookup | app.py:40 | after `d[name] = rows`, looking up `name` gives `rows` and every other key gives what it gave before |
| Report.AssignDistinct | app.py:40 | assignment never creates a duplicate key |
| Report.AssignKeys | app.py:40 | the keys after an assignment are the old keys plus the assigned one |
| Report.Store | app.py:29-40 | definition: the dict after the first n loop iterations, starting empty and assigning each item under its category in turn |
| Report.StoreDistinct | app.py:29-40 | the dict the loop builds never holds a key twice |
| Report.StoreKeys | app.py:29-40 | its keys are exactly the names of the sheets processed so far |
| Report.StoreKeyOrder | app.py:29-40 | the dict's keys, in order, are the names assigned so far, each at the position where it was first assigned |
| Report.StoreLookup | app.py:29-40 | each name maps to the matches of the last sheet stored under it |
| Report.StoreDistinctItems | app.py:29-40 | when all names differ, the dict holds one entry per sheet, in sheet order |
| Report.Line | app.py:51 | definition: the paragraph text `f"{PLU}\t{Artikel}"` of one row |
| Report.Render | app.py:45-51 | definition: for each dict item in key order, a heading with the category, then one paragraph per row in row order |
| Report.LineRoundTrip | app.py:51 | a paragraph `"{PLU}<TAB>{Artikel}"` reads back as exactly that PLU and that Artikel, tabs in the Artikel included |
| Report.RenderLength | app.py:45-51 | the document has one entry per category plus one per stored row |
| Report.RenderHeadingsOnly | app.py:45-51 | categories with no rows render as their headings alone, in order |
| Report.ReadBackRender | app.py:45-51 | reading the document back gives the stored groups: each heading is its category's name, followed by its rows in group order |
| PluList.Message | app.py:36 | definition: the `ValueError` text, the category's name placed between the fixed opening and closing of the German message; its length is theirs plus the name's |
| PluList.MessageNamesCategory | app.py:36 | the error text names its category: the name can be read back from between the text's fixed opening and closing |
| PluList.FirstMissingFrom | app.py:32-36 | definition: the index of the first sheet at or after i, in workbook order, that fails the schema check, or none |
| PluList.FirstMissing | app.py:32-36 | definition: the first sheet of the whole workbook that fails the schema check, or none |
| PluList.FirstMissingFromSpec | app.py:32-36 | the schema scan finds none only when every sheet has both columns, and otherwise finds the first sheet in order that lacks one |
| PluList.GenerateFails | app.py:32-36 | the call fails exactly when some sheet lacks `PLU` or `Artikel`; the error names the first such sheet, and no document is produced |
| PluList.Generate | app.py:6-57 | definition: the schema error for the first sheet lacking a column, or else the rendering of the dict the sheet loop builds |
| PluList.PerSheet | app.py:38-40 | definition: for each sheet in order, the item the loop stores: the sheet's name and its sorted matches |
| PluList.Filter | app.py:28-40 | definition: the first half of the function, giving the schema error for the first bad sheet or else the dict the loop builds; `GroupSheets` is proved equal to it |
| PluList.GroupSheets | app.py:28-40 | the loop over the sheets builds `filtered_data`, or raises the schema error, exactly as `Filter` specifies |
| PluList.AddParagraphs | app.py:50-51 | the inner loop appends one paragraph per row, in row order, and nothing else |
| PluList.WriteDocument | app.py:43-51 | the document written from `filtered_data` is its rendering: headings in key order, each followed by its rows |
| PluList.GeneratePluList | app.py:6-57 | the whole function returns the document, or the error, that `Generate` specifies |
| PluList.PerSheetSpec | app.py:32-40 | each item the loop stores is named after its sheet and holds that sheet's join, sorted by `Artikel`, as a multiset, with no claim about the order of ties |
| PluList.StoreOnePerSheet | app.py:28-40 | with distinct sheet names, `filtered_data` holds exactly one group per sheet, in sheet order |
| PluList.GenerateWellFormed | app.py:28-51 | on a well-formed workbook with distinct sheet names, the call succeeds with the rendering of one group per sheet, in sheet order |
| PluList.TotalRowsPerSheet | app.py:38-40 | the rows stored across all groups are the sum of the join sizes of the sheets |
| PluList.GenerateSucceeds | app.py:28-51 | on a well-formed workbook the call succeeds, and the document has (sheets + matched rows) entries. It reads back as one group per sheet, in order, sheets without matches included. Each group is named after its sheet, sorted by `Artikel`, and equal to the sheet's join as a multiset, whatever the order of ties. It also reads back as exactly the groups the model's stable sort gives |
| PluList.NoMatchesNoRows | app.py:38-39 | a sheet none of whose rows carries a week code yields no rows |
| PluList.NothingMatchedHeadingsOnly | app.py:38-51 | when no week code occurs in any sheet, the call still succeeds and yields the category headings alone |
| PluList.UnmatchedCodeIgnored | app.py:38 | inserting a week code that no sheet carries, anywhere in the week, leaves the result unchanged |

## Left out

- The Streamlit front end (title, uploader, button, banners, download button) and the mapping of exceptions to messages for the user (app.py:59-88) are not modelled; they are interactive UI code.
- Excel I/O is not modelled: `pd.ExcelFile`, `read_excel` and `parse` (app.py:18-19, 28, 33). The workbook arrives as its sheets in workbook order and the week file as its list of codes.
- Preparing the week table is not modelled: renaming its only column (app.py:22) and `astype(int)` (app.py:25). The codes arrive as integers. Neither the error pandas raises for a week file with more than one column nor the coercion of floats, NaN or strings is modelled.
- PluList.Generate: for an empty week list it succeeds with headings only. An empty week file, however, reads as a table with no column, so the rename at app.py:22 raises a `ValueError` before any sheet is read. That error is not modelled.
- PluList.Generate: the catalog's PLU cells arrive as integers. If a sheet's `PLU` column holds text (codes stored as text to keep leading zeros, say), `pd.merge` at app.py:38 raises a `ValueError` for merging int64 with object columns. That failure is not modelled: once the schema check passes, `Generate` and `GeneratePluList` always succeed. A float `PLU` column, which blank cells produce, changes nothing the model claims: blank cells never match, and the PLU printed in each line comes from the integer week table.
- Columns other than `PLU` and `Artikel` are not modelled. They are carried through the merge but never used or rendered. Non-string or missing `Artikel` values are not modelled either.
- PluList.Generate, PluList.GeneratePluList, PluList.WriteDocument, PluList.AddParagraphs, PluList.GenerateSucceeds: heading and paragraph texts are taken to be XML-compatible. python-docx hands them to lxml, which raises a `ValueError` for control characters such as U+0001 in an `Artikel` or a category name (app.py:47, 51). That failure is not modelled, so for such a workbook the model returns a document where the program reports an input error.
- Building the `.docx` file, its binary encoding and the `BytesIO` handling (app.py:43, 54-57) are not modelled. The document is the sequence of headings and paragraphs written into it, and heading level 1 is implicit.
- Catalog.SortByArtikel: keeps rows with equal `Artikel` in their input order, while the pandas sort makes no such promise. pandas' default quicksort is not stable for more than 16 rows. So `PluList.Generate`, `PluList.GeneratePluList` and the read-back clause `ReadBack(..) == Some(PerSheet(..))` of `PluList.GenerateSucceeds` fix a tie order the program may not reproduce. That tie order also depends on the merge emitting rows in week-code order. pandas documents that order and implements it from version 2.2 on, while older versions grouped inner-merge rows by key. The claims that hold whatever the tie order are `SortSpec`, `MatchAndSortSpec`, `PerSheetSpec` and the per-group clause of `GenerateSucceeds`: sorted by `Artikel`, and the join's rows as a multiset.
- PluList.StoreOnePerSheet, PluList.GenerateWellFormed, PluList.GenerateSucceeds and PluList.NothingMatchedHeadingsOnly: these require distinct sheet names. Excel guarantees distinct names, but the parsed input given to the model does not. For a workbook with repeated names, `Report.StoreKeyOrder`, `Report.StoreDistinct` and `Report.StoreLookup` describe the dict: one entry per name, in first-seen position, holding the last sheet's matches.
- The code has no lenient schema mode, no deduplication by PLU and no locale-aware collation. A missing column always aborts the run, duplicate matches are all kept, and `Artikel` is compared by code points, so "Äpfel" sorts after "Z".
