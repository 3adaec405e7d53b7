# Survey-sheet PDF editor: the rules behind the page

A Dafny model of the logic in `app.py`, a small web page for editing survey
sheets. The page reads the text of each uploaded sheet and finds its sales
blocks. Each block is a sales number `0ddd`, a quantity `1`, then the order
height and the order width. For each block the page looks up the reference,
location and system lines that belong to it. It shows the blocks as a table in
which the user enters the measured width and height, a location and remarks.
It writes those values back into the PDF next to each "Aperture Size" label, in
blue, or in red when a measurement is more than 75 mm off the order. It also
names the workbook sheet after the output file, and refuses an output name that
is already taken.

The model has five modules:

- `Text`: the parts of Python's `str` the program relies on. These are `\s` and
  `strip()`, `\d` and `int()`, `lower()`, `startswith()` and `isalnum()`,
  modelled on ASCII. Whitespace is space, tab, line feed, vertical tab, form
  feed, carriage return and the separators U+001C to U+001F.
- `Extraction`: `extract_sales_blocks`.
  - The text is a sequence of lines.
  - Each line is classified by what it can stand for in the pattern.
  - The pattern is matched over those classes. `Scan` is `finditer`, proved
    equal to the only list of matches that meets `finditer`'s promise.
  - The bounded reference scan is `ReferenceFor`. `LookupReference` is its
    `for … else` loop.
  - `ExtractSalesBlocks` is the whole function, proved equal to `SalesBlocks`.
- `Annotate`: `update_pdf`.
  - The rectangles the label search finds on each page are an input.
  - The text items the function would insert are the output, in insertion order.
  - `CollectAnchors` and `UpdatePdf` are the loops. `AnchorsOf`, `EntryColour`,
    `MarksFor` and `Placements` are the rules they follow.
- `SheetName`: `make_excel_safe_name`.
- `Uploads`: the per-file loop of the page.
  - An upload is the output name the user chose plus the lines of its text.
  - The loop returns the used names, the `all_unique` flag and, for every file
    it keeps, the sheet name, the PDF name and the rows.

## Model

| member | source | states |
|---|---|---|
| Text.LowerStartsWithIsStartsWith | app.py:38 | comparing the lower-cased first `len(prefix)` characters with a prefix is `lower()` of the whole line followed by `startswith(prefix)` |
| Extraction.Classify | app.py:14-18 | a line is blank iff it is all whitespace; it is a sales field iff stripped it is `0` and three digits; it is a quantity field iff stripped it is `1`; it can be a height or width field iff stripped it is two to four digits |
| Extraction.IsMatchOnText | app.py:14-20 | a match over the line classes is exactly the pattern on the lines: the four field lines in order, with only blank lines between the start of the match and each field |
| Extraction.MatchAt | app.py:14-20 | a match it reports at a line start is a match of the pattern there |
| Extraction.MatchAtComplete | app.py:14-20 | every match of the pattern at a line start is the one it reports, so the pattern matches there in at most one way |
| Extraction.ScanHitsMatch | app.py:31 | every match found in the search from a line is a match of the pattern that begins at or after that line |
| Extraction.ScanNonOverlapping | app.py:31 | the matches found do not overlap: each begins after the width line of the one before |
| Extraction.ScanIsTheFindIter | app.py:31 | a list of matches meets `finditer`'s promise iff it is the scan's. The promise: the first match has no match beginning before it, the rest is the search resumed after its width line, and with no match at all the list is empty |
| Extraction.FindIterUnique | app.py:31 | at most one list of matches meets `finditer`'s promise |
| Extraction.FindIter | app.py:31 | the search loop returns the scan's matches |
| Extraction.WindowEnd | app.py:37 | the window ends at `min(start + 100, len(lines))` |
| Extraction.IsReferenceLineIsStripped | app.py:38 | the loop's line test holds iff the stripped, lower-cased line starts with `reference` |
| Extraction.ReferenceLineIsNoField | app.py:38 | a reference line is neither blank nor any field of the pattern |
| Extraction.FirstReference | app.py:37-38 | the first reference line of the window, with none before it; none when the window holds none |
| Extraction.ReferenceForSpec | app.py:36-47 | with no reference line in the window, all three fields are empty; otherwise the first reference line decides, through the stripped three lines before it, or empty fields when it is one of the first three lines |
| Extraction.ReferenceForWindow | app.py:37 | lines past the 100-line window never change the result |
| Extraction.LookupReference | app.py:37-47 | the `for … else` loop with its `break` returns the reference, location and system the window determines |
| Extraction.SalesBlockFields | app.py:31-60 | there is one row per match, in text order. Each row's sales line is the stripped four-digit field starting with `0`. Its order height is the value of the first number after the quantity. Its order width is the value of the second, each at most 9999. Its reference fields are those of the window from the match's start. Its input fields are `None` and `""` |
| Extraction.ExtractSalesBlocks | app.py:22-62 | the loop over the matches returns exactly those rows |
| Annotate.CollectAnchors | app.py:73-76 | the nested loops collect every page's label occurrences, page after page |
| Annotate.AnchorsOrder | app.py:73-76 | occurrence `k` of page `p` is anchor number (occurrences on earlier pages) + `k` |
| Annotate.MismatchInterval | app.py:91-94 | a dimension is out of tolerance iff both values are present and non-zero and the input lies outside `[order - 75, order + 75]` |
| Annotate.EntryColour | app.py:90-94 | an entry is red iff its width or its height is out of tolerance, otherwise blue |
| Annotate.UncheckedDimension | app.py:91-94 | a missing or zero width leaves the colour to the height alone |
| Annotate.ToleranceBoundaryIsBlue | app.py:91-94 | differences of at most 75 in both dimensions stay blue |
| Annotate.MarksForLayout | app.py:96-115 | the size text sits at (x1 + 40, y0 + 10) of the label; the location text is 120 further right; a remarks text appears only for non-empty remarks, 80 further right again; all share page, line and the entry's colour |
| Annotate.PlacementsPairing | app.py:78-82 | exactly `min(#entries, #anchors)` entries are placed, entry `i` at anchor `i` |
| Annotate.InsertedItems | app.py:78-115 | an item is inserted iff it is one of the marks of some placed entry `i` at anchor `i`: nothing is written for an entry without an anchor, and nothing else is written |
| Annotate.UpdatePdf | app.py:64-119 | the loop inserts, in order, the marks of each entry at its anchor, up to the last anchor |
| SheetName.MakeExcelSafeName | app.py:121-123 | the result is 1 to 31 letters, digits and `_`, and is `Sheet` for an empty name. For a non-empty name it has `min(len, 31)` characters, and each keeps the input's character when alphanumeric and is `_` otherwise |
| SheetName.SafeNameIdempotent | app.py:121-123 | sanitising twice is sanitising once |
| SheetName.SafeNameUsesPrefix | app.py:122 | characters past the 31st never matter |
| SheetName.SafeNameHasNoForbiddenChar | app.py:121-123 | no character Excel forbids in a sheet name (`\ / ? * [ ] :`) survives |
| Uploads.UploadStep | app.py:151-161 | one more upload adds its name to the used names. The flag stays true iff the name is new. The kept files change only for a new name whose text has rows |
| Uploads.ProcessUploads | app.py:136-196 | the used names end as exactly the set of chosen names, including names of files with no rows. `all_unique` ends true iff no name repeats an earlier one. The files kept are those of `Results` |
| Uploads.ResultNamesAreNames | app.py:151-196 | every kept file's name is one of the chosen names |
| Uploads.ResultsDistinct | app.py:151-196 | the kept files have pairwise different names. Each sheet name is the sanitised file name, and each kept file has at least one row |
| Uploads.DuplicateIsSkipped | app.py:151-153 | a file whose name was used before changes nothing that is kept |
| Uploads.DistinctNamesKeepAll | app.py:151-161 | with distinct names, the kept files are exactly the files with at least one row, in order, each with the rows of its own text |
| Uploads.DistinctNamesMayShareSheet | app.py:188-189 | two different output names (`a b` and `a_b`) get the same sheet name, because `all_unique` checks the output names and not the sheet names |

## Left out

- PDF access is not modelled: opening the document, `get_text`, `search_for`, `insert_text` and `save`. Three things take its place:
  - the text of the pages, as lines, is an input;
  - the rectangles found for "Aperture Size" on each page are an input;
  - the inserted texts are returned as `TextItem`s.
- Font size, font name and render mode of the inserted text are not modelled, because they are the same constants for every item.
- Coordinates are integers, not floats, because the offsets are constant additions.
- The rendering of `f"{input_w} x {input_h}"` is the abstract `SizeText(width, height)`, because Python's formatting of numbers, `None` and NaN is not modelled.
- `Text` models `\s`, `\d`, `strip()`, `lower()`, `isalnum()` and `int()` on ASCII only, because Unicode character classes are not modelled.
- The text is taken to use "\n" as its only line separator, because `splitlines()` also splits at `\r`, form feeds and Unicode separators while `start_idx` counts "\n" only. The model does not capture what happens when the two disagree.
- `ExtractSalesBlocks` first collects the matches and then builds one row per match. The program builds each row as the match is found. The results are the same, because a row depends only on its match and the whole text.
- The Streamlit page is not modelled: titles, warnings, errors, the table editor, the ZIP and Excel downloads and the date stamp. Pandas is left out too.
  - The rows a user edits in the table are plain inputs to `UpdatePdf`.
  - pandas' typing of empty cells is not modelled.
- Uploads.ProcessUploads: a kept file is recorded with its sheet name, its name and its extracted rows. The edited table and the annotated PDF that the program stores with it (app.py:163-196) are left out, because they depend on user editing and on PDF writing. `UpdatePdf` models the second of them separately.
