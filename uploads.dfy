/**
 * The per-file loop of the page: each uploaded sheet gets an output name
 * chosen by the user; a name already taken is refused and the whole upload
 * is marked as not downloadable, and a new name is recorded and the file
 * processed.
 */
module Uploads {
  import opened Extraction
  import opened SheetName

  /** One uploaded sheet: the output name the user chose and its text. */
  datatype Upload = Upload(outputName: string, lines: seq<string>)

  /**
   * What the loop keeps for a processed file: the sheet name, the PDF name
   * and the rows extracted from its text.
   */
  datatype FileResult = FileResult(sheetName: string, pdfName: string, rows: seq<SalesBlock>)

  function Names(files: seq<Upload>): (names: seq<string>)
    ensures |names| == |files|
    ensures forall i :: 0 <= i < |files| ==> names[i] == files[i].outputName
  {
    seq(|files|, i requires 0 <= i < |files| => files[i].outputName)
  }

  function NameSet(names: seq<string>): set<string> {
    set i | 0 <= i < |names| :: names[i]
  }

  /** No name occurs twice. */
  predicate Distinct(names: seq<string>) {
    forall i, j :: 0 <= i < j < |names| ==> names[i] != names[j]
  }

  /**
   * The files the loop keeps, in upload order: a file whose name is new and
   * whose text has at least one sales block.
   */
  function Results(files: seq<Upload>): seq<FileResult> {
    if files == [] then []
    else
      var init := files[..|files| - 1];
      Keep(Results(init), NameSet(Names(init)), files[|files| - 1])
  }

  /** The files kept so far, after upload `f` when the names in `seen` are taken. */
  function Keep(kept: seq<FileResult>, seen: set<string>, f: Upload): seq<FileResult> {
    var rows := SalesBlocks(f.lines);
    if f.outputName in seen || rows == [] then kept
    else kept + [FileResult(MakeExcelSafeName(f.outputName), f.outputName, rows)]
  }

  lemma NamesPrefix(files: seq<Upload>, k: nat)
    requires k <= |files|
    ensures Names(files[..k]) == Names(files)[..k]
  {
  }

  lemma NameSetSnoc(names: seq<string>, x: string)
    ensures NameSet(names + [x]) == NameSet(names) + {x}
  {
    var s := names + [x];
    forall y | y in NameSet(s) ensures y in NameSet(names) + {x} {
      var i :| 0 <= i < |s| && s[i] == y;
      if i < |names| {
        assert names[i] == y;
      }
    }
    forall y | y in NameSet(names) ensures y in NameSet(s) {
      var i :| 0 <= i < |names| && names[i] == y;
      assert s[i] == y;
    }
    assert s[|names|] == x;
  }

  lemma DistinctSnoc(names: seq<string>, x: string)
    ensures Distinct(names + [x]) <==> Distinct(names) && x !in NameSet(names)
  {
    var s := names + [x];
    if Distinct(s) {
      forall i, j | 0 <= i < j < |names| ensures names[i] != names[j] {
        assert s[i] == names[i] && s[j] == names[j];
      }
      forall i | 0 <= i < |names| ensures names[i] != x {
        assert s[i] == names[i] && s[|names|] == x;
      }
    }
    if Distinct(names) && x !in NameSet(names) {
      forall i, j | 0 <= i < j < |s| ensures s[i] != s[j] {
        if j < |names| {
          assert s[i] == names[i] && s[j] == names[j];
        } else {
          assert s[i] == names[i];
        }
      }
    }
  }

  /** What one more upload changes in the names seen and the files kept. */
  lemma UploadStep(files: seq<Upload>, i: nat)
    requires i < |files|
    ensures NameSet(Names(files[..i + 1])) == NameSet(Names(files[..i])) + {files[i].outputName}
    ensures Distinct(Names(files[..i + 1])) <==>
              Distinct(Names(files[..i])) && files[i].outputName !in NameSet(Names(files[..i]))
    ensures Results(files[..i + 1]) == Keep(Results(files[..i]), NameSet(Names(files[..i])), files[i])
  {
    var f := files[i];
    NamesPrefix(files, i);
    NamesPrefix(files, i + 1);
    assert Names(files)[..i + 1] == Names(files)[..i] + [f.outputName];
    NameSetSnoc(Names(files[..i]), f.outputName);
    DistinctSnoc(Names(files[..i]), f.outputName);
    assert files[..i + 1][..i] == files[..i];
  }

  /** The used-name bookkeeping of app.py lines 136-161, over the uploads in order. */
  method ProcessUploads(files: seq<Upload>) returns (usedNames: set<string>, allUnique: bool, results: seq<FileResult>)
    ensures usedNames == NameSet(Names(files))
    ensures allUnique <==> Distinct(Names(files))
    ensures results == Results(files)
  {
    usedNames := {};
    allUnique := true;
    results := [];
    var i := 0;
    while i < |files|
      invariant i <= |files|
      invariant usedNames == NameSet(Names(files[..i]))
      invariant allUnique <==> Distinct(Names(files[..i]))
      invariant results == Results(files[..i])
    {
      var f := files[i];
      UploadStep(files, i);
      ghost var kept, seen := results, usedNames;
      if f.outputName in usedNames {
        allUnique := false;
      } else {
        usedNames := usedNames + {f.outputName};
        var rows := ExtractSalesBlocks(f.lines);
        if |rows| == 0 {
          assert results == Keep(kept, seen, f);
          i := i + 1;
          continue;
        }
        var sheetName := MakeExcelSafeName(f.outputName);
        results := results + [FileResult(sheetName, f.outputName, rows)];
      }
      assert results == Keep(kept, seen, f);
      i := i + 1;
    }
    assert files[..i] == files;
  }

  /** Every kept file's name is one of the uploads' names. */
  lemma {:induction false} ResultNamesAreNames(files: seq<Upload>)
    ensures forall k :: 0 <= k < |Results(files)| ==> Results(files)[k].pdfName in NameSet(Names(files))
    decreases |files|
  {
    if files != [] {
      var n := |files| - 1;
      ResultNamesAreNames(files[..n]);
      NamesPrefix(files, n);
      assert Names(files) == Names(files[..n]) + [files[n].outputName];
      NameSetSnoc(Names(files[..n]), files[n].outputName);
    }
  }

  /**
   * The kept files have pairwise different PDF names, each sheet name is the
   * sanitised PDF name, and no kept file is without rows.
   */
  lemma {:induction false} ResultsDistinct(files: seq<Upload>)
    ensures forall k, l :: 0 <= k < l < |Results(files)| ==> Results(files)[k].pdfName != Results(files)[l].pdfName
    ensures forall k :: 0 <= k < |Results(files)| ==>
              && Results(files)[k].sheetName == MakeExcelSafeName(Results(files)[k].pdfName)
              && Results(files)[k].rows != []
    decreases |files|
  {
    if files != [] {
      var n := |files| - 1;
      var init, f := files[..n], files[n];
      ResultsDistinct(init);
      ResultNamesAreNames(init);
    }
  }

  /** A file whose name was used before changes nothing that is kept. */
  lemma DuplicateIsSkipped(files: seq<Upload>, i: nat)
    requires i < |files| && files[i].outputName in NameSet(Names(files[..i]))
    ensures Results(files[..i + 1]) == Results(files[..i])
  {
    assert files[..i + 1][..i] == files[..i];
  }

  /**
   * With distinct names, every file with at least one sales block is kept,
   * in upload order, with the rows of its own text.
   */
  lemma {:induction false} DistinctNamesKeepAll(files: seq<Upload>)
    requires Distinct(Names(files))
    ensures |Results(files)| == |FilesWithBlocks(files)|
    ensures forall k :: 0 <= k < |Results(files)| ==> Results(files)[k].pdfName == FilesWithBlocks(files)[k].outputName
    ensures forall k :: 0 <= k < |Results(files)| ==> Results(files)[k].rows == SalesBlocks(FilesWithBlocks(files)[k].lines)
    decreases |files|
  {
    if files != [] {
      var n := |files| - 1;
      var init := files[..n];
      NamesPrefix(files, n);
      assert Names(files) == Names(init) + [files[n].outputName];
      DistinctSnoc(Names(init), files[n].outputName);
      DistinctNamesKeepAll(init);
    }
  }

  /** The uploads whose text yields at least one sales block, in order. */
  function FilesWithBlocks(files: seq<Upload>): seq<Upload> {
    if files == [] then []
    else
      var init, f := files[..|files| - 1], files[|files| - 1];
      if SalesBlocks(f.lines) == [] then FilesWithBlocks(init) else FilesWithBlocks(init) + [f]
  }

  /**
   * Different output names can give the same sheet name: `all_unique` checks
   * the output names, not the sheet names they are filed under.
   */
  lemma DistinctNamesMayShareSheet()
    ensures "a b" != "a_b" && MakeExcelSafeName("a b") == MakeExcelSafeName("a_b")
  {
    assert MakeExcelSafeName("a b") == "a_b";
    assert MakeExcelSafeName("a_b") == "a_b";
  }
}
