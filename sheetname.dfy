/**
 * `make_excel_safe_name`: turning an output file name into the name of a
 * sheet of the workbook.
 */
module SheetName {
  import opened Text

  /** Excel's limit on the length of a sheet name. */
  const MaxSheetName: nat := 31

  /** The name used when nothing is left of the input. */
  const DefaultSheet: string := "Sheet"

  /** `c if c.isalnum() else "_"`. */
  function SafeChar(c: char): char {
    if IsAlnum(c) then c else '_'
  }

  /** The joined generator: every character made safe. */
  function SafeChars(name: string): (r: string)
    ensures |r| == |name|
    ensures forall i :: 0 <= i < |r| ==> r[i] == SafeChar(name[i])
  {
    seq(|name|, i requires 0 <= i < |name| => SafeChar(name[i]))
  }

  function MakeExcelSafeName(name: string): (r: string)
    ensures 0 < |r| <= MaxSheetName
    ensures forall i :: 0 <= i < |r| ==> IsAlnum(r[i]) || r[i] == '_'
    ensures name == [] ==> r == DefaultSheet
    ensures name != [] ==> |r| == Min(|name|, MaxSheetName)
    ensures name != [] ==> forall i :: 0 <= i < |r| ==>
              (IsAlnum(name[i]) ==> r[i] == name[i]) && (!IsAlnum(name[i]) ==> r[i] == '_')
  {
    var safe := SafeChars(name)[..Min(|name|, MaxSheetName)];
    if safe != [] then safe else DefaultSheet
  }

  /** A safe name is left as it is: sanitising twice is sanitising once. */
  lemma SafeNameIdempotent(name: string)
    ensures MakeExcelSafeName(MakeExcelSafeName(name)) == MakeExcelSafeName(name)
  {
    var r := MakeExcelSafeName(name);
    var rr := MakeExcelSafeName(r);
    assert |rr| == |r|;
    forall i | 0 <= i < |r|
      ensures rr[i] == r[i]
    {
      assert IsAlnum(r[i]) || r[i] == '_';
    }
  }

  /** Characters past the 31st never matter. */
  lemma SafeNameUsesPrefix(name: string)
    ensures MakeExcelSafeName(name) == MakeExcelSafeName(name[..Min(|name|, MaxSheetName)])
  {
    var p := name[..Min(|name|, MaxSheetName)];
    var r, rp := MakeExcelSafeName(name), MakeExcelSafeName(p);
    if name != [] {
      assert |rp| == |r|;
      forall i | 0 <= i < |r|
        ensures rp[i] == r[i]
      {
        assert p[i] == name[i];
      }
    }
  }

  /** None of the characters Excel forbids in a sheet name survives. */
  lemma SafeNameHasNoForbiddenChar(name: string)
    ensures forall i :: 0 <= i < |MakeExcelSafeName(name)| ==>
              MakeExcelSafeName(name)[i] !in {'\\', '/', '?', '*', '[', ']', ':'}
  {
    var r := MakeExcelSafeName(name);
    forall i | 0 <= i < |r|
      ensures r[i] !in {'\\', '/', '?', '*', '[', ']', ':'}
    {
      assert IsAlnum(r[i]) || r[i] == '_';
    }
  }
}
