/**
 * `extract_sales_blocks`: finding the fixed-format sales blocks in the text
 * of a survey sheet and looking up the reference lines that belong to each.
 *
 * The text is given as its sequence of lines; every line stands for a line
 * of the text terminated by "\n".  With `re.MULTILINE`, `^` holds only at the
 * start of a line, so the pattern is tried at each line start in turn.  The
 * pattern only ever looks at whole lines, so each line is first classified
 * by what it can stand for in the pattern, and the pattern is then matched
 * over those classes.
 */
module Extraction {
  import opened Wrappers
  import opened Text

  /** How many lines the reference scan looks at, starting at the match. */
  const ReferenceWindow: nat := 100

  // ---------------------------------------------------------------------
  // The four fields of the pattern, line by line
  // ---------------------------------------------------------------------

  /** `^\s*(0\d{3})\s*?\n`: the stripped line is four digits, the first `0`. */
  predicate IsSalesLine(line: string) {
    var t := Strip(line);
    |t| == 4 && t[0] == '0' && IsDigits(t)
  }

  /** `^\s*1\s*?\n`: the quantity line. */
  predicate IsQuantityLine(line: string) {
    Strip(line) == "1"
  }

  /** `^\s*(\d{2,4})\s*?\n`: a height or width field. */
  predicate IsDimensionLine(line: string) {
    var t := Strip(line);
    2 <= |t| <= 4 && IsDigits(t)
  }

  /** The word the reference scan looks for. */
  const ReferenceWord: string := "reference"

  /**
   * `lines[j].strip().lower().startswith("reference")`, read from left to
   * right: leading whitespace is skipped and the word compared in lower
   * case; what follows it, trailing whitespace included, does not matter.
   */
  predicate IsReferenceLine(line: string) {
    ReferenceFrom(line, 0)
  }

  predicate ReferenceFrom(line: string, i: nat)
    requires i <= |line|
    decreases |line| - i
  {
    if i < |line| && IsSpace(line[i]) then ReferenceFrom(line, i + 1)
    else LowerStartsWith(line[i..], ReferenceWord)
  }

  lemma {:induction false} ReferenceFromSkips(line: string, i: nat)
    requires i <= |line|
    ensures ReferenceFrom(line, i) == LowerStartsWith(line[SkipSpaces(line, i)..], ReferenceWord)
    decreases |line| - i
  {
    if i < |line| && IsSpace(line[i]) {
      ReferenceFromSkips(line, i + 1);
    }
  }

  /** The left-to-right test is the one the source writes. */
  lemma IsReferenceLineIsStripped(line: string)
    ensures IsReferenceLine(line) <==> StartsWith(Lower(Strip(line)), ReferenceWord)
  {
    ReferenceFromSkips(line, 0);
    assert forall i :: 0 <= i < |ReferenceWord| ==> !IsSpace(ReferenceWord[i]);
    LowerStartsWithStripped(line, ReferenceWord);
    LowerStartsWithIsStartsWith(Strip(line), ReferenceWord);
  }

  /**
   * What a line can stand for in the pattern.  A `SalesNumber` line is also
   * a valid height or width field; a `Number` line has two to four digits
   * and is not a sales number.
   */
  datatype LineKind = Blank | SalesNumber | Quantity | Number | Other

  /**
   * A reference line starts with a letter, so it is no field of the pattern:
   * the line the reference scan stops at never belongs to a match.
   */
  lemma ReferenceLineIsNoField(line: string)
    requires IsReferenceLine(line)
    ensures !IsBlank(line) && !IsSalesLine(line) && !IsQuantityLine(line) && !IsDimensionLine(line)
  {
    IsReferenceLineIsStripped(line);
    var t := Strip(line);
    assert Lower(t)[0] == 'r';
    assert !IsDigit(t[0]);
  }

  function Classify(line: string): (k: LineKind)
    ensures k == Blank <==> IsBlank(line)
    ensures k == SalesNumber <==> IsSalesLine(line)
    ensures k == Quantity <==> IsQuantityLine(line)
    ensures k == SalesNumber || k == Number <==> IsDimensionLine(line)
  {
    if Strip(line) == [] then Blank
    else if IsSalesLine(line) then SalesNumber
    else if IsQuantityLine(line) then Quantity
    else if IsDimensionLine(line) then Number
    else Other
  }

  function Kinds(lines: seq<string>): (kinds: seq<LineKind>)
    ensures |kinds| == |lines|
    ensures forall k {:trigger kinds[k]} :: 0 <= k < |lines| ==> kinds[k] == Classify(lines[k])
  {
    seq(|lines|, k requires 0 <= k < |lines| => Classify(lines[k]))
  }

  predicate IsDimension(k: LineKind) {
    k == SalesNumber || k == Number
  }

  ghost predicate AllBlank(kinds: seq<LineKind>, lo: nat, hi: nat)
    requires lo <= hi <= |kinds|
  {
    forall k :: lo <= k < hi ==> kinds[k] == Blank
  }

  /** Line indices of the four fields of one match. */
  datatype Match = Match(sales: nat, quantity: nat, height: nat, width: nat)

  /**
   * The pattern matches at the start of line `i` with fields `m`: every
   * `\s*` may run over blank lines, so only blank lines separate the start
   * of the match and the four field lines.
   */
  ghost predicate IsMatch(kinds: seq<LineKind>, i: nat, m: Match) {
    && i <= m.sales < m.quantity < m.height < m.width < |kinds|
    && AllBlank(kinds, i, m.sales) && kinds[m.sales] == SalesNumber
    && AllBlank(kinds, m.sales + 1, m.quantity) && kinds[m.quantity] == Quantity
    && AllBlank(kinds, m.quantity + 1, m.height) && IsDimension(kinds[m.height])
    && AllBlank(kinds, m.height + 1, m.width) && IsDimension(kinds[m.width])
  }

  /** The same match, stated on the text of the lines. */
  ghost predicate IsPatternAt(lines: seq<string>, i: nat, m: Match) {
    && i <= m.sales < m.quantity < m.height < m.width < |lines|
    && (forall k :: i <= k < m.sales ==> IsBlank(lines[k]))
    && IsSalesLine(lines[m.sales])
    && (forall k :: m.sales < k < m.quantity ==> IsBlank(lines[k]))
    && IsQuantityLine(lines[m.quantity])
    && (forall k :: m.quantity < k < m.height ==> IsBlank(lines[k]))
    && IsDimensionLine(lines[m.height])
    && (forall k :: m.height < k < m.width ==> IsBlank(lines[k]))
    && IsDimensionLine(lines[m.width])
  }

  /** A run of blank kinds is a run of blank lines. */
  lemma BlankRunOnText(lines: seq<string>, lo: nat, hi: nat)
    requires lo <= hi <= |lines|
    ensures AllBlank(Kinds(lines), lo, hi) <==> forall k :: lo <= k < hi ==> IsBlank(lines[k])
  {
    var kinds := Kinds(lines);
    forall k | lo <= k < hi
      ensures kinds[k] == Blank <==> IsBlank(lines[k])
    {
      assert kinds[k] == Classify(lines[k]);
    }
  }

  lemma IsMatchOnText(lines: seq<string>, i: nat, m: Match)
    ensures IsMatch(Kinds(lines), i, m) <==> IsPatternAt(lines, i, m)
  {
    var kinds := Kinds(lines);
    if i <= m.sales < m.quantity < m.height < m.width < |lines| {
      BlankRunOnText(lines, i, m.sales);
      BlankRunOnText(lines, m.sales + 1, m.quantity);
      BlankRunOnText(lines, m.quantity + 1, m.height);
      BlankRunOnText(lines, m.height + 1, m.width);
      assert kinds[m.sales] == Classify(lines[m.sales]);
      assert kinds[m.quantity] == Classify(lines[m.quantity]);
      assert kinds[m.height] == Classify(lines[m.height]);
      assert kinds[m.width] == Classify(lines[m.width]);
    }
  }

  /** The first line at or after `i` that is not blank, or `|kinds|`. */
  function NextNonBlank(kinds: seq<LineKind>, i: nat): (r: nat)
    requires i <= |kinds|
    ensures i <= r <= |kinds|
    ensures AllBlank(kinds, i, r)
    ensures r < |kinds| ==> kinds[r] != Blank
    decreases |kinds| - i
  {
    if i == |kinds| || kinds[i] != Blank then i else NextNonBlank(kinds, i + 1)
  }

  /** The regular expression tried at the start of line `i`. */
  function MatchAt(kinds: seq<LineKind>, i: nat): (r: Option<Match>)
    requires i <= |kinds|
    ensures r.Some? ==> IsMatch(kinds, i, r.value)
  {
    var s := NextNonBlank(kinds, i);
    if s == |kinds| || kinds[s] != SalesNumber then None else
    var q := NextNonBlank(kinds, s + 1);
    if q == |kinds| || kinds[q] != Quantity then None else
    var h := NextNonBlank(kinds, q + 1);
    if h == |kinds| || !IsDimension(kinds[h]) then None else
    var w := NextNonBlank(kinds, h + 1);
    if w == |kinds| || !IsDimension(kinds[w]) then None else
    Some(Match(s, q, h, w))
  }

  lemma NextNonBlankIs(kinds: seq<LineKind>, i: nat, s: nat)
    requires i <= s < |kinds| && AllBlank(kinds, i, s) && kinds[s] != Blank
    ensures NextNonBlank(kinds, i) == s
  {
  }

  /** Any match at line `i` is the one `MatchAt` finds: it is unique. */
  lemma MatchAtComplete(kinds: seq<LineKind>, i: nat, m: Match)
    requires IsMatch(kinds, i, m)
    ensures MatchAt(kinds, i) == Some(m)
  {
    NextNonBlankIs(kinds, i, m.sales);
    NextNonBlankIs(kinds, m.sales + 1, m.quantity);
    NextNonBlankIs(kinds, m.quantity + 1, m.height);
    NextNonBlankIs(kinds, m.height + 1, m.width);
  }

  // ---------------------------------------------------------------------
  // `pattern.finditer(text)`
  // ---------------------------------------------------------------------

  /** A match and the line where it starts (`start_idx`). */
  datatype Hit = Hit(start: nat, m: Match)

  /**
   * The successive non-overlapping matches from line `pos` on: a failed
   * attempt moves on to the next line, a match resumes the search at the
   * line after its width field.
   */
  function Scan(kinds: seq<LineKind>, pos: nat): (hits: seq<Hit>)
    decreases |kinds| - pos
  {
    if pos >= |kinds| then []
    else match MatchAt(kinds, pos)
      case None => Scan(kinds, pos + 1)
      case Some(m) => [Hit(pos, m)] + Scan(kinds, m.width + 1)
  }

  /** Each of `hits` is a match of the pattern starting at or after `pos`. */
  ghost predicate HitsFrom(kinds: seq<LineKind>, pos: nat, hits: seq<Hit>) {
    forall k :: 0 <= k < |hits| ==> pos <= hits[k].start && IsMatch(kinds, hits[k].start, hits[k].m)
  }

  lemma HitsFromCons(kinds: seq<LineKind>, pos: nat, m: Match)
    requires pos < |kinds| && MatchAt(kinds, pos) == Some(m)
    requires HitsFrom(kinds, m.width + 1, Scan(kinds, m.width + 1))
    ensures HitsFrom(kinds, pos, Scan(kinds, pos))
  {
    ScanAtHit(kinds, pos, m);
    var all, rest := Scan(kinds, pos), Scan(kinds, m.width + 1);
    forall k | 0 <= k < |all|
      ensures pos <= all[k].start && IsMatch(kinds, all[k].start, all[k].m)
    {
      if k > 0 {
        assert all[k] == rest[k - 1];
      }
    }
  }

  /** Every hit of `Scan` is a match of the pattern. */
  lemma {:induction false} ScanHitsMatch(kinds: seq<LineKind>, pos: nat)
    ensures HitsFrom(kinds, pos, Scan(kinds, pos))
    decreases |kinds| - pos
  {
    if pos < |kinds| {
      var r := MatchAt(kinds, pos);
      if r.None? {
        ScanMissAt(kinds, pos);
        ScanHitsMatch(kinds, pos + 1);
      } else {
        ScanHitsMatch(kinds, r.value.width + 1);
        HitsFromCons(kinds, pos, r.value);
      }
    }
  }

  /** The matches do not overlap: each begins after the width line of the one before. */
  lemma {:induction false} ScanNonOverlapping(kinds: seq<LineKind>, pos: nat)
    ensures forall k :: 0 <= k < |Scan(kinds, pos)| - 1 ==> Scan(kinds, pos)[k].m.width < Scan(kinds, pos)[k + 1].start
    decreases |kinds| - pos
  {
    if pos < |kinds| {
      var r := MatchAt(kinds, pos);
      if r.None? {
        ScanMissAt(kinds, pos);
        ScanNonOverlapping(kinds, pos + 1);
      } else {
        var m := r.value;
        ScanAtHit(kinds, pos, m);
        ScanNonOverlapping(kinds, m.width + 1);
        ScanHitsMatch(kinds, m.width + 1);
        var all, rest := Scan(kinds, pos), Scan(kinds, m.width + 1);
        forall k | 0 <= k < |all| - 1 ensures all[k].m.width < all[k + 1].start {
          assert all[k + 1] == rest[k];
          if k > 0 {
            assert all[k] == rest[k - 1];
          }
        }
      }
    }
  }

  ghost predicate NoMatchIn(kinds: seq<LineKind>, lo: nat, hi: nat) {
    forall i, m :: lo <= i < hi ==> !IsMatch(kinds, i, m)
  }

  /**
   * What `finditer` promises of the matches it yields when searching from
   * line `pos`: the first is a match that begins at or after `pos` with no
   * match beginning before it, and the rest are what the search yields when
   * it resumes after the first one's width line; with no match at all, none
   * begins anywhere from `pos` on.
   */
  ghost predicate IsFindIter(kinds: seq<LineKind>, pos: nat, hits: seq<Hit>)
    decreases |hits|
  {
    if hits == [] then NoMatchIn(kinds, pos, |kinds|)
    else
      && pos <= hits[0].start
      && IsMatch(kinds, hits[0].start, hits[0].m)
      && NoMatchIn(kinds, pos, hits[0].start)
      && IsFindIter(kinds, hits[0].m.width + 1, hits[1..])
  }

  lemma {:induction false} ScanIsFindIter(kinds: seq<LineKind>, pos: nat)
    ensures IsFindIter(kinds, pos, Scan(kinds, pos))
    decreases |kinds| - pos
  {
    if pos < |kinds| {
      var r := MatchAt(kinds, pos);
      if r.None? {
        ScanIsFindIter(kinds, pos + 1);
        ScanSkipStep(kinds, pos);
      } else {
        ScanIsFindIter(kinds, r.value.width + 1);
        ScanHitStep(kinds, pos);
      }
    }
  }

  lemma ScanSkipStep(kinds: seq<LineKind>, pos: nat)
    requires pos < |kinds| && MatchAt(kinds, pos).None?
    requires IsFindIter(kinds, pos + 1, Scan(kinds, pos + 1))
    ensures IsFindIter(kinds, pos, Scan(kinds, pos))
  {
    assert Scan(kinds, pos) == Scan(kinds, pos + 1);
    NoMatchAt(kinds, pos);
    FindIterFromEarlier(kinds, pos, Scan(kinds, pos + 1));
  }

  lemma ScanHitStep(kinds: seq<LineKind>, pos: nat)
    requires pos < |kinds| && MatchAt(kinds, pos).Some?
    requires IsFindIter(kinds, MatchAt(kinds, pos).value.width + 1, Scan(kinds, MatchAt(kinds, pos).value.width + 1))
    ensures IsFindIter(kinds, pos, Scan(kinds, pos))
  {
    var m := MatchAt(kinds, pos).value;
    ScanAtHit(kinds, pos, m);
    FindIterCons(kinds, pos, m, Scan(kinds, m.width + 1));
  }

  lemma NoMatchAt(kinds: seq<LineKind>, pos: nat)
    requires pos <= |kinds| && MatchAt(kinds, pos).None?
    ensures forall m :: !IsMatch(kinds, pos, m)
  {
    forall m | IsMatch(kinds, pos, m) ensures false {
      MatchAtComplete(kinds, pos, m);
    }
  }

  lemma FindIterCons(kinds: seq<LineKind>, pos: nat, m: Match, rest: seq<Hit>)
    requires IsMatch(kinds, pos, m) && IsFindIter(kinds, m.width + 1, rest)
    ensures IsFindIter(kinds, pos, [Hit(pos, m)] + rest)
  {
    assert ([Hit(pos, m)] + rest)[1..] == rest;
  }

  /** A search may start one line earlier when no match begins on that line. */
  lemma FindIterFromEarlier(kinds: seq<LineKind>, pos: nat, hits: seq<Hit>)
    requires IsFindIter(kinds, pos + 1, hits)
    requires forall m :: !IsMatch(kinds, pos, m)
    ensures IsFindIter(kinds, pos, hits)
  {
    if hits != [] {
      assert NoMatchIn(kinds, pos + 1, hits[0].start);
    }
  }

  /** `finditer`'s promise determines the matches: at most one sequence meets it. */
  lemma {:induction false} FindIterUnique(kinds: seq<LineKind>, pos: nat, h1: seq<Hit>, h2: seq<Hit>)
    requires IsFindIter(kinds, pos, h1) && IsFindIter(kinds, pos, h2)
    ensures h1 == h2
    decreases |h1|
  {
    if h1 != [] && h2 != [] {
      FindIterSameHead(kinds, pos, h1, h2);
      FindIterUnique(kinds, h1[0].m.width + 1, h1[1..], h2[1..]);
      HeadTail(h1);
      HeadTail(h2);
    }
  }

  /** Two runs of `finditer` from the same position find the same first match. */
  lemma FindIterSameHead(kinds: seq<LineKind>, pos: nat, h1: seq<Hit>, h2: seq<Hit>)
    requires IsFindIter(kinds, pos, h1) && IsFindIter(kinds, pos, h2)
    requires h1 != [] && h2 != []
    ensures h1[0] == h2[0]
  {
    var a, b := h1[0], h2[0];
    assert IsMatch(kinds, a.start, a.m) && IsMatch(kinds, b.start, b.m);
    assert a.start == b.start;
    MatchAtComplete(kinds, a.start, a.m);
    MatchAtComplete(kinds, b.start, b.m);
  }

  lemma HeadTail<T>(s: seq<T>)
    requires s != []
    ensures s == [s[0]] + s[1..]
  {
  }

  /** `Scan` is exactly what `finditer` yields. */
  lemma ScanIsTheFindIter(kinds: seq<LineKind>, pos: nat, hits: seq<Hit>)
    ensures IsFindIter(kinds, pos, hits) <==> hits == Scan(kinds, pos)
  {
    ScanIsFindIter(kinds, pos);
    if IsFindIter(kinds, pos, hits) {
      FindIterUnique(kinds, pos, hits, Scan(kinds, pos));
    }
  }

  // ---------------------------------------------------------------------
  // The reference scan
  // ---------------------------------------------------------------------

  datatype RefInfo = RefInfo(reference: string, location: string, system: string)

  const NoReference := RefInfo("", "", "")

  /** `min(start_idx + 100, len(lines))`. */
  function WindowEnd(start: nat, n: nat): (hi: nat)
    ensures hi <= n && hi <= start + ReferenceWindow
    ensures hi == n || hi == start + ReferenceWindow
  {
    if start + ReferenceWindow <= n then start + ReferenceWindow else n
  }

  /** Which lines are reference lines. */
  function RefFlags(lines: seq<string>): (flags: seq<bool>)
    ensures |flags| == |lines|
    ensures forall k {:trigger flags[k]} :: 0 <= k < |lines| ==> flags[k] == IsReferenceLine(lines[k])
  {
    seq(|lines|, k requires 0 <= k < |lines| => IsReferenceLine(lines[k]))
  }

  /** The first flagged line in `[j, hi)`, if any. */
  function FirstReference(flags: seq<bool>, j: nat, hi: nat): (r: Option<nat>)
    requires hi <= |flags|
    ensures r.Some? ==> j <= r.value < hi && flags[r.value]
    ensures r.Some? ==> forall k :: j <= k < r.value ==> !flags[k]
    ensures r.None? ==> forall k :: j <= k < hi ==> !flags[k]
    decreases hi - j
  {
    if j >= hi then None
    else if flags[j] then Some(j)
    else FirstReference(flags, j + 1, hi)
  }

  /** The search only looks at the flags of `[j, hi)`. */
  lemma {:induction false} FirstReferenceAgree(f1: seq<bool>, f2: seq<bool>, j: nat, hi: nat)
    requires hi <= |f1| && hi <= |f2|
    requires forall k :: j <= k < hi ==> f1[k] == f2[k]
    ensures FirstReference(f1, j, hi) == FirstReference(f2, j, hi)
    decreases hi - j
  {
    if j < hi {
      FirstReferenceAgree(f1, f2, j + 1, hi);
    }
  }

  /** The three stripped lines before line `j`, or all empty when `j < 3`. */
  function RefAt(lines: seq<string>, j: nat): RefInfo
    requires j <= |lines|
  {
    if j >= 3 then RefInfo(Strip(lines[j - 3]), Strip(lines[j - 2]), Strip(lines[j - 1]))
    else NoReference
  }

  /**
   * Reference, location and system for a match starting at line `start`:
   * taken from the first reference line of the window, all empty when the
   * window has none.
   */
  function ReferenceFor(lines: seq<string>, start: nat): RefInfo {
    match FirstReference(RefFlags(lines), start, WindowEnd(start, |lines|))
    case None => NoReference
    case Some(j) => RefAt(lines, j)
  }

  /**
   * `ReferenceFor` stated on the text: with no reference line in the window
   * all three fields are empty; otherwise the first one decides, through
   * the three lines before it.
   */
  lemma ReferenceForSpec(lines: seq<string>, start: nat)
    ensures (forall k :: start <= k < WindowEnd(start, |lines|) ==> !IsReferenceLine(lines[k]))
              ==> ReferenceFor(lines, start) == NoReference
    ensures forall j ::
              && start <= j < WindowEnd(start, |lines|)
              && IsReferenceLine(lines[j])
              && (forall k :: start <= k < j ==> !IsReferenceLine(lines[k]))
              ==> ReferenceFor(lines, start) == RefAt(lines, j)
  {
    var hi := WindowEnd(start, |lines|);
    var flags := RefFlags(lines);
    forall k | start <= k < hi
      ensures flags[k] == IsReferenceLine(lines[k])
    {
    }
    match FirstReference(flags, start, hi)
    case None =>
    case Some(j) =>
      forall j' | start <= j' < hi && IsReferenceLine(lines[j']) && (forall k :: start <= k < j' ==> !IsReferenceLine(lines[k]))
        ensures j' == j
      {
        assert flags[j'] && flags[j];
      }
  }

  /** Lines past the 100-line window are never consulted. */
  lemma ReferenceForWindow(lines: seq<string>, start: nat)
    ensures ReferenceFor(lines, start) == ReferenceFor(lines[..WindowEnd(start, |lines|)], start)
  {
    var hi := WindowEnd(start, |lines|);
    var cut := lines[..hi];
    assert WindowEnd(start, |cut|) == hi;
    var flags, cutFlags := RefFlags(lines), RefFlags(cut);
    forall k | start <= k < hi
      ensures flags[k] == cutFlags[k]
    {
      assert cut[k] == lines[k];
    }
    FirstReferenceAgree(flags, cutFlags, start, hi);
    match FirstReference(flags, start, hi)
    case None =>
    case Some(j) =>
      if j >= 3 {
        assert cut[j - 3] == lines[j - 3] && cut[j - 2] == lines[j - 2] && cut[j - 1] == lines[j - 1];
      }
  }

  lemma ReferenceForAt(lines: seq<string>, start: nat, j: nat)
    requires FirstReference(RefFlags(lines), start, WindowEnd(start, |lines|)) == Some(j)
    ensures j < |lines| && ReferenceFor(lines, start) == RefAt(lines, j)
  {
  }

  lemma ReferenceForNone(lines: seq<string>, start: nat)
    requires FirstReference(RefFlags(lines), start, WindowEnd(start, |lines|)) == None
    ensures ReferenceFor(lines, start) == NoReference
  {
  }

  /** The `for ... else` scan of app.py lines 37-47, with its `break`. */
  method LookupReference(lines: seq<string>, start: nat) returns (info: RefInfo)
    ensures info == ReferenceFor(lines, start)
  {
    ghost var flags := RefFlags(lines);
    var hi := WindowEnd(start, |lines|);
    var j := start;
    while j < hi
      invariant start <= j && (j <= hi || j == start)
      invariant FirstReference(flags, j, hi) == FirstReference(flags, start, hi)
      decreases hi - j
    {
      assert flags[j] == IsReferenceLine(lines[j]);
      if IsReferenceLine(lines[j]) {
        ReferenceForAt(lines, start, j);
        info := RefAt(lines, j);
        return;
      }
      j := j + 1;
    }
    ReferenceForNone(lines, start);
    info := NoReference;
  }

  // ---------------------------------------------------------------------
  // The blocks
  // ---------------------------------------------------------------------

  /**
   * One row of the table: the fields read from the sheet and the four
   * fields the user fills in (`width`, `height`, `location_input`, `remarks`).
   */
  datatype SalesBlock = SalesBlock(
    salesLine: string,
    orderWidth: int,
    orderHeight: int,
    reference: string,
    location: string,
    system: string,
    width: Option<int>,
    height: Option<int>,
    locationInput: string,
    remarks: string)

  /** What the row of a match needs: its height and width fields are numbers. */
  predicate ValidHit(lines: seq<string>, h: Hit) {
    && h.m.sales < |lines| && h.m.height < |lines| && h.m.width < |lines|
    && IsDimensionLine(lines[h.m.height]) && IsDimensionLine(lines[h.m.width])
  }

  lemma MatchIsValidHit(lines: seq<string>, h: Hit)
    requires IsMatch(Kinds(lines), h.start, h.m)
    ensures ValidHit(lines, h)
  {
    var kinds := Kinds(lines);
    assert kinds[h.m.height] == Classify(lines[h.m.height]);
    assert kinds[h.m.width] == Classify(lines[h.m.width]);
  }

  lemma ScanHitsValid(lines: seq<string>)
    ensures forall k :: 0 <= k < |Scan(Kinds(lines), 0)| ==> ValidHit(lines, Scan(Kinds(lines), 0)[k])
  {
    var hits := Scan(Kinds(lines), 0);
    ScanHitsMatch(Kinds(lines), 0);
    forall k | 0 <= k < |hits| ensures ValidHit(lines, hits[k]) {
      MatchIsValidHit(lines, hits[k]);
    }
  }

  /**
   * The row for one match.  The first number after the quantity is the
   * order height and the second the order width.
   */
  function NewBlock(lines: seq<string>, h: Hit, info: RefInfo): SalesBlock
    requires ValidHit(lines, h)
  {
    SalesBlock(
      Strip(lines[h.m.sales]),
      DecimalValue(Strip(lines[h.m.width])),
      DecimalValue(Strip(lines[h.m.height])),
      info.reference, info.location, info.system,
      None, None, "", "")
  }

  function BlockAt(lines: seq<string>, h: Hit): SalesBlock
    requires ValidHit(lines, h)
  {
    NewBlock(lines, h, ReferenceFor(lines, h.start))
  }

  /** The list `extract_sales_blocks` returns: one row per match, in text order. */
  function SalesBlocks(lines: seq<string>): seq<SalesBlock> {
    var hits := Scan(Kinds(lines), 0);
    ScanHitsValid(lines);
    seq(|hits|, k requires 0 <= k < |hits| => BlockAt(lines, hits[k]))
  }

  /**
   * One block per match of `Scan`, in text order, with the fields read as
   * the pattern's groups say and the user's fields still empty.
   */
  lemma SalesBlockFields(lines: seq<string>, k: nat)
    requires k < |Scan(Kinds(lines), 0)|
    ensures |SalesBlocks(lines)| == |Scan(Kinds(lines), 0)|
    ensures var h := Scan(Kinds(lines), 0)[k];
            var b := SalesBlocks(lines)[k];
            && IsPatternAt(lines, h.start, h.m)
            && b.salesLine == Strip(lines[h.m.sales])
            && |b.salesLine| == 4 && b.salesLine[0] == '0' && IsDigits(b.salesLine)
            && b.orderHeight == DecimalValue(Strip(lines[h.m.height]))
            && b.orderWidth == DecimalValue(Strip(lines[h.m.width]))
            && 0 <= b.orderHeight <= 9999 && 0 <= b.orderWidth <= 9999
            && RefInfo(b.reference, b.location, b.system) == ReferenceFor(lines, h.start)
            && b.width == None && b.height == None
            && b.locationInput == "" && b.remarks == ""
  {
    var hits := Scan(Kinds(lines), 0);
    var h := hits[k];
    ScanHitsMatch(Kinds(lines), 0);
    IsMatchOnText(lines, h.start, h.m);
    DecimalValueBound(Strip(lines[h.m.height]));
    DecimalValueBound(Strip(lines[h.m.width]));
  }

  lemma SalesBlocksLength(lines: seq<string>)
    ensures |SalesBlocks(lines)| == |Scan(Kinds(lines), 0)|
  {
  }

  lemma SalesBlocksAt(lines: seq<string>, k: nat)
    requires k < |Scan(Kinds(lines), 0)|
    ensures |SalesBlocks(lines)| == |Scan(Kinds(lines), 0)|
    ensures ValidHit(lines, Scan(Kinds(lines), 0)[k])
    ensures SalesBlocks(lines)[k] == BlockAt(lines, Scan(Kinds(lines), 0)[k])
  {
    ScanHitsValid(lines);
  }

  lemma PrefixExtend<T>(s: seq<T>, k: nat)
    requires k < |s|
    ensures s[..k] + [s[k]] == s[..k + 1]
  {
  }

  lemma ScanMissAt(kinds: seq<LineKind>, pos: nat)
    requires pos < |kinds| && MatchAt(kinds, pos).None?
    ensures Scan(kinds, pos) == Scan(kinds, pos + 1)
  {
  }

  /** Appending the next hit's block extends the prefix of `SalesBlocks`. */
  lemma BlocksStep(lines: seq<string>, blocks: seq<SalesBlock>, k: nat)
    requires k < |Scan(Kinds(lines), 0)| && blocks == SalesBlocks(lines)[..k]
    ensures ValidHit(lines, Scan(Kinds(lines), 0)[k])
    ensures blocks + [BlockAt(lines, Scan(Kinds(lines), 0)[k])] == SalesBlocks(lines)[..k + 1]
  {
    SalesBlocksAt(lines, k);
    PrefixExtend(SalesBlocks(lines), k);
  }

  /** A match at `pos` is the next one found; the search goes on after it. */
  lemma FindIterHit(kinds: seq<LineKind>, all: seq<Hit>, hits: seq<Hit>, pos: nat, m: Match)
    requires pos < |kinds| && hits + Scan(kinds, pos) == all
    requires MatchAt(kinds, pos) == Some(m)
    ensures pos < m.width + 1 <= |kinds|
    ensures (hits + [Hit(pos, m)]) + Scan(kinds, m.width + 1) == all
  {
    ScanAtHit(kinds, pos, m);
    AppendAssoc(hits, [Hit(pos, m)], Scan(kinds, m.width + 1));
  }

  lemma ScanAtHit(kinds: seq<LineKind>, pos: nat, m: Match)
    requires pos < |kinds| && MatchAt(kinds, pos) == Some(m)
    ensures Scan(kinds, pos) == [Hit(pos, m)] + Scan(kinds, m.width + 1)
  {
  }

  lemma AppendAssoc<T>(a: seq<T>, b: seq<T>, c: seq<T>)
    ensures (a + b) + c == a + (b + c)
  {
  }

  /** No match at `pos`: the search goes on at the next line. */
  lemma FindIterMiss(kinds: seq<LineKind>, all: seq<Hit>, hits: seq<Hit>, pos: nat)
    requires pos < |kinds| && hits + Scan(kinds, pos) == all
    requires MatchAt(kinds, pos).None?
    ensures hits + Scan(kinds, pos + 1) == all
  {
    ScanMissAt(kinds, pos);
  }

  /** `pattern.finditer(text)`: the matches from the top of the text, in order. */
  method FindIter(kinds: seq<LineKind>) returns (hits: seq<Hit>)
    ensures hits == Scan(kinds, 0)
  {
    ghost var all := Scan(kinds, 0);
    hits := [];
    var pos: nat := 0;
    while pos < |kinds|
      invariant pos <= |kinds|
      invariant hits + Scan(kinds, pos) == all
      decreases |kinds| - pos
    {
      var found := MatchAt(kinds, pos);
      if found.Some? {
        var m := found.value;
        FindIterHit(kinds, all, hits, pos, m);
        hits := hits + [Hit(pos, m)];
        pos := m.width + 1;
      } else {
        FindIterMiss(kinds, all, hits, pos);
        pos := pos + 1;
      }
    }
    assert hits + [] == hits;
  }

  /** `extract_sales_blocks` on the lines of the document's text. */
  method ExtractSalesBlocks(lines: seq<string>) returns (blocks: seq<SalesBlock>)
    ensures blocks == SalesBlocks(lines)
  {
    var hits := FindIter(Kinds(lines));
    SalesBlocksLength(lines);
    blocks := [];
    for i := 0 to |hits|
      invariant blocks == SalesBlocks(lines)[..i]
    {
      BlocksStep(lines, blocks, i);
      var info := LookupReference(lines, hits[i].start);
      blocks := blocks + [NewBlock(lines, hits[i], info)];
    }
    assert SalesBlocks(lines)[..|hits|] == SalesBlocks(lines);
  }
}
