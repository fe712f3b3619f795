/**
 * Where a batch's date comes from: the progress file written by the
 * scraper, a date range given by hand, a date-named column of the batch,
 * or the `Unknown_<n>` fallback.
 */
module Dates {
  import opened Base
  import opened Strings
  import opened Frames

  // ---------------------------------------------------------------------------
  // The progress file

  /** The lines of a file together give back its text. */
  function Concat(lines: seq<string>): string {
    if lines == [] then [] else lines[0] + Concat(lines[1..])
  }

  /**
   * Pieces cut as `readlines` cuts them: none is empty, each holds a
   * newline only as its last character, and every piece but the last ends
   * in one.
   */
  predicate WholeLines(lines: seq<string>) {
    (forall i :: 0 <= i < |lines| ==> lines[i] != [] && '\n' !in lines[i][..|lines[i]| - 1])
    && (forall i :: 0 <= i < |lines| - 1 ==> lines[i][|lines[i]| - 1] == '\n')
  }

  /**
   * `f.readlines()` on text whose line endings are already "\n" (a file
   * opened in text mode has "\r" and "\r\n" translated on reading): the
   * text cut after every newline; each line keeps its newline, and the last
   * line has none when the text does not end in one.
   */
  function ReadLines(text: string): (lines: seq<string>)
    ensures Concat(lines) == text && WholeLines(lines)
    decreases |text|
  {
    if text == [] then []
    else if '\n' in text then
      var i := FirstIndex(text, '\n');
      var head, rest := text[..i + 1], ReadLines(text[i + 1..]);
      assert text == head + text[i + 1..];
      assert head[|head| - 1] == '\n' && head[..|head| - 1] == text[..i];
      LinesCons(head, rest);
      [head] + rest
    else
      assert [text][1..] == [];
      [text]
  }

  /** A whole line put in front of whole lines keeps them whole lines, and their text grows by that line. */
  lemma LinesCons(head: string, rest: seq<string>)
    requires head != [] && head[|head| - 1] == '\n' && '\n' !in head[..|head| - 1]
    requires WholeLines(rest)
    ensures Concat([head] + rest) == head + Concat(rest) && WholeLines([head] + rest)
  {
    var lines := [head] + rest;
    assert lines[0] == head && lines[1..] == rest;
    assert forall j :: 1 <= j < |lines| ==> lines[j] == rest[j - 1];
  }

  /** Every line stripped, in order. */
  function StripAll(lines: seq<string>): (r: seq<string>)
    ensures |r| == |lines|
    ensures forall i :: 0 <= i < |r| ==> r[i] == Strip(lines[i]) && Stripped(r[i])
  {
    seq(|lines|, i requires 0 <= i < |lines| => Strip(lines[i]))
  }

  /** Line 89: every line of the progress file, stripped. */
  function ProgressDates(text: string): seq<string> {
    StripAll(ReadLines(text))
  }

  /** What `save_progress` writes: each date on a line of its own. */
  function ProgressText(dates: seq<string>): string {
    if dates == [] then [] else dates[0] + "\n" + ProgressText(dates[1..])
  }

  /**
   * The mapping `load_progress_file` builds: file number `i` (from 1) to
   * line `i`, for the files that exist. `progress` is the text of
   * progress.txt, or None when there is no such file.
   */
  function ProgressMapping(progress: Option<string>, present: set<nat>): (m: map<nat, string>)
    ensures progress.None? ==> m == map[]
    ensures forall i :: i in m ==> 1 <= i && i in present && Stripped(m[i])
  {
    match progress
    case None => map[]
    case Some(text) => ExistingLines(ProgressDates(text), present)
  }

  /** Line `i` (from 1) of `dates` for each existing file `i`. */
  function ExistingLines(dates: seq<string>, present: set<nat>): (m: map<nat, string>)
    ensures forall i :: i in m <==> 1 <= i <= |dates| && i in present
    ensures forall i :: i in m ==> m[i] == dates[i - 1]
  {
    map i | 1 <= i <= |dates| && i in present :: dates[i - 1]
  }

  /** Lines 92-94: line `i` (from 1) of `dates` mapped to file `i`, for every file that exists. */
  method MapExisting(dates: seq<string>, present: set<nat>) returns (m: map<nat, string>)
    ensures forall i :: i in m <==> 1 <= i <= |dates| && i in present
    ensures forall i :: i in m ==> 1 <= i <= |dates| && m[i] == dates[i - 1]
  {
    m := map[];
    for i := 1 to |dates| + 1
      invariant forall k :: k in m <==> 1 <= k < i && k in present
      invariant forall k :: k in m ==> 1 <= k < i && m[k] == dates[k - 1]
    {
      if i in present {
        m := m[i := dates[i - 1]];
      }
    }
  }

  /** `load_progress_file()`, with the file system given as the text of progress.txt and the set of existing file numbers. */
  method LoadProgressFile(progress: Option<string>, present: set<nat>) returns (m: map<nat, string>)
    ensures progress.None? ==> m == map[]
    ensures progress.Some? ==>
              var dates := ProgressDates(progress.value);
              (forall i :: i in m <==> 1 <= i <= |dates| && i in present)
              && (forall i :: i in m ==> 1 <= i <= |dates| && m[i] == dates[i - 1])
    ensures m == ProgressMapping(progress, present)
  {
    if progress.None? {
      return map[];
    }
    var dates := ProgressDates(progress.value);
    m := MapExisting(dates, present);
    MapsEqual(m, ExistingLines(dates, present));
  }

  // ---------------------------------------------------------------------------
  // The date range

  /**
   * The number of files `races1.csv`, `races2.csv`, ... that exist one
   * after the other from the first, counting no further than `n`.
   */
  function LeadingRun(present: set<nat>, n: nat): (k: nat)
    ensures k <= n
    ensures forall i :: 1 <= i <= k ==> i in present
    ensures k < n ==> k + 1 !in present
  {
    if n == 0 then 0
    else
      var k := LeadingRun(present, n - 1);
      if k == n - 1 && n in present then n else k
  }

  /** Files 1 to `k`, each mapped to its date in `dates`. */
  function FirstDates(dates: seq<string>, k: nat): (m: map<nat, string>)
    requires k <= |dates|
    ensures forall i :: i in m <==> 1 <= i <= k
    ensures forall i :: i in m ==> 1 <= i <= |dates| && m[i] == dates[i - 1]
  {
    if k == 0 then map[] else FirstDates(dates, k - 1)[k := dates[k - 1]]
  }

  /** The mapping of the range variant: the first dates, one to each of the leading files. */
  function RangeMapping(dates: seq<string>, present: set<nat>): (m: map<nat, string>)
    ensures forall i :: i in m <==> 1 <= i <= LeadingRun(present, |dates|)
    ensures forall i :: i in m ==> i in present && 1 <= i <= |dates| && m[i] == dates[i - 1]
  {
    FirstDates(dates, LeadingRun(present, |dates|))
  }

  /** Two maps with the same keys and the same value at every key are equal. */
  lemma MapsEqual(a: map<nat, string>, b: map<nat, string>)
    requires forall k :: k in a <==> k in b
    requires forall k :: k in a ==> a[k] == b[k]
    ensures a == b
  {
  }

  /**
   * The mapping loop of `process_with_date_range`: a date is given to the
   * file the counter points at when it exists, and the counter then moves
   * on; it never moves past a missing file.
   */
  method DateRangeMapping(dates: seq<string>, present: set<nat>) returns (m: map<nat, string>)
    ensures forall i :: i in m <==> 1 <= i <= LeadingRun(present, |dates|)
    ensures forall i :: i in m ==> 1 <= i <= |dates| && m[i] == dates[i - 1]
    ensures m == RangeMapping(dates, present)
  {
    m := map[];
    var fileCount := 1;
    for j := 0 to |dates|
      invariant fileCount == LeadingRun(present, j) + 1
      invariant forall i :: i in m <==> 1 <= i < fileCount
      invariant forall i :: i in m ==> 1 <= i <= j && m[i] == dates[i - 1]
    {
      if fileCount in present {
        m := m[fileCount := dates[j]];
        fileCount := fileCount + 1;
      }
    }
    MapsEqual(m, RangeMapping(dates, present));
  }

  // ---------------------------------------------------------------------------
  // The date of one batch

  /** The column name mentions a date: `'date' in str(col).lower()`. */
  predicate NamesDate(col: string) {
    IsSubstring("date", Lower(col))
  }

  /** The position of the first column whose name mentions a date. */
  function FirstDateColumn(columns: seq<string>): (r: Option<nat>)
    ensures r.Some? ==> r.value < |columns| && NamesDate(columns[r.value])
    ensures r.Some? ==> forall k :: 0 <= k < r.value ==> !NamesDate(columns[k])
    ensures r.None? ==> forall k :: 0 <= k < |columns| ==> !NamesDate(columns[k])
  {
    if columns == [] then None
    else if NamesDate(columns[0]) then Some(0)
    else match FirstDateColumn(columns[1..])
      case None => None
      case Some(k) => Some(k + 1)
  }

  /**
   * `extract_date_from_csv(df)`: the first cell of the first column whose
   * name mentions a date; None when there is no such column or no row.
   */
  function ExtractDate(t: Table): (r: Option<Cell>)
    requires WellFormed(t)
    ensures r.Some? <==> FirstDateColumn(t.columns).Some? && !IsEmpty(t)
    ensures r.Some? ==> var k := FirstDateColumn(t.columns).value;
                        t.columns[k] in t.columns && r.value == Column(t, t.columns[k])[0]
  {
    match FirstDateColumn(t.columns)
    case None => None
    case Some(k) =>
      if IsEmpty(t) then None
      else
        var name := t.columns[k];
        IndexOfAt(t.columns, name, k);
        Some(Column(t, name)[0])
  }

  /** `f"Unknown_{file_num}"`. */
  function UnknownDate(n: nat): (d: string)
    ensures |d| > 8 && d[..8] == "Unknown_" && d[8..] == NatToString(n)
  {
    "Unknown_" + NatToString(n)
  }

  /**
   * Lines 136-146 of `main`: the mapped date when the file number is
   * mapped, else the extracted value when it is truthy, else the fallback.
   */
  function LookupDate(mapping: map<nat, string>, n: nat, t: Table): (d: Cell)
    requires WellFormed(t)
    ensures n in mapping ==> d == Text(mapping[n])
    ensures n !in mapping ==> Truthy(d)
    ensures n !in mapping ==> d == Text(UnknownDate(n)) || (ExtractDate(t).Some? && d == ExtractDate(t).value)
    ensures n !in mapping && ExtractDate(t).Some? && Truthy(ExtractDate(t).value) ==> d == ExtractDate(t).value
    ensures n !in mapping && (ExtractDate(t).None? || !Truthy(ExtractDate(t).value)) ==> d == Text(UnknownDate(n))
  {
    if n in mapping then Text(mapping[n])
    else
      match ExtractDate(t)
      case Some(c) => if Truthy(c) then c else Text(UnknownDate(n))
      case None => Text(UnknownDate(n))
  }

  /** Lines 255-260 of `main_with_custom_mapping`: the mapped date, else the fallback; the batch is not searched. */
  function MappedDate(mapping: map<nat, string>, n: nat): (d: Cell)
    ensures n in mapping ==> d == Text(mapping[n])
    ensures n !in mapping ==> d == Text(UnknownDate(n)) && Truthy(d)
  {
    if n in mapping then Text(mapping[n]) else Text(UnknownDate(n))
  }

  // ---------------------------------------------------------------------------
  // Lemmas

  /** A line with no newline in it, then a newline, is read as one line. */
  lemma ReadLinesCons(d: string, rest: string)
    requires '\n' !in d
    ensures ReadLines(d + "\n" + rest) == [d + "\n"] + ReadLines(rest)
  {
    var text := d + "\n" + rest;
    assert text == d + ['\n'] + rest;
    FirstIndexAfter(d, '\n', rest);
    assert text[..|d| + 1] == d + "\n";
    assert text[|d| + 1..] == rest;
  }

  /** The stripped lines of a text that starts with a whole line. */
  lemma ProgressDatesCons(d: string, rest: string)
    requires '\n' !in d
    ensures ProgressDates(d + "\n" + rest) == [Strip(d + "\n")] + ProgressDates(rest)
  {
    ReadLinesCons(d, rest);
    StripAllCons(d + "\n", ReadLines(rest));
  }

  lemma StripAllCons(line: string, lines: seq<string>)
    ensures StripAll([line] + lines) == [Strip(line)] + StripAll(lines)
  {
    assert forall i :: 1 <= i <= |lines| ==> ([line] + lines)[i] == lines[i - 1];
  }

  /** A stripped date followed by its newline strips back to the date. */
  lemma StripLine(d: string)
    requires Stripped(d)
    ensures Strip(d + "\n") == d
  {
    StripTrailingSpace(d, '\n');
    StripStripped(d);
    assert d + "\n" == d + ['\n'];
  }

  /** The text `save_progress` writes for dates that are stripped and hold no newline reads back as those dates. */
  lemma {:induction false} ProgressRoundTrip(dates: seq<string>)
    requires forall i :: 0 <= i < |dates| ==> Stripped(dates[i]) && '\n' !in dates[i]
    ensures ProgressDates(ProgressText(dates)) == dates
  {
    if dates != [] {
      var d, rest := dates[0], ProgressText(dates[1..]);
      assert ProgressText(dates) == d + "\n" + rest;
      ProgressDatesCons(d, rest);
      StripLine(d);
      ProgressRoundTrip(dates[1..]);
      assert dates == [d] + dates[1..];
    }
  }

  /**
   * The range mapping's keys are exactly 1..K with no gap, where K is the
   * length of the leading run of existing files (at most the number of
   * dates); a missing file ends the mapping even when later files exist.
   */
  lemma RangeStopsAtGap(dates: seq<string>, present: set<nat>, gap: nat)
    requires 1 <= gap <= |dates| && gap !in present
    ensures forall i :: i in RangeMapping(dates, present) ==> i < gap
  {
    var k := LeadingRun(present, |dates|);
    assert gap <= k ==> gap in present;
  }

  /** The fallback date tells the files apart: two files get the same one only when they have the same number. */
  lemma UnknownDateInjective(m: nat, n: nat)
    requires UnknownDate(m) == UnknownDate(n)
    ensures m == n
  {
    assert NatToString(m) == UnknownDate(m)[8..];
    NatToStringInjective(m, n);
  }

  /**
   * With only file 1 mapped, to 29/12/2019, and a batch without a
   * date-named column: file 1 gets the mapped date, file 2 `Unknown_2`.
   */
  lemma MappedOrUnknownExample(t: Table)
    requires WellFormed(t) && FirstDateColumn(t.columns).None?
    ensures LookupDate(map[1 := "29/12/2019"], 1, t) == Text("29/12/2019")
    ensures LookupDate(map[1 := "29/12/2019"], 2, t) == Text("Unknown_2")
  {
    assert NatToString(2) == "2";
  }

  lemma RaceNotDate()
    ensures !NamesDate("race")
  {
    assert Lower("race") == "race";
    assert !IsSubstring("date", "");
    assert !IsSubstring("date", "e");
    assert !IsSubstring("date", "ce");
    assert !IsSubstring("date", "ace");
    assert "race"[1..] == "ace" && "race"[..4][0] != "date"[0];
  }

  lemma RaceDateIsDate()
    ensures NamesDate("Race Date")
  {
    assert Lower("Race Date") == "race date";
    assert "race date"[5..][..4] == "date";
  }

  /**
   * An unmapped file whose batch has a date-named column, not the first,
   * takes the first cell of that column when it is non-empty.
   */
  lemma ExtractedDateExample()
    ensures var t := Table(["race", "Race Date"], [[Text("RACE 1 (284)"), Text("29/12/2019")]]);
            LookupDate(map[1 := "28/12/2019"], 3, t) == Text("29/12/2019")
  {
    RaceNotDate();
    RaceDateIsDate();
    var t := Table(["race", "Race Date"], [[Text("RACE 1 (284)"), Text("29/12/2019")]]);
    assert FirstDateColumn(t.columns) == Some(1) by {
      assert t.columns[1..] == ["Race Date"];
    }
  }

  /** When that cell is the empty string, which is falsy, the file gets `Unknown_<n>`. */
  lemma EmptyDateExample()
    ensures var t := Table(["Race Date"], [[Text("")]]);
            LookupDate(map[], 3, t) == Text("Unknown_3")
  {
    RaceDateIsDate();
    assert NatToString(3) == "3";
  }

  /** With neither a mapping nor a date-named column, both drivers fall back to the same `Unknown_<n>`. */
  lemma FallbackAgrees(mapping: map<nat, string>, n: nat, t: Table)
    requires WellFormed(t) && n !in mapping && FirstDateColumn(t.columns).None?
    ensures LookupDate(mapping, n, t) == MappedDate(mapping, n) == Text(UnknownDate(n))
  {
  }
}
