/**
 * The ingestion drivers `main` and `main_with_custom_mapping`: every race
 * file in numeric order, each turned into a cleaned, dated batch tagged
 * with its path, or skipped; then the batches combined.
 */
module Ingest {
  import opened Base
  import opened Strings
  import opened Frames
  import opened Cleaner
  import opened Dates
  import opened Files

  /** Where a batch's date comes from: the mapping then the batch itself (`main`), or the mapping only (`main_with_custom_mapping`). */
  datatype DateRule = LookupInBatch | MappingOnly

  /**
   * When the date column is added: before cleaning, as both drivers do, or
   * after it, so that the positional renaming cannot take it.
   */
  datatype Order = DateFirst | CleanFirst

  /** What a driver returns: None, the combined batches, or an exception that escapes it. */
  datatype RunResult = NoResult | Combined(batches: seq<Table>) | Raises

  /** What `read_csv` gives for a file is a table with one cell per column in every row. */
  predicate CsvOk(f: CsvFile) {
    f.table.Some? ==> WellFormed(f.table.value)
  }

  predicate Readable(files: seq<CsvFile>) {
    forall i :: 0 <= i < |files| ==> CsvOk(files[i])
  }

  /** Some batch has a `date` column; `df['date']` on their concatenation raises otherwise. */
  predicate HasDate(batches: seq<Table>) {
    exists i :: 0 <= i < |batches| && "date" in batches[i].columns
  }

  function DateFor(rule: DateRule, mapping: map<nat, string>, n: nat, t: Table): Cell
    requires WellFormed(t)
  {
    match rule
    case LookupInBatch => LookupDate(mapping, n, t)
    case MappingOnly => MappedDate(mapping, n)
  }

  /**
   * One batch made from a non-empty table: the date broadcast into a `date`
   * column, the table cleaned, and the path broadcast into `source_file`;
   * with `CleanFirst`, the date column is added after the cleaning.
   */
  function Batch(t: Table, date: Cell, path: string, order: Order): (b: Table)
    requires WellFormed(t) && !IsEmpty(t)
    ensures WellFormed(b) && |b.rows| == |t.rows|
    ensures "source_file" in b.columns && Column(b, "source_file") == Broadcast(Text(path), |t.rows|)
  {
    var n := |t.rows|;
    match order
    case DateFirst =>
      Assign(CleanTable(Assign(t, "date", Broadcast(date, n))), "source_file", Broadcast(Text(path), n))
    case CleanFirst =>
      Assign(Assign(CleanTable(t), "date", Broadcast(date, n)), "source_file", Broadcast(Text(path), n))
  }

  /**
   * The loop body of lines 122-159 for one file: None where the file is
   * skipped (no file number, `read_csv` raising, an empty table), else the
   * batch.
   */
  function FileBatch(f: CsvFile, mapping: map<nat, string>, rule: DateRule, order: Order): (r: Option<Table>)
    requires CsvOk(f)
    ensures r.Some? <==> FileNum(f.path).Some? && f.table.Some? && !IsEmpty(f.table.value)
    ensures r.Some? ==> WellFormed(r.value) && |r.value.rows| == |f.table.value.rows|
  {
    var n := FileNum(f.path);
    if n.None? || f.table.None? || IsEmpty(f.table.value) then None
    else
      var t := f.table.value;
      Some(Batch(t, DateFor(rule, mapping, n.value, t), f.path, order))
  }

  /** The tables of the outcomes that are not None, in order. */
  function Somes(outcomes: seq<Option<Table>>): (ts: seq<Table>)
    ensures |ts| <= |outcomes|
  {
    if outcomes == [] then []
    else
      var last := outcomes[|outcomes| - 1];
      Somes(outcomes[..|outcomes| - 1]) + (if last.Some? then [last.value] else [])
  }

  /** What the loop body makes of each file. */
  function Outcomes(files: seq<CsvFile>, mapping: map<nat, string>, rule: DateRule, order: Order): (rs: seq<Option<Table>>)
    requires Readable(files)
    ensures |rs| == |files|
  {
    seq(|files|, i requires 0 <= i < |files| => FileBatch(files[i], mapping, rule, order))
  }

  /** `df_list` after the loop: the batches of the files that are not skipped, in file order. */
  function Accepted(files: seq<CsvFile>, mapping: map<nat, string>, rule: DateRule, order: Order): seq<Table>
    requires Readable(files)
  {
    Somes(Outcomes(files, mapping, rule, order))
  }

  /**
   * A driver run: the sort raises when a name has no digit; no files or no
   * accepted batch give None; `main`'s summary (`readsDate`) turns a
   * combination without a `date` column into None.
   */
  function Drive(files: seq<CsvFile>, mapping: map<nat, string>, rule: DateRule, order: Order, readsDate: bool): (r: RunResult)
    requires Readable(files)
    ensures r == Raises <==> !AllKeyed(files)
    ensures files == [] ==> r == NoResult
    ensures r.Combined? ==> r.batches != [] && (readsDate ==> HasDate(r.batches))
  {
    if !AllKeyed(files) then Raises
    else
      var sorted := SortFiles(files);
      ReadableSorted(files);
      if sorted == [] then NoResult
      else
        var batches := Accepted(sorted, mapping, rule, order);
        if batches == [] then NoResult
        else if readsDate && !HasDate(batches) then NoResult
        else Combined(batches)
  }

  /** The batches of a run: those of the files taken in numeric order. */
  function SortedBatches(files: seq<CsvFile>, mapping: map<nat, string>, rule: DateRule, order: Order): seq<Table>
    requires Readable(files) && AllKeyed(files)
  {
    ReadableSorted(files);
    Accepted(SortFiles(files), mapping, rule, order)
  }

  /** The result of `main()`. */
  function MainResult(progress: Option<string>, present: set<nat>, files: seq<CsvFile>): RunResult
    requires Readable(files)
  {
    Drive(files, ProgressMapping(progress, present), LookupInBatch, DateFirst, true)
  }

  /** The result of `main_with_custom_mapping(mapping)`. */
  function CustomResult(mapping: map<nat, string>, files: seq<CsvFile>): RunResult
    requires Readable(files)
  {
    Drive(files, mapping, MappingOnly, DateFirst, false)
  }

  /** The result of `main()` with the date column added after the cleaning. */
  function FixedMainResult(progress: Option<string>, present: set<nat>, files: seq<CsvFile>): RunResult
    requires Readable(files)
  {
    Drive(files, ProgressMapping(progress, present), LookupInBatch, CleanFirst, true)
  }

  // ---------------------------------------------------------------------------
  // The drivers

  /** One file, on a frame: read, dated, cleaned and tagged, or skipped. */
  method ProcessFile(f: CsvFile, mapping: map<nat, string>, rule: DateRule, order: Order) returns (b: Option<Table>)
    requires CsvOk(f)
    ensures b == FileBatch(f, mapping, rule, order)
  {
    var n := FileNum(f.path);
    if n.None? {
      return None;
    }
    if f.table.None? {
      return None;
    }
    var df := new Frame(f.table.value);
    if df.Empty() {
      return None;
    }
    var date := DateFor(rule, mapping, n.value, df.Value());
    if order == DateFirst {
      df.Set("date", Broadcast(date, |df.rows|));
      CleanRaceData(df);
    } else {
      CleanRaceData(df);
      df.Set("date", Broadcast(date, |df.rows|));
    }
    df.Set("source_file", Broadcast(Text(f.path), |df.rows|));
    b := Some(df.Value());
  }

  /** The loop over the sorted files, appending each accepted batch to the list. */
  method CollectBatches(files: seq<CsvFile>, mapping: map<nat, string>, rule: DateRule, order: Order)
    returns (batches: seq<Table>)
    requires Readable(files)
    ensures batches == Accepted(files, mapping, rule, order)
  {
    ghost var outcomes := Outcomes(files, mapping, rule, order);
    batches := [];
    for i := 0 to |files|
      invariant batches == Somes(outcomes[..i])
    {
      var b := ProcessFile(files[i], mapping, rule, order);
      SomesStep(outcomes, i);
      if b.Some? {
        batches := batches + [b.value];
      }
    }
    assert outcomes[..|files|] == outcomes;
  }

  /** Lines 113-193, after the mapping is built. */
  method Run(files: seq<CsvFile>, mapping: map<nat, string>, rule: DateRule, order: Order, readsDate: bool)
    returns (r: RunResult)
    requires Readable(files)
    ensures r == Drive(files, mapping, rule, order, readsDate)
  {
    if !AllKeyed(files) {
      return Raises;
    }
    var raceFiles := SortFiles(files);
    if |raceFiles| == 0 {
      return NoResult;
    }
    ReadableSorted(files);
    var batches := CollectBatches(raceFiles, mapping, rule, order);
    if |batches| == 0 {
      return NoResult;
    }
    if readsDate && !HasDate(batches) {
      return NoResult;
    }
    return Combined(batches);
  }

  /** `main()`: the progress-file mapping, then the run with the summary that reads the date column. */
  method RunMain(progress: Option<string>, present: set<nat>, files: seq<CsvFile>) returns (r: RunResult)
    requires Readable(files)
    ensures r == MainResult(progress, present, files)
  {
    var mapping := LoadProgressFile(progress, present);
    r := Run(files, mapping, LookupInBatch, DateFirst, true);
  }

  /** `main_with_custom_mapping(mapping)`. */
  method RunWithCustomMapping(mapping: map<nat, string>, files: seq<CsvFile>) returns (r: RunResult)
    requires Readable(files)
    ensures r == CustomResult(mapping, files)
  {
    r := Run(files, mapping, MappingOnly, DateFirst, false);
  }

  /** `process_with_date_range`, with the days of the range given as `dates`. */
  method ProcessWithDateRange(dates: seq<string>, present: set<nat>, files: seq<CsvFile>) returns (r: RunResult)
    requires Readable(files)
    ensures r == CustomResult(RangeMapping(dates, present), files)
  {
    var mapping := DateRangeMapping(dates, present);
    r := RunWithCustomMapping(mapping, files);
  }

  /** `main()` with the date column added after the cleaning. */
  method RunMainFixed(progress: Option<string>, present: set<nat>, files: seq<CsvFile>) returns (r: RunResult)
    requires Readable(files)
    ensures r == FixedMainResult(progress, present, files)
  {
    var mapping := LoadProgressFile(progress, present);
    r := Run(files, mapping, LookupInBatch, CleanFirst, true);
  }

  // ---------------------------------------------------------------------------
  // Lemmas

  /** Sorting keeps every file, so what was readable stays readable. */
  lemma ReadableSorted(files: seq<CsvFile>)
    requires Readable(files) && AllKeyed(files)
    ensures Readable(SortFiles(files))
  {
    var sorted := SortFiles(files);
    forall i | 0 <= i < |sorted|
      ensures CsvOk(sorted[i])
    {
      assert sorted[i] in multiset(sorted);
      assert sorted[i] in multiset(files);
      var j :| 0 <= j < |files| && files[j] == sorted[i];
    }
  }

  /** The outcomes of two runs of files kept apart. */
  lemma {:induction false} SomesAppend(a: seq<Option<Table>>, b: seq<Option<Table>>)
    ensures Somes(a + b) == Somes(a) + Somes(b)
    decreases |b|
  {
    if b == [] {
      assert a + b == a;
    } else {
      var b' := b[..|b| - 1];
      assert (a + b)[..|a + b| - 1] == a + b';
      SomesAppend(a, b');
    }
  }

  lemma SomesStep(outcomes: seq<Option<Table>>, i: nat)
    requires i < |outcomes|
    ensures Somes(outcomes[..i + 1]) == Somes(outcomes[..i]) + (if outcomes[i].Some? then [outcomes[i].value] else [])
  {
    assert outcomes[..i + 1][..i] == outcomes[..i];
  }

  lemma {:induction false} SomesNone(outcomes: seq<Option<Table>>)
    ensures Somes(outcomes) == [] <==> forall i :: 0 <= i < |outcomes| ==> outcomes[i].None?
  {
    if outcomes != [] {
      var init := outcomes[..|outcomes| - 1];
      SomesNone(init);
      assert forall i :: 0 <= i < |init| ==> init[i] == outcomes[i];
    }
  }

  lemma {:induction false} SomesFrom(outcomes: seq<Option<Table>>, j: nat)
    requires j < |Somes(outcomes)|
    ensures exists i :: 0 <= i < |outcomes| && outcomes[i] == Some(Somes(outcomes)[j])
  {
    var init := outcomes[..|outcomes| - 1];
    if j < |Somes(init)| {
      SomesFrom(init, j);
      var i :| 0 <= i < |init| && init[i] == Some(Somes(init)[j]);
      assert outcomes[i] == init[i];
    } else {
      assert outcomes[|outcomes| - 1] == Some(Somes(outcomes)[j]);
    }
  }

  lemma ReadableAppend(a: seq<CsvFile>, b: seq<CsvFile>)
    requires Readable(a + b)
    ensures Readable(a) && Readable(b)
  {
    assert forall i :: 0 <= i < |a| ==> (a + b)[i] == a[i];
    assert forall i :: 0 <= i < |b| ==> (a + b)[|a| + i] == b[i];
  }

  lemma OutcomesAppend(a: seq<CsvFile>, b: seq<CsvFile>, mapping: map<nat, string>, rule: DateRule, order: Order)
    requires Readable(a + b)
    ensures Readable(a) && Readable(b)
    ensures Outcomes(a + b, mapping, rule, order) == Outcomes(a, mapping, rule, order) + Outcomes(b, mapping, rule, order)
  {
    ReadableAppend(a, b);
    var l, r := Outcomes(a + b, mapping, rule, order), Outcomes(a, mapping, rule, order) + Outcomes(b, mapping, rule, order);
    forall i | 0 <= i < |l|
      ensures l[i] == r[i]
    {
      if i < |a| {
        assert (a + b)[i] == a[i];
      } else {
        assert (a + b)[i] == b[i - |a|];
      }
    }
  }

  /** The batches of two runs of files are the batches of the first followed by those of the second. */
  lemma AcceptedAppend(a: seq<CsvFile>, b: seq<CsvFile>, mapping: map<nat, string>, rule: DateRule, order: Order)
    requires Readable(a + b)
    ensures Readable(a) && Readable(b)
    ensures Accepted(a + b, mapping, rule, order) == Accepted(a, mapping, rule, order) + Accepted(b, mapping, rule, order)
  {
    OutcomesAppend(a, b, mapping, rule, order);
    SomesAppend(Outcomes(a, mapping, rule, order), Outcomes(b, mapping, rule, order));
  }

  /** A skipped file on its own contributes no batch. */
  lemma SkippedAlone(f: CsvFile, mapping: map<nat, string>, rule: DateRule, order: Order)
    requires CsvOk(f) && FileBatch(f, mapping, rule, order) == None
    ensures Readable([f]) && Accepted([f], mapping, rule, order) == []
  {
    var skipped: seq<Option<Table>> := [None];
    assert Outcomes([f], mapping, rule, order) == skipped;
    assert skipped[..0] == [];
  }

  lemma ReadableWithout(a: seq<CsvFile>, f: CsvFile, b: seq<CsvFile>)
    requires Readable(a + [f] + b)
    ensures Readable(a + b) && CsvOk(f)
  {
    var all := a + [f] + b;
    assert all[|a|] == f;
    forall i | 0 <= i < |a + b|
      ensures CsvOk((a + b)[i])
    {
      if i < |a| {
        assert (a + b)[i] == all[i];
      } else {
        assert (a + b)[i] == all[i + 1];
      }
    }
  }

  /** A skipped file leaves every other file's batch, before or after it, as it would have been. */
  lemma SkippedFile(a: seq<CsvFile>, f: CsvFile, b: seq<CsvFile>, mapping: map<nat, string>, rule: DateRule, order: Order)
    requires Readable(a + [f] + b) && CsvOk(f) && FileBatch(f, mapping, rule, order) == None
    ensures Readable(a + b)
    ensures Accepted(a + [f] + b, mapping, rule, order) == Accepted(a + b, mapping, rule, order)
  {
    ReadableWithout(a, f, b);
    AcceptedAppend(a + [f], b, mapping, rule, order);
    AcceptedAppend(a, [f], mapping, rule, order);
    SkippedAlone(f, mapping, rule, order);
    AcceptedAppend(a, b, mapping, rule, order);
  }

  /** The number of rows of the batches together: the length of their concatenation. */
  function RowCount(batches: seq<Table>): nat {
    if batches == [] then 0 else RowCount(batches[..|batches| - 1]) + |batches[|batches| - 1].rows|
  }

  /** The rows read from the files that are not skipped, file by file. */
  function ReadRows(files: seq<CsvFile>, mapping: map<nat, string>, rule: DateRule, order: Order): nat
    requires Readable(files)
  {
    if files == [] then 0
    else
      var f := files[|files| - 1];
      ReadableAppend(files[..|files| - 1], [f]);
      assert files[..|files| - 1] + [f] == files;
      ReadRows(files[..|files| - 1], mapping, rule, order)
      + (if FileBatch(f, mapping, rule, order).Some? then |f.table.value.rows| else 0)
  }

  /** The combined table has as many rows as the accepted files had when read: no row is lost or added. */
  lemma {:induction false} AcceptedRows(files: seq<CsvFile>, mapping: map<nat, string>, rule: DateRule, order: Order)
    requires Readable(files)
    ensures RowCount(Accepted(files, mapping, rule, order)) == ReadRows(files, mapping, rule, order)
  {
    if files != [] {
      var init, f := files[..|files| - 1], files[|files| - 1];
      assert init + [f] == files;
      AcceptedAppend(init, [f], mapping, rule, order);
      AcceptedRows(init, mapping, rule, order);
      var outs := Outcomes([f], mapping, rule, order);
      assert outs == [FileBatch(f, mapping, rule, order)];
      assert outs[..0] == [];
      var last := Accepted([f], mapping, rule, order);
      RowCountAppend(Accepted(init, mapping, rule, order), last);
    }
  }

  lemma RowCountAppend(a: seq<Table>, b: seq<Table>)
    requires |b| <= 1
    ensures RowCount(a + b) == RowCount(a) + RowCount(b)
  {
    if b == [] {
      assert a + b == a;
    } else {
      assert (a + b)[..|a + b| - 1] == a;
      assert b[..0] == [];
    }
  }

  /** No batch is accepted exactly when every file is skipped. */
  lemma AcceptedNone(files: seq<CsvFile>, mapping: map<nat, string>, rule: DateRule, order: Order)
    requires Readable(files)
    ensures Accepted(files, mapping, rule, order) == [] <==>
              forall i :: 0 <= i < |files| ==> FileBatch(files[i], mapping, rule, order) == None
  {
    var rs := Outcomes(files, mapping, rule, order);
    SomesNone(rs);
    assert forall i :: 0 <= i < |files| ==> rs[i] == FileBatch(files[i], mapping, rule, order);
  }

  /** Every accepted batch is the batch of one of the files. */
  lemma AcceptedFrom(files: seq<CsvFile>, mapping: map<nat, string>, rule: DateRule, order: Order, j: nat)
    requires Readable(files) && j < |Accepted(files, mapping, rule, order)|
    ensures exists i :: 0 <= i < |files| && FileBatch(files[i], mapping, rule, order) == Some(Accepted(files, mapping, rule, order)[j])
  {
    SomesFrom(Outcomes(files, mapping, rule, order), j);
  }

  /**
   * A batch as the drivers make it: the cleaned columns of the dated table,
   * then `source_file` holding the path in every row; the date column is
   * gone, renamed by position like every other column.
   */
  lemma BatchShape(t: Table, date: Cell, path: string)
    requires WellFormed(t) && !IsEmpty(t)
    ensures var dated := Assign(t, "date", Broadcast(date, |t.rows|));
            var b := Batch(t, date, path, DateFirst);
            b.columns == CleanTable(dated).columns + ["source_file"]
            && "date" !in b.columns
            && Column(b, "source_file") == Broadcast(Text(path), |t.rows|)
  {
    var dated := Assign(t, "date", Broadcast(date, |t.rows|));
    var w := |dated.columns|;
    CleanedDropsDate(dated);
    SchemaExcludes(w, "source_file");
    assert "source_file" !in AddedNames(w);
  }

  /**
   * With fifteen fields, the date added before cleaning ends up, unchanged,
   * as `extra_col_0` of every row.
   */
  lemma DateBecomesExtraColumn(t: Table, date: Cell, path: string)
    requires WellFormed(t) && !IsEmpty(t) && |t.columns| == 15 && "date" !in t.columns
    ensures var b := Batch(t, date, path, DateFirst);
            "extra_col_0" in b.columns && Column(b, "extra_col_0") == Broadcast(date, |t.rows|)
  {
    var n := |t.rows|;
    var dated := Assign(t, "date", Broadcast(date, n));
    assert |dated.columns| == 16;
    forall i | 0 <= i < n
      ensures dated.rows[i][15] == date
    {
      AssignRows(t, "date", Broadcast(date, n), i);
    }
    CleanedDropsDate(dated);
    var c := CleanTable(dated);
    assert "extra_col_0" != "source_file";
    AssignOthers(c, "source_file", Broadcast(Text(path), n), "extra_col_0");
  }

  /** No batch accepted by `main` or `main_with_custom_mapping` has a `date` column. */
  lemma AcceptedNoDate(files: seq<CsvFile>, mapping: map<nat, string>, rule: DateRule)
    requires Readable(files)
    ensures !HasDate(Accepted(files, mapping, rule, DateFirst))
  {
    var all := Accepted(files, mapping, rule, DateFirst);
    forall j | 0 <= j < |all|
      ensures "date" !in all[j].columns
    {
      AcceptedFrom(files, mapping, rule, DateFirst, j);
      var i :| 0 <= i < |files| && FileBatch(files[i], mapping, rule, DateFirst) == Some(all[j]);
      var f := files[i];
      assert CsvOk(f);
      var t := f.table.value;
      BatchShape(t, DateFor(rule, mapping, FileNum(f.path).value, t), f.path);
    }
  }

  /**
   * `main` as written never returns the combined data: line 176 reads a
   * `date` column that the cleaning has renamed away, and the KeyError is
   * caught at line 191.
   */
  lemma MainNeverCombines(progress: Option<string>, present: set<nat>, files: seq<CsvFile>)
    requires Readable(files)
    ensures !MainResult(progress, present, files).Combined?
  {
    if AllKeyed(files) {
      ReadableSorted(files);
      AcceptedNoDate(SortFiles(files), ProgressMapping(progress, present), LookupInBatch);
    }
  }

  /** A file whose name has no digit makes the sort, and so the whole run, raise. */
  lemma DigitlessNameRaises(files: seq<CsvFile>, i: nat, mapping: map<nat, string>, rule: DateRule, order: Order, readsDate: bool)
    requires Readable(files) && i < |files|
    requires forall k :: 0 <= k < |files[i].path| ==> !IsDigit(files[i].path[k])
    ensures Drive(files, mapping, rule, order, readsDate) == Raises
  {
    NoDigitsNoNumber(files[i].path);
  }

  /** The custom-mapping driver returns the batches whenever one is accepted, and None otherwise or without files. */
  lemma CustomCombines(mapping: map<nat, string>, files: seq<CsvFile>)
    requires Readable(files) && AllKeyed(files)
    ensures var batches := SortedBatches(files, mapping, MappingOnly, DateFirst);
            CustomResult(mapping, files) == if batches == [] then NoResult else Combined(batches)
  {
    ReadableSorted(files);
    if files != [] {
      assert files[0] in multiset(SortFiles(files));
    }
  }

  /** With the date added after cleaning, a batch keeps the cleaned columns and carries its date in a `date` column. */
  lemma FixedBatchDate(t: Table, date: Cell, path: string)
    requires WellFormed(t) && !IsEmpty(t)
    ensures var b := Batch(t, date, path, CleanFirst);
            b.columns == CleanTable(t).columns + ["date", "source_file"]
            && Column(b, "date") == Broadcast(date, |t.rows|)
  {
    var n := |t.rows|;
    CleanedFree(t);
    var c := CleanTable(t);
    var d := Assign(c, "date", Broadcast(date, n));
    var b := Assign(d, "source_file", Broadcast(Text(path), n));
    assert b == Batch(t, date, path, CleanFirst);
    assert d.columns == c.columns + ["date"];
    assert "source_file" !in d.columns;
    assert b.columns == c.columns + ["date"] + ["source_file"];
    AppendPair(c.columns, "date", "source_file");
    AssignOthers(d, "source_file", Broadcast(Text(path), n), "date");
  }

  lemma AppendPair(names: seq<string>, a: string, b: string)
    ensures names + [a] + [b] == names + [a, b]
  {
    assert [a] + [b] == [a, b];
  }

  /** The cleaned columns include neither `date` nor `source_file`. */
  lemma CleanedFree(t: Table)
    requires WellFormed(t) && !IsEmpty(t)
    ensures "date" !in CleanTable(t).columns && "source_file" !in CleanTable(t).columns
  {
    var w := |t.columns|;
    CleanedDropsDate(t);
    SchemaExcludes(w, "source_file");
    assert "source_file" !in AddedNames(w);
  }

  /** With the date added after cleaning, every accepted batch carries a `date` column. */
  lemma FixedHasDate(files: seq<CsvFile>, mapping: map<nat, string>, rule: DateRule)
    requires Readable(files) && Accepted(files, mapping, rule, CleanFirst) != []
    ensures HasDate(Accepted(files, mapping, rule, CleanFirst))
  {
    var batches := Accepted(files, mapping, rule, CleanFirst);
    AcceptedFrom(files, mapping, rule, CleanFirst, 0);
    var i :| 0 <= i < |files| && FileBatch(files[i], mapping, rule, CleanFirst) == Some(batches[0]);
    var f := files[i];
    assert CsvOk(f);
    var t := f.table.value;
    FixedBatchDate(t, DateFor(rule, mapping, FileNum(f.path).value, t), f.path);
    assert "date" in batches[0].columns;
  }

  /** With the date added after cleaning, `main` returns the batches whenever one is accepted. */
  lemma FixedMainCombines(progress: Option<string>, present: set<nat>, files: seq<CsvFile>)
    requires Readable(files) && AllKeyed(files)
    ensures var batches := SortedBatches(files, ProgressMapping(progress, present), LookupInBatch, CleanFirst);
            batches != [] ==> FixedMainResult(progress, present, files) == Combined(batches)
  {
    ReadableSorted(files);
    var mapping := ProgressMapping(progress, present);
    var sorted := SortFiles(files);
    if Accepted(sorted, mapping, LookupInBatch, CleanFirst) != [] {
      FixedHasDate(sorted, mapping, LookupInBatch);
    }
  }
}
