/**
 * `clean_race_data`: names the columns of a raw batch by position, splits
 * the three composite text fields into their parts, and coerces the
 * numeric columns. The function `CleanTable` says what a cleaned table is,
 * row by row; the method `CleanRaceData` does the work column by column on
 * a frame, in the order the source does, and is proved to produce it.
 */
module Cleaner {
  import opened Strings
  import opened Frames
  import opened Fields

  /** The fifteen canonical column names, in the order the scraper writes the fields. */
  const EXPECTED_COLS: seq<string> := [
    "race_name", "going", "race_type", "plc", "horse_no", "horse_name",
    "jockey_name", "trainer_name", "actual_wt", "declared_wt",
    "draw", "lbw", "running_pos", "finish_time", "public_odds"]

  /** The columns coerced to numbers in the loop; `plc` is coerced after it, on its own. */
  const NUMERIC_COLS: seq<string> := ["horse_no", "actual_wt", "declared_wt", "draw", "public_odds"]

  predicate Distinct(names: seq<string>) {
    forall i, j :: 0 <= i < j < |names| ==> names[i] != names[j]
  }

  /** The name given to the `i`-th column past the fifteenth. */
  function ExtraName(i: nat): (name: string)
    ensures name == "extra_col_" + NatToString(i)
    ensures |name| > 10 && name[0] == 'e' && name[..10] == "extra_col_"
  {
    "extra_col_" + NatToString(i)
  }

  /**
   * The names a frame of width `w` is given: the canonical names, cut short
   * when the frame is narrower, followed by `extra_col_0`, `extra_col_1`, ...
   * when it is wider.
   */
  function SchemaNames(w: nat): (names: seq<string>)
    ensures |names| == w
    ensures w >= |EXPECTED_COLS| ==> names[..|EXPECTED_COLS|] == EXPECTED_COLS
    ensures w >= |EXPECTED_COLS| ==> forall i :: |EXPECTED_COLS| <= i < w ==> names[i] == ExtraName(i - |EXPECTED_COLS|)
    ensures w < |EXPECTED_COLS| ==> names == EXPECTED_COLS[..w]
  {
    if w >= |EXPECTED_COLS| then
      var extras := seq(w - |EXPECTED_COLS|, i requires 0 <= i < w - |EXPECTED_COLS| => ExtraName(i));
      assert (EXPECTED_COLS + extras)[..|EXPECTED_COLS|] == EXPECTED_COLS;
      EXPECTED_COLS + extras
    else
      EXPECTED_COLS[..w]
  }

  /** The columns whose cells are rewritten where they stand. */
  predicate Touched(name: string) {
    name == "race_type" || name == "horse_name" || name == "plc" || name in NUMERIC_COLS
  }

  /** What the cleaner does to one cell of the column called `name`. */
  function CleanedCell(name: string, c: Cell): (r: Cell)
    ensures !Touched(name) ==> r == c
  {
    if name == "race_type" then MapText(RaceType, c)
    else if name == "horse_name" then MapText(Label, c)
    else if name in NUMERIC_COLS || name == "plc" then Coerce(c)
    else c
  }

  /**
   * The columns the cleaner adds to a frame of width `w >= 1`: `race_id`
   * and `race_no`, then `race_dist` when the frame has a third column, then
   * `horse_id` when it has a sixth.
   */
  function AddedNames(w: nat): seq<string> {
    (if w >= 1 then ["race_id", "race_no"] else [])
    + (if w >= 3 then ["race_dist"] else [])
    + (if w >= 6 then ["horse_id"] else [])
  }

  /** Their cells: the parts split off the first, third and sixth fields of the original row. */
  function AddedCells(w: nat, row: seq<Cell>): (r: seq<Cell>)
    requires |row| == w
    ensures |r| == |AddedNames(w)|
  {
    (if w >= 1 then [MapText(RaceId, row[0]), MapText(Label, row[0])] else [])
    + (if w >= 3 then [MapText(RaceDist, row[2])] else [])
    + (if w >= 6 then [MapText(HorseId, row[5])] else [])
  }

  /** One cleaned row: every cell cleaned as the name of its position says, then the added cells. */
  function CleanRow(w: nat, row: seq<Cell>): (r: seq<Cell>)
    requires |row| == w
    ensures |r| == w + |AddedNames(w)|
    ensures forall j :: 0 <= j < w ==> r[j] == CleanedCell(SchemaNames(w)[j], row[j])
    ensures r[w..] == AddedCells(w, row)
  {
    var names := SchemaNames(w);
    seq(w, j requires 0 <= j < w => CleanedCell(names[j], row[j])) + AddedCells(w, row)
  }

  /**
   * The result of `clean_race_data`: an empty frame as it came; otherwise
   * the columns renamed by position, then the added columns, and every row
   * cleaned.
   */
  function CleanTable(t: Table): (r: Table)
    requires WellFormed(t)
    ensures WellFormed(r) && |r.rows| == |t.rows|
    ensures IsEmpty(t) ==> r == t
    ensures !IsEmpty(t) ==> r.columns == SchemaNames(|t.columns|) + AddedNames(|t.columns|)
    ensures !IsEmpty(t) ==> forall i :: 0 <= i < |t.rows| ==> r.rows[i] == CleanRow(|t.columns|, t.rows[i])
  {
    if IsEmpty(t) then t
    else
      var w := |t.columns|;
      Table(SchemaNames(w) + AddedNames(w), seq(|t.rows|, i requires 0 <= i < |t.rows| => CleanRow(w, t.rows[i])))
  }

  // ---------------------------------------------------------------------------
  // The column-by-column computation, one added column at a time

  /** The field the `k`-th added column (1 to 4) is computed from. */
  function Source(k: nat): string
    requires 1 <= k <= 4
  {
    if k <= 2 then "race_name" else if k == 3 then "race_type" else "horse_name"
  }

  /** The name of the `k`-th added column. */
  function Target(k: nat): string
    requires 1 <= k <= 4
  {
    if k == 1 then "race_id" else if k == 2 then "race_no" else if k == 3 then "race_dist" else "horse_id"
  }

  /** The per-value parser that computes the `k`-th added column. */
  function Parser(k: nat): string -> string
    requires 1 <= k <= 4
  {
    if k == 1 then RaceId else if k == 2 then Label else if k == 3 then RaceDist else HorseId
  }

  /** The columns added once the first `k` steps have run: a step adds a column only when its field is there. */
  function StageNames(names: seq<string>, k: nat): seq<string>
    requires k <= 4
  {
    if k == 0 then [] else StageNames(names, k - 1) + (if Source(k) in names then [Target(k)] else [])
  }

  /** The cells of those columns, for one original row. */
  function StageCells(names: seq<string>, row: seq<Cell>, k: nat): seq<Cell>
    requires |row| == |names| && k <= 4
  {
    if k == 0 then []
    else StageCells(names, row, k - 1)
         + (if Source(k) in names then [MapText(Parser(k), row[IndexOf(names, Source(k))])] else [])
  }

  /**
   * The cells of a row once the columns in `done` have been rewritten:
   * cleaned where the column's name is in `done`, as read elsewhere.
   */
  function CleanPrefix(names: seq<string>, row: seq<Cell>, done: set<string>): (r: seq<Cell>)
    requires |row| == |names|
    ensures |r| == |names|
  {
    seq(|names|, j requires 0 <= j < |names| => if names[j] in done then CleanedCell(names[j], row[j]) else row[j])
  }

  /**
   * A frame part-way through cleaning `t`, renamed to `names`: the first `k`
   * added columns are there, and the columns in `done` have been rewritten.
   */
  ghost predicate Staged(s: Table, t: Table, names: seq<string>, done: set<string>, k: nat)
    requires WellFormed(t) && |t.columns| == |names| && k <= 4
  {
    && WellFormed(s)
    && s.columns == names + StageNames(names, k)
    && |s.rows| == |t.rows|
    && forall i :: 0 <= i < |t.rows| ==> s.rows[i] == CleanPrefix(names, t.rows[i], done) + StageCells(names, t.rows[i], k)
  }

  // ---------------------------------------------------------------------------
  // The positional names

  lemma ExpectedDistinct()
    ensures Distinct(EXPECTED_COLS)
    ensures forall i :: 0 <= i < |EXPECTED_COLS| ==> EXPECTED_COLS[i][0] != 'e'
  {
  }

  /** The names of a frame of any width are pairwise distinct. */
  lemma SchemaDistinct(w: nat)
    ensures Distinct(SchemaNames(w))
  {
    var names := SchemaNames(w);
    var n := |EXPECTED_COLS|;
    ExpectedDistinct();
    forall i, j | 0 <= i < j < w
      ensures names[i] != names[j]
    {
      if j < n {
        if w >= n {
          assert names[i] == names[..n][i] && names[j] == names[..n][j];
        }
      } else if i < n {
        assert names[i] == names[..n][i];
        assert names[i][0] != 'e';
      } else {
        var a, b := NatToString(i - n), NatToString(j - n);
        assert names[i][10..] == a && names[j][10..] == b;
        if a == b {
          NatToStringInjective(i - n, j - n);
        }
      }
    }
  }

  /** Which canonical columns a frame of width `w` has: exactly those among its first `w` names. */
  lemma SchemaHas(w: nat, j: nat)
    requires j < |EXPECTED_COLS|
    ensures EXPECTED_COLS[j] in SchemaNames(w) <==> j < w
    ensures j < w ==> SchemaNames(w)[j] == EXPECTED_COLS[j] && IndexOf(SchemaNames(w), EXPECTED_COLS[j]) == j
  {
    var names := SchemaNames(w);
    var n := |EXPECTED_COLS|;
    SchemaDistinct(w);
    ExpectedDistinct();
    if j < w {
      if w >= n {
        assert names[j] == names[..n][j];
      }
      IndexOfAt(names, EXPECTED_COLS[j], j);
    } else {
      forall k | 0 <= k < w
        ensures names[k] != EXPECTED_COLS[j]
      {
        assert names[k] == EXPECTED_COLS[k];
      }
    }
  }

  /** No column of the renamed frame is called like one the cleaner adds, nor `date`. */
  lemma SchemaExcludes(w: nat, name: string)
    requires name in {"race_id", "race_no", "race_dist", "horse_id", "date", "source_file"}
    ensures name !in SchemaNames(w)
  {
    var names := SchemaNames(w);
    var n := |EXPECTED_COLS|;
    forall k | 0 <= k < w
      ensures names[k] != name
    {
      if k < n {
        if w >= n {
          assert names[k] == names[..n][k];
        }
      } else {
        assert names[k][0] == 'e';
      }
    }
  }

  // ---------------------------------------------------------------------------
  // One step at a time

  lemma CleanPrefixRewrite(names: seq<string>, row: seq<Cell>, done: set<string>, rest: seq<Cell>, j: nat, v: Cell)
    requires |row| == |names| && Distinct(names)
    requires j < |names| && names[j] !in done && v == CleanedCell(names[j], row[j])
    ensures (CleanPrefix(names, row, done) + rest)[j := v] == CleanPrefix(names, row, done + {names[j]}) + rest
  {
    var a := CleanPrefix(names, row, done);
    var b := CleanPrefix(names, row, done + {names[j]});
    assert a[j := v] == b;
    assert (a + rest)[j := v] == a[j := v] + rest;
  }

  /** A column the steps add is one of the four target names. */
  lemma {:induction false} StageNamesAre(names: seq<string>, k: nat, n: string)
    requires k <= 4 && n in StageNames(names, k)
    ensures exists m :: 1 <= m <= k && n == Target(m)
  {
    if n !in StageNames(names, k - 1) {
      assert n == Target(k);
    } else {
      StageNamesAre(names, k - 1, n);
    }
  }

  /** After `df.columns = names` the frame is at the first stage: nothing done, nothing added. */
  lemma StageRename(t: Table, names: seq<string>)
    requires WellFormed(t) && |t.columns| == |names|
    ensures Staged(Rename(t, names), t, names, {}, 0)
  {
    assert names + [] == names;
    forall i | 0 <= i < |t.rows|
      ensures t.rows[i] == CleanPrefix(names, t.rows[i], {}) + []
    {
      assert t.rows[i] == CleanPrefix(names, t.rows[i], {});
    }
  }

  /** Reading a column of the original names, not yet rewritten, gives the original cells. */
  lemma StagedColumn(s: Table, t: Table, names: seq<string>, done: set<string>, k: nat, name: string)
    requires WellFormed(t) && |t.columns| == |names| && k <= 4
    requires Staged(s, t, names, done, k)
    requires name in names && name !in done
    ensures name in s.columns && IndexOf(s.columns, name) == IndexOf(names, name)
    ensures forall i :: 0 <= i < |t.rows| ==> Column(s, name)[i] == t.rows[i][IndexOf(names, name)]
  {
    IndexOfPrefix(names, StageNames(names, k), name);
  }

  /** Step `k` with its field present adds its target name after the earlier ones. */
  lemma StageStepNames(names: seq<string>, k: nat)
    requires 1 <= k <= 4 && Source(k) in names
    ensures StageNames(names, k) == StageNames(names, k - 1) + [Target(k)]
  {
  }

  /** Step `k` with its field present adds the parsed field after the earlier cells. */
  lemma StageStepCells(names: seq<string>, row: seq<Cell>, k: nat)
    requires |row| == |names| && 1 <= k <= 4 && Source(k) in names
    ensures StageCells(names, row, k) == StageCells(names, row, k - 1) + [MapText(Parser(k), row[IndexOf(names, Source(k))])]
  {
  }

  /**
   * Step `k` when its field is there: the new column holds the parser
   * applied to the field, read before the field is rewritten.
   */
  lemma StagedAdd(s: Table, t: Table, names: seq<string>, done: set<string>, k: nat)
    requires WellFormed(t) && |t.columns| == |names| && 1 <= k <= 4
    requires Staged(s, t, names, done, k - 1)
    requires Source(k) in names && Source(k) !in done && Target(k) !in names
    ensures Staged(Assign(s, Target(k), MapCells(Parser(k), Column(s, Source(k)))), t, names, done, k)
  {
    StagedAddNames(s, t, names, done, k);
    StagedAddRows(s, t, names, done, k);
  }

  /** Step `k`'s column is new, and goes after the earlier added columns. */
  lemma StagedAddNames(s: Table, t: Table, names: seq<string>, done: set<string>, k: nat)
    requires WellFormed(t) && |t.columns| == |names| && 1 <= k <= 4
    requires Staged(s, t, names, done, k - 1)
    requires Source(k) in names && Target(k) !in names
    ensures Target(k) !in s.columns && Source(k) in s.columns
    ensures Assign(s, Target(k), MapCells(Parser(k), Column(s, Source(k)))).columns == names + StageNames(names, k)
  {
    assert Target(k) !in s.columns by {
      if Target(k) in StageNames(names, k - 1) {
        StageNamesAre(names, k - 1, Target(k));
      }
    }
    StageStepNames(names, k);
  }

  /** Step `k`'s cells: the parser applied to the field, appended to each row. */
  lemma StagedAddRows(s: Table, t: Table, names: seq<string>, done: set<string>, k: nat)
    requires WellFormed(t) && |t.columns| == |names| && 1 <= k <= 4
    requires Staged(s, t, names, done, k - 1)
    requires Source(k) in names && Source(k) !in done && Target(k) !in names
    ensures Target(k) !in s.columns
    ensures var r := Assign(s, Target(k), MapCells(Parser(k), Column(s, Source(k))));
            forall i :: 0 <= i < |t.rows| ==> r.rows[i] == CleanPrefix(names, t.rows[i], done) + StageCells(names, t.rows[i], k)
  {
    StagedAddNames(s, t, names, done, k);
    var r := Assign(s, Target(k), MapCells(Parser(k), Column(s, Source(k))));
    forall i | 0 <= i < |t.rows|
      ensures r.rows[i] == CleanPrefix(names, t.rows[i], done) + StageCells(names, t.rows[i], k)
    {
      StagedAddRow(s, t, names, done, k, i);
    }
  }

  /** Step `k`'s cell for row `i`. */
  lemma StagedAddRow(s: Table, t: Table, names: seq<string>, done: set<string>, k: nat, i: nat)
    requires WellFormed(t) && |t.columns| == |names| && 1 <= k <= 4 && i < |t.rows|
    requires Staged(s, t, names, done, k - 1)
    requires Source(k) in names && Source(k) !in done && Target(k) !in names
    requires Target(k) !in s.columns
    ensures Assign(s, Target(k), MapCells(Parser(k), Column(s, Source(k)))).rows[i]
            == CleanPrefix(names, t.rows[i], done) + StageCells(names, t.rows[i], k)
  {
    var j := IndexOf(names, Source(k));
    StagedColumn(s, t, names, done, k - 1, Source(k));
    var v := MapCells(Parser(k), Column(s, Source(k)));
    AssignRows(s, Target(k), v, i);
    StageStepCells(names, t.rows[i], k);
    assert v[i] == MapText(Parser(k), t.rows[i][j]);
  }

  /** Step `k` when its field is not there adds nothing. */
  lemma StagedAbsent(s: Table, t: Table, names: seq<string>, done: set<string>, k: nat)
    requires WellFormed(t) && |t.columns| == |names| && 1 <= k <= 4
    requires Staged(s, t, names, done, k - 1) && Source(k) !in names
    ensures Staged(s, t, names, done, k)
  {
    forall i | 0 <= i < |t.rows|
      ensures s.rows[i] == CleanPrefix(names, t.rows[i], done) + StageCells(names, t.rows[i], k)
    {
      assert StageCells(names, t.rows[i], k) == StageCells(names, t.rows[i], k - 1) + [];
    }
    assert StageNames(names, k) == StageNames(names, k - 1) + [];
  }

  /** Rewriting an original column with its cleaned cells marks it done. */
  lemma StagedRewrite(s: Table, t: Table, names: seq<string>, done: set<string>, k: nat,
                      name: string, values: seq<Cell>)
    requires WellFormed(t) && |t.columns| == |names| && Distinct(names) && k <= 4
    requires Staged(s, t, names, done, k)
    requires name in names && name !in done && |values| == |t.rows|
    requires forall i :: 0 <= i < |t.rows| ==> values[i] == CleanedCell(name, t.rows[i][IndexOf(names, name)])
    ensures Staged(Assign(s, name, values), t, names, done + {name}, k)
  {
    var j := IndexOf(names, name);
    IndexOfPrefix(names, StageNames(names, k), name);
    var r := Assign(s, name, values);
    forall i | 0 <= i < |t.rows|
      ensures r.rows[i] == CleanPrefix(names, t.rows[i], done + {name}) + StageCells(names, t.rows[i], k)
    {
      assert r.rows[i] == s.rows[i][j := values[i]];
      CleanPrefixRewrite(names, t.rows[i], done, StageCells(names, t.rows[i], k), j, values[i]);
    }
  }

  /** Rewriting `race_type` or `horse_name` with its per-value parser. */
  lemma StagedMap(s: Table, t: Table, names: seq<string>, done: set<string>, k: nat,
                  name: string, f: string -> string)
    requires WellFormed(t) && |t.columns| == |names| && Distinct(names) && k <= 4
    requires Staged(s, t, names, done, k)
    requires name in names && name !in done
    requires (name == "race_type" && f == RaceType) || (name == "horse_name" && f == Label)
    ensures Staged(Assign(s, name, MapCells(f, Column(s, name))), t, names, done + {name}, k)
  {
    StagedColumn(s, t, names, done, k, name);
    StagedRewrite(s, t, names, done, k, name, MapCells(f, Column(s, name)));
  }

  /** The coercion of a numeric column where it stands. */
  lemma StagedCoerce(s: Table, t: Table, names: seq<string>, done: set<string>, name: string)
    requires WellFormed(t) && |t.columns| == |names| && Distinct(names)
    requires Staged(s, t, names, done, 4)
    requires name in names && name !in done && (name in NUMERIC_COLS || name == "plc")
    ensures Staged(Assign(s, name, CoerceCells(Column(s, name))), t, names, done + {name}, 4)
  {
    StagedColumn(s, t, names, done, 4, name);
    StagedRewrite(s, t, names, done, 4, name, CoerceCells(Column(s, name)));
  }

  /** On the positional names, the columns the steps add are the added ones. */
  lemma SchemaStageNames(w: nat)
    ensures StageNames(SchemaNames(w), 4) == AddedNames(w)
  {
    var names := SchemaNames(w);
    SchemaHas(w, 0);
    SchemaHas(w, 2);
    SchemaHas(w, 5);
    StageNamesOf(names, w >= 1, w >= 3, w >= 6);
  }

  /** The names the steps add depend only on which of the three source fields are present. */
  lemma StageNamesOf(names: seq<string>, hasName: bool, hasType: bool, hasHorse: bool)
    requires ("race_name" in names) == hasName && ("race_type" in names) == hasType && ("horse_name" in names) == hasHorse
    ensures StageNames(names, 4) ==
              (if hasName then ["race_id", "race_no"] else []) + (if hasType then ["race_dist"] else []) + (if hasHorse then ["horse_id"] else [])
  {
    var n2 := if hasName then ["race_id", "race_no"] else [];
    assert StageNames(names, 1) == if hasName then ["race_id"] else [];
    assert StageNames(names, 2) == n2;
  }

  /** On the positional names, the cells the steps add are the added ones. */
  lemma SchemaStageCells(w: nat, row: seq<Cell>)
    requires |row| == w
    ensures StageCells(SchemaNames(w), row, 4) == AddedCells(w, row)
  {
    var names := SchemaNames(w);
    SchemaHas(w, 0);
    SchemaHas(w, 2);
    SchemaHas(w, 5);
    StageCellsOf(names, row, w >= 1, w >= 3, w >= 6);
  }

  /** The cells the steps add depend only on which source fields are present, at positions 0, 2 and 5. */
  lemma StageCellsOf(names: seq<string>, row: seq<Cell>, hasName: bool, hasType: bool, hasHorse: bool)
    requires |row| == |names|
    requires ("race_name" in names) == hasName && ("race_type" in names) == hasType && ("horse_name" in names) == hasHorse
    requires hasName ==> |names| > 0 && IndexOf(names, "race_name") == 0
    requires hasType ==> |names| > 2 && IndexOf(names, "race_type") == 2
    requires hasHorse ==> |names| > 5 && IndexOf(names, "horse_name") == 5
    ensures StageCells(names, row, 4) ==
              (if hasName then [MapText(RaceId, row[0]), MapText(Label, row[0])] else [])
              + (if hasType then [MapText(RaceDist, row[2])] else [])
              + (if hasHorse then [MapText(HorseId, row[5])] else [])
  {
    var c2 := if hasName then [MapText(RaceId, row[0]), MapText(Label, row[0])] else [];
    assert StageCells(names, row, 1) == if hasName then [MapText(RaceId, row[0])] else [];
    assert StageCells(names, row, 2) == c2;
  }

  /** With every rewritten column done and every step run, the frame is the cleaned table. */
  lemma StagedFinal(s: Table, t: Table, done: set<string>)
    requires WellFormed(t) && !IsEmpty(t)
    requires Staged(s, t, SchemaNames(|t.columns|), done, 4)
    requires forall n :: Touched(n) && n in SchemaNames(|t.columns|) ==> n in done
    ensures s == CleanTable(t)
  {
    var w := |t.columns|;
    var names := SchemaNames(w);
    var r := CleanTable(t);
    SchemaStageNames(w);
    forall i | 0 <= i < |t.rows|
      ensures s.rows[i] == r.rows[i]
    {
      SchemaStageCells(w, t.rows[i]);
      assert CleanPrefix(names, t.rows[i], done) == CleanRow(w, t.rows[i])[..w];
    }
  }

  // ---------------------------------------------------------------------------
  // What a cleaned table looks like

  /** No two columns of a cleaned batch have the same name. */
  lemma CleanedDistinct(t: Table)
    requires WellFormed(t) && !IsEmpty(t)
    ensures Distinct(CleanTable(t).columns)
  {
    var w := |t.columns|;
    var names := SchemaNames(w);
    var cols := CleanTable(t).columns;
    var d := AddedNames(w);
    SchemaDistinct(w);
    SchemaExcludes(w, "race_id");
    SchemaExcludes(w, "race_no");
    SchemaExcludes(w, "race_dist");
    SchemaExcludes(w, "horse_id");
    assert cols == names + d;
    forall i, j | 0 <= i < j < |cols|
      ensures cols[i] != cols[j]
    {
      if j >= w {
        assert cols[j] == d[j - w];
        if i >= w {
          assert cols[i] == d[i - w];
        } else {
          assert cols[i] == names[i];
        }
      } else {
        assert cols[i] == names[i] && cols[j] == names[j];
      }
    }
  }

  /** Cell `i` of the cleaned column at position `j < w` is the original cell, cleaned as that column's name says. */
  lemma CleanedColumnAt(t: Table, i: nat, j: nat)
    requires WellFormed(t) && !IsEmpty(t) && i < |t.rows| && j < |t.columns|
    ensures var name := SchemaNames(|t.columns|)[j];
            name in CleanTable(t).columns && IndexOf(CleanTable(t).columns, name) == j
            && Column(CleanTable(t), name)[i] == CleanedCell(name, t.rows[i][j])
  {
    var names := SchemaNames(|t.columns|);
    SchemaDistinct(|t.columns|);
    IndexOfAt(names, names[j], j);
    IndexOfPrefix(names, AddedNames(|t.columns|), names[j]);
  }

  /** A column the cleaner does not rewrite keeps every cell it had. */
  lemma CleanedUntouched(t: Table, i: nat, j: nat)
    requires WellFormed(t) && !IsEmpty(t) && i < |t.rows| && j < |t.columns|
    requires !Touched(SchemaNames(|t.columns|)[j])
    ensures Column(CleanTable(t), SchemaNames(|t.columns|)[j])[i] == t.rows[i][j]
  {
    CleanedColumnAt(t, i, j);
  }

  /**
   * The numeric columns and `plc` are in the cleaned table exactly when the
   * batch is wide enough to have them, and then each cell is the original
   * cell coerced: a number or the missing marker.
   */
  lemma CleanedNumeric(t: Table, i: nat, j: nat)
    requires WellFormed(t) && !IsEmpty(t) && i < |t.rows|
    requires j < |EXPECTED_COLS| && (EXPECTED_COLS[j] in NUMERIC_COLS || EXPECTED_COLS[j] == "plc")
    ensures EXPECTED_COLS[j] in CleanTable(t).columns <==> j < |t.columns|
    ensures j < |t.columns| ==>
              var c := Column(CleanTable(t), EXPECTED_COLS[j])[i];
              c == Coerce(t.rows[i][j]) && (c.Num? || c.Missing?)
  {
    var w := |t.columns|;
    var names := SchemaNames(w);
    var name := EXPECTED_COLS[j];
    SchemaHas(w, j);
    NumericNotAdded(j, w);
    if j < w {
      assert names[j] == name;
      CleanedColumnAt(t, i, j);
      NumericCoerced(j, t.rows[i][j]);
    }
  }

  /** A numeric field is coerced by the cleaner. */
  lemma NumericCoerced(j: nat, c: Cell)
    requires j < |EXPECTED_COLS| && (EXPECTED_COLS[j] in NUMERIC_COLS || EXPECTED_COLS[j] == "plc")
    ensures CleanedCell(EXPECTED_COLS[j], c) == Coerce(c)
  {
  }

  /** A numeric field is none of the added columns. */
  lemma NumericNotAdded(j: nat, w: nat)
    requires j < |EXPECTED_COLS| && (EXPECTED_COLS[j] in NUMERIC_COLS || EXPECTED_COLS[j] == "plc")
    ensures EXPECTED_COLS[j] !in AddedNames(w)
  {
  }

  /** The added column at position `w + m` holds the `m`-th added cell of each row. */
  lemma CleanedAddedAt(t: Table, i: nat, m: nat)
    requires WellFormed(t) && !IsEmpty(t) && i < |t.rows| && m < |AddedNames(|t.columns|)|
    ensures var r, w := CleanTable(t), |t.columns|;
            AddedNames(w)[m] in r.columns
            && Column(r, AddedNames(w)[m])[i] == AddedCells(w, t.rows[i])[m]
  {
    var r, w := CleanTable(t), |t.columns|;
    CleanedDistinct(t);
    assert r.columns[w + m] == AddedNames(w)[m];
    assert r.rows[i][w + m] == r.rows[i][w..][m];
    ColumnAt(r, AddedNames(w)[m], w + m);
  }

  /** `race_id` and `race_no` both come from the first field, which itself is kept. */
  lemma CleanedRaceName(t: Table, i: nat)
    requires WellFormed(t) && !IsEmpty(t) && i < |t.rows|
    ensures var r := CleanTable(t);
            "race_name" in r.columns && "race_id" in r.columns && "race_no" in r.columns
            && Column(r, "race_name")[i] == t.rows[i][0]
            && Column(r, "race_id")[i] == MapText(RaceId, t.rows[i][0])
            && Column(r, "race_no")[i] == MapText(Label, t.rows[i][0])
  {
    var w := |t.columns|;
    SchemaHas(w, 0);
    assert SchemaNames(w)[0] == "race_name";
    CleanedUntouched(t, i, 0);
    assert AddedNames(w)[0] == "race_id" && AddedNames(w)[1] == "race_no";
    CleanedAddedAt(t, i, 0);
    CleanedAddedAt(t, i, 1);
  }

  /** `race_dist` and the new `race_type` both come from the original third field. */
  lemma CleanedRaceType(t: Table, i: nat)
    requires WellFormed(t) && !IsEmpty(t) && i < |t.rows| && |t.columns| >= 3
    ensures var r := CleanTable(t);
            "race_type" in r.columns && "race_dist" in r.columns
            && Column(r, "race_type")[i] == MapText(RaceType, t.rows[i][2])
            && Column(r, "race_dist")[i] == MapText(RaceDist, t.rows[i][2])
  {
    CleanedTypeField(t, i);
    CleanedDistField(t, i);
  }

  lemma CleanedTypeField(t: Table, i: nat)
    requires WellFormed(t) && !IsEmpty(t) && i < |t.rows| && |t.columns| >= 3
    ensures "race_type" in CleanTable(t).columns
    ensures Column(CleanTable(t), "race_type")[i] == MapText(RaceType, t.rows[i][2])
  {
    var w := |t.columns|;
    SchemaHas(w, 2);
    assert SchemaNames(w)[2] == "race_type";
    CleanedColumnAt(t, i, 2);
  }

  lemma CleanedDistField(t: Table, i: nat)
    requires WellFormed(t) && !IsEmpty(t) && i < |t.rows| && |t.columns| >= 3
    ensures "race_dist" in CleanTable(t).columns
    ensures Column(CleanTable(t), "race_dist")[i] == MapText(RaceDist, t.rows[i][2])
  {
    var w := |t.columns|;
    assert AddedNames(w)[2] == "race_dist";
    CleanedAddedAt(t, i, 2);
  }

  /** `horse_id` and the new `horse_name` both come from the original sixth field. */
  lemma CleanedHorse(t: Table, i: nat)
    requires WellFormed(t) && !IsEmpty(t) && i < |t.rows| && |t.columns| >= 6
    ensures var r := CleanTable(t);
            "horse_name" in r.columns && "horse_id" in r.columns
            && Column(r, "horse_name")[i] == MapText(Label, t.rows[i][5])
            && Column(r, "horse_id")[i] == MapText(HorseId, t.rows[i][5])
  {
    var w := |t.columns|;
    SchemaHas(w, 5);
    assert SchemaNames(w)[5] == "horse_name";
    CleanedColumnAt(t, i, 5);
    assert AddedNames(w)[3] == "horse_id";
    CleanedAddedAt(t, i, 3);
  }

  /**
   * The positional renaming takes every column, including one called `date`
   * appended before cleaning: no cleaned batch has a `date` column, and with
   * fifteen raw fields plus the date, the date cells sit, unchanged, under
   * `extra_col_0`.
   */
  lemma CleanedDropsDate(t: Table)
    requires WellFormed(t) && !IsEmpty(t)
    ensures "date" !in CleanTable(t).columns
    ensures |t.columns| == 16 ==>
              "extra_col_0" in CleanTable(t).columns
              && forall i :: 0 <= i < |t.rows| ==> Column(CleanTable(t), "extra_col_0")[i] == t.rows[i][15]
  {
    var w := |t.columns|;
    SchemaExcludes(w, "date");
    assert "date" !in AddedNames(w);
    if w == 16 {
      assert NatToString(0) == "0";
      assert SchemaNames(w)[15] == "extra_col_0";
      assert !Touched("extra_col_0");
      forall i | 0 <= i < |t.rows|
        ensures Column(CleanTable(t), "extra_col_0")[i] == t.rows[i][15]
      {
        CleanedColumnAt(t, i, 15);
      }
    }
  }

  // ---------------------------------------------------------------------------
  // The cleaner itself

  /** When the frame has `race_name`, add `race_id` and `race_no` from it. */
  method SplitRaceName(df: Frame, ghost t: Table, ghost names: seq<string>, ghost done: set<string>)
    requires WellFormed(t) && |t.columns| == |names|
    requires df.Valid() && Staged(df.Value(), t, names, done, 0)
    requires "race_name" !in done && "race_id" !in names && "race_no" !in names
    modifies df
    ensures df.Valid() && Staged(df.Value(), t, names, done, 2)
  {
    assert df.columns == names + [];
    if "race_name" in df.columns {
      ghost var s := df.Value();
      var c := df.Get("race_name");
      df.Set("race_id", MapCells(RaceId, c));
      StagedAdd(s, t, names, done, 1);
      s := df.Value();
      StagedColumn(s, t, names, done, 1, "race_name");
      c := df.Get("race_name");
      df.Set("race_no", MapCells(Label, c));
      StagedAdd(s, t, names, done, 2);
    } else {
      StagedAbsent(df.Value(), t, names, done, 1);
      StagedAbsent(df.Value(), t, names, done, 2);
    }
  }

  /** When the frame has `race_type`, add `race_dist` from it, then rewrite it. */
  method SplitRaceType(df: Frame, ghost t: Table, ghost names: seq<string>, ghost done: set<string>)
    requires WellFormed(t) && |t.columns| == |names| && Distinct(names)
    requires df.Valid() && Staged(df.Value(), t, names, done, 2)
    requires "race_type" !in done && "race_dist" !in names
    modifies df
    ensures df.Valid()
    ensures Staged(df.Value(), t, names, if "race_type" in names then done + {"race_type"} else done, 3)
  {
    assert "race_type" in df.columns <==> "race_type" in names by {
      if "race_type" in StageNames(names, 2) {
        StageNamesAre(names, 2, "race_type");
      }
    }
    if "race_type" in df.columns {
      ghost var s := df.Value();
      StagedColumn(s, t, names, done, 2, "race_type");
      var c := df.Get("race_type");
      df.Set("race_dist", MapCells(RaceDist, c));
      StagedAdd(s, t, names, done, 3);
      s := df.Value();
      StagedColumn(s, t, names, done, 3, "race_type");
      c := df.Get("race_type");
      df.Set("race_type", MapCells(RaceType, c));
      StagedMap(s, t, names, done, 3, "race_type", RaceType);
    } else {
      StagedAbsent(df.Value(), t, names, done, 3);
    }
  }

  /** When the frame has `horse_name`, add `horse_id` from it, then rewrite it. */
  method SplitHorse(df: Frame, ghost t: Table, ghost names: seq<string>, ghost done: set<string>)
    requires WellFormed(t) && |t.columns| == |names| && Distinct(names)
    requires df.Valid() && Staged(df.Value(), t, names, done, 3)
    requires "horse_name" !in done && "horse_id" !in names
    modifies df
    ensures df.Valid()
    ensures Staged(df.Value(), t, names, if "horse_name" in names then done + {"horse_name"} else done, 4)
  {
    assert "horse_name" in df.columns <==> "horse_name" in names by {
      if "horse_name" in StageNames(names, 3) {
        StageNamesAre(names, 3, "horse_name");
      }
    }
    if "horse_name" in df.columns {
      ghost var s := df.Value();
      StagedColumn(s, t, names, done, 3, "horse_name");
      var c := df.Get("horse_name");
      df.Set("horse_id", MapCells(HorseId, c));
      StagedAdd(s, t, names, done, 4);
      s := df.Value();
      StagedColumn(s, t, names, done, 4, "horse_name");
      c := df.Get("horse_name");
      df.Set("horse_name", MapCells(Label, c));
      StagedMap(s, t, names, done, 4, "horse_name", Label);
    } else {
      StagedAbsent(df.Value(), t, names, done, 4);
    }
  }

  /** When the frame has the column, coerce it to numbers where it stands. */
  method CoerceColumn(df: Frame, col: string, ghost t: Table, ghost names: seq<string>, ghost done: set<string>)
    requires WellFormed(t) && |t.columns| == |names| && Distinct(names)
    requires df.Valid() && Staged(df.Value(), t, names, done, 4)
    requires (col in NUMERIC_COLS || col == "plc") && col !in done
    modifies df
    ensures df.Valid() && Staged(df.Value(), t, names, if col in names then done + {col} else done, 4)
  {
    assert col in df.columns <==> col in names by {
      if col in StageNames(names, 4) {
        StageNamesAre(names, 4, col);
      }
    }
    if col in df.columns {
      ghost var s := df.Value();
      StagedColumn(s, t, names, done, 4, col);
      var c := df.Get(col);
      df.Set(col, CoerceCells(c));
      StagedCoerce(s, t, names, done, col);
    }
  }

  /** The numeric columns the frame has, one after the other, then `plc`. */
  method CoerceNumeric(df: Frame, ghost t: Table, ghost names: seq<string>, ghost done: set<string>)
    returns (ghost done': set<string>)
    requires WellFormed(t) && |t.columns| == |names| && Distinct(names)
    requires df.Valid() && Staged(df.Value(), t, names, done, 4)
    requires forall n :: n in done ==> n == "race_type" || n == "horse_name"
    modifies df
    ensures df.Valid() && Staged(df.Value(), t, names, done', 4)
    ensures forall n :: Touched(n) && n in names && n != "race_type" && n != "horse_name" ==> n in done'
    ensures done <= done'
  {
    done' := done;
    for k := 0 to |NUMERIC_COLS|
      invariant df.Valid() && Staged(df.Value(), t, names, done', 4)
      invariant forall j :: k <= j < |NUMERIC_COLS| ==> NUMERIC_COLS[j] !in done'
      invariant "plc" !in done' && done <= done'
      invariant forall j :: 0 <= j < k && NUMERIC_COLS[j] in names ==> NUMERIC_COLS[j] in done'
    {
      CoerceColumn(df, NUMERIC_COLS[k], t, names, done');
      done' := if NUMERIC_COLS[k] in names then done' + {NUMERIC_COLS[k]} else done';
    }
    CoerceColumn(df, "plc", t, names, done');
    done' := if "plc" in names then done' + {"plc"} else done';
  }

  /**
   * `clean_race_data(df)`, in place: an empty frame is left alone; otherwise
   * the columns are renamed by position, the race name, race type and horse
   * name are split into new columns, and the numeric columns are coerced.
   */
  method CleanRaceData(df: Frame)
    requires df.Valid()
    modifies df
    ensures df.Valid() && df.Value() == CleanTable(old(df.Value()))
  {
    if df.Empty() {
      return;
    }
    ghost var t := df.Value();
    var names := SchemaNames(df.Width());
    df.SetColumns(names);
    SchemaDistinct(|names|);
    SchemaExcludes(|names|, "race_id");
    SchemaExcludes(|names|, "race_no");
    SchemaExcludes(|names|, "race_dist");
    SchemaExcludes(|names|, "horse_id");
    StageRename(t, names);

    ghost var done: set<string> := {};
    SplitRaceName(df, t, names, done);
    SplitRaceType(df, t, names, done);
    done := if "race_type" in names then done + {"race_type"} else done;
    SplitHorse(df, t, names, done);
    done := if "horse_name" in names then done + {"horse_name"} else done;
    done := CoerceNumeric(df, t, names, done);
    StagedFinal(df.Value(), t, done);
  }
}
