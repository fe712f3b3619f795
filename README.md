# Race-result normalisation pipeline, modelled in Dafny

The Hong Kong horse-racing predictor scrapes race results into files named
`races<n>.csv`, one per race day. Each file is a table of raw, positionally
encoded rows. The data-preparation step (`dataprep.py`) turns those files into
one table. This project models that step and proves what it does.

- **Sequence key** (`key_func`). The digits of a file name are read as one
  integer, so `races2.csv` sorts before `races10.csv`.
- **Cleaner** (`clean_race_data`).
  - Columns are named by position: the fifteen canonical names, cut short or
    followed by `extra_col_<i>`.
  - Three composite fields are split: `"RACE 1 (284)"`, `"CLASS 4 - 1200M"`
    and `"RICH AND LUCKY (C413)"`.
  - Six columns are coerced to numbers, with a missing marker when a cell is
    not a numeral.
- **Date mappings.** One maps file numbers to the lines of the progress file
  the scraper keeps (`load_progress_file`). The other maps them to the days
  of a given range (`process_with_date_range`).
- **Drivers** (`main`, `main_with_custom_mapping`). Each takes every file in
  numeric order, resolves its date, cleans the batch and tags it with its
  path. `main` takes the date from the mapping, then from the first cell of a
  date-named column when that cell is truthy, then `Unknown_<n>`.
  `main_with_custom_mapping` takes it from the mapping, then `Unknown_<n>`,
  and never looks at the batch. A file is skipped when its name does not
  match, it cannot be read, or it is empty.

Modules, one per component:

- `strings.dfy`: `Base` (Option) and `Strings` (the Python `str` operations the code uses).
- `numeric.dfy`: `Numeric`, the cell coercion done by `pd.to_numeric(errors='coerce')`.
- `frame.dfy`: `Frames`, a DataFrame as a value (`Table`) and as a mutable object (`Frame`).
- `fields.dfy`: `Fields`, the per-value lambdas of the cleaner.
- `cleaner.dfy`: `Cleaner`, the cleaner. `CleanTable` says what a cleaned batch is, row by row. The in-place method `CleanRaceData` is proved to produce it.
- `files.dfy`: `Files`, the sequence key, the file number and the numeric sort.
- `dates.dfy`: `Dates`, the two date mappings and the date lookup for one batch.
- `ingest.dfy`: `Ingest`, the per-file loop and both drivers.

The file system is a parameter of the model:

- the text of `progress.txt`, or None when it does not exist;
- the set of file numbers `n` for which `races<n>.csv` exists;
- the list of paths the glob returns, each with the table `pd.read_csv` gives
  for it, or None when reading raises.

The model keeps the source's ordering quirk: the drivers add the `date` column
*before* the cleaner renames every column by position. The date column is
therefore renamed with the rest. With fifteen raw fields it becomes
`extra_col_0`, and no cleaned batch has a `date` column.

## Model

| member | source | states |
|---|---|---|
| `Files.KeyFunc` | dataprep.py:12-15 | the key is defined exactly when the name contains a decimal digit (`int('')` raises otherwise); its value is pinned down by the three lemmas below |
| `Files.KeyFuncOfDigits` | dataprep.py:12-15 | a name made only of digits has its decimal value as its key |
| `Files.KeyFuncIgnoresNonDigit` | dataprep.py:14-15 | inserting a non-digit anywhere in a name does not change its key, or whether it has one |
| `Files.KeyFuncPieces` | dataprep.py:12-15 | a name made of digitless text, one run of digits and digitless text has that run's value as its key |
| `Files.KeyFuncRoundTrip` | dataprep.py:12-15 | the key of `./races<n>.csv` is `n` |
| `Files.SortFiles` | dataprep.py:113 | the sorted files are in ascending key order and are a permutation of the input |
| `Files.NumericOrder` | dataprep.py:113 | `./races2.csv` sorts before `./races10.csv` although its name is lexically larger |
| `Files.FileNum` | dataprep.py:124 | the number is None exactly when `races(\d+)\.csv` matches at no position; otherwise it is the number read at the first position where it matches (`findall(...)[0]`) |
| `Files.FileNumRoundTrip` | dataprep.py:124 | the first match of `races(\d+)\.csv` in `./races<n>.csv` reads back `n` |
| `Files.NoDigitsNoNumber` | dataprep.py:12-15 | a name without digits has no file number and no sequence key (`int('')` raises) |
| `Ingest.DigitlessNameRaises` | dataprep.py:113 | one digitless name makes the sort raise, outside the try, so the whole run raises |
| `Cleaner.SchemaNames` | dataprep.py:43-52 | there are exactly W names; for W >= 15 the first 15 are canonical and the rest are `extra_col_0..` in order; for W < 15 they are the first W canonical names |
| `Cleaner.SchemaDistinct` | dataprep.py:48-51 | the positional names of any width are pairwise distinct |
| `Cleaner.SchemaHas` | dataprep.py:48-51 | canonical column j is present iff j < W, and then it is at position j |
| `Cleaner.CleanTable` | dataprep.py:29-81 | an empty frame is returned unchanged; otherwise the columns are the positional names then the added ones, and every row is cleaned cell by cell |
| `Cleaner.CleanRaceData` | dataprep.py:29-81 | the in-place cleaner (rename, three splits, coercion loop, `plc`) leaves the frame equal to `CleanTable` of its old contents |
| `Cleaner.CoerceNumeric` | dataprep.py:72-79 | the loop coerces every numeric column that is present, then `plc`, each where it stands |
| `Cleaner.CleanedDistinct` | dataprep.py:48-69 | a cleaned batch never has two columns of the same name |
| `Cleaner.CleanedRaceName` | dataprep.py:55-58 | `race_name` is kept; `race_id` and `race_no` are the two parsers applied to it |
| `Cleaner.CleanedRaceType` | dataprep.py:61-63 | `race_dist` and the new `race_type` both come from the original third field: the distance is read before the type is overwritten |
| `Cleaner.CleanedHorse` | dataprep.py:66-69 | `horse_id` and the new `horse_name` both come from the original sixth field: the id is read before the name is overwritten |
| `Cleaner.CleanedNumeric` | dataprep.py:71-79 | a numeric column is present iff the batch is wide enough, and each of its cells is the original cell coerced, a number or missing |
| `Cleaner.CleanedUntouched` | dataprep.py:29-81 | a column that is not rewritten keeps every cell it had |
| `Cleaner.CleanedDropsDate` | dataprep.py:48-51 | no cleaned batch has a `date` column; with 16 incoming columns the 16th sits unchanged under `extra_col_0` |
| `Fields.Parenthesised` | dataprep.py:55-69 | for `"NAME (ID)"` the race id is ID, the horse id is ID without leading blanks, and the label is NAME stripped with `_` for spaces |
| `Fields.Unparenthesised` | dataprep.py:55-69 | without `(`, both ids are `Unknown` and the label is the whole field with `_` for spaces |
| `Fields.Dashed` | dataprep.py:61-63 | for `"TYPE-DIST"` the type is TYPE normalised and the distance is DIST normalised with every trailing `M` removed |
| `Fields.Undashed` | dataprep.py:61-63 | without `-`, the distance is `Unknown` and the type is the whole field with `_` for spaces, upper-cased |
| `Fields.RaceTypeRoundTrip` | dataprep.py:61-63 | `"TYPE - DISTM"` built from normal-form tokens parses back to exactly TYPE and DIST |
| `Fields.RaceId` | dataprep.py:57 | without both `(` and `)` the race id is `Unknown`; with both it holds no `(`; `Fields.Parenthesised` gives its value |
| `Fields.Label` | dataprep.py:58-69 | a label has no space; without `(` it is as long as the field; `Fields.Parenthesised` and `Fields.Unparenthesised` give its value |
| `Fields.HorseId` | dataprep.py:68 | without both `(` and `)` the horse id is `Unknown`; with both it holds no `(` and does not start with a blank; `Fields.Parenthesised` gives its value |
| `Fields.RaceDist` | dataprep.py:62 | without `-` the distance is `Unknown`; with it the distance has no space, no lower-case letter and no trailing `M`; `Fields.Dashed` gives its value |
| `Fields.RaceType` | dataprep.py:63 | the race type has no space and no lower-case letter; `Fields.Dashed` and `Fields.Undashed` give its value |
| `Fields.RaceNameExample` | dataprep.py:56-58 | `"RACE 1 (284)"` gives race id `284` and race number `RACE_1` |
| `Fields.RaceTypeExample` | dataprep.py:61-63 | `"CLASS 4 - 1200M"` gives type `CLASS_4` and distance `1200` |
| `Fields.HorseNameExample` | dataprep.py:67-69 | `"RICH AND LUCKY (C413)"` gives horse id `C413` and name `RICH_AND_LUCKY` |
| `Numeric.ToNumeric` | dataprep.py:75 | a text that coerces to a number holds only digits, points and signs, and at least one digit; `Numeric.NumeralCoerces` and `Numeric.CoercedIsNumeral` give both directions |
| `Frames.Coerce` | dataprep.py:75 | a coerced cell is a number or missing; a text cell becomes a number exactly when it is a numeral, and then its value |
| `Numeric.NumeralCoerces` | dataprep.py:75 | every well-formed decimal numeral coerces to its value |
| `Numeric.CoercedIsNumeral` | dataprep.py:75 | whatever coerces to a number is a well-formed numeral |
| `Numeric.ForeignCharIsMissing` | dataprep.py:75 | a cell with a character other than a digit, a point or a sign becomes missing |
| `Numeric.IntRoundTrip` | dataprep.py:75 | the decimal text of any integer coerces back to that integer |
| `Frames.Assign` | dataprep.py:137 | `df[name] = values` overwrites the column where it stands or appends it, and the column then holds the values |
| `Frames.AssignOthers` | dataprep.py:152 | assigning one column leaves every other column unchanged |
| `Frames.Frame.Set` | dataprep.py:137 | the in-place column assignment leaves the frame equal to `Assign` of its old contents |
| `Frames.Rename` | dataprep.py:49 | assigning `df.columns` relabels the columns with the given names and keeps every row as it was |
| `Frames.Frame.SetColumns` | dataprep.py:49 | the positional renaming relabels the columns and moves no cell |
| `Dates.ReadLines` | dataprep.py:89 | `readlines()`: the lines joined give back the text, no line is empty, every line but the last ends in a newline, and no line holds a newline before its last character |
| `Dates.StripAll` | dataprep.py:89 | every line is replaced by its stripped form, which has no leading or trailing blank |
| `Dates.ProgressMapping` | dataprep.py:86-94 | with no progress file the mapping is empty; every key is a positive number of an existing file and maps to a stripped line; `Dates.LoadProgressFile` gives the exact keys |
| `Dates.LoadProgressFile` | dataprep.py:83-100 | with no progress file the map is empty; otherwise key i is present iff 1 <= i <= the number of lines and file i exists, and its value is line i stripped |
| `Dates.MapExisting` | dataprep.py:92-94 | the loop maps exactly the existing file numbers in 1..N to their lines |
| `Dates.ProgressRoundTrip` | dataprep.py:89 | progress text written one date per line reads back as the same dates |
| `Dates.LeadingRun` | dataprep.py:217-220 | K <= the number of dates, files 1..K all exist, and file K+1 is missing when K is short of the dates |
| `Dates.RangeMapping` | dataprep.py:214-220 | the keys are exactly 1..K for K the `Dates.LeadingRun` of the existing files, and file i maps to the i-th date of the range |
| `Dates.DateRangeMapping` | dataprep.py:214-220 | the keys are exactly 1..K for that K, and file i is mapped to the i-th date of the range |
| `Dates.RangeStopsAtGap` | dataprep.py:214-220 | a missing file ends the mapping even when later files exist |
| `Dates.FirstDateColumn` | dataprep.py:22-23 | the index found is that of a column whose lower-cased name contains `date`, and no earlier column's does; None when no column's name does |
| `Dates.ExtractDate` | dataprep.py:17-27 | the result is the first cell of the first column whose lower-cased name contains `date`; None without such a column or without rows |
| `Dates.LookupDate` | dataprep.py:136-146 | a mapped file gets its mapped date; an unmapped one gets the value extracted from the batch when there is one and it is truthy, and `Unknown_<n>` otherwise; either way the date is truthy |
| `Dates.ExtractedDateExample` | dataprep.py:136-146 | an unmapped file whose batch has a `Race Date` column gets its first cell `29/12/2019`; with an empty cell there it gets `Unknown_3` |
| `Dates.MappedDate` | dataprep.py:255-260 | a mapped file gets its mapped date, an unmapped one the truthy `Unknown_<n>` |
| `Dates.MappedOrUnknownExample` | dataprep.py:136-146 | with only file 1 mapped, file 1 gets its mapped date and file 2 gets `Unknown_2` |
| `Dates.UnknownDateInjective` | dataprep.py:145 | two files get the same fallback date only when they have the same number |
| `Dates.FallbackAgrees` | dataprep.py:255-260 | without a mapping or a date-named column, both drivers resolve the same `Unknown_<n>` |
| `Ingest.Batch` | dataprep.py:135-152 | a batch is well formed, has as many rows as the table read, and has a `source_file` column holding the path in every row; `Ingest.BatchShape` and `Ingest.FixedBatchDate` give its columns |
| `Ingest.FileBatch` | dataprep.py:122-159 | a file gives a batch exactly when its name matches, it can be read and it is not empty; the batch is well formed and has the file's rows |
| `Ingest.Drive` | dataprep.py:113-193 | a run raises exactly when some name has no digit; no files give None; a combined result is never empty and, for `main`, has a `date` column; `Ingest.MainNeverCombines` and `Ingest.CustomCombines` give the rest |
| `Ingest.ProcessFile` | dataprep.py:122-159 | one iteration on a frame: skipped files give None, otherwise the batch `FileBatch` specifies |
| `Ingest.CollectBatches` | dataprep.py:121-159 | the list built by the loop is the batches of the files that were not skipped, in file order |
| `Ingest.Run` | dataprep.py:113-163 | the driver raises on a digitless name, returns None with no files or no accepted batch, and otherwise combines the batches |
| `Ingest.RunMain` | dataprep.py:102-193 | `main()` is the progress-file mapping followed by the run |
| `Ingest.RunWithCustomMapping` | dataprep.py:227-291 | `main_with_custom_mapping` is the run with mapping-or-fallback dates |
| `Ingest.ProcessWithDateRange` | dataprep.py:196-225 | `process_with_date_range` is the range mapping followed by the custom-mapping run |
| `Ingest.RunMainFixed` | dataprep.py:135-152 | `main` with the date column added after the cleaning returns the result of `Ingest.FixedMainResult`, about which `Ingest.FixedMainCombines` is proved |
| `Ingest.SkippedFile` | dataprep.py:157-159 | a skipped file leaves the batches of all other files, before and after it, as they were |
| `Ingest.AcceptedAppend` | dataprep.py:121-159 | the batches of two runs of files are those of the first followed by those of the second |
| `Ingest.AcceptedNone` | dataprep.py:161-163 | no batch is accepted iff every file is skipped |
| `Ingest.AcceptedRows` | dataprep.py:168 | the combined batches hold exactly as many rows as the accepted files had when read |
| `Ingest.BatchShape` | dataprep.py:136-152 | a batch has the cleaned columns then `source_file`, holding the path in every row, and no `date` column |
| `Ingest.DateBecomesExtraColumn` | dataprep.py:135-149 | with fifteen raw fields, every row's date ends up, unchanged, under `extra_col_0` |
| `Ingest.AcceptedNoDate` | dataprep.py:135-154 | no batch accepted by either driver has a `date` column |
| `Ingest.MainNeverCombines` | dataprep.py:176 | `main` as written never returns the combined table |
| `Ingest.CustomCombines` | dataprep.py:272-287 | `main_with_custom_mapping` returns the batches whenever one is accepted, and None otherwise |
| `Ingest.FixedBatchDate` | dataprep.py:135-152 | with the date added after cleaning, a batch keeps the cleaned columns and then `date` and `source_file`, and every row has the date |
| `Ingest.FixedMainCombines` | dataprep.py:165-189 | with the date added after cleaning, `main` returns the batches whenever one is accepted |

## Findings

| source | as written | input that shows it | evidently intended | confidence | as-written member | corrected member |
|---|---|---|---|---|---|---|
| dataprep.py:135-176 | The `date` column is added before `clean_race_data` renames every column by position, so no cleaned batch keeps a column called `date`. The summary line reads `df['date']`, which raises `KeyError`; the handler at line 191 catches it and `main` returns None. | one file `./races1.csv` whose table is non-empty, for example one row of fifteen fields | `main` returns the combined table with a `date` column, for example by adding the date after the cleaning | high, not executed | `Ingest.MainNeverCombines` | `Ingest.FixedMainCombines` |

## Left out

- File-system and pandas I/O are parameters of the model. This covers `glob`, `os.path.exists`, reading `progress.txt`, `pd.read_csv` and `to_csv`. How `read_csv` turns the first line into column labels belongs to the table the model is given.
- Failure of `to_csv` (lines 186, 284) is not modelled, and neither is the output file.
- pandas type inference on read is not modelled. Every cell read from a file is text, and empty cells do not become NaN. So a lambda applied to a number, which in Python could raise and skip the file, is not modelled.
- Frames.MapText: a non-text cell passes through unchanged. In Python the lambdas' if-branches call `x.split` on the value itself, so a non-string whose `str(x)` contains the separator (for example `-5` in `race_type`) raises `AttributeError` and the file is skipped; only the else-branches use `str(x)`. This case cannot arise because every cell read is text.
- Dates.ReadLines: the progress text is taken after Python's text-mode newline translation. A `\r` or `\r\n` line ending in the file on disk is not split on; it is assumed to arrive as `\n`.
- Numeric.ToNumeric: a numeral is an optional sign, digits, at most one point, and at least one digit. Exponents, `inf`/`nan` spellings and surrounding whitespace, which `pd.to_numeric` also accepts, are not. Values are exact decimals, not IEEE floats. A decimal keeps the scale it was written with, so `1.5` and `1.50` become different cells, where pandas gives the same float for both.
- Strings.Upper: `upper()` and `lower()` act on ASCII letters only. `\D` and `int()` see ASCII digits only. Python's full Unicode case mapping and digit classes are not modelled.
- The calendar arithmetic of `generate_date_range` (lines 200-208) is not modelled. The days of the range are an input sequence of date strings.
- The column union of `pd.concat` and its fresh index are not modelled. A combined result is the sequence of accepted batches, in file order, with its row count proved.
- Summary statistics, logging, printing and the `__main__` block are not modelled (lines 171-182, 293-314). The one exception is that `main`'s read of the `date` column decides its result.
- Files.SortFiles: its contract states sorted order and permutation, not the stability of Python's `sorted`. The insertion it uses is stable, but this is not proved.
- race_data_scraper.py is not part of this model. The only exception is `Dates.ProgressText`, which writes the one-date-per-line format `save_progress` uses, for the round-trip lemma.
