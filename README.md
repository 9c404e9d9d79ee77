# GISAID amino-acid substitution tracker, modelled in Dafny

Two Python scripts turn a GISAID metadata export into a table with one row per amino-acid
substitution per sequence. Both do the same cleaning, row by row:

- keep records whose `Host` is the requested host;
- drop records without a Pango lineage;
- keep collection dates of the form `dddd-dd-dd`;
- take the country from the second `/`-separated part of `Location`;
- strip the parentheses from the `AA Substitutions` list;
- split that list on `,` and emit one row per substitution.

`gisaid_track_aa_subs.py` does this with whole-table pandas operations. `gisaid_track_aa_subs_2.py`
does it with a loop over rows that appends one output row at a time.

The model follows each script in its own form:

- `wrappers.dfy` (`Wrappers`): `Option` for a missing cell and `Result` for a run that raises.
- `text.dfy` (`Text`): the Python string operations the scripts use. `str.split` is
  `SplitOn`, with `Join` as its inverse. `str.lstrip`, `str.rstrip` and `str.strip` with a
  character set are `LStripChars`, `RStripChars` and `StripChars`. `str.strip()` is `Strip`,
  over the characters `str.isspace` accepts.
- `dates.dfy` (`Dates`): the `dddd-dd-dd` shape (`IsDatePattern`), the triple it encodes
  (`ParseDate`/`FormatDate`, proved inverse), and the calendar check that `strptime` makes.
- `metadata.dfy` (`Metadata`): the input record (the seven columns both scripts read) and
  `Country`.
- `track_aa_subs.dfy` (`TrackAaSubs`): the first script. `Track` is a pure chain of table
  functions: projection, host mask, `dropna`, column drop, date mask, strip and explode. It is
  proved equal to the flat-map of a per-record reference (`RowOutput`). `RunScript` adds the
  two `KeyError`s the script can raise: at line 65 when no location in the table has a `/`,
  and at line 81 when no record survives the host and lineage filters.
- `track_aa_subs_loop.dfy` (`TrackAaSubsLoop`): the second script. `CheckDate` models
  `check_date`. `Run` is the row loop as a Dafny `method` with an outer and an inner `while`
  loop appending to an output sequence. It is proved equal to `Track`, the fold of the
  per-record outcomes, where the first exception ends the run.
- `agreement.dfy` (`Agreement`): `BothSucceed` is the condition under which the outputs
  agree. It holds for a record with the host, a non-empty lineage, a `/` in the location, a
  calendar-valid date, and a field of the form `(`...`)` with no parenthesis just inside the
  ends. On such records the scripts emit the same substitution tokens in the same order, with
  the same virus name, accession, date, country and lineage (`RowsAgree`, `TablesAgree`,
  `RunsAgree`). Other lemmas show records where the scripts differ.

The host filter value (the `-s` option, default `Human`) is a parameter. The input table is a
`seq<Record>` and the output a returned sequence.

The scripts differ on a few kinds of record:

- A record whose location has no `/`: script 1 keeps it with a missing country, since its
  `dropna` looks only at the lineage. This holds when some other location in the table has a
  `/`; otherwise line 65 raises `KeyError`. Script 2 raises `IndexError` on such a record
  (`NoSlashDiverges`).
- A missing lineage: script 1 drops the record, while script 2 skips only the empty string, so
  the record passes (`MissingLineageDiverges`). An empty-string lineage is kept by script 1
  and skipped by script 2 (`EmptyLineageDiverges`).
- A table with no record of the host, the empty table included: script 1 raises `KeyError`,
  while script 2 writes an empty table (`OtherHostTableDiverges`).

## Model

| member | source | states |
|---|---|---|
| `Text.SplitOn` | gisaid_track_aa_subs.py:88 | `str.split` on one character: k separators give k + 1 pieces, and no piece holds the separator |
| `Text.JoinSplitOn` | gisaid_track_aa_subs.py:88 | joining the pieces of a split with the separator rebuilds the split string |
| `Text.SplitOnJoin` | gisaid_track_aa_subs.py:88 | splitting a join of separator-free pieces gives back exactly those pieces, so split and join are inverse |
| `Text.CountPositive` | gisaid_track_aa_subs.py:65 | a character occurs in a string exactly when it has a positive count |
| `Text.LStripChars` | gisaid_track_aa_subs.py:82 | `lstrip(chars)`: the result is a suffix of the input, everything dropped is in the set, and its first character is not |
| `Text.RStripChars` | gisaid_track_aa_subs.py:82 | `rstrip(chars)`: the result is a prefix of the input, everything dropped is in the set, and its last character is not |
| `Text.StripChars` | gisaid_track_aa_subs.py:82 | `strip(chars)`: the result is no longer than the input and neither starts nor ends with a character of the set |
| `Text.StripCharsExact` | gisaid_track_aa_subs.py:82 | wrapping `x` (no set character at its edges) in set characters and stripping gives exactly `x`: only edge characters go and the interior is untouched |
| `Text.Strip` | gisaid_track_aa_subs.py:81 | `strip()` over the `str.isspace` characters: the result is no longer than the input and neither starts nor ends with whitespace; the exact value (only edge whitespace goes) comes from `Text.StripCharsExact` |
| `Text.StripExample` | gisaid_track_aa_subs.py:81 | `" USA "` strips to `"USA"` |
| `Dates.IsDatePattern` | gisaid_track_aa_subs_2.py:59 | the regular expression `^\d\d\d\d\-\d\d\-\d\d$` (also gisaid_track_aa_subs.py:74): four digits, dash, two digits, dash, two digits |
| `Dates.DatePatternGroups` | gisaid_track_aa_subs_2.py:59 | a string of the shape is its three digit groups joined by dashes |
| `Dates.IsCalendarDate` | gisaid_track_aa_subs_2.py:63 | the triples `strptime` accepts: year at least 1, month 1 to 12, day within the month |
| `Dates.DigitsValue` | gisaid_track_aa_subs_2.py:63 | the number a digit string spells is below 10 to the power of its length |
| `Dates.DigitsValuePad` | gisaid_track_aa_subs_2.py:63 | reading back a zero-padded number gives the number when it fits the width |
| `Dates.PadDigitsValue` | gisaid_track_aa_subs_2.py:63 | zero-padding the value of a digit string to its length gives the string back |
| `Dates.ParseDate` | gisaid_track_aa_subs_2.py:63 | the three digit groups of a `dddd-dd-dd` string give a year below 10000 and a month and day below 100 |
| `Dates.FormatDate` | gisaid_track_aa_subs_2.py:59 | a triple written as `YYYY-MM-DD` always has the shape the regular expression accepts |
| `Dates.FormatParseDate` | gisaid_track_aa_subs_2.py:59-63 | every string of the date shape is the formatting of the triple `strptime` reads from it |
| `Dates.ParseFormatDate` | gisaid_track_aa_subs_2.py:63 | parsing a formatted triple gives the triple back |
| `Dates.DaysInMonth` | gisaid_track_aa_subs_2.py:63 | a month has 28 to 31 days under the Gregorian rule `datetime` uses |
| `Dates.DatePatternExamples` | gisaid_track_aa_subs.py:74-75 | `2021-04-28` and `2021-13-99` have the date shape, `2021-4-28` and `04/28/2021` do not, and `2021-13-99` is not a calendar date |
| `Metadata.Country` | gisaid_track_aa_subs_2.py:94 | a country exists exactly when the location has a `/`, and it holds no `/` |
| `Metadata.CountryOfParts` | gisaid_track_aa_subs.py:65 | for a location `a/b/...`, the country is `b` with surrounding whitespace stripped |
| `Metadata.CountryExample` | gisaid_track_aa_subs.py:65 | `North America / USA / California` gives `USA` |
| `TrackAaSubs.Filter` | gisaid_track_aa_subs.py:67-68 | mask selection keeps exactly the rows the mask accepts and never adds a row |
| `TrackAaSubs.FilterConcat` | gisaid_track_aa_subs.py:67-75 | selection works row by row: filtering a concatenation filters each part and keeps the order |
| `TrackAaSubs.ProjectRow` | gisaid_track_aa_subs.py:59-65 | the working row holds the record, and a raw country piece exactly when the location has a `/` |
| `TrackAaSubs.Project` | gisaid_track_aa_subs.py:59-65 | one working row per record, in order, with the country present exactly when the location has a `/` |
| `TrackAaSubs.CleanRow` | gisaid_track_aa_subs.py:81-82 | only the country and the substitution list change, and the list no longer starts or ends with a parenthesis |
| `TrackAaSubs.ExplodeRow` | gisaid_track_aa_subs.py:86-88 | a list with k commas gives k + 1 rows that agree with the input on every other column; no token holds a comma; joining the tokens with `,` rebuilds the list |
| `TrackAaSubs.ExplodeConcat` | gisaid_track_aa_subs.py:86-88 | the explode of a concatenation is the concatenation of the explodes |
| `TrackAaSubs.DropLocationHost` | gisaid_track_aa_subs.py:70 | row by row and in order, every column but `Location` and `Host` is kept unchanged |
| `TrackAaSubs.CleanUp` | gisaid_track_aa_subs.py:81-82 | row by row, only the country and the substitution list change, and no list starts or ends with a parenthesis |
| `TrackAaSubs.Explode` | gisaid_track_aa_subs.py:86-88 | no input row vanishes, every output row is an input row with one comma-free token in place of its list |
| `TrackAaSubs.Track` | gisaid_track_aa_subs.py:58-88 | the pipeline of lines 59-88; every output row has a well-shaped date and a comma-free substitution |
| `TrackAaSubs.DatesSurvive` | gisaid_track_aa_subs.py:81-88 | the strip and explode steps keep each row's collection date |
| `TrackAaSubs.Kept` | gisaid_track_aa_subs.py:67-75 | the three filters on one record: exact host, present lineage, date of the shape |
| `TrackAaSubs.RowOutput` | gisaid_track_aa_subs.py:67-88 | a record contributes rows exactly when its host is the requested one (case-sensitive), its lineage is present and its date has the shape; then it contributes one more row than its stripped list has commas, each the cleaned record with one token, and the tokens rejoin to the stripped list |
| `TrackAaSubs.TrackSingle` | gisaid_track_aa_subs.py:58-88 | the whole-table pipeline on one record gives exactly that record's reference contribution |
| `TrackAaSubs.TrackConcat` | gisaid_track_aa_subs.py:67-88 | the output for `a + b` is the output for `a` followed by that for `b`: surviving records keep input order and each record's rows are contiguous |
| `TrackAaSubs.TrackByRows` | gisaid_track_aa_subs.py:58-88 | the pipeline equals the flat-map of the per-record contribution over the table |
| `TrackAaSubs.HostIsCaseSensitive` | gisaid_track_aa_subs.py:67 | a `human` record yields nothing under the host `Human` |
| `TrackAaSubs.EmptySubstitutionList` | gisaid_track_aa_subs.py:82-88 | a kept record with `()` yields exactly one row, with an empty substitution |
| `TrackAaSubs.SubstitutionTokens` | gisaid_track_aa_subs.py:82-88 | a kept record with `(t1,...,tn)` yields the tokens t1 ... tn in that order |
| `TrackAaSubs.RunScript` | gisaid_track_aa_subs.py:65-88 | `KeyError` at line 65 exactly when no location in the table has a `/`; otherwise `KeyError` at line 81 exactly when no record has the host and a lineage; otherwise the output is the pipeline's |
| `TrackAaSubs.SelectionEmpty` | gisaid_track_aa_subs.py:67-68 | the frame left by the host filter and `dropna` is empty exactly when no record has the host and a lineage |
| `TrackAaSubs.RunScriptSucceeds` | gisaid_track_aa_subs.py:65-88 | a table with a `/` in some location and some record of the host with a lineage runs without raising, to the pipeline's output |
| `TrackAaSubsLoop.CheckDate` | gisaid_track_aa_subs_2.py:48-63 | no date iff the string lacks the `dddd-dd-dd` shape; `ValueError` iff it has the shape but is not a calendar date; otherwise a calendar date whose formatting is the string |
| `TrackAaSubsLoop.CheckDateExamples` | gisaid_track_aa_subs_2.py:59-63 | `2021-04-28` gives 2021/4/28, `2021-13-99` raises, `2021-4-28` gives no date |
| `TrackAaSubsLoop.DropEnds` | gisaid_track_aa_subs_2.py:96 | the first and last characters are removed whatever they are; a string shorter than two becomes empty |
| `TrackAaSubsLoop.Emitted` | gisaid_track_aa_subs_2.py:100-106 | one appended row per token, in token order, sharing the date, country, virus name, accession and lineage |
| `TrackAaSubsLoop.Screened` | gisaid_track_aa_subs_2.py:84-92 | a record past the three `continue` tests: host, non-empty-string lineage, date of the shape |
| `TrackAaSubsLoop.RowOutput` | gisaid_track_aa_subs_2.py:84-92 | a record with another host, an empty-string lineage or a date without the shape appends nothing |
| `TrackAaSubsLoop.RowOutputCases` | gisaid_track_aa_subs_2.py:84-106 | which screened records raise `ValueError` or `IndexError`, that all others append at least one row (the `None` guard never fires), how many, and what they share |
| `TrackAaSubsLoop.Step` | gisaid_track_aa_subs_2.py:80-106 | one more iteration: an earlier exception stands, a new one ends the run, otherwise the record's rows are appended |
| `TrackAaSubsLoop.Collect` | gisaid_track_aa_subs_2.py:80-106 | the iterations over a sequence of per-record outcomes raise exactly when one of the outcomes is an exception |
| `TrackAaSubsLoop.Track` | gisaid_track_aa_subs_2.py:80-106 | the loop as a fold over the table; it raises exactly when the loop body raises on some record |
| `TrackAaSubsLoop.CollectConcat` | gisaid_track_aa_subs_2.py:80-101 | the iterations over `x + y` are those over `x` followed by those over `y` |
| `TrackAaSubsLoop.StepAssociative` | gisaid_track_aa_subs_2.py:80-101 | chaining iterations is associative |
| `TrackAaSubsLoop.TrackConcat` | gisaid_track_aa_subs_2.py:80-106 | the run over `a + b` is the run over `a` then `b`: rows of earlier records come first and are never changed, and the first exception decides |
| `TrackAaSubsLoop.TrackFailurePersists` | gisaid_track_aa_subs_2.py:90-94 | once a prefix raises, the whole run raises the same exception |
| `TrackAaSubsLoop.TrackSingle` | gisaid_track_aa_subs_2.py:80-106 | on one record the run is that record's pass of the loop body |
| `TrackAaSubsLoop.OtherHostAddsNothing` | gisaid_track_aa_subs_2.py:84-85 | a record of another host changes nothing, wherever it stands |
| `TrackAaSubsLoop.TrackSnoc` | gisaid_track_aa_subs_2.py:80-106 | one more record extends the run by exactly one pass of the loop body |
| `TrackAaSubsLoop.AppendRows` | gisaid_track_aa_subs_2.py:100-106 | the inner loop leaves the earlier rows unchanged and appends one row per token, in token order |
| `TrackAaSubsLoop.Run` | gisaid_track_aa_subs_2.py:80-106 | the row loop with its `continue`s and inner append loop returns exactly the fold of the per-record outcomes |
| `Agreement.RowsAgree` | gisaid_track_aa_subs_2.py:84-106 | on a record both scripts accept, script 2 does not raise and emits rows corresponding one to one, in order, to script 1's |
| `Agreement.TablesAgree` | gisaid_track_aa_subs.py:67-88 | on a table of such records and records of other hosts, script 2 does not raise and its output corresponds row for row to script 1's pipeline, which is script 1's output whenever its run does not raise |
| `Agreement.RunsAgree` | gisaid_track_aa_subs.py:65-88 | on such a table, script 2 does not raise; when script 1's run does not raise either, the outputs correspond row for row; when it raises, the table holds no record of the host and script 2 writes an empty table |
| `Agreement.OtherHostTableDiverges` | gisaid_track_aa_subs_2.py:80-85 | on a table with no record of the host (the empty table too), script 1 raises `KeyError` and script 2 writes an empty table |
| `Agreement.AllCorrespondConcat` | gisaid_track_aa_subs.py:86-88 | row-for-row correspondence is kept by concatenation |
| `Agreement.MissingLineageDiverges` | gisaid_track_aa_subs_2.py:87-88 | a missing lineage is dropped by script 1 but kept by script 2 |
| `Agreement.EmptyLineageDiverges` | gisaid_track_aa_subs.py:68 | an empty-string lineage is kept by script 1 but skipped by script 2 |
| `Agreement.CalendarDiverges` | gisaid_track_aa_subs_2.py:63 | a shaped but non-calendar date is kept by script 1 and makes script 2 raise `ValueError` |
| `Agreement.NoSlashDiverges` | gisaid_track_aa_subs_2.py:94 | on the table of a record of another host with a `/` followed by an otherwise accepted record without `/`, script 1's run keeps the second record with no country, while script 2 raises `IndexError` |
| `Agreement.DoubledParensDiverge` | gisaid_track_aa_subs_2.py:96 | `((x))` is stripped to `x` by script 1 but to `(x)` by script 2 |

## Left out

- Argument parsing, the usage message and `exit(2)` (both scripts, lines 18-46): process plumbing. The host is a parameter.
- Reading the TSV with `pd.read_csv` and writing the CSV with `to_csv`: file I/O. The input is a `seq<Record>` and the output a returned sequence. So how `read_csv` turns empty cells into NaN is left out, which decides whether an empty-string lineage can occur at all.
- The progress printing every 10000 rows in the second script (lines 81-82): console output.
- The warning suppression in the first script (lines 79-80).
- Missing cells other than `Host` and `Pango lineage`. A NaN date on a record that reaches the date test (past the host and lineage filters) makes `p.match` raise `TypeError` in both scripts. In the second script a NaN location or substitution field raises on a record that reaches lines 94-96. The model's date, location and substitution fields are always strings.
- The padding that `str.split(..., expand=True)` does for short locations is modelled as a missing country. The column dtypes pandas picks are left out.
- The `datetime` object: `check_date`'s result is a (year, month, day) triple, and the output is not formatted as a timestamp. Calendar arithmetic beyond the month and day validity that decides whether `strptime` raises is left out.
- Regular-expression details: `\d` is read as an ASCII digit and `$` as the end of the string. Python's `\d` also accepts other Unicode digits, and its `$` also matches before a final newline.
- The output column-name mismatch in the second script: the appended rows use the key `AA_sub` while the declared column is `AA_subs` (gisaid_track_aa_subs_2.py:76-78 against 106), so pandas adds a new column and leaves `AA_subs` empty. This is a known defect of the script. The model's output row has a single substitution field and does not model DataFrame columns.
- Column order and names of the two output CSV files.
- `TrackAaSubs.RunScript`: its second `KeyError` rests on how pandas indexes a frame with an empty column of object type, which it takes as a list of column labels and not as a mask. Other pandas behaviour on an empty frame is not modelled: an empty result of line 75 after a non-empty selection runs to an empty output in the model.
