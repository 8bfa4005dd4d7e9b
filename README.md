# Heart-rate upload pipeline, modelled in Dafny

This project models the data path of `app.py`, a small Flask application. A
user uploads a heart-rate recording as CSV or JSON. The application then:

1. accepts the file name only for a `.csv` or `.json` extension, in any case (`allowed_file`);
2. loads the file into a frame of `timestamp` / `heartrate` rows. For JSON, it
   flattens the `heartRateValues` pairs of every record (`load_data`);
3. lets the upload through only if the data is dense enough (`check_data_quality`).
   The samples are put into 2-minute bins, and each non-empty bin becomes one
   point at the bin's mean. Some point must have at least 60 points in the
   2 hours up to and including it;
4. shows the resampled points of the 2 hours ending at the last point, with
   their minimum, maximum and mean (`extract_2h_interval`, `show_latest_interval`).

Modules, in dependency order:

- `Wrappers`: `Option` and `Result`.
- `Series`: the constants and the canonical row.
  - The bin width is 120000 ms, the window is 7200000 ms, and the threshold is 60 points.
  - A timestamp is an `int` in milliseconds and a heart rate is a `real`.
  - `BinStart` floors a timestamp to its bin, as pandas does.
- `Upload`: `allowed_file`.
- `Loader`: `load_data` on a file that has already been decoded.
  - The JSON flattening is a function (`FlattenJson`).
  - The nested loop that appends records is a method proved equal to it (`LoadJsonRecords`).
- `Resampling`: `resample('2T').mean().dropna()`.
  - Bins are accumulated in a sorted list of (start, sum, count).
  - Each bin's value is sum / count.
- `Window`: `rolling('2H').count()` and the `any(... >= 60)` test.
  - The lemmas characterise acceptance as 60 consecutive occupied bins.
- `Quality`: the verdict of `check_data_quality` on a loaded frame.
- `Extract`: the label slice `[t_end - 2h, t_end]` and the statistics.
  - `LatestView` is the whole of `show_latest_interval` as a function.
- `Frame`: the frame as a mutable object.
  - `set_index('timestamp', inplace=True)` changes the caller's frame, so the
    gate and the extractor are methods on a `DataFrame` class.
  - The methods are proved against the functions above.

Representation choices:

- **Timestamps.** A JSON timestamp is a number and is read as `real`. Its floor
  in milliseconds is used as the timestamp. On exact reals this loses nothing
  the application observes: every later use of a timestamp is a bin label, and
  the floor of `t / 120000` is the same for `t` and for `floor(t)`. pandas
  first rounds the value to whole nanoseconds, which can carry it across a bin
  boundary; see "Left out".
- **Heart rates.** These are exact `real`s, so bin means, minima, maxima and
  means are exact.
- **Rolling window.** The window of point `i` is counted over the whole
  resampled series in `(t_i - 2h, t_i]`. pandas counts only the points up to
  `i`. The two are equal because resampled labels strictly increase
  (`Window.RollingCountPrefix`).

Behaviour of `app.py` worth noting:

- **The density window is right-closed.** `rolling('2H')` counts the points in
  `(end-2h, end]`, not in the closed `[end-2h, end]`. On the 2-minute grid such
  a window holds at most 60 points (`WindowCountBound`), so passing needs 60
  consecutive occupied bins (`AcceptableIffDense`).
- **The extractor can fail with an exception and ignores the gate.**
  `show_latest_interval` never runs `check_data_quality`. Its `set_index`,
  `index[0]` and `['heartrate']` can raise (`Extract.LatestView` returns
  `Crashed`). It also shows the latest interval of any loadable file, however
  sparse (`Frame.GateIgnoresLatestInterval`).
- **Upper-case `.CSV` is not loaded.** The extension test of `allowed_file`
  ignores case, but `load_data` dispatches with case-sensitive `endswith`. So
  `x.CSV` is accepted for upload and then loads as no data
  (`Loader.UpperCaseCsvNotLoaded`). The converse holds: whatever loads was
  accepted (`Loader.LoadedIsAllowed`).

Definitions and the members that characterise them:

- `Upload.AllowedFile` (app.py:11-12): `Upload.AllowedFileIff`, `Upload.AllowedExtension`.
- `Loader.LoadData` (app.py:14-39): `Loader.LoadedIsAllowed`, `Loader.UpperCaseCsvNotLoaded`, `Loader.EmptyJsonLoads`.
- `Loader.LoadCsv` (app.py:16-22): `Loader.CsvColumns`.
- `Loader.FlattenJson` (app.py:27-32): `Loader.LoadJsonRecords`, `Loader.PairsSpec`, `Loader.EntriesConcat`, `Loader.FlattenLength`, `Loader.JsonFrameShape`.
- `Resampling.Resample` (app.py:46-47): `Resampling.ResampleSpec`, `Resampling.ResampleIdempotent`.
- `Window.RollingCount` (app.py:48): `Window.RollingCountPrefix`, `Window.WindowCountBound`.
- `Window.Acceptable` (app.py:49): `Window.AcceptableIffDense`, `Window.AcceptableMonotone`.
- `Quality.DataQuality` (app.py:41-49): `Quality.QualityIffDense`, `Frame.CheckDataQuality`.
- `Extract.LabelSlice` (app.py:94): `Extract.SliceMembers`, `Extract.SliceSuffix`.
- `Extract.LatestInterval` (app.py:86-95): `Extract.LatestIntervalShape`, `Frame.Extract2hInterval`.
- `Extract.LatestView` (app.py:105-116): `Frame.ShowLatestInterval`, `Extract.ShownSummaryOrdered`.

## Model

| member | source | states |
|---|---|---|
| Upload.LastDot | app.py:12 | `rsplit('.', 1)` splits at a '.' with no '.' after it; there is no split exactly when there is no '.' |
| Upload.AllowedFileIff | app.py:11-12 | a name is allowed iff it has a '.' with no later '.' and the text after it, lower-cased, is `csv` or `json` |
| Upload.AllowedExtension | app.py:12 | `stem.ext` with a dot-free `ext` is allowed iff `ext` lower-cased is `csv` or `json`, whatever the stem |
| Upload.AllowedUpperCase | app.py:12 | `a.CSV` is allowed (the comparison ignores case) |
| Upload.RejectedInnerExtension | app.py:12 | `a.csv.txt` is rejected: only the text after the last '.' counts |
| Upload.RejectedWithoutDot | app.py:12 | `csv` with no '.' is rejected |
| Loader.LoadJsonRecords | app.py:27-32 | the nested loops appending one record per pair compute exactly `FlattenJson` of the document, failure included |
| Loader.AppendPairs | app.py:31-32 | the inner loop appends the records of one entry's pairs, in order, or fails as soon as one pair is unreadable |
| Loader.PairsSpec | app.py:31-32 | a pair list yields records iff every pair does, and then one record per pair, in order |
| Loader.PairsFailFrom | app.py:31-36 | one unreadable pair makes the whole load fail (the exception is caught as no data) |
| Loader.EntriesFailFrom | app.py:28-36 | one unreadable record makes the whole load fail |
| Loader.EntriesConcat | app.py:28-32 | flattening is in order and compositional: the records of `a + b` are those of `a` followed by those of `b` |
| Loader.RecordWithoutValues | app.py:29-30 | a record whose `heartRateValues` is missing or empty contributes nothing |
| Loader.FlattenLength | app.py:27-32 | a loaded document has exactly as many records as its records list pairs in total |
| Loader.JsonFrameShape | app.py:27-33 | a JSON list loads as a frame with one row per listed pair; it has no columns iff no pair is listed, and otherwise `timestamp`, `heartrate` |
| Loader.CsvColumns | app.py:16-22 | a CSV file loads iff the renaming leaves exactly one `timestamp` column (a second one makes `to_datetime` raise); the frame then keeps its rows, starts with `timestamp`, and has `heartrate` iff that column was present and not first |
| Loader.EndsWithAllowed | app.py:11-23 | a name ending in `.csv` or `.json` passes `allowed_file` |
| Loader.LoadedIsAllowed | app.py:11-23 | every path `load_data` reads passes `allowed_file` |
| Loader.UpperCaseCsvNotLoaded | app.py:12-15 | `stem.CSV` passes the upload filter, but `load_data` returns no data for it |
| Loader.EmptyJsonLoads | app.py:23-33 | an empty JSON array loads as an empty frame with no columns, not as a failure |
| Series.BinStart | app.py:46 | the bin label is a multiple of 2 minutes at most `t`, less than 2 minutes below it |
| Series.BinStartUnique | app.py:46 | that label is the only such grid point |
| Series.GridSpacing | app.py:46-47 | in a strictly increasing on-grid series, points `k` positions apart are at least `k` bins apart |
| Resampling.LookupSpec | app.py:46 | a bin is found under a label iff some bin carries that label, and the one found does |
| Resampling.LookupSorted | app.py:46 | in sorted bins, each bin is the one found under its label |
| Resampling.AddSampleAppends | app.py:46 | a sample later than every bin opens a new bin at the end |
| Resampling.AddSampleLabels | app.py:46 | adding a sample adds exactly its bin label and at most one bin |
| Resampling.AddSampleSorted | app.py:46 | adding a sample keeps the bins strictly sorted by label |
| Resampling.AddSampleLookup | app.py:46 | adding a sample only changes its own bin: sum grows by the heart rate, count by one |
| Resampling.BinsSpec | app.py:46-47 | the bins are sorted, no more than the samples, and none is empty; each holds the count and sum of its samples |
| Resampling.EmptyBinSum | app.py:46 | a bin with no samples has sum zero |
| Resampling.BinsLookupAt | app.py:46-47 | the bin under a label exists iff a sample falls there, and then holds that count and sum |
| Resampling.CountBinOccupied | app.py:46-47 | a bin's count is positive iff some sample falls into it |
| Resampling.ResampleSpec | app.py:46-47 | labels strictly increase and are on the 2-minute grid, whatever the input order; no longer than the input; a label appears iff its bin holds a sample; each value is the mean of that bin's samples |
| Resampling.GriddedBins | app.py:46 | on a strictly increasing on-grid series each sample is its own bin |
| Resampling.GriddedIsFixed | app.py:46-47 | resampling such a series returns it unchanged |
| Resampling.ResampleIdempotent | app.py:46-47 | resampling twice is resampling once |
| Resampling.ResampleSingle | app.py:46-47 | one sample resamples to one point at its bin start, with its own value |
| Window.CountConcat | app.py:48 | the window count of a concatenation is the sum of the counts |
| Window.CountAtMostLength | app.py:48 | a window never counts more values than there are |
| Window.CountNone | app.py:48 | with no value in the window the count is zero |
| Window.CountAll | app.py:48 | with every value in the window the count is the length |
| Window.CountSubset | app.py:48 | distinct values that all occur in another list never count more in any window |
| Window.CountWithin | app.py:48 | only the positions between the last value below and the first above the window count |
| Window.RollingCountPrefix | app.py:48 | on increasing labels, the count over the whole series equals pandas' count over the points up to `i` |
| Window.WindowStart | app.py:48 | on the grid, only the 60 positions ending at `i` can be in the window of `i` |
| Window.WindowCountBound | app.py:48-49 | on the grid, a window holds at most 60 points, and exactly 60 iff the 59 points before `i` are consecutive bins |
| Window.ConsecutiveBins | app.py:48 | points as many bins apart as positions apart fill every bin between them |
| Window.RollingCountAtMost | app.py:46-48 | every rolling count of a resampled series is at most 60 |
| Window.SparseNotAcceptable | app.py:48-49 | fewer than 60 resampled points can never pass |
| Window.AcceptableIsDense | app.py:46-49 | a passing series has 60 consecutive 2-minute bins that each hold a raw sample |
| Window.DenseIsAcceptable | app.py:46-49 | 60 consecutive 2-minute bins that each hold a raw sample make the series pass |
| Window.AcceptableIffDense | app.py:46-49 | the gate passes iff 60 consecutive 2-minute bins each hold a raw sample |
| Window.AcceptableMonotone | app.py:46-49 | adding (or reordering) raw samples never turns a passing series into a failing one |
| Quality.QualityIffDense | app.py:41-49 | a frame passes iff it has both columns and 60 consecutive occupied bins |
| Quality.QualityMonotone | app.py:41-49 | more rows never make a passing frame fail |
| Quality.FewRowsRejected | app.py:41-49 | a frame with fewer than 60 rows never passes |
| Quality.EmptyJsonRejected | app.py:23-44 | an empty JSON array loads, and the gate then fails it for its missing columns |
| Quality.ThreePairsRecords | app.py:31-32 | three `[ms, hr]` pairs become three records with those values, in order |
| Quality.ThreeReadingsLoad | app.py:27-33 | a record listing those pairs loads as a three-row frame with both columns |
| Quality.ThreeReadingsRejected | app.py:46-49 | those three readings resample to three points and fail the gate |
| Quality.SteadyRunAccepted | app.py:46-49 | 61 readings 2 minutes apart resample to themselves and pass the gate |
| Extract.SliceAll | app.py:94 | a label slice whose bounds hold every point keeps the whole series |
| Extract.SliceSuffix | app.py:94 | on increasing labels bounded above by `hi`, the slice is the suffix from the first label at least `lo` |
| Extract.LatestIntervalDefined | app.py:88-91 | `index[0]` fails, with the empty-series fault, exactly when there are no rows |
| Extract.LastIsGreatest | app.py:91 | the last resampled point carries the greatest timestamp |
| Extract.WindowSliceSuffix | app.py:91-94 | on increasing labels, the slice of the 2 hours ending at the last point is a non-empty suffix whose first point lies within the window |
| Extract.WindowSliceShape | app.py:91-94 | on an increasing grid, the slice of the 2 hours ending at the last point is a non-empty suffix of at most 61 points |
| Extract.SuffixWithinWindow | app.py:92-94 | a suffix starting within 2 hours of the end has at most 61 points |
| Extract.SliceMembers | app.py:94 | the label slice keeps exactly the points whose labels lie in `[lo, hi]`, whatever their order |
| Extract.LatestIntervalShape | app.py:86-95 | `t_end` is the greatest resampled timestamp; the interval is a non-empty contiguous suffix of the resampled series ending at its last point, holds exactly its points in `[t_end-2h, t_end]`, at most 61 |
| Extract.MinMaxBounds | app.py:112-113 | every value lies between the minimum and the maximum, and both occur |
| Extract.SumBounds | app.py:114 | a sum of values between two bounds lies between the bounds times the count |
| Extract.MeanBetween | app.py:114 | the mean of values between two bounds lies between them |
| Extract.StatsBounds | app.py:112-114 | every value lies in `[min, max]`, both occur, and `min <= mean <= max` |
| Extract.ShownSummaryOrdered | app.py:105-114 | a shown interval is the latest interval of the loaded file's rows; it is non-empty, its heart rates lie in `[min, max]`, both are among them, and the mean is theirs and lies between |
| Extract.ConstantStats | app.py:112-114 | for equal values, the minimum, maximum and mean are that value |
| Frame.Without | app.py:45 | the columns left after `set_index`: every column but the removed name, none added |
| Frame.DataFrame.constructor | app.py:33 | a frame starts with the loaded columns and rows, not yet indexed |
| Frame.DataFrame.SetTimestampIndex | app.py:45 | without `timestamp` it raises and changes nothing; otherwise it moves `timestamp` into the index; either way no `timestamp` column is left |
| Frame.CheckDataQuality | app.py:41-49 | the verdict is `DataQuality` of the frame as it was; a missing frame or column gives false with the frame untouched; otherwise the frame is re-indexed in place |
| Frame.Extract2hInterval | app.py:86-95 | without `timestamp` it raises with the frame untouched; otherwise the frame is re-indexed and the result is the latest interval of its rows |
| Frame.ShowLatestInterval | app.py:105-114 | load, extract from a fresh frame and summarise gives exactly `LatestView`, whose shown statistics are ordered (`ShownSummaryOrdered`) |
| Frame.GateConsumesTimestamp | app.py:41-49 | on one frame object a second gate always fails, extraction after a gate that passed the schema check raises on `set_index`, and the frame ends re-indexed exactly when it had a `timestamp` column |
| Frame.GateIgnoresLatestInterval | app.py:105-111 | a series can pass the gate while the interval shown is a single reading |

## Left out

- Flask routes, requests, redirects, `flash`, templates and `app.run` (`upload_file`, `list_intervals`, the HTTP side of `show_latest_interval`): these are UI and I/O.
- Saving, listing, joining and opening files: any file is modelled by what the CSV reader and the JSON reader would each produce from it (`Loader.FileContent`), and `None` stands for a reader that raises.
- `pd.read_csv` and the free-form date parsing of `pd.to_datetime` on CSV data: these are foreign library calls. A CSV file is modelled as its header and already-parsed rows. Only the renaming of the first column is modelled, together with the raise of `pd.to_datetime` when the renaming leaves two `timestamp` columns.
- Extra numeric CSV columns, which pandas would resample too: only `timestamp` and `heartrate` are modelled.
- `Loader.PairRecord`: a JSON pair whose members are not both numbers is treated as unreadable. This covers strings, booleans and `null` heart rates, which pandas would carry as values or NaN; `null` timestamps, for which `pd.to_datetime(None, unit='ms')` returns `None` without raising, so the source appends the record and loads a frame; and pairs of numeric strings such as `["7", "80"]`, which pandas can convert and load; such string heart rates then fail later in `mean()`, outside the `try`. Timestamps beyond pandas' representable range are not modelled.
- `Loader.EntryRecords`: a truthy `heartRateValues` that is not a list (a number, string or object) is treated as unreadable. For numbers the code raises. A string iterates its characters, whose `value[1]` raises. An object iterates its keys: a key of two or more characters, such as `"75"`, can convert as a timestamp (`pd.to_datetime("7", unit='ms')`) and yields a string heart rate, so the source may load such a file and fail only later; the model gives no data.
- `Upload.LowerChar`: lower-casing covers ASCII letters only and keeps the length. Python's `lower()` also maps non-ASCII letters, some to ASCII (the Kelvin sign to `k`) and some to longer strings (`İ` to `i` followed by a combining dot). Neither of those can turn an extension into `csv` or `json`, so the verdict of `allowed_file` is unaffected.
- `Extract.LatestView`: the missing-`heartrate` fault is raised after extraction, as the source orders it. A frame with `timestamp` but no value column is not resampled the way pandas does (pandas keeps empty bins when there is no column to find NaN in).
- Floating-point rounding and NaN handling of pandas means: these use exact reals.
- Nanosecond rounding of JSON timestamps: `pd.to_datetime(x, unit='ms')` rounds a fractional millisecond value to whole nanoseconds, so a value such as 119999.9999999 falls in the bin of 120000 under pandas and in the bin of 0 in the model, which floors it.
- `plot_heartrate` and the shared `static/plot.png`, which concurrent requests overwrite: rendering and a cross-request race.
- The rolling mean at app.py:90 only supplies its index, which equals the resampled index, so its values are not modelled.
- Configuration, the secret key and `print` logging.
