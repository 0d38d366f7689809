# Sharko data preparation, verified model

Sharko prepares training data for a shark-habitat model. Its scripts do
the following:

- download 8-day sea-surface-temperature composites (`SST_script_8day.py`);
- download daily chlorophyll files and flatten their grids into rows
  (`dataset.py`);
- assemble the training table (`final_dataset.py`). It keeps the shark
  sightings inside the study window, draws twice as many pseudo-absence
  points and labels both kinds. It then attaches one column per
  environmental source, adds the two seasonal columns, drops incomplete
  rows and moves `presence` to the end.

This project models the calendar, file-name, retry and table logic of
those scripts in Dafny, and proves what the scripts rely on. The network,
NetCDF reading and the numeric libraries stay outside: what they would
return is an input.

| file | module | models |
|---|---|---|
| `wrappers.dfy` | `Wrappers` | `Option` |
| `calendar.dfy` | `Calendar` | the proleptic Gregorian calendar of pandas timestamps |
| `text.dfy` | `Text` | `str.split`, `posixpath.join`, `posixpath.basename`, `in` on strings |
| `date_text.dfy` | `DateText` | `strftime('%Y%m%d')` and `to_datetime(format='%Y%m%d')` |
| `seqs.dfy` | `Seqs` | order-keeping selection (comprehensions with `if`, boolean masks, `dropna`) |
| `sst_8day.dfy` | `Sst8Day` | `SST_script_8day.py` |
| `daily_chlorophyll.dfy` | `DailyChlorophyll` | `dataset.py` |
| `training_table.dfy` | `TrainingTable` | `final_dataset.py`, up to the combined points |
| `training_frame.dfy` | `TrainingFrame` | `final_dataset.py`, from the combined points to the table it saves |

Each kind of state is modelled as follows:

- **Days** are ordinal dates: a year and a 0-based day of that year.
  Whole-day numbers give their order and distance.
- **The SST downloader's disk** is a map from path to file size, and the
  missing-files log is a sequence of lines. Both are fields of
  `Sst8Day.Downloader`.
- **The server** is a sequence of responses, one per attempt.
- **The daily downloader's disk** is the set of existing paths, a field
  of `DailyChlorophyll.Storage`.
- **The pandas DataFrame** `final_dataset` is `TrainingFrame.Frame`. Its
  column list and row list are fields, and the methods update them in
  place, each proved equal to a function on tables.

## Model

| member | source | states |
|---|---|---|
| Calendar.DateDayRoundTrip | SST_script_8day.py:54-55 | the calendar date printed for a day and the day it denotes are two spellings of the same day |
| Calendar.AddDaysNumber | SST_script_8day.py:47 | adding k days with `pd.Timedelta(days=k)` moves the day number by exactly k |
| Calendar.NotAfterIsDayOrder | SST_script_8day.py:127 | comparing timestamps at midnight is comparing day numbers |
| Calendar.YearBoundaryDates | SST_script_8day.py:51 | the first and last ordinal days of a year are 1 January and 31 December |
| DateText.ParseFormatted | final_dataset.py:90 | reading `%Y%m%d` back from a timestamp's formatted date gives the same date |
| DateText.FormatParsed | final_dataset.py:90 | any text that `to_datetime(format='%Y%m%d')` accepts is exactly the formatting of the date it yields |
| Text.JoinSplit | final_dataset.py:90 | joining the pieces of `str.split` with the separator gives back the string |
| Text.SplitJoin | SST_script_8day.py:58 | splitting a join of separator-free pieces gives back the pieces |
| Text.BasenameOfJoin | final_dataset.py:90 | the base name of a file name joined under any directory is the file name |
| Seqs.FilterMembers | SST_script_8day.py:125-128 | a list comprehension with `if` keeps exactly the elements that pass the test |
| Seqs.FilterIsSubsequence | final_dataset.py:46-49 | a boolean-mask selection keeps the kept rows in their original order |
| Sst8Day.PeriodEnd | SST_script_8day.py:47-51 | the end is start + 7 days when that stays in the start year, otherwise 31 December of the start year; so it is in the same year, not before the start and at most 7 days after it |
| Sst8Day.PeriodInRangeMeans | SST_script_8day.py:47 | a period can be named exactly when its start and the start + 7 days are both pandas timestamps |
| Sst8Day.PeriodFileNameFields | SST_script_8day.py:54-58 | the file name's dot fields are `AQUA_MODIS`, `<start>_<end>` and the fixed product fields; the two dates read back as the period's first and last day |
| Sst8Day.PeriodUrlNamesFile | SST_script_8day.py:60-61 | the URL's last path component and the save path's base name are both the file name |
| Sst8Day.Download | SST_script_8day.py:64-66 | with a file larger than 10000 bytes already saved, the path comes back with no request made and nothing logged; a path only ever comes back with a saved file larger than 10000 bytes |
| Sst8Day.AttemptFrom | SST_script_8day.py:69-110 | at most `retries` requests, at most one log line, and a returned path always names a saved file larger than 10000 bytes |
| Sst8Day.FirstDecisiveReply | SST_script_8day.py:75-97 | the first HTML, 200 or 404 reply decides the call after exactly that many requests: HTML gives None and no log line; 200 keeps a file over 10000 bytes and returns its path, or deletes it and gives None; 404 gives None and one "(404 Not Found)" line |
| Sst8Day.AllAttemptsFail | SST_script_8day.py:99-110 | when no reply is decisive, all `retries` requests are made, None comes back and exactly one "(Max retries reached)" line is logged |
| Sst8Day.Fetch | SST_script_8day.py:61-110 | one call touches no file but its own save path, only appends to the log, at most one line, and when it returns None no file larger than 10000 bytes is left at that path |
| Sst8Day.Downloader.DownloadNcFile | SST_script_8day.py:42-110 | the retry loop with its early returns leaves the disk and log that `Fetch` specifies and returns the path it specifies |
| Sst8Day.RunAll | SST_script_8day.py:133-138 | `nc_files` is a subsequence of the periods' save paths in period order, no longer than the period list, and the log only grows, by at most one line per period |
| Sst8Day.RunAllKeptPaths | SST_script_8day.py:133-138 | `nc_files` holds only successful downloads and all of them: a path is kept exactly when it is one of the periods' save paths and names a file larger than 10000 bytes on the disk the loop leaves |
| Sst8Day.Downloader.DownloadAll | SST_script_8day.py:133-138 | the main loop's result list and final disk are those `RunAll` specifies |
| Sst8Day.YearPeriodStartsShape | SST_script_8day.py:121 | a year's range starts on 1 January, steps by 8 days, stays in the year, stops at the last step before its end and is increasing |
| Sst8Day.YearPeriodStartsMembers | SST_script_8day.py:121 | a day is in a year's range exactly when it lies in that year a multiple of 8 days after 1 January |
| Sst8Day.AllStartsMembers | SST_script_8day.py:118-122 | a day is generated exactly when its year is in the configured years and it is a multiple of 8 days after 1 January |
| Sst8Day.AllStartsIncreasing | SST_script_8day.py:118-122 | the generated starts are strictly increasing |
| Sst8Day.GenerateStartDates | SST_script_8day.py:118-122 | the loop that extends `all_start_dates` year by year builds exactly `AllStarts` |
| Sst8Day.DatesToDownload | SST_script_8day.py:125-128 | a start is kept exactly when it was generated and lies inside the window, both ends included; the result is a subsequence of the generated starts, so it is increasing when they are |
| Sst8Day.ConfiguredYearsInRange | SST_script_8day.py:20-21 | the configured window is 2020-01-01 to 2025-06-30 and all its years can be named |
| Sst8Day.PlannedPeriodsMembers | SST_script_8day.py:118-128 | the planned periods start exactly on the days of the window that are a multiple of 8 days after 1 January |
| Sst8Day.PlannedPeriodsOrdered | SST_script_8day.py:118-128 | the planned periods are strictly increasing and every one of them can be named |
| DailyChlorophyll.DayRange | dataset.py:14 | `pd.date_range(first, last, freq="D")` is empty exactly when first is after last |
| DailyChlorophyll.DayRangeMembers | dataset.py:14 | a day is in the range exactly when it lies between the ends, both included |
| DailyChlorophyll.DayRangeSteps | dataset.py:14 | the range starts at first, ends at last, has one entry per day and steps one day at a time |
| DailyChlorophyll.ConfiguredDaysInRange | dataset.py:14 | every configured day from 2023-06-24 to 2025-09-10 is a pandas timestamp, so its name can be formatted |
| DailyChlorophyll.DailyFileNameFields | dataset.py:23 | the daily name's first dot field is `AQUA_MODIS` and its second is the day's `YYYYMMDD`; the name is a single path component |
| DailyChlorophyll.DailyUrlNamesFile | dataset.py:23-25 | the URL's last path component and the save path's base name are both the daily file name |
| DailyChlorophyll.Storage.DownloadNcFile | dataset.py:22-37 | the save path is always returned; a request is made exactly when the file is missing, and the file is written only on status 200 |
| DailyChlorophyll.AfterDownloadsMembers | dataset.py:27-32 | after the downloads, a path exists exactly when it existed before or some request for it answered 200 |
| DailyChlorophyll.Storage.DownloadAll | dataset.py:39 | `nc_files` lists every day's save path in order, downloaded or not, and the disk is the one `AfterDownloads` specifies |
| DailyChlorophyll.BuildDataset | dataset.py:44-64 | the loop over files builds exactly `AllRecords`; a file that cannot be read adds nothing and the loop goes on |
| DailyChlorophyll.FlattenFile | dataset.py:54-62 | the nested loops append exactly the file's `GridRecords`, stopping at the first cell the array lacks |
| DailyChlorophyll.GridRecordsLayout | dataset.py:55-62 | row i * len(lon) + j holds the date, lat[i], lon[j] and chl[i][j] |
| DailyChlorophyll.GridRecordsCount | dataset.py:55-62 | a file gives at most len(lat) * len(lon) rows, and exactly that many exactly when no cell is missing |
| DailyChlorophyll.AllRecordsCount | dataset.py:46-64 | with well-shaped grids, the total row count is the sum of len(lat) * len(lon) over the files that are read |
| DailyChlorophyll.AllRecordsDates | dataset.py:58 | every row's date is the date field of one of the file paths |
| DailyChlorophyll.DateFieldOfNamedPath | dataset.py:58 | `file.split(".")[1]` of a daily file's path is the file's date text when the directory has no '.' |
| DailyChlorophyll.DailyPathsDateFields | dataset.py:10 | under the configured directory, every downloaded path's date field is its day's `YYYYMMDD` |
| TrainingTable.StartDateOfFile | final_dataset.py:90 | a parsed start date is a valid calendar date and a pandas timestamp |
| TrainingTable.StartDateOfFileText | final_dataset.py:90 | a date is read only from a field that is exactly its eight-digit text |
| TrainingTable.PeriodFileStartDate | final_dataset.py:90 | reading the name of an 8-day file under any directory gives back the period's first day |
| TrainingTable.DailyFileStartDate | final_dataset.py:90 | reading the name of a daily file under any directory gives back its day |
| TrainingTable.StartDates | final_dataset.py:90 | the comprehension yields every file's start date in order, or fails exactly when some name fails to parse |
| TrainingTable.BuildTimeCoordinate | final_dataset.py:83-96 | when any name fails or the count does not match the time steps, the dataset comes back unchanged; otherwise its time coordinate is the parsed start dates, in file order |
| TrainingTable.PeriodFilesTimeCoordinate | final_dataset.py:83-96 | stacking the 8-day files of some periods gives those periods' first days as the time coordinate |
| TrainingTable.PresenceRows | final_dataset.py:44-49 | every kept sighting is complete and inside the window, both ends included |
| TrainingTable.PresenceRowsMembers | final_dataset.py:44-49 | a sighting is kept exactly when it is complete and inside the window |
| TrainingTable.PresenceRowsOrder | final_dataset.py:46-49 | the kept sightings keep their relative order |
| TrainingTable.MinOf | final_dataset.py:57-58 | `Series.min()` is an element no greater than any other |
| TrainingTable.MaxOf | final_dataset.py:57-58 | `Series.max()` is an element no smaller than any other |
| TrainingTable.UniformBounds | final_dataset.py:62-63 | a uniform draw from [low, high) with its variate in [0, 1) lies in [low, high] |
| TrainingTable.PseudoAbsences | final_dataset.py:53-69 | with N > 0 presence points there are exactly 2N pseudo-absences, or `randint` raises when the range of seconds is empty; with none there are none |
| TrainingTable.PseudoAbsenceBounds | final_dataset.py:56-65 | given draws inside their ranges, each point lies in the presence points' latitude and longitude ranges, at a whole second in [start_ts, end_ts) |
| TrainingTable.Combine | final_dataset.py:72-74 | the combined table has one row per point, labelled 1 exactly for the presence rows, which come first, and 0 for the rest |
| TrainingTable.CombinePresence | final_dataset.py:72-74 | the rows labelled 1 are the presence points, in their original order |
| TrainingTable.CombineAbsence | final_dataset.py:72-74 | the rows labelled 0 are the pseudo-absence points, in their original order |
| TrainingFrame.Initial | final_dataset.py:167 | the copy has one row per labelled point, one value per column and no repeated column |
| TrainingFrame.WithColumn | final_dataset.py:197 | assigning a column keeps the row count and adds the name at the end only when it is new |
| TrainingFrame.WithColumnMeans | final_dataset.py:197 | after `df[name] = values`, the column holds exactly the values, every other column is untouched and no name is repeated |
| TrainingFrame.Frame.Assign | final_dataset.py:197 | the in-place assignment leaves the frame equal to `WithColumn` of its old contents |
| TrainingFrame.AttachAllColumns | final_dataset.py:176-200 | the table gains, in source order, exactly the columns of the sources that load; a failing source adds nothing and the later ones are still processed |
| TrainingFrame.AttachAllValues | final_dataset.py:176-200 | each loaded source's column holds exactly its extracted values, the original columns keep their contents and no name repeats |
| TrainingFrame.Frame.AttachSources | final_dataset.py:176-200 | the loop over the sources leaves the frame equal to `AttachAll` of its old contents |
| TrainingFrame.DropIncompleteRows | final_dataset.py:212 | a row survives `dropna` exactly when it has no missing value, and the survivors keep their order |
| TrainingFrame.Frame.DropNa | final_dataset.py:212 | the in-place `dropna` leaves the frame equal to `DropIncomplete` of its old contents |
| TrainingFrame.MoveToEndMultiset | final_dataset.py:221 | `cols.insert(len(cols), cols.pop(k))` is a permutation of the list |
| TrainingFrame.PresenceLastColumns | final_dataset.py:219-222 | the reordered columns are a permutation of the old ones, with `presence` last and no name repeated |
| TrainingFrame.PresenceLastOrder | final_dataset.py:219-222 | apart from `presence`, the columns keep their relative order |
| TrainingFrame.PresenceLastValues | final_dataset.py:222 | selecting the reordered columns leaves every column's contents unchanged |
| TrainingFrame.Frame.MovePresenceLast | final_dataset.py:219-222 | the in-place reorder leaves the frame equal to `PresenceLast` of its old contents |
| TrainingFrame.FinishedComplete | final_dataset.py:205-222 | after the finishing steps no value is missing, and `presence` is last when rows remain |
| TrainingFrame.FinishedColumns | final_dataset.py:205-222 | after the finishing steps the columns are the earlier ones plus `day_sin` and `day_cos`, each exactly once |
| TrainingFrame.Frame.Finalize | final_dataset.py:205-222 | the in-place finishing steps leave the frame equal to `Finished` of its old contents |
| TrainingFrame.ConfiguredNamesDistinct | final_dataset.py:169-174 | the four configured sources, `chlor_a`, `sst`, `ssha` and `sss`, clash neither with the point columns nor with `day_sin` and `day_cos` |
| TrainingFrame.AssembleMeans | final_dataset.py:163-222 | the built table has no missing value and its columns are the four point columns, the sources that loaded and the two seasonal columns, each once; when rows remain (the only case in which the script saves it, lines 216 and 235) the columns come in exactly that order (sources in `data_sources` order, then `day_sin`, `day_cos`) with `presence` taken out and put last |
| TrainingFrame.BuildTrainingTable | final_dataset.py:163-222 | nothing is built without points; otherwise a new frame holds exactly `Assemble` of the points and sources |

## Left out

- HTTP sessions, `.netrc` credentials, streaming writes, timeouts and
  `time.sleep` are left out. Each attempt's outcome is one abstract
  response: a network error, or a status, a content type and a body size.
- DailyChlorophyll.Storage.DownloadNcFile: a network exception from `requests.get` is not modelled. It would end `dataset.py`, since nothing catches it, and every request here has a status.
- Sst8Day.AttemptFrom: an exception in the middle of a 200 download is
  not modelled. Such an exception leaves a partial file and moves on to
  the next attempt, but the model treats a 200 reply as one that arrives
  whole.
- The disk is reduced to what the scripts check:
  - file existence and size in `SST_script_8day.py`;
  - existence only in `dataset.py`.

  The missing-files log is modelled as its lines, not as a file inside
  the data directory.
- The console messages are not modelled. This includes the final count
  comparison at SST_script_8day.py:143, which only prints.
- Opening, checking and concatenating NetCDF files with xarray is not
  modelled, nor the coordinate renaming or the cropping `sel`
  (final_dataset.py:98-136). What each source yields is an input, as is
  the nearest-neighbour lookup (xarray `sel(method='nearest')` or the
  scipy KD-tree). A source either yields one value per row or fails.
- TrainingTable.BuildTimeCoordinate is modelled on a dataset reduced to
  its number of time steps and its time coordinate.
- `day_sin` and `day_cos` (final_dataset.py:206-209) are floating-point
  trigonometry, so their values are inputs. `day_of_year` is added and
  dropped again and is not modelled.
- Random draws are inputs: the uniform variates and the `randint`
  offsets in seconds.
- `datetime.timestamp()` of the configured dates depends on the local
  time zone, so `start_ts` and `end_ts` are parameters.
- Latitudes, longitudes and chlorophyll values are mathematical reals,
  and NaN is not modelled. In the training table a missing value is
  `Missing`, and in the sightings it is None.
- Pandas parsing is reduced to its results:
  - `read_csv` and the `to_datetime(errors='coerce')` of the sightings
    are optional values per row;
  - `to_datetime(format='%Y%m%d')` accepts exactly eight digits that
    form a valid date inside the pandas timestamp range. Lenient shorter
    forms are not modelled.
- CSV and gzip writing (dataset.py:70, final_dataset.py:226-227) is not
  modelled.
- `os.path` is modelled with POSIX semantics. The Windows folder
  settings of final_dataset.py (lines 24-28) are not modelled.
- Sst8Day.YearInRange restricts the generated years to 1678–2261, the
  whole years of the pandas timestamp range. `%Y` then gives four digits
  and every period end is a timestamp.
- TrainingFrame.Initial fixes the base column order at `time`, `lat`, `lon`, `presence`. In the script, `read_csv(usecols=...)` keeps the order of the occurrence file's header and `pd.concat` keeps that order, so the position of these four among themselves depends on the input file. TrainingFrame.FinishedColumns states the columns as a multiset; TrainingFrame.AssembleMeans also states the exact order, which holds for this base order: the sources, the seasonal columns and `presence` last are placed the same way whatever the header order.
- DailyChlorophyll.Grid holds a 2-D chlorophyll array, indexed by
  latitude then longitude. Arrays with more dimensions are not modelled.
- DailyChlorophyll.BuildDataset takes the date field before the loops.
  The script computes it inside the first row, so a path without a '.'
  raises before any row of that file is appended. The effect is the
  same: the file adds no rows.
- DailyChlorophyll.DailyNameFields states only the first two dot fields
  of the daily name, the ones the scripts read.
- `SSS.py` and `SSH.py` are not part of this model. One runs an external
  downloader through a subprocess; the other makes a single hard-coded
  request.
