/**
  The daily chlorophyll downloader and flattener (dataset.py): the list of
  days, the daily file name, the download routine that always hands back the
  local path, and the loop that turns every readable lat x lon grid into rows
  of (date text, latitude, longitude, chlorophyll).

  The server's status code and the contents read from each file are inputs;
  the disk is the set of paths that exist.
 */
module DailyChlorophyll {
  import opened Wrappers
  import opened Calendar
  import opened Text
  import opened DateText
  import opened Seqs

  const DataDir: string := "satellite_data"
  const BaseUrl: string := "https://oceandata.sci.gsfc.nasa.gov/cgi/getfile/"
  const FirstDay: Day := DayOf(Date(2023, 6, 24))
  const LastDay: Day := DayOf(Date(2025, 9, 10))

  // ---------------------------------------------------------------------------
  // The days
  // ---------------------------------------------------------------------------

  /** `pd.date_range(first, last, freq="D")`: every day from first to last, both included. */
  function DayRange(first: Day, last: Day): (r: seq<Day>)
    requires ValidDay(first) && ValidDay(last)
    ensures |r| > 0 <==> NotAfter(first, last)
  {
    NotAfterIsDayOrder(first, last);
    var n := if NotAfter(first, last) then DayNumber(last) - DayNumber(first) + 1 else 0;
    seq(n, i requires 0 <= i < n => AddDays(first, i))
  }

  /** The range holds exactly the valid days between its ends, in order, one day apart. */
  lemma DayRangeMembers(first: Day, last: Day, d: Day)
    requires ValidDay(first) && ValidDay(last)
    ensures d in DayRange(first, last) <==> ValidDay(d) && NotAfter(first, d) && NotAfter(d, last)
  {
    var r := DayRange(first, last);
    NotAfterIsDayOrder(first, last);
    if d in r {
      var i :| 0 <= i < |r| && r[i] == d;
      AddDaysNumber(first, i);
      NotAfterIsDayOrder(first, d);
      NotAfterIsDayOrder(d, last);
    }
    if ValidDay(d) && NotAfter(first, d) && NotAfter(d, last) {
      NotAfterIsDayOrder(first, d);
      NotAfterIsDayOrder(d, last);
      var i := DayNumber(d) - DayNumber(first);
      AddDaysNumber(first, i);
      DayNumberInjective(AddDays(first, i), d);
      assert r[i] == d;
    }
  }

  /** The i-th entry lies i days after `first`. */
  lemma DayRangeNumber(first: Day, last: Day, i: nat)
    requires ValidDay(first) && ValidDay(last) && i < |DayRange(first, last)|
    ensures DayNumber(DayRange(first, last)[i]) == DayNumber(first) + i
  {
    AddDaysNumber(first, i);
  }

  lemma DayRangeStep(first: Day, last: Day, i: nat)
    requires ValidDay(first) && ValidDay(last) && 0 < i < |DayRange(first, last)|
    ensures DayRange(first, last)[i] == NextDay(DayRange(first, last)[i - 1])
  {
    var r := DayRange(first, last);
    DayRangeNumber(first, last, i - 1);
    DayRangeNumber(first, last, i);
    NextDayNumber(r[i - 1]);
    DayNumberInjective(r[i], NextDay(r[i - 1]));
  }

  /** Consecutive entries are consecutive days, and the range starts on `first` and ends on `last`. */
  lemma DayRangeSteps(first: Day, last: Day)
    requires ValidDay(first) && ValidDay(last) && NotAfter(first, last)
    ensures var r := DayRange(first, last);
      && |r| == DayNumber(last) - DayNumber(first) + 1
      && r[0] == first && r[|r| - 1] == last
      && forall i :: 0 < i < |r| ==> r[i] == NextDay(r[i - 1])
  {
    var r := DayRange(first, last);
    NotAfterIsDayOrder(first, last);
    var n := |r| - 1;
    DayRangeNumber(first, last, n);
    DayNumberInjective(r[n], last);
    forall i | 0 < i < |r| ensures r[i] == NextDay(r[i - 1]) {
      DayRangeStep(first, last, i);
    }
  }

  /** The configured days, 2023-06-24 to 2025-09-10. */
  function ConfiguredDays(): seq<Day> {
    DayRange(FirstDay, LastDay)
  }

  /** Every configured day is a pandas timestamp, so its name can be written. */
  lemma ConfiguredDaysInRange()
    ensures forall i :: 0 <= i < |ConfiguredDays()| ==> InTimestampRange(ConfiguredDays()[i])
  {
    var r := ConfiguredDays();
    forall i | 0 <= i < |r| ensures InTimestampRange(r[i]) {
      DayRangeMembers(FirstDay, LastDay, r[i]);
    }
  }

  // ---------------------------------------------------------------------------
  // The daily file
  // ---------------------------------------------------------------------------

  /** `AQUA_MODIS.<YYYYMMDD>.L3m.DAY.CHL.chlor_a.4km.nc` */
  function DailyName(dateText: string): string {
    "AQUA_MODIS." + dateText + ".L3m.DAY.CHL.chlor_a.4km.nc"
  }

  function DailyFileName(d: Day): string
    requires InTimestampRange(d)
  {
    DailyName(DayText(d))
  }

  function DailyUrl(d: Day): string
    requires InTimestampRange(d)
  {
    BaseUrl + DailyFileName(d)
  }

  /** `os.path.join(DATA_DIR, fname)` */
  function DailySavePath(d: Day): string
    requires InTimestampRange(d)
  {
    PathJoin(DataDir, DailyFileName(d))
  }

  /** The name's second dot-separated field is the date text, and the name is a single path component. */
  lemma DailyNameFields(dateText: string)
    requires '.' !in dateText && '/' !in dateText
    ensures var fields := Split(DailyName(dateText), '.');
      |fields| >= 2 && fields[0] == "AQUA_MODIS" && fields[1] == dateText
    ensures '/' !in DailyName(dateText)
  {
    DailyNameShape(dateText);
    SplitFirstTwo("AQUA_MODIS", dateText, "L3m.DAY.CHL.chlor_a.4km.nc", '.');
  }

  lemma DailyNameShape(dateText: string)
    ensures DailyName(dateText) == "AQUA_MODIS" + ['.'] + (dateText + ['.'] + "L3m.DAY.CHL.chlor_a.4km.nc")
  {
  }

  lemma DailyFileNameFields(d: Day)
    requires InTimestampRange(d)
    ensures var fields := Split(DailyFileName(d), '.');
      |fields| >= 2 && fields[0] == "AQUA_MODIS" && fields[1] == DayText(d)
    ensures '/' !in DailyFileName(d)
  {
    DigitsHaveNoSeparators(DayText(d));
    DailyNameFields(DayText(d));
  }

  /** The URL's last path component is the local file's name. */
  lemma DailyUrlNamesFile(d: Day)
    requires InTimestampRange(d)
    ensures Basename(DailyUrl(d)) == Basename(DailySavePath(d)) == DailyFileName(d)
  {
    DailyFileNameFields(d);
    assert PathJoin(BaseUrl, DailyFileName(d)) == DailyUrl(d);
    BasenameOfJoin(BaseUrl, DailyFileName(d));
    BasenameOfJoin(DataDir, DailyFileName(d));
  }

  // ---------------------------------------------------------------------------
  // Downloading
  // ---------------------------------------------------------------------------

  /** The local paths of the days' files, in order. */
  function DailyPaths(days: seq<Day>): (paths: seq<string>)
    requires forall i :: 0 <= i < |days| ==> InTimestampRange(days[i])
    ensures |paths| == |days|
  {
    if days == [] then [] else DailyPaths(days[..|days| - 1]) + [DailySavePath(days[|days| - 1])]
  }

  lemma {:induction false} DailyPathsAt(days: seq<Day>, i: nat)
    requires forall i :: 0 <= i < |days| ==> InTimestampRange(days[i])
    requires i < |days|
    ensures DailyPaths(days)[i] == DailySavePath(days[i])
  {
    var n := |days| - 1;
    if i < n {
      DailyPathsAt(days[..n], i);
    }
  }

  /** The files on disk after downloading to the paths in order: a missing file is written when
      its request answers 200. */
  function AfterDownloads(files: set<string>, paths: seq<string>, statuses: seq<int>): set<string>
    requires |statuses| == |paths|
  {
    if paths == [] then files
    else
      var n := |paths| - 1;
      var before := AfterDownloads(files, paths[..n], statuses[..n]);
      if paths[n] !in before && statuses[n] == 200 then before + {paths[n]} else before
  }

  /** A path exists after the run exactly when it existed before or some request for it answered 200. */
  lemma {:induction false} AfterDownloadsMembers(files: set<string>, paths: seq<string>, statuses: seq<int>, p: string)
    requires |statuses| == |paths|
    ensures p in AfterDownloads(files, paths, statuses) <==>
      p in files || exists i :: 0 <= i < |paths| && statuses[i] == 200 && paths[i] == p
  {
    if paths != [] {
      var n := |paths| - 1;
      AfterDownloadsMembers(files, paths[..n], statuses[..n], p);
      if exists i :: 0 <= i < |paths| && statuses[i] == 200 && paths[i] == p {
        var i :| 0 <= i < |paths| && statuses[i] == 200 && paths[i] == p;
        if i < n {
          assert statuses[..n][i] == 200 && paths[..n][i] == p;
        }
      }
    }
  }

  /** The data directory: the set of files that exist, changed in place. */
  class Storage {
    var files: set<string>

    constructor (files0: set<string>)
      ensures files == files0
    {
      files := files0;
    }

    /** `download_nc_file(date)`: request the file only when it is missing, keep the body only on
        status 200, and return the save path whatever happened. */
    method DownloadNcFile(d: Day, status: int) returns (savePath: string, requested: bool)
      requires InTimestampRange(d)
      modifies this
      ensures savePath == DailySavePath(d)
      ensures requested <==> DailySavePath(d) !in old(files)
      ensures files == if requested && status == 200 then old(files) + {savePath} else old(files)
    {
      var fname := DailyFileName(d);
      savePath := PathJoin(DataDir, fname);
      requested := false;
      if savePath !in files {
        requested := true;
        if status == 200 {
          files := files + {savePath};
        }
      }
    }

    /** `nc_files = [download_nc_file(d) for d in dates]`: every day's path is listed, downloaded or not. */
    method DownloadAll(days: seq<Day>, statuses: seq<int>) returns (ncFiles: seq<string>)
      requires |statuses| == |days|
      requires forall i :: 0 <= i < |days| ==> InTimestampRange(days[i])
      modifies this
      ensures ncFiles == DailyPaths(days)
      ensures files == AfterDownloads(old(files), DailyPaths(days), statuses)
    {
      ncFiles := [];
      for i := 0 to |days|
        invariant ncFiles == DailyPaths(days[..i])
        invariant files == AfterDownloads(old(files), ncFiles, statuses[..i])
      {
        DownloadStep(old(files), days, statuses, i);
        var path, _ := DownloadNcFile(days[i], statuses[i]);
        ncFiles := ncFiles + [path];
      }
      assert days[..|days|] == days && statuses[..|statuses|] == statuses;
    }
  }

  /** One more day: its path is listed after the earlier ones, and its download acts on the disk they left. */
  lemma DownloadStep(files: set<string>, days: seq<Day>, statuses: seq<int>, i: nat)
    requires |statuses| == |days| && i < |days|
    requires forall k :: 0 <= k < |days| ==> InTimestampRange(days[k])
    ensures var paths, p := DailyPaths(days[..i]), DailySavePath(days[i]);
      var before := AfterDownloads(files, paths, statuses[..i]);
      && DailyPaths(days[..i + 1]) == paths + [p]
      && AfterDownloads(files, paths + [p], statuses[..i + 1]) ==
           if p !in before && statuses[i] == 200 then before + {p} else before
  {
    var paths, p := DailyPaths(days[..i]), DailySavePath(days[i]);
    assert days[..i + 1][..i] == days[..i] && statuses[..i + 1][..i] == statuses[..i];
    SnocPrefix(paths, p);
  }

  // ---------------------------------------------------------------------------
  // Flattening the grids
  // ---------------------------------------------------------------------------

  /** What reading one file yields: the latitude and longitude axes and the chlorophyll values,
      indexed [i][j] for latitude i and longitude j. */
  datatype Grid = Grid(lat: seq<real>, lon: seq<real>, chl: seq<seq<real>>)

  /** One output row: `[date string, lat[i], lon[j], chl_data[i, j]]`. */
  datatype Record = Record(date: string, lat: real, lon: real, chlorA: real)

  /** `chl_data[i, j]` exists; indexing past the array raises. */
  predicate HasCell(g: Grid, i: nat, j: nat) {
    i < |g.chl| && j < |g.chl[i]|
  }

  /** The inner loop over longitudes finishes for latitude i without raising. */
  predicate RowComplete(g: Grid, i: nat) {
    |g.lon| == 0 || (i < |g.chl| && |g.lon| <= |g.chl[i]|)
  }

  /** Every latitude's row completes: the file's loops run to the end. */
  predicate Readable(g: Grid) {
    forall i :: 0 <= i < |g.lat| ==> RowComplete(g, i)
  }

  function Cell(date: string, g: Grid, i: nat, j: nat): Record
    requires i < |g.lat| && j < |g.lon| && HasCell(g, i, j)
  {
    Record(date, g.lat[i], g.lon[j], g.chl[i][j])
  }

  /** The rows for cells 0 .. j - 1 of latitude i. */
  function RowPrefix(date: string, g: Grid, i: nat, j: nat): (r: seq<Record>)
    requires i < |g.lat| && j <= |g.lon|
    requires forall k :: 0 <= k < j ==> HasCell(g, i, k)
    ensures |r| == j
  {
    if j == 0 then [] else RowPrefix(date, g, i, j - 1) + [Cell(date, g, i, j - 1)]
  }

  /** The rows for latitudes 0 .. n - 1, each complete. */
  function Rows(date: string, g: Grid, n: nat): (r: seq<Record>)
    requires n <= |g.lat|
    requires forall k :: 0 <= k < n ==> RowComplete(g, k)
    ensures |r| == n * |g.lon|
  {
    if n == 0 then []
    else
      assert RowComplete(g, n - 1);
      Rows(date, g, n - 1) + RowPrefix(date, g, n - 1, |g.lon|)
  }

  /** The first latitude at or after i whose row does not complete, or |lat| when there is none. */
  function FirstIncomplete(g: Grid, i: nat): (r: nat)
    requires i <= |g.lat|
    ensures i <= r <= |g.lat|
    ensures forall k :: i <= k < r ==> RowComplete(g, k)
    ensures r < |g.lat| ==> !RowComplete(g, r)
    decreases |g.lat| - i
  {
    if i == |g.lat| || !RowComplete(g, i) then i else FirstIncomplete(g, i + 1)
  }

  /** How many cells latitude i really has. */
  function Available(g: Grid, i: nat): nat {
    if i < |g.chl| then |g.chl[i]| else 0
  }

  /** The rows one file contributes: row after row until the first missing cell raises. */
  function GridRecords(date: string, g: Grid): seq<Record> {
    var s := FirstIncomplete(g, 0);
    if s == |g.lat| then Rows(date, g, s)
    else Rows(date, g, s) + RowPrefix(date, g, s, Available(g, s))
  }

  /** `file.split(".")[1]`; a path without '.' raises. */
  function DateField(path: string): Option<string> {
    var fields := Split(path, '.');
    if |fields| >= 2 then Some(fields[1]) else None
  }

  /** The rows one file contributes: none when it cannot be read or its date field raises. */
  function FileRecords(path: string, content: Option<Grid>): seq<Record> {
    match content
    case None => []
    case Some(g) =>
      match DateField(path)
      case None => []
      case Some(date) => GridRecords(date, g)
  }

  /** `all_data` after the loop over the first files. */
  function AllRecords(paths: seq<string>, contents: seq<Option<Grid>>): seq<Record>
    requires |contents| == |paths|
  {
    if paths == [] then []
    else
      var n := |paths| - 1;
      AllRecords(paths[..n], contents[..n]) + FileRecords(paths[n], contents[n])
  }

  /** Lines 44-64: flatten every file in order; a file that cannot be read adds nothing, and
      neither does a path without a date field, since building its first row raises. */
  method BuildDataset(ncFiles: seq<string>, contents: seq<Option<Grid>>) returns (allData: seq<Record>)
    requires |contents| == |ncFiles|
    ensures allData == AllRecords(ncFiles, contents)
  {
    allData := [];
    for f := 0 to |ncFiles|
      invariant allData == AllRecords(ncFiles[..f], contents[..f])
    {
      assert ncFiles[..f + 1][..f] == ncFiles[..f] && contents[..f + 1][..f] == contents[..f];
      if contents[f].Some? {
        var date := DateField(ncFiles[f]);
        if date.Some? {
          allData := FlattenFile(allData, date.value, contents[f].value);
        }
      }
    }
    assert ncFiles[..|ncFiles|] == ncFiles && contents[..|contents|] == contents;
  }

  /** Lines 54-62 inside the `try` of line 47: append a row per cell, latitude by latitude; the
      first missing cell raises and leaves the rows already appended. */
  method FlattenFile(allData: seq<Record>, date: string, g: Grid) returns (out: seq<Record>)
    ensures out == allData + GridRecords(date, g)
  {
    out := allData;
    for i := 0 to |g.lat|
      invariant forall k :: 0 <= k < i ==> RowComplete(g, k)
      invariant out == allData + Rows(date, g, i)
    {
      for j := 0 to |g.lon|
        invariant forall k :: 0 <= k < j ==> HasCell(g, i, k)
        invariant out == allData + Rows(date, g, i) + RowPrefix(date, g, i, j)
      {
        if !HasCell(g, i, j) {
          // the IndexError leaves the loops of this file
          StopsAt(allData, date, g, i, j);
          return;
        }
        out := out + [Record(date, g.lat[i], g.lon[j], g.chl[i][j])];
      }
      assert |g.lon| > 0 ==> HasCell(g, i, |g.lon| - 1);
    }
  }

  /** The first missing cell (i, j), with every earlier cell present, ends the file's rows there. */
  lemma StopsAt(allData: seq<Record>, date: string, g: Grid, i: nat, j: nat)
    requires i < |g.lat| && j < |g.lon| && !HasCell(g, i, j)
    requires forall k :: 0 <= k < i ==> RowComplete(g, k)
    requires forall k :: 0 <= k < j ==> HasCell(g, i, k)
    ensures allData + GridRecords(date, g) == allData + Rows(date, g, i) + RowPrefix(date, g, i, j)
  {
    assert j == Available(g, i) by {
      if j > 0 {
        assert HasCell(g, i, j - 1);
      }
    }
    FirstIncompleteIs(g, i);
  }

  /** When the rows before i complete and row i does not, row i is where the file stops. */
  lemma FirstIncompleteIs(g: Grid, i: nat)
    requires i < |g.lat| && !RowComplete(g, i)
    requires forall k :: 0 <= k < i ==> RowComplete(g, k)
    ensures FirstIncomplete(g, 0) == i
  {
  }

  // ---------------------------------------------------------------------------
  // What the rows are
  // ---------------------------------------------------------------------------

  lemma {:induction false} RowPrefixAt(date: string, g: Grid, i: nat, j: nat, k: nat)
    requires i < |g.lat| && j <= |g.lon| && k < j
    requires forall k :: 0 <= k < j ==> HasCell(g, i, k)
    ensures RowPrefix(date, g, i, j)[k] == Cell(date, g, i, k)
    decreases j
  {
    if k < j - 1 {
      RowPrefixAt(date, g, i, j - 1, k);
    }
  }

  /** In the complete rows 0 .. n - 1, cell (i, j) is row i * |lon| + j. */
  lemma {:induction false} RowsAt(date: string, g: Grid, n: nat, i: nat, j: nat)
    requires n <= |g.lat| && forall k :: 0 <= k < n ==> RowComplete(g, k)
    requires i < n && j < |g.lon|
    ensures HasCell(g, i, j) && i * |g.lon| + j < |Rows(date, g, n)|
    ensures Rows(date, g, n)[i * |g.lon| + j] == Cell(date, g, i, j)
    decreases n
  {
    var m := n - 1;
    assert RowComplete(g, m);
    assert Rows(date, g, n) == Rows(date, g, m) + RowPrefix(date, g, m, |g.lon|);
    if i == m {
      RowPrefixAt(date, g, m, |g.lon|, j);
    } else {
      RowsAt(date, g, m, i, j);
    }
  }

  /** A file's rows are its cells in row-major order: whatever rows it contributes, row
      i * |lon| + j holds latitude i, longitude j and the value chl[i][j]. */
  lemma GridRecordsLayout(date: string, g: Grid, i: nat, j: nat)
    requires i < |g.lat| && j < |g.lon| && i * |g.lon| + j < |GridRecords(date, g)|
    ensures HasCell(g, i, j)
    ensures GridRecords(date, g)[i * |g.lon| + j] == Record(date, g.lat[i], g.lon[j], g.chl[i][j])
  {
    var s, lon := FirstIncomplete(g, 0), |g.lon|;
    if s == |g.lat| {
      RowsAt(date, g, s, i, j);
    } else if i < s {
      RowsAt(date, g, s, i, j);
    } else {
      if i > s {
        MulStep(s, i, lon);
      }
      assert i == s;
      RowPrefixAt(date, g, s, Available(g, s), j);
    }
  }

  lemma MulStep(s: nat, i: nat, n: nat)
    requires s < i
    ensures s * n + n <= i * n
  {
    var d := i - s - 1;
    assert i * n == s * n + n + d * n;
  }

  /** A file gives at most |lat| * |lon| rows, and exactly that many when no cell is missing. */
  lemma GridRecordsCount(date: string, g: Grid)
    ensures |GridRecords(date, g)| <= |g.lat| * |g.lon|
    ensures |GridRecords(date, g)| == |g.lat| * |g.lon| <==> Readable(g)
  {
    var s := FirstIncomplete(g, 0);
    if s < |g.lat| {
      assert Available(g, s) < |g.lon|;
      MulStep(s, |g.lat|, |g.lon|);
    }
  }

  /** With a path that ends in a daily file name, the date field is the name's date text when the
      directory has no '.' in it. */
  lemma DateFieldOfNamedPath(dir: string, t: string)
    requires '.' !in dir && '.' !in t
    ensures DateField(PathJoin(dir, DailyName(t))) == Some(t)
  {
    DailyNameShape(t);
    var rest := t + ['.'] + "L3m.DAY.CHL.chlor_a.4km.nc";
    if dir == [] || dir[|dir| - 1] == '/' {
      assert PathJoin(dir, DailyName(t)) == (dir + "AQUA_MODIS") + ['.'] + rest;
      SplitFirstTwo(dir + "AQUA_MODIS", t, "L3m.DAY.CHL.chlor_a.4km.nc", '.');
    } else {
      assert PathJoin(dir, DailyName(t)) == (dir + "/AQUA_MODIS") + ['.'] + rest;
      SplitFirstTwo(dir + "/AQUA_MODIS", t, "L3m.DAY.CHL.chlor_a.4km.nc", '.');
    }
  }

  lemma DateFieldOfDailyPath(dir: string, d: Day)
    requires InTimestampRange(d) && '.' !in dir
    ensures DateField(PathJoin(dir, DailyFileName(d))) == Some(DayText(d))
  {
    DigitsHaveNoSeparators(DayText(d));
    DateFieldOfNamedPath(dir, DayText(d));
  }

  /** The configured directory has no '.', so every downloaded path's date field is its day's `YYYYMMDD`. */
  lemma DailyPathsDateFields(days: seq<Day>, i: nat)
    requires forall i :: 0 <= i < |days| ==> InTimestampRange(days[i])
    requires i < |days|
    ensures DateField(DailyPaths(days)[i]) == Some(DayText(days[i]))
  {
    DailyPathsAt(days, i);
    DataDirHasNoDot();
    DateFieldOfDailyPath(DataDir, days[i]);
  }

  lemma DataDirHasNoDot()
    ensures '.' !in DataDir
  {
  }

  /** The number of cells of the files that can be read and have a date field. */
  function CellCount(paths: seq<string>, contents: seq<Option<Grid>>): nat
    requires |contents| == |paths|
  {
    if paths == [] then 0
    else
      var n := |paths| - 1;
      var here := if contents[n].Some? && DateField(paths[n]).Some? then |contents[n].value.lat| * |contents[n].value.lon| else 0;
      CellCount(paths[..n], contents[..n]) + here
  }

  /** When every file that opens is well shaped, the dataset has one row per cell of those files. */
  lemma {:induction false} AllRecordsCount(paths: seq<string>, contents: seq<Option<Grid>>)
    requires |contents| == |paths|
    requires forall i :: 0 <= i < |contents| && contents[i].Some? ==> Readable(contents[i].value)
    ensures |AllRecords(paths, contents)| == CellCount(paths, contents)
  {
    if paths != [] {
      var n := |paths| - 1;
      AllRecordsCount(paths[..n], contents[..n]);
      if contents[n].Some? && DateField(paths[n]).Some? {
        GridRecordsCount(DateField(paths[n]).value, contents[n].value);
      }
    }
  }

  /** Every row's date is the date field of the path of a file it came from. */
  lemma {:induction false} AllRecordsDates(paths: seq<string>, contents: seq<Option<Grid>>, r: Record)
    requires |contents| == |paths|
    requires r in AllRecords(paths, contents)
    ensures exists i :: 0 <= i < |paths| && DateField(paths[i]) == Some(r.date)
  {
    var n := |paths| - 1;
    if r in AllRecords(paths[..n], contents[..n]) {
      AllRecordsDates(paths[..n], contents[..n], r);
      var i :| 0 <= i < n && DateField(paths[..n][i]) == Some(r.date);
      assert paths[..n][i] == paths[i];
    } else {
      var date := DateField(paths[n]).value;
      var g := contents[n].value;
      GridRecordsDates(date, g, r);
    }
  }

  lemma GridRecordsDates(date: string, g: Grid, r: Record)
    requires r in GridRecords(date, g)
    ensures r.date == date
  {
    var s := FirstIncomplete(g, 0);
    RowsDates(date, g, s, r);
    if s < |g.lat| {
      RowPrefixDates(date, g, s, Available(g, s), r);
    }
  }

  lemma {:induction false} RowPrefixDates(date: string, g: Grid, i: nat, j: nat, r: Record)
    requires i < |g.lat| && j <= |g.lon|
    requires forall k :: 0 <= k < j ==> HasCell(g, i, k)
    ensures r in RowPrefix(date, g, i, j) ==> r.date == date
    decreases j
  {
    if j > 0 {
      RowPrefixDates(date, g, i, j - 1, r);
    }
  }

  lemma {:induction false} RowsDates(date: string, g: Grid, n: nat, r: Record)
    requires n <= |g.lat| && forall k :: 0 <= k < n ==> RowComplete(g, k)
    ensures r in Rows(date, g, n) ==> r.date == date
    decreases n
  {
    if n > 0 {
      assert RowComplete(g, n - 1);
      RowsDates(date, g, n - 1, r);
      RowPrefixDates(date, g, n - 1, |g.lon|, r);
    }
  }
}
