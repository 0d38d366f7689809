/**
  The 8-day sea-surface-temperature downloader (SST_script_8day.py): the
  calendar of 8-day composite periods, the file name of each period, the
  bounded retry loop that fetches one file, and the loop over all periods.

  Days are ordinal dates (see Calendar). The HTTP server is an abstract
  sequence of responses, one per attempt; the disk is a map from path to
  file size; the missing-files log is its sequence of lines.
 */
module Sst8Day {
  import opened Wrappers
  import opened Calendar
  import opened Text
  import opened DateText
  import opened Seqs

  const BaseUrl: string := "https://oceandata.sci.gsfc.nasa.gov/ob/getfile/"
  const DataDir: string := "sst_data_8day"
  /** A file counts as downloaded only when it holds more than this many bytes. */
  const MinValidSize: nat := 10000
  const DefaultRetries: nat := 3
  const OverallStart: Day := DayOf(Date(2020, 1, 1))
  const OverallEnd: Day := DayOf(Date(2025, 6, 30))
  const FirstYear: int := OverallStart.year
  const LastYear: int := OverallEnd.year

  // ---------------------------------------------------------------------------
  // Period end and file name
  // ---------------------------------------------------------------------------

  /** Adding fewer than 365 days moves into the next year exactly when the year runs out. */
  lemma AddDaysAcrossYear(d: Day, k: nat)
    requires ValidDay(d) && k < 365
    ensures AddDays(d, k) ==
      if d.doy + k < DaysInYear(d.year) then Day(d.year, d.doy + k)
      else Day(d.year + 1, d.doy + k - DaysInYear(d.year))
  {
    var f := if d.doy + k < DaysInYear(d.year) then Day(d.year, d.doy + k)
             else Day(d.year + 1, d.doy + k - DaysInYear(d.year));
    YearStartStep(d.year);
    AddDaysNumber(d, k);
    DayNumberInjective(AddDays(d, k), f);
  }

  /** The start is a pandas timestamp and so is the start plus seven days (see PeriodInRangeMeans). */
  predicate PeriodInRange(start: Day) {
    InTimestampRange(start) &&
    (start.year < LastTimestampDay.year || start.doy + 7 <= LastTimestampDay.doy)
  }

  lemma PeriodInRangeMeans(start: Day)
    ensures PeriodInRange(start) <==> InTimestampRange(start) && InTimestampRange(AddDays(start, 7))
  {
    if InTimestampRange(start) {
      AddDaysAcrossYear(start, 7);
    }
  }

  /** Last day of the period that starts on `start`: seven days later, but never past 31 December. */
  function PeriodEnd(start: Day): (end: Day)
    requires ValidDay(start)
    ensures ValidDay(end) && end.year == start.year
    ensures start.doy <= end.doy <= start.doy + 7
    ensures end.doy < start.doy + 7 <==> AddDays(start, 7).year > start.year
    ensures end.doy < start.doy + 7 ==> end == YearEnd(start.year)
    ensures end.doy == start.doy + 7 ==> end == AddDays(start, 7)
  {
    AddDaysAcrossYear(start, 7);
    var e := AddDays(start, 7);
    if e.year > start.year then YearEnd(start.year) else e
  }

  /** `AQUA_MODIS.<start>_<end>.L3m.8D.SST.sst.4km.nc` */
  function FileName(startText: string, endText: string): string {
    "AQUA_MODIS." + startText + "_" + endText + ".L3m.8D.SST.sst.4km.nc"
  }

  /** Splitting six separator-free fields joined by the separator gives them back. */
  lemma SplitSix(a: string, b: string, c: string, d: string, e: string, f: string, sep: char)
    requires sep !in a && sep !in b && sep !in c && sep !in d && sep !in e && sep !in f
    ensures Split(a + [sep] + (b + [sep] + (c + [sep] + (d + [sep] + (e + [sep] + f)))), sep) == [a, b, c, d, e, f]
  {
    SplitWithoutSeparator(f, sep);
    SplitHead(e, f, sep);
    SplitHead(d, e + [sep] + f, sep);
    SplitHead(c, d + [sep] + (e + [sep] + f), sep);
    SplitHead(b, c + [sep] + (d + [sep] + (e + [sep] + f)), sep);
    SplitHead(a, b + [sep] + (c + [sep] + (d + [sep] + (e + [sep] + f))), sep);
  }

  /** The fields after the dates: product level, period, sensor, variable, resolution and format. */
  lemma ExtensionFields()
    ensures Split("L3m.8D.SST.sst.4km.nc", '.') == ["L3m", "8D", "SST", "sst", "4km", "nc"]
  {
    SplitSix("L3m", "8D", "SST", "sst", "4km", "nc", '.');
    assert "L3m" + "." + ("8D" + "." + ("SST" + "." + ("sst" + "." + ("4km" + "." + "nc")))) == "L3m.8D.SST.sst.4km.nc";
  }

  lemma DateFields(startText: string, endText: string)
    requires '_' !in startText && '_' !in endText
    ensures Split(startText + "_" + endText, '_') == [startText, endText]
  {
    assert startText + "_" + endText == startText + ['_'] + endText;
    SplitAround(startText, endText, '_');
    SplitWithoutSeparator(startText, '_');
    SplitWithoutSeparator(endText, '_');
  }

  /** A name built from texts without '/' is a single path component. */
  lemma FileNameHasNoSlash(startText: string, endText: string)
    requires '/' !in startText && '/' !in endText
    ensures '/' !in FileName(startText, endText)
  {
  }

  /** The name in the shape that splitting sees: a first field, a dot, the dates, a dot, the rest. */
  lemma FileNameShape(startText: string, endText: string)
    ensures FileName(startText, endText) ==
      "AQUA_MODIS" + ['.'] + ((startText + "_" + endText) + ['.'] + "L3m.8D.SST.sst.4km.nc")
  {
  }

  /** The name's dot-separated fields: "AQUA_MODIS", then the dates, then the fields of ExtensionFields;
      and the two dates inside the second field. */
  lemma FileNameFields(startText: string, endText: string)
    requires '.' !in startText && '_' !in startText && '/' !in startText
    requires '.' !in endText && '_' !in endText && '/' !in endText
    ensures Split(FileName(startText, endText), '.') ==
      ["AQUA_MODIS", startText + "_" + endText] + Split("L3m.8D.SST.sst.4km.nc", '.')
    ensures Split(startText + "_" + endText, '_') == [startText, endText]
  {
    FileNameShape(startText, endText);
    SplitTwoFields("AQUA_MODIS", startText + "_" + endText, "L3m.8D.SST.sst.4km.nc", '.');
    DateFields(startText, endText);
  }

  function PeriodFileName(start: Day): string
    requires PeriodInRange(start)
  {
    FileName(DayText(start), DayText(PeriodEnd(start)))
  }

  function PeriodUrl(start: Day): string
    requires PeriodInRange(start)
  {
    BaseUrl + PeriodFileName(start)
  }

  /** `os.path.join(DATA_DIR, fname)` */
  function SavePath(name: string): string {
    PathJoin(DataDir, name)
  }

  /** A period's file name carries the period's first and last day, and reading them gives back their dates. */
  lemma PeriodFileNameFields(start: Day)
    requires PeriodInRange(start)
    ensures var dates := DayText(start) + "_" + DayText(PeriodEnd(start));
      && Split(PeriodFileName(start), '.') == ["AQUA_MODIS", dates] + Split("L3m.8D.SST.sst.4km.nc", '.')
      && Split(dates, '_') == [DayText(start), DayText(PeriodEnd(start))]
      && '/' !in PeriodFileName(start)
      && ParseYyyymmdd(DayText(start)) == Some(DateOf(start))
      && ParseYyyymmdd(DayText(PeriodEnd(start))) == Some(DateOf(PeriodEnd(start)))
  {
    var s, e := DayText(start), DayText(PeriodEnd(start));
    DigitsHaveNoSeparators(s);
    DigitsHaveNoSeparators(e);
    FileNameFields(s, e);
    FileNameHasNoSlash(s, e);
    DayTextParses(start);
    DayTextParses(PeriodEnd(start));
  }

  /** The URL's last path component is the local file's name. */
  lemma PeriodUrlNamesFile(start: Day)
    requires PeriodInRange(start)
    ensures Basename(PeriodUrl(start)) == Basename(SavePath(PeriodFileName(start))) == PeriodFileName(start)
  {
    var name := PeriodFileName(start);
    PeriodFileNameFields(start);
    assert PathJoin(BaseUrl, name) == PeriodUrl(start);
    BasenameOfJoin(BaseUrl, name);
    BasenameOfJoin(DataDir, name);
  }

  // ---------------------------------------------------------------------------
  // Downloading one period: the retry state machine
  // ---------------------------------------------------------------------------

  /** What the server does on one attempt: a network exception, or a reply. */
  datatype Response = NetworkError | Reply(status: int, contentType: string, bodySize: nat)

  /** What one call of the download routine amounts to: its return value, the lines it
      appends to the missing-files log, the number of requests made, and the size of
      the file left at the save path (None: no file). */
  datatype Outcome = Outcome(path: Option<string>, logLines: seq<string>, attempts: nat, file: Option<nat>)

  /** A reply that ends the retry loop. */
  predicate Decisive(r: Response) {
    r.Reply? && (Contains(r.contentType, "text/html") || r.status == 200 || r.status == 404)
  }

  function NotFoundLine(name: string): string { name + " (404 Not Found)" }
  function GaveUpLine(name: string): string { name + " (Max retries reached)" }

  /** Attempts k + 1 .. retries of fetching `name`, attempt k + 1 getting responses[k];
      `file` is the size of what lies at the save path (None: nothing). */
  function AttemptFrom(name: string, responses: seq<Response>, retries: nat, k: nat, file: Option<nat>): (o: Outcome)
    requires k <= retries <= |responses|
    ensures k <= o.attempts <= retries
    ensures |o.logLines| <= 1
    ensures o.path.Some? ==> o.path.value == SavePath(name) && o.file.Some? && o.file.value > MinValidSize
    ensures o.path.None? && o.file != file ==> o.file.None?
    decreases retries - k
  {
    if k == retries then Outcome(None, [GaveUpLine(name)], retries, file)
    else
      var r := responses[k];
      if r.NetworkError? then AttemptFrom(name, responses, retries, k + 1, file)
      else if Contains(r.contentType, "text/html") then Outcome(None, [], k + 1, file)
      else if r.status == 200 then
        if r.bodySize > MinValidSize then Outcome(Some(SavePath(name)), [], k + 1, Some(r.bodySize))
        else Outcome(None, [], k + 1, None)
      else if r.status == 404 then Outcome(None, [NotFoundLine(name)], k + 1, file)
      else AttemptFrom(name, responses, retries, k + 1, file)
  }

  /** `download_nc_file` for the file `name`, given the size of any file already at its save path. */
  function Download(name: string, existing: Option<nat>, responses: seq<Response>, retries: nat): (o: Outcome)
    requires retries <= |responses|
    ensures existing.Some? && existing.value > MinValidSize ==>
      o == Outcome(Some(SavePath(name)), [], 0, existing)
    ensures o.attempts <= retries && |o.logLines| <= 1
    ensures o.path.Some? ==> o.path == Some(SavePath(name)) && o.file.Some? && o.file.value > MinValidSize
  {
    if existing.Some? && existing.value > MinValidSize then Outcome(Some(SavePath(name)), [], 0, existing)
    else AttemptFrom(name, responses, retries, 0, existing)
  }

  /** The first decisive reply decides the outcome, after exactly as many requests as it took to get it. */
  lemma {:induction false} FirstDecisiveReply(name: string, responses: seq<Response>, retries: nat, k: nat, file: Option<nat>, i: nat)
    requires k <= i < retries <= |responses|
    requires Decisive(responses[i]) && forall j :: k <= j < i ==> !Decisive(responses[j])
    ensures var o := AttemptFrom(name, responses, retries, k, file);
      var r := responses[i];
      && o.attempts == i + 1
      && (Contains(r.contentType, "text/html") ==> o == Outcome(None, [], i + 1, file))
      && (!Contains(r.contentType, "text/html") && r.status == 200 ==>
            o == if r.bodySize > MinValidSize then Outcome(Some(SavePath(name)), [], i + 1, Some(r.bodySize))
                 else Outcome(None, [], i + 1, None))
      && (!Contains(r.contentType, "text/html") && r.status == 404 ==>
            o == Outcome(None, [NotFoundLine(name)], i + 1, file))
    decreases i - k
  {
    if k < i {
      FirstDecisiveReply(name, responses, retries, k + 1, file, i);
    }
  }

  /** With no decisive reply, every attempt is made and exactly one "Max retries reached" line is logged. */
  lemma {:induction false} AllAttemptsFail(name: string, responses: seq<Response>, retries: nat, k: nat, file: Option<nat>)
    requires k <= retries <= |responses|
    requires forall j :: k <= j < retries ==> !Decisive(responses[j])
    ensures AttemptFrom(name, responses, retries, k, file) == Outcome(None, [GaveUpLine(name)], retries, file)
    decreases retries - k
  {
    if k < retries {
      AllAttemptsFail(name, responses, retries, k + 1, file);
    }
  }

  function Lookup(files: map<string, nat>, path: string): Option<nat> {
    if path in files then Some(files[path]) else None
  }

  function Store(files: map<string, nat>, path: string, file: Option<nat>): map<string, nat> {
    if file.Some? then files[path := file.value] else files - {path}
  }

  /** The state of a run: files on disk and the missing-files log. */
  datatype Disk = Disk(files: map<string, nat>, missingLog: seq<string>)

  /** The path list after the main loop, and the disk it leaves. */
  datatype Run = Run(ncFiles: seq<string>, disk: Disk)

  /** The file names of the periods, in order. */
  function PeriodNames(starts: seq<Day>): (names: seq<string>)
    requires forall i :: 0 <= i < |starts| ==> PeriodInRange(starts[i])
  {
    seq(|starts|, i requires 0 <= i < |starts| => PeriodFileName(starts[i]))
  }

  /** The save paths of the files, in order. */
  function SavePaths(names: seq<string>): (paths: seq<string>)
    ensures |paths| == |names|
  {
    if names == [] then [] else SavePaths(names[..|names| - 1]) + [SavePath(names[|names| - 1])]
  }

  lemma {:induction false} SavePathsAt(names: seq<string>, i: nat)
    requires i < |names|
    ensures SavePaths(names)[i] == SavePath(names[i])
  {
    var n := |names| - 1;
    if i < n {
      SavePathsAt(names[..n], i);
    }
  }

  /** One scripted server reply sequence per file, each long enough for the default retries. */
  predicate Scripted(names: seq<string>, responses: seq<seq<Response>>) {
    |responses| == |names| && forall i :: 0 <= i < |responses| ==> DefaultRetries <= |responses[i]|
  }

  /** One call of `download_nc_file` for the file `name` against a disk: its return value and the disk it leaves.
      Only the file's own save path changes, and the log gains at most one line. */
  function Fetch(disk: Disk, name: string, responses: seq<Response>, retries: nat): (r: (Option<string>, Disk))
    requires retries <= |responses|
    ensures r.0.Some? ==> r.0 == Some(SavePath(name)) && SavePath(name) in r.1.files && r.1.files[SavePath(name)] > MinValidSize
    ensures SavePath(name) in disk.files && disk.files[SavePath(name)] > MinValidSize ==> r == (Some(SavePath(name)), disk)
    ensures r.1.files - {SavePath(name)} == disk.files - {SavePath(name)}
    ensures |disk.missingLog| <= |r.1.missingLog| <= |disk.missingLog| + 1
    ensures r.1.missingLog[..|disk.missingLog|] == disk.missingLog
    ensures r.0.None? ==> !(SavePath(name) in r.1.files && r.1.files[SavePath(name)] > MinValidSize)
  {
    var path := SavePath(name);
    var o := Download(name, Lookup(disk.files, path), responses, retries);
    var files := Store(disk.files, path, o.file);
    assert o.file.Some? ==> path in files && files[path] == o.file.value;
    assert disk.missingLog + [] == disk.missingLog;
    assert files - {path} == disk.files - {path};
    assert path in disk.files && disk.files[path] > MinValidSize ==> files == disk.files;
    (o.path, Disk(files, disk.missingLog + o.logLines))
  }

  /** The main loop over `dates_to_download`: each file is fetched with the default retries
      against the disk the earlier ones left, and its path kept when the call returned one. */
  function RunAll(disk: Disk, names: seq<string>, responses: seq<seq<Response>>): (r: Run)
    requires Scripted(names, responses)
    ensures SubsequenceOf(r.ncFiles, SavePaths(names))
    ensures |r.ncFiles| <= |names|
    ensures |disk.missingLog| <= |r.disk.missingLog| <= |disk.missingLog| + |names|
    ensures r.disk.missingLog[..|disk.missingLog|] == disk.missingLog
  {
    if names == [] then Run([], disk)
    else
      var n := |names| - 1;
      var prev := RunAll(disk, names[..n], responses[..n]);
      var (path, after) := Fetch(prev.disk, names[n], responses[n], DefaultRetries);
      var kept := if path.Some? then prev.ncFiles + [path.value] else prev.ncFiles;
      SubsequenceExtend(prev.ncFiles, SavePaths(names[..n]), SavePath(names[n]));
      SubsequenceLength(kept, SavePaths(names));
      assert after.missingLog[..|disk.missingLog|] == prev.disk.missingLog[..|disk.missingLog|];
      Run(kept, after)
  }

  /** A file other than the one fetched is where it was, with the same size. */
  lemma FetchKeepsOthers(disk: Disk, name: string, responses: seq<Response>, retries: nat, p: string)
    requires retries <= |responses| && p != SavePath(name)
    ensures var after := Fetch(disk, name, responses, retries).1;
      (p in after.files <==> p in disk.files) && (p in disk.files ==> after.files[p] == disk.files[p])
  {
    var after := Fetch(disk, name, responses, retries).1;
    var path := SavePath(name);
    assert p in after.files <==> p in after.files - {path};
    assert p in disk.files <==> p in disk.files - {path};
    if p in disk.files {
      assert (after.files - {path})[p] == (disk.files - {path})[p];
    }
  }

  /** `nc_files` holds only successful downloads, and all of them: a path is kept exactly when it is
      the save path of one of the periods and names a file larger than 10000 bytes once the loop is
      over. */
  lemma {:induction false} RunAllKeptPaths(disk: Disk, names: seq<string>, responses: seq<seq<Response>>, p: string)
    requires Scripted(names, responses)
    ensures var r := RunAll(disk, names, responses);
      p in r.ncFiles <==> p in SavePaths(names) && p in r.disk.files && r.disk.files[p] > MinValidSize
    decreases |names|
  {
    if names != [] {
      var n := |names| - 1;
      var prev := RunAll(disk, names[..n], responses[..n]);
      var (path, after) := Fetch(prev.disk, names[n], responses[n], DefaultRetries);
      var r := RunAll(disk, names, responses);
      var q := SavePath(names[n]);
      RunAllKeptPaths(disk, names[..n], responses[..n], p);
      assert r.disk == after;
      assert r.ncFiles == if path.Some? then prev.ncFiles + [path.value] else prev.ncFiles;
      assert SavePaths(names) == SavePaths(names[..n]) + [q];
      if p != q {
        FetchKeepsOthers(prev.disk, names[n], responses[n], DefaultRetries, p);
      }
    }
  }

  /** One more file: the loop body run once more against the state the earlier files left. */
  lemma RunAllPrefix(disk: Disk, names: seq<string>, responses: seq<seq<Response>>, i: nat)
    requires Scripted(names, responses) && i < |names|
    ensures Scripted(names[..i], responses[..i]) && Scripted(names[..i + 1], responses[..i + 1])
    ensures var prev := RunAll(disk, names[..i], responses[..i]);
      var (path, after) := Fetch(prev.disk, names[i], responses[i], DefaultRetries);
      RunAll(disk, names[..i + 1], responses[..i + 1]) ==
        Run(if path.Some? then prev.ncFiles + [path.value] else prev.ncFiles, after)
  {
    assert names[..i + 1][..i] == names[..i] && responses[..i + 1][..i] == responses[..i];
  }

  /** The downloader's state: the disk, updated in place. */
  class Downloader {
    var files: map<string, nat>
    var missingLog: seq<string>

    constructor (files0: map<string, nat>, log0: seq<string>)
      ensures files == files0 && missingLog == log0
    {
      files := files0;
      missingLog := log0;
    }

    function State(): Disk
      reads this
    {
      Disk(files, missingLog)
    }

    /** `download_nc_file(start_date, retries)`: skip a valid existing file, else retry up to `retries` times. */
    method DownloadNcFile(start: Day, responses: seq<Response>, retries: nat) returns (path: Option<string>)
      requires PeriodInRange(start) && retries <= |responses|
      modifies this
      ensures (path, State()) == Fetch(old(State()), PeriodFileName(start), responses, retries)
    {
      var fname := PeriodFileName(start);
      var savePath := PathJoin(DataDir, fname);
      if savePath in files && files[savePath] > MinValidSize {
        return Some(savePath);
      }
      ghost var existing := Lookup(files, savePath);
      assert files == Store(files, savePath, existing);
      assert missingLog + [] == missingLog;
      for attempt := 1 to retries + 1
        invariant files == old(files) && missingLog == old(missingLog)
        invariant Download(fname, existing, responses, retries)
               == AttemptFrom(fname, responses, retries, attempt - 1, existing)
      {
        var r := responses[attempt - 1];
        if r.Reply? {
          if Contains(r.contentType, "text/html") {
            return None;
          }
          if r.status == 200 {
            files := files[savePath := r.bodySize];
            if files[savePath] > MinValidSize {
              return Some(savePath);
            } else {
              files := files - {savePath};
              assert files == old(files) - {savePath};
              return None;
            }
          } else if r.status == 404 {
            missingLog := missingLog + [NotFoundLine(fname)];
            return None;
          }
        }
      }
      missingLog := missingLog + [GaveUpLine(fname)];
      return None;
    }

    /** The main loop: download every period in order and keep the paths that came back. */
    method DownloadAll(starts: seq<Day>, responses: seq<seq<Response>>) returns (ncFiles: seq<string>)
      requires forall i :: 0 <= i < |starts| ==> PeriodInRange(starts[i])
      requires Scripted(PeriodNames(starts), responses)
      modifies this
      ensures Run(ncFiles, State()) == RunAll(old(State()), PeriodNames(starts), responses)
    {
      ncFiles := [];
      ghost var names := PeriodNames(starts);
      for i := 0 to |starts|
        invariant Run(ncFiles, State()) == RunAll(old(State()), names[..i], responses[..i])
      {
        RunAllPrefix(old(State()), names, responses, i);
        var filePath := DownloadNcFile(starts[i], responses[i], DefaultRetries);
        if filePath.Some? {
          ncFiles := ncFiles + [filePath.value];
        }
      }
      assert names[..|names|] == names;
      assert responses[..|responses|] == responses;
    }
  }

  // ---------------------------------------------------------------------------
  // The calendar of periods
  // ---------------------------------------------------------------------------

  /** `pd.date_range` can cover year y from 1 January to 31 December exactly when the whole year
      lies in the timestamp range: the years 1678 to 2261. Each such year is followed by at least
      a week of timestamps, so its periods can be named. */
  predicate YearInRange(y: int) {
    FirstTimestampDay.year < y < LastTimestampDay.year
  }

  /** Every day of a covered year starts a period whose end is a timestamp. */
  lemma StartInRange(d: Day)
    requires ValidDay(d) && YearInRange(d.year)
    ensures InTimestampRange(d) && InTimestampRange(AddDays(d, 7))
  {
    PeriodInRangeMeans(d);
  }

  /** `pd.date_range(f"{y}-01-01", f"{y}-12-31", freq="8D")`. */
  function YearPeriodStarts(y: int): (r: seq<Day>)
    requires YearInRange(y)
    ensures |r| > 0
  {
    seq((DaysInYear(y) - 1) / 8 + 1, i => Day(y, 8 * i))
  }

  /** A year's starts are 1 January and every eighth day after it, up to the last that still lies in the year. */
  lemma YearPeriodStartsShape(y: int)
    requires YearInRange(y)
    ensures var r := YearPeriodStarts(y);
      && r[0] == NewYear(y)
      && (forall i :: 0 <= i < |r| ==> ValidDay(r[i]) && r[i].year == y && r[i].doy % 8 == 0)
      && (forall i :: 0 < i < |r| ==> r[i].doy == r[i - 1].doy + 8)
      && r[|r| - 1].doy + 8 >= DaysInYear(y)
      && Increasing(r, Before)
  {
  }

  /** The days `pd.date_range` yields for year y are exactly the days of y a multiple of eight days after 1 January. */
  lemma YearPeriodStartsMembers(y: int, d: Day)
    requires YearInRange(y)
    ensures d in YearPeriodStarts(y) <==> ValidDay(d) && d.year == y && d.doy % 8 == 0
  {
    var r := YearPeriodStarts(y);
    YearPeriodStartsShape(y);
    if ValidDay(d) && d.year == y && d.doy % 8 == 0 {
      assert r[d.doy / 8] == d;
    }
  }

  /** Every year from first to last is covered (vacuously when there are none). */
  predicate YearsInRange(first: int, last: int) {
    last < first || (YearInRange(first) && YearInRange(last))
  }

  /** `all_start_dates`: the 8-day starts of every year from first to last, year after year. */
  function AllStarts(first: int, last: int): seq<Day>
    requires YearsInRange(first, last)
    decreases last - first
  {
    if last < first then [] else AllStarts(first, last - 1) + YearPeriodStarts(last)
  }

  /** A day is generated exactly when its year is in [first, last] and it is a multiple of eight days after 1 January. */
  lemma {:induction false} AllStartsMembers(first: int, last: int, d: Day)
    requires YearsInRange(first, last)
    ensures d in AllStarts(first, last) <==> ValidDay(d) && first <= d.year <= last && d.doy % 8 == 0
    decreases last - first
  {
    if first <= last {
      AllStartsMembers(first, last - 1, d);
      YearPeriodStartsMembers(last, d);
    }
  }

  /** The generated starts are in chronological order. */
  lemma {:induction false} AllStartsIncreasing(first: int, last: int)
    requires YearsInRange(first, last)
    ensures Increasing(AllStarts(first, last), Before)
    decreases last - first
  {
    if first <= last {
      AllStartsIncreasing(first, last - 1);
      var a, b := AllStarts(first, last - 1), YearPeriodStarts(last);
      YearPeriodStartsShape(last);
      forall i | 0 <= i < |a| ensures a[i].year < last {
        AllStartsMembers(first, last - 1, a[i]);
      }
      var all := a + b;
      forall i, j | 0 <= i < j < |all| ensures Before(all[i], all[j]) {
        if j < |a| {
          assert all[i] == a[i] && all[j] == a[j];
        } else if i >= |a| {
          assert all[i] == b[i - |a|] && all[j] == b[j - |a|];
        } else {
          assert all[i] == a[i] && all[j] == b[j - |a|];
        }
      }
    }
  }

  /** Lines 118-122: extend the list year by year. */
  method GenerateStartDates(first: int, last: int) returns (all: seq<Day>)
    requires YearsInRange(first, last)
    ensures all == AllStarts(first, last)
  {
    all := [];
    if first > last {
      return;
    }
    for year := first to last + 1
      invariant all == AllStarts(first, year - 1)
    {
      all := all + YearPeriodStarts(year);
    }
  }

  /** The window test of lines 125-128, both ends included. */
  function InWindow(lo: Day, hi: Day): Day -> bool {
    d => NotAfter(lo, d) && NotAfter(d, hi)
  }

  /** Lines 125-128: the starts inside [lo, hi], in generated order. */
  function DatesToDownload(all: seq<Day>, lo: Day, hi: Day): (r: seq<Day>)
    ensures forall d :: d in r <==> d in all && NotAfter(lo, d) && NotAfter(d, hi)
    ensures Increasing(all, Before) ==> Increasing(r, Before)
    ensures SubsequenceOf(r, all)
  {
    var keep := InWindow(lo, hi);
    var r := Filter(all, keep);
    assert forall d :: d in r <==> d in all && NotAfter(lo, d) && NotAfter(d, hi) by {
      forall d ensures d in r <==> d in all && NotAfter(lo, d) && NotAfter(d, hi) {
        FilterMembers(all, keep, d);
      }
    }
    assert Increasing(all, Before) ==> Increasing(r, Before) by {
      if Increasing(all, Before) {
        FilterIncreasing(all, keep, Before);
      }
    }
    FilterIsSubsequence(all, keep);
    r
  }

  /** The configured window, 2020-01-01 to 2025-06-30, lies in the years 2020 to 2025, all of them covered. */
  lemma ConfiguredYearsInRange()
    ensures OverallStart == NewYear(2020) && OverallEnd == Day(2025, 180)
    ensures YearsInRange(FirstYear, LastYear)
  {
  }

  /** `dates_to_download` of the script. */
  function PlannedPeriods(): seq<Day> {
    ConfiguredYearsInRange();
    DatesToDownload(AllStarts(FirstYear, LastYear), OverallStart, OverallEnd)
  }

  /** The planned periods start on exactly the days of the window that lie a multiple of eight days
      after the 1 January of their year. */
  lemma PlannedPeriodsMembers(d: Day)
    ensures d in PlannedPeriods() <==>
      ValidDay(d) && d.doy % 8 == 0 && NotAfter(OverallStart, d) && NotAfter(d, OverallEnd)
  {
    ConfiguredYearsInRange();
    AllStartsMembers(FirstYear, LastYear, d);
  }

  /** The planned periods are in chronological order, and every one of them can be named. */
  lemma PlannedPeriodsOrdered()
    ensures Increasing(PlannedPeriods(), Before)
    ensures forall i :: 0 <= i < |PlannedPeriods()| ==> PeriodInRange(PlannedPeriods()[i])
  {
    ConfiguredYearsInRange();
    AllStartsIncreasing(FirstYear, LastYear);
    var r := PlannedPeriods();
    forall i | 0 <= i < |r| ensures PeriodInRange(r[i]) {
      PlannedPeriodsMembers(r[i]);
    }
  }
}
