/**
  Assembling the model training table (final_dataset.py): reading a period's
  start date back out of a satellite file name, keeping the usable shark
  sightings, drawing twice as many pseudo-absence points, labelling and
  concatenating them. The table built from the labelled points is in
  training_frame.dfy.

  Timestamps are whole nanoseconds since the epoch, as pandas stores them.
  Random draws, the per-source extraction results and the local-time epoch
  seconds of the configured dates are inputs.
 */
module TrainingTable {
  import opened Wrappers
  import opened Calendar
  import opened Text
  import opened DateText
  import opened Seqs
  import Sst8Day
  import DailyChlorophyll

  // ---------------------------------------------------------------------------
  // The time coordinate from file names
  // ---------------------------------------------------------------------------

  /** `pd.to_datetime(os.path.basename(f).split('.')[1].split('_')[0], format='%Y%m%d')`;
      None where the indexing or the parse raises. */
  function StartDateOfFile(path: string): (r: Option<Date>)
    ensures r.Some? ==> ValidDate(r.value) && InTimestampRange(DayOf(r.value))
  {
    var fields := Split(Basename(path), '.');
    if |fields| < 2 then None
    else ParseYyyymmdd(Split(fields[1], '_')[0])
  }

  /** A date is read only from a field that is exactly its `YYYYMMDD` text. */
  lemma StartDateOfFileText(path: string)
    requires StartDateOfFile(path).Some?
    ensures var fields := Split(Basename(path), '.');
      |fields| >= 2 && Split(fields[1], '_')[0] == Yyyymmdd(StartDateOfFile(path).value)
  {
    var fields := Split(Basename(path), '.');
    FormatParsed(Split(fields[1], '_')[0]);
  }

  /** Reading the name of an 8-day file, under any directory, gives back the period's first day. */
  lemma PeriodFileStartDate(dir: string, start: Day)
    requires Sst8Day.PeriodInRange(start)
    ensures StartDateOfFile(PathJoin(dir, Sst8Day.PeriodFileName(start))) == Some(DateOf(start))
  {
    var name := Sst8Day.PeriodFileName(start);
    Sst8Day.PeriodFileNameFields(start);
    BasenameOfJoin(dir, name);
  }

  /** Reading the name of a daily file, under any directory, gives back its day. */
  lemma DailyFileStartDate(dir: string, d: Day)
    requires InTimestampRange(d)
    ensures StartDateOfFile(PathJoin(dir, DailyChlorophyll.DailyFileName(d))) == Some(DateOf(d))
  {
    var name := DailyChlorophyll.DailyFileName(d);
    DailyChlorophyll.DailyFileNameFields(d);
    BasenameOfJoin(dir, name);
    DigitsHaveNoSeparators(DayText(d));
    SplitWithoutSeparator(DayText(d), '_');
    DayTextParses(d);
  }

  /** The list comprehension of line 90: every file's start date, or None as soon as one raises. */
  function StartDates(files: seq<string>): (r: Option<seq<Date>>)
    ensures r.Some? <==> forall i :: 0 <= i < |files| ==> StartDateOfFile(files[i]).Some?
    ensures r.Some? ==> |r.value| == |files| && forall i :: 0 <= i < |files| ==> Some(r.value[i]) == StartDateOfFile(files[i])
  {
    CollectAll(files, StartDateOfFile)
  }

  /** What the opened files amount to here: how many time steps they stack, and the time coordinate. */
  datatype Cube = Cube(steps: nat, time: Option<seq<Date>>)

  /** `_build_time_coordinate_from_filenames`: set the time coordinate from the names, or, when any
      name fails to parse or the count does not match the time steps, return the dataset unchanged. */
  function BuildTimeCoordinate(ds: Cube, files: seq<string>): (r: Cube)
    ensures r.steps == ds.steps
    ensures (exists i :: 0 <= i < |files| && StartDateOfFile(files[i]).None?) || |files| != ds.steps ==> r == ds
    ensures (forall i :: 0 <= i < |files| ==> StartDateOfFile(files[i]).Some?) && |files| == ds.steps ==>
      r.time.Some? && |r.time.value| == |files| &&
      forall i :: 0 <= i < |files| ==> Some(r.time.value[i]) == StartDateOfFile(files[i])
  {
    match StartDates(files)
    case None => ds
    case Some(times) => if |times| == ds.steps then ds.(time := Some(times)) else ds
  }

  /** Stacking the 8-day files of some periods gives those periods' first days as the time coordinate. */
  lemma PeriodFilesTimeCoordinate(dir: string, starts: seq<Day>, files: seq<string>, ds: Cube)
    requires forall i :: 0 <= i < |starts| ==> Sst8Day.PeriodInRange(starts[i])
    requires |files| == |starts| == ds.steps
    requires forall i :: 0 <= i < |files| ==> files[i] == PathJoin(dir, Sst8Day.PeriodFileName(starts[i]))
    ensures BuildTimeCoordinate(ds, files).time.Some?
    ensures |BuildTimeCoordinate(ds, files).time.value| == |starts|
    ensures forall i :: 0 <= i < |starts| ==>
      ValidDay(starts[i]) && BuildTimeCoordinate(ds, files).time.value[i] == DateOf(starts[i])
  {
    forall i | 0 <= i < |files| ensures StartDateOfFile(files[i]) == Some(DateOf(starts[i])) {
      PeriodFileStartDate(dir, starts[i]);
    }
  }

  // ---------------------------------------------------------------------------
  // Presence points
  // ---------------------------------------------------------------------------

  /** A row of the occurrence table after coercion: a missing or unparsable value is None. */
  datatype Occurrence = Occurrence(time: Option<int>, lat: Option<real>, lon: Option<real>)

  /** Survives `dropna`. */
  predicate Complete(o: Occurrence) {
    o.time.Some? && o.lat.Some? && o.lon.Some?
  }

  /** The window test of lines 46-49, both ends included. */
  function Within(lo: int, hi: int): Occurrence -> bool {
    (o: Occurrence) => o.time.Some? && lo <= o.time.value <= hi
  }

  /** Lines 45-49: drop incomplete rows, then keep those inside [lo, hi], in their original order. */
  function PresenceRows(occurrences: seq<Occurrence>, lo: int, hi: int): (r: seq<Occurrence>)
    ensures forall i :: 0 <= i < |r| ==> Complete(r[i]) && lo <= r[i].time.value <= hi
  {
    Filter(Filter(occurrences, Complete), Within(lo, hi))
  }

  /** A sighting is kept exactly when it is complete and inside the window. */
  lemma PresenceRowsMembers(occurrences: seq<Occurrence>, lo: int, hi: int, o: Occurrence)
    ensures o in PresenceRows(occurrences, lo, hi) <==>
      o in occurrences && Complete(o) && lo <= o.time.value <= hi
  {
    FilterMembers(occurrences, Complete, o);
    FilterMembers(Filter(occurrences, Complete), Within(lo, hi), o);
  }

  /** The kept sightings keep their relative order. */
  lemma PresenceRowsOrder(occurrences: seq<Occurrence>, lo: int, hi: int)
    ensures SubsequenceOf(PresenceRows(occurrences, lo, hi), occurrences)
  {
    FilterFilter(occurrences, Complete, Within(lo, hi));
    FilterIsSubsequence(occurrences, Both(Complete, Within(lo, hi)));
  }

  /** A point of the combined table: time, latitude, longitude. */
  datatype Point = Point(time: int, lat: real, lon: real)

  function ToPoint(o: Occurrence): Point
    requires Complete(o)
  {
    Point(o.time.value, o.lat.value, o.lon.value)
  }

  function Points(rows: seq<Occurrence>): (ps: seq<Point>)
    requires forall i :: 0 <= i < |rows| ==> Complete(rows[i])
    ensures |ps| == |rows|
  {
    seq(|rows|, i requires 0 <= i < |rows| => ToPoint(rows[i]))
  }

  // ---------------------------------------------------------------------------
  // Pseudo-absence points
  // ---------------------------------------------------------------------------

  const NanosPerSecond: int := 1_000_000_000

  /** `np.random.uniform(low, high)` from the underlying draw u in [0, 1). */
  function Uniform(low: real, high: real, u: real): real {
    low + (high - low) * u
  }

  lemma UniformBounds(low: real, high: real, u: real)
    requires low <= high && 0.0 <= u < 1.0
    ensures low <= Uniform(low, high, u) <= high
  {
    var h := high - low;
    assert 0.0 <= h * u by { NonNegativeProduct(h, u); }
    assert 0.0 <= h * (1.0 - u) by { NonNegativeProduct(h, 1.0 - u); }
    assert h * (1.0 - u) == h - h * u;
  }

  lemma NonNegativeProduct(x: real, y: real)
    requires 0.0 <= x && 0.0 <= y
    ensures 0.0 <= x * y
  {
  }

  /** `Series.min()` of a non-empty column. */
  function MinOf(s: seq<real>): (m: real)
    requires |s| > 0
    ensures m in s && forall i :: 0 <= i < |s| ==> m <= s[i]
  {
    if |s| == 1 then s[0]
    else
      var rest := MinOf(s[1..]);
      if s[0] <= rest then s[0] else rest
  }

  /** `Series.max()` of a non-empty column. */
  function MaxOf(s: seq<real>): (m: real)
    requires |s| > 0
    ensures m in s && forall i :: 0 <= i < |s| ==> s[i] <= m
  {
    if |s| == 1 then s[0]
    else
      var rest := MaxOf(s[1..]);
      if rest <= s[0] then s[0] else rest
  }

  function Lats(ps: seq<Point>): (r: seq<real>)
    ensures |r| == |ps|
  {
    seq(|ps|, i requires 0 <= i < |ps| => ps[i].lat)
  }

  function Lons(ps: seq<Point>): (r: seq<real>)
    ensures |r| == |ps|
  {
    seq(|ps|, i requires 0 <= i < |ps| => ps[i].lon)
  }

  /** Lines 53-69: with N presence points, 2N points whose latitude and longitude are drawn uniformly
      over the presence points' ranges and whose time is a random whole second in [startTs, endTs);
      with none, no points. `randint` raises (None) when the range of seconds is empty. The k-th
      draws are the k-th point's uniform variates and its offset in seconds from startTs. */
  function PseudoAbsences(presence: seq<Point>, startTs: int, endTs: int,
                          latDraws: seq<real>, lonDraws: seq<real>, timeDraws: seq<int>): (r: Option<seq<Point>>)
    requires |latDraws| == |lonDraws| == |timeDraws| == 2 * |presence|
    ensures |presence| == 0 ==> r == Some([])
    ensures r.None? <==> |presence| > 0 && endTs <= startTs
    ensures r.Some? ==> |r.value| == 2 * |presence|
  {
    if |presence| == 0 then Some([])
    else if endTs <= startTs then None
    else
      var n := 2 * |presence|;
      var minLat, maxLat := MinOf(Lats(presence)), MaxOf(Lats(presence));
      var minLon, maxLon := MinOf(Lons(presence)), MaxOf(Lons(presence));
      Some(seq(n, k requires 0 <= k < n =>
        Point((startTs + timeDraws[k]) * NanosPerSecond,
              Uniform(minLat, maxLat, latDraws[k]), Uniform(minLon, maxLon, lonDraws[k]))))
  }

  /** Given draws inside their sampling ranges, every pseudo-absence point lies in the presence
      points' bounding box and at a whole second in [startTs, endTs). */
  lemma PseudoAbsenceBounds(presence: seq<Point>, startTs: int, endTs: int,
                            latDraws: seq<real>, lonDraws: seq<real>, timeDraws: seq<int>, k: nat)
    requires |latDraws| == |lonDraws| == |timeDraws| == 2 * |presence|
    requires |presence| > 0 && startTs < endTs && k < 2 * |presence|
    requires 0.0 <= latDraws[k] < 1.0 && 0.0 <= lonDraws[k] < 1.0 && 0 <= timeDraws[k] < endTs - startTs
    ensures var p := PseudoAbsences(presence, startTs, endTs, latDraws, lonDraws, timeDraws).value[k];
      && MinOf(Lats(presence)) <= p.lat <= MaxOf(Lats(presence))
      && MinOf(Lons(presence)) <= p.lon <= MaxOf(Lons(presence))
      && startTs * NanosPerSecond <= p.time < endTs * NanosPerSecond
      && p.time % NanosPerSecond == 0
  {
    var lats, lons := Lats(presence), Lons(presence);
    assert MinOf(lats) <= lats[0] <= MaxOf(lats);
    assert MinOf(lons) <= lons[0] <= MaxOf(lons);
    UniformBounds(MinOf(lats), MaxOf(lats), latDraws[k]);
    UniformBounds(MinOf(lons), MaxOf(lons), lonDraws[k]);
    var t := startTs + timeDraws[k];
    assert t * NanosPerSecond < endTs * NanosPerSecond by {
      assert t + 1 <= endTs;
      assert t * NanosPerSecond + NanosPerSecond <= endTs * NanosPerSecond;
    }
  }

  // ---------------------------------------------------------------------------
  // Labelling and concatenation
  // ---------------------------------------------------------------------------

  /** A row of `combined_points`: a point and its `presence` label. */
  datatype Labelled = Labelled(point: Point, presence: int)

  function Label(ps: seq<Point>, presence: int): (r: seq<Labelled>)
    ensures |r| == |ps|
  {
    seq(|ps|, i requires 0 <= i < |ps| => Labelled(ps[i], presence))
  }

  /** Lines 72-74: presence points labelled 1, then pseudo-absence points labelled 0. */
  function Combine(presence: seq<Point>, absence: seq<Point>): (r: seq<Labelled>)
    ensures |r| == |presence| + |absence|
    ensures forall i :: 0 <= i < |r| ==> (r[i].presence == 1 <==> i < |presence|) && (r[i].presence == 0 <==> |presence| <= i)
  {
    Label(presence, 1) + Label(absence, 0)
  }

  function HasLabel(presence: int): Labelled -> bool {
    (l: Labelled) => l.presence == presence
  }

  /** The points carrying a given label, in table order. */
  function Unlabel(rows: seq<Labelled>, presence: int): seq<Point> {
    var kept := Filter(rows, HasLabel(presence));
    seq(|kept|, i requires 0 <= i < |kept| => kept[i].point)
  }

  /** Selecting by label from uniformly labelled rows keeps all of them or none. */
  lemma LabelSelect(ps: seq<Point>, tag: int, wanted: int)
    ensures Filter(Label(ps, tag), HasLabel(wanted)) == if tag == wanted then Label(ps, tag) else []
  {
    if tag == wanted {
      FilterAll(Label(ps, tag), HasLabel(wanted));
    } else {
      FilterNone(Label(ps, tag), HasLabel(wanted));
    }
  }

  /** Dropping the labels of uniformly labelled rows gives back the points. */
  lemma UnlabelLabel(ps: seq<Point>, tag: int)
    ensures Unlabel(Label(ps, tag), tag) == ps
  {
    LabelSelect(ps, tag, tag);
  }

  /** Selecting the rows labelled 1 gives back the presence points, in their original order. */
  lemma CombinePresence(presence: seq<Point>, absence: seq<Point>)
    ensures Unlabel(Combine(presence, absence), 1) == presence
  {
    var a, b := Label(presence, 1), Label(absence, 0);
    FilterAppend(a, b, HasLabel(1));
    LabelSelect(presence, 1, 1);
    LabelSelect(absence, 0, 1);
    assert a + [] == a;
    UnlabelLabel(presence, 1);
  }

  /** Selecting the rows labelled 0 gives back the pseudo-absence points, in their original order. */
  lemma CombineAbsence(presence: seq<Point>, absence: seq<Point>)
    ensures Unlabel(Combine(presence, absence), 0) == absence
  {
    var a, b := Label(presence, 1), Label(absence, 0);
    FilterAppend(a, b, HasLabel(0));
    LabelSelect(presence, 1, 0);
    LabelSelect(absence, 0, 0);
    assert [] + b == b;
    UnlabelLabel(absence, 0);
  }
}
