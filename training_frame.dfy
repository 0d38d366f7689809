/**
  The training table while final_dataset.py finishes it (lines 167-222): a
  pandas DataFrame that starts as a copy of the labelled points, gains one
  column per environmental source that loads, gains the two seasonal columns,
  loses every row with a missing value and finally has its `presence` column
  moved to the end.

  A table is a list of column names and a list of rows, each row holding one
  value per column. A missing value (NaN, NaT) is `Missing`.
 */
module TrainingFrame {
  import opened Wrappers
  import opened Seqs
  import opened TrainingTable

  datatype Value = Missing | Time(ns: int) | Real(x: real) | Int(n: int)

  datatype Table = Table(columns: seq<string>, rows: seq<seq<Value>>)

  /** Every row has one value per column. */
  predicate Shaped(t: Table) {
    forall r :: 0 <= r < |t.rows| ==> |t.rows[r]| == |t.columns|
  }

  predicate Distinct(s: seq<string>) {
    forall i, j :: 0 <= i < j < |s| ==> s[i] != s[j]
  }

  /** `list.index`: the first position of x. */
  function IndexOf(s: seq<string>, x: string): (k: nat)
    requires x in s
    ensures k < |s| && s[k] == x && forall i :: 0 <= i < k ==> s[i] != x
  {
    if s[0] == x then 0 else 1 + IndexOf(s[1..], x)
  }

  /** In a list without repeats, the position of a name is the one place it occurs. */
  lemma IndexOfDistinct(s: seq<string>, i: nat)
    requires Distinct(s) && i < |s|
    ensures IndexOf(s, s[i]) == i
  {
  }

  /** `df[name]`: the values of one column, top to bottom. */
  function Column(t: Table, name: string): (c: seq<Value>)
    requires Shaped(t) && name in t.columns
    ensures |c| == |t.rows|
  {
    var k := IndexOf(t.columns, name);
    seq(|t.rows|, r requires 0 <= r < |t.rows| && Shaped(t) => t.rows[r][k])
  }

  // ---------------------------------------------------------------------------
  // The starting table and column assignment
  // ---------------------------------------------------------------------------

  const BaseColumns: seq<string> := ["time", "lat", "lon", "presence"]

  function Row(l: Labelled): seq<Value> {
    [Time(l.point.time), Real(l.point.lat), Real(l.point.lon), Int(l.presence)]
  }

  /** `combined_points.copy()`: one row per labelled point. */
  function Initial(points: seq<Labelled>): (t: Table)
    ensures Shaped(t) && Distinct(t.columns) && |t.rows| == |points|
  {
    Table(BaseColumns, seq(|points|, i requires 0 <= i < |points| => Row(points[i])))
  }

  /** `df[name] = values`: overwrite the column called name, or add it at the end when there is none. */
  function WithColumn(t: Table, name: string, values: seq<Value>): (w: Table)
    requires Shaped(t) && |values| == |t.rows|
    ensures Shaped(w) && |w.rows| == |t.rows|
    ensures w.columns == if name in t.columns then t.columns else t.columns + [name]
  {
    if name in t.columns then
      var k := IndexOf(t.columns, name);
      Table(t.columns, seq(|t.rows|, r requires 0 <= r < |t.rows| => t.rows[r][k := values[r]]))
    else
      Table(t.columns + [name], seq(|t.rows|, r requires 0 <= r < |t.rows| => t.rows[r] + [values[r]]))
  }

  /** Appending a name the list lacks keeps every earlier name where it was. */
  lemma IndexOfAppend(s: seq<string>, x: string, c: string)
    requires c in s
    ensures IndexOf(s + [x], c) == IndexOf(s, c)
  {
    var k := IndexOf(s, c);
    var k' := IndexOf(s + [x], c);
    assert (s + [x])[k] == c;
  }

  /** After the assignment the name is present once and no name occurs twice. */
  lemma WithColumnDistinct(t: Table, name: string, values: seq<Value>)
    requires Shaped(t) && Distinct(t.columns) && |values| == |t.rows|
    ensures var w := WithColumn(t, name, values);
      Distinct(w.columns) && name in w.columns && forall c :: c in t.columns ==> c in w.columns
  {
    if name !in t.columns {
      assert WithColumn(t, name, values).columns[|t.columns|] == name;
    }
  }

  lemma WithColumnReplaces(t: Table, name: string, values: seq<Value>)
    requires Shaped(t) && Distinct(t.columns) && |values| == |t.rows| && name in t.columns
    ensures var w := WithColumn(t, name, values);
      && Column(w, name) == values
      && forall c :: c in t.columns && c != name ==> Column(w, c) == Column(t, c)
  {
  }

  lemma WithColumnAppends(t: Table, name: string, values: seq<Value>)
    requires Shaped(t) && Distinct(t.columns) && |values| == |t.rows| && name !in t.columns
    ensures var w := WithColumn(t, name, values);
      && name in w.columns && Column(w, name) == values
      && forall c :: c in t.columns ==> c in w.columns && Column(w, c) == Column(t, c)
  {
    var w := WithColumn(t, name, values);
    assert w.columns[|t.columns|] == name;
    assert IndexOf(w.columns, name) == |t.columns|;
    forall c | c in t.columns ensures Column(w, c) == Column(t, c) {
      IndexOfAppend(t.columns, name, c);
    }
  }

  /** After the assignment the column holds exactly the assigned values, every other column is
      untouched and no name occurs twice. */
  lemma WithColumnMeans(t: Table, name: string, values: seq<Value>)
    requires Shaped(t) && Distinct(t.columns) && |values| == |t.rows|
    ensures var w := WithColumn(t, name, values);
      && Distinct(w.columns) && name in w.columns && Column(w, name) == values
      && forall c :: c in t.columns ==> c in w.columns && (c != name ==> Column(w, c) == Column(t, c))
  {
    WithColumnDistinct(t, name, values);
    if name in t.columns {
      WithColumnReplaces(t, name, values);
    } else {
      WithColumnAppends(t, name, values);
    }
  }

  // ---------------------------------------------------------------------------
  // Attaching the environmental sources (lines 176-200)
  // ---------------------------------------------------------------------------

  /** One entry of `data_sources` and what its loading and extraction gave: None when
      `open_multifile_dataset` returned None or anything in the `try` raised, else one
      extracted value per row of the table. */
  datatype Source = Source(name: string, extracted: Option<seq<Value>>)

  /** The source's column gets assigned; a value list of the wrong length makes pandas raise,
      which the `except` swallows like any other failure. */
  function Loads(height: nat): Source -> bool {
    (s: Source) => s.extracted.Some? && |s.extracted.value| == height
  }

  function Attach(t: Table, s: Source): (r: Table)
    requires Shaped(t)
    ensures Shaped(r) && |r.rows| == |t.rows|
  {
    if Loads(|t.rows|)(s) then WithColumn(t, s.name, s.extracted.value) else t
  }

  /** The loop of lines 176-200 over the sources in order: each one that loads adds its column,
      each one that fails is skipped and the loop goes on. */
  function AttachAll(t: Table, sources: seq<Source>): (r: Table)
    requires Shaped(t)
    ensures Shaped(r) && |r.rows| == |t.rows|
    decreases |sources|
  {
    if sources == [] then t
    else
      var n := |sources| - 1;
      Attach(AttachAll(t, sources[..n]), sources[n])
  }

  function Names(sources: seq<Source>): (r: seq<string>)
    ensures |r| == |sources| && forall i :: 0 <= i < |sources| ==> r[i] == sources[i].name
  {
    seq(|sources|, i requires 0 <= i < |sources| => sources[i].name)
  }

  lemma NamesAppend(a: seq<Source>, b: seq<Source>)
    ensures Names(a + b) == Names(a) + Names(b)
  {
  }

  /** A name of the first n sources is not the name of source n. */
  lemma DistinctNamesBefore(cols: seq<string>, sources: seq<Source>, n: nat, x: string)
    requires Distinct(cols + Names(sources)) && n < |sources|
    requires x in cols || x in Names(sources[..n])
    ensures x != sources[n].name
  {
    var all := cols + Names(sources);
    assert all[|cols| + n] == sources[n].name;
    if x in cols {
      var i :| 0 <= i < |cols| && cols[i] == x;
      assert all[i] == x;
    } else {
      var i :| 0 <= i < n && Names(sources[..n])[i] == x;
      assert all[|cols| + i] == x;
    }
  }

  lemma DistinctPrefixNames(cols: seq<string>, sources: seq<Source>, n: nat)
    requires Distinct(cols + Names(sources)) && n <= |sources|
    ensures Distinct(cols + Names(sources[..n]))
  {
    var all, pre := cols + Names(sources), cols + Names(sources[..n]);
    forall i, j | 0 <= i < j < |pre| ensures pre[i] != pre[j] {
      assert pre[i] == all[i] && pre[j] == all[j];
    }
  }

  /** The names of the loading sources among the first n are among the first n names. */
  lemma LoadedNamesEarlier(sources: seq<Source>, keep: Source -> bool, x: string)
    requires x in Names(Filter(sources, keep))
    ensures x in Names(sources)
  {
    var f := Filter(sources, keep);
    var i :| 0 <= i < |Names(f)| && Names(f)[i] == x;
    assert f[i] in sources;
    var j :| 0 <= j < |sources| && sources[j] == f[i];
    assert Names(sources)[j] == x;
  }

  /** The last source's name is not among the columns attached before it. */
  lemma LastNameIsNew(t: Table, sources: seq<Source>, cols: seq<string>, keep: Source -> bool)
    requires sources != [] && Distinct(t.columns + Names(sources))
    requires cols == t.columns + Names(Filter(sources[..|sources| - 1], keep))
    ensures sources[|sources| - 1].name !in cols
  {
    var n := |sources| - 1;
    var x := sources[n].name;
    if x in cols {
      if x !in t.columns {
        LoadedNamesEarlier(sources[..n], keep, x);
      }
      DistinctNamesBefore(t.columns, sources, n, x);
    }
  }

  /** Selecting from a sequence with one more element at the end. */
  lemma FilterSnoc<T>(p: seq<T>, x: T, keep: T -> bool)
    ensures Filter(p + [x], keep) == if keep(x) then Filter(p, keep) + [x] else Filter(p, keep)
  {
    FilterAppend(p, [x], keep);
    assert [x][1..] == [];
    if !keep(x) {
      assert Filter(p, keep) + [] == Filter(p, keep);
    }
  }

  /** Attaching the last source appends its name exactly when it loads. */
  lemma AttachLastColumns(t: Table, sources: seq<Source>, rp: Table)
    requires Shaped(t) && Shaped(rp) && |rp.rows| == |t.rows| && sources != []
    requires Distinct(t.columns + Names(sources))
    requires rp.columns == t.columns + Names(Filter(sources[..|sources| - 1], Loads(|t.rows|)))
    ensures Attach(rp, sources[|sources| - 1]).columns == t.columns + Names(Filter(sources, Loads(|t.rows|)))
  {
    var keep := Loads(|t.rows|);
    var n := |sources| - 1;
    var p, s := sources[..n], sources[n];
    assert p + [s] == sources;
    FilterSnoc(p, s, keep);
    if keep(s) {
      assert Filter(sources, keep) == Filter(p, keep) + [s];
      NamesAppend(Filter(p, keep), [s]);
      assert Names([s]) == [s.name];
      LastNameIsNew(t, sources, rp.columns, keep);
      assert Attach(rp, s).columns == rp.columns + [s.name];
    } else {
      assert Filter(sources, keep) == Filter(p, keep);
      assert Attach(rp, s) == rp;
    }
  }

  /** The table gains, in order, exactly the columns of the sources that load. */
  lemma {:induction false} AttachAllColumns(t: Table, sources: seq<Source>)
    requires Shaped(t) && Distinct(t.columns + Names(sources))
    ensures AttachAll(t, sources).columns == t.columns + Names(Filter(sources, Loads(|t.rows|)))
    decreases |sources|
  {
    if sources == [] {
      assert t.columns + [] == t.columns;
    } else {
      var n := |sources| - 1;
      DistinctPrefixNames(t.columns, sources, n);
      AttachAllColumns(t, sources[..n]);
      AttachLastColumns(t, sources, AttachAll(t, sources[..n]));
    }
  }

  /** What attaching `sources` to t promises of the result r: no name twice, the columns t started
      with keep their contents, and every source that loads has its column with its values. */
  predicate AttachedAsPromised(t: Table, sources: seq<Source>, r: Table)
    requires Shaped(t) && Shaped(r)
  {
    && Distinct(r.columns)
    && (forall c :: c in t.columns ==> c in r.columns && Column(r, c) == Column(t, c))
    && forall i :: 0 <= i < |sources| && Loads(|t.rows|)(sources[i]) ==>
         sources[i].name in r.columns && Column(r, sources[i].name) == sources[i].extracted.value
  }

  lemma DistinctLeft(a: seq<string>, b: seq<string>)
    requires Distinct(a + b)
    ensures Distinct(a)
  {
    forall i, j | 0 <= i < j < |a| ensures a[i] != a[j] {
      assert (a + b)[i] == a[i] && (a + b)[j] == a[j];
    }
  }

  /** Attaching the last source keeps the promise made for the ones before it. */
  lemma AttachLast(t: Table, sources: seq<Source>, rp: Table)
    requires Shaped(t) && Shaped(rp) && |rp.rows| == |t.rows| && sources != []
    requires Distinct(t.columns + Names(sources))
    requires AttachedAsPromised(t, sources[..|sources| - 1], rp)
    ensures AttachedAsPromised(t, sources, Attach(rp, sources[|sources| - 1]))
  {
    var n := |sources| - 1;
    var p, s := sources[..n], sources[n];
    if Loads(|t.rows|)(s) {
      WithColumnMeans(rp, s.name, s.extracted.value);
      forall c | c in t.columns ensures c != s.name {
        DistinctNamesBefore(t.columns, sources, n, c);
      }
      forall i | 0 <= i < n && Loads(|t.rows|)(sources[i]) ensures sources[i].name != s.name {
        assert Names(p)[i] == sources[i].name;
        DistinctNamesBefore(t.columns, sources, n, sources[i].name);
      }
    }
  }

  /** Once attached, a loaded source's column holds exactly its extracted values, and the columns
      the table started with keep their contents. */
  lemma {:induction false} AttachAllValues(t: Table, sources: seq<Source>)
    requires Shaped(t) && Distinct(t.columns + Names(sources))
    ensures var r := AttachAll(t, sources);
      && Distinct(r.columns)
      && (forall c :: c in t.columns ==> c in r.columns && Column(r, c) == Column(t, c))
      && forall i :: 0 <= i < |sources| && Loads(|t.rows|)(sources[i]) ==>
           sources[i].name in r.columns && Column(r, sources[i].name) == sources[i].extracted.value
    decreases |sources|
  {
    DistinctLeft(t.columns, Names(sources));
    if sources != [] {
      var n := |sources| - 1;
      DistinctPrefixNames(t.columns, sources, n);
      AttachAllValues(t, sources[..n]);
      AttachLast(t, sources, AttachAll(t, sources[..n]));
    }
  }

  // ---------------------------------------------------------------------------
  // dropna and the column reorder (lines 212, 219-222)
  // ---------------------------------------------------------------------------

  predicate NoMissing(row: seq<Value>) {
    forall j :: 0 <= j < |row| ==> row[j] != Missing
  }

  /** `dropna()`: the rows without a missing value, in their original order. */
  function DropIncomplete(t: Table): (r: Table)
    ensures r.columns == t.columns && |r.rows| <= |t.rows|
    ensures Shaped(t) ==> Shaped(r)
  {
    Table(t.columns, Filter(t.rows, NoMissing))
  }

  /** A row survives exactly when it has no missing value; the survivors keep their order. */
  lemma DropIncompleteRows(t: Table, row: seq<Value>)
    ensures row in DropIncomplete(t).rows <==> row in t.rows && NoMissing(row)
    ensures SubsequenceOf(DropIncomplete(t).rows, t.rows)
  {
    FilterMembers(t.rows, NoMissing, row);
    FilterIsSubsequence(t.rows, NoMissing);
  }

  /** `cols.insert(len(cols), cols.pop(k))`. */
  function MoveToEnd<T>(s: seq<T>, k: nat): (r: seq<T>)
    requires k < |s|
    ensures |r| == |s|
  {
    s[..k] + s[k + 1..] + [s[k]]
  }

  lemma MoveToEndAt<T>(s: seq<T>, k: nat, j: nat)
    requires k < |s| && j < |s|
    ensures MoveToEnd(s, k)[j] == if j < k then s[j] else if j < |s| - 1 then s[j + 1] else s[k]
  {
  }

  /** Where an element ends up after the move. */
  function MovedIndex(n: nat, k: nat, j: nat): nat
    requires k < n
  {
    if j < k then j else if j == k then n - 1 else j - 1
  }

  lemma MoveToEndFrom<T>(s: seq<T>, k: nat, j: nat)
    requires k < |s| && j < |s|
    ensures MovedIndex(|s|, k, j) < |s| && MoveToEnd(s, k)[MovedIndex(|s|, k, j)] == s[j]
  {
    MoveToEndAt(s, k, MovedIndex(|s|, k, j));
  }

  /** `final_dataset[cols]` with `presence` moved last in `cols`. */
  function PresenceLast(t: Table): (r: Table)
    requires Shaped(t) && "presence" in t.columns
    ensures Shaped(r) && |r.rows| == |t.rows|
  {
    var k := IndexOf(t.columns, "presence");
    Table(MoveToEnd(t.columns, k), seq(|t.rows|, r requires 0 <= r < |t.rows| => MoveToEnd(t.rows[r], k)))
  }

  predicate NotPresence(c: string) {
    c != "presence"
  }

  /** Moving one element to the end is a permutation. */
  lemma MoveToEndMultiset<T>(s: seq<T>, k: nat)
    requires k < |s|
    ensures multiset(MoveToEnd(s, k)) == multiset(s)
  {
    assert s == s[..k] + [s[k]] + s[k + 1..];
  }

  /** Moving one element to the end keeps a list free of repeats. */
  lemma MoveToEndDistinct(s: seq<string>, k: nat)
    requires k < |s| && Distinct(s)
    ensures Distinct(MoveToEnd(s, k))
  {
    var m := MoveToEnd(s, k);
    forall i, j | 0 <= i < j < |m| ensures m[i] != m[j] {
      MoveToEndAt(s, k, i);
      MoveToEndAt(s, k, j);
    }
  }

  lemma FilterSkipLast<T>(a: seq<T>, x: T, keep: T -> bool)
    requires forall i :: 0 <= i < |a| ==> keep(a[i])
    requires !keep(x)
    ensures Filter(a + [x], keep) == a
  {
    FilterAppend(a, [x], keep);
    FilterAll(a, keep);
    FilterNone([x], keep);
    assert a + [] == a;
  }

  /** Dropping the one element that fails a test is selecting by the test. */
  lemma FilterAllBut<T>(a: seq<T>, x: T, b: seq<T>, keep: T -> bool)
    requires forall i :: 0 <= i < |a| ==> keep(a[i])
    requires !keep(x)
    requires forall i :: 0 <= i < |b| ==> keep(b[i])
    ensures Filter(a + [x] + b, keep) == a + b
  {
    FilterSkipLast(a, x, keep);
    FilterAll(b, keep);
    FilterAppend(a + [x], b, keep);
  }

  /** The reorder only permutes the names, puts `presence` last and keeps names unique. */
  lemma PresenceLastColumns(t: Table)
    requires Shaped(t) && Distinct(t.columns) && "presence" in t.columns
    ensures var cols := PresenceLast(t).columns;
      && multiset(cols) == multiset(t.columns)
      && cols[|cols| - 1] == "presence"
      && Distinct(cols)
  {
    var s, k := t.columns, IndexOf(t.columns, "presence");
    MoveToEndMultiset(s, k);
    MoveToEndDistinct(s, k);
  }

  /** Apart from `presence`, the names keep their relative order. */
  lemma PresenceLastOrder(t: Table)
    requires Shaped(t) && Distinct(t.columns) && "presence" in t.columns
    ensures var cols := PresenceLast(t).columns;
      cols[..|cols| - 1] == Filter(t.columns, NotPresence)
  {
    var s, k := t.columns, IndexOf(t.columns, "presence");
    var before, after := s[..k], s[k + 1..];
    forall i | 0 <= i < |after| ensures NotPresence(after[i]) {
      assert after[i] == s[k + 1 + i];
    }
    FilterAllBut(before, s[k], after, NotPresence);
    assert s == before + [s[k]] + after;
    assert MoveToEnd(s, k)[..|s| - 1] == before + after;
  }

  /** The reorder does not change what any column holds. */
  lemma PresenceLastValues(t: Table)
    requires Shaped(t) && Distinct(t.columns) && "presence" in t.columns
    ensures forall c :: c in t.columns ==> c in PresenceLast(t).columns && Column(PresenceLast(t), c) == Column(t, c)
  {
    var m := PresenceLast(t);
    var k := IndexOf(t.columns, "presence");
    PresenceLastColumns(t);
    forall c | c in t.columns ensures c in m.columns && Column(m, c) == Column(t, c) {
      var j := IndexOf(t.columns, c);
      var j' := MovedIndex(|t.columns|, k, j);
      MoveToEndFrom(t.columns, k, j);
      IndexOfDistinct(m.columns, j');
      forall r | 0 <= r < |t.rows| ensures m.rows[r][j'] == t.rows[r][j] {
        MoveToEndFrom(t.rows[r], k, j);
      }
    }
  }

  // ---------------------------------------------------------------------------
  // The whole of steps 6 to 8
  // ---------------------------------------------------------------------------

  /** Lines 205-222 after the sources: the seasonal columns (their values are inputs; `day_of_year`
      is added and dropped again and leaves no trace), `dropna`, and the reorder when rows remain. */
  function Finished(t: Table, daySin: seq<Value>, dayCos: seq<Value>): (r: Table)
    requires Shaped(t) && Distinct(t.columns) && "presence" in t.columns
    requires |daySin| == |dayCos| == |t.rows|
    ensures Shaped(r)
  {
    WithColumnDistinct(t, "day_sin", daySin);
    var t1 := WithColumn(t, "day_sin", daySin);
    var t2 := WithColumn(t1, "day_cos", dayCos);
    var t3 := DropIncomplete(t2);
    if |t3.rows| > 0 then PresenceLast(t3) else t3
  }

  /** The table final_dataset.py builds for non-empty labelled points; it is saved only when it
      has rows. */
  function Assemble(points: seq<Labelled>, sources: seq<Source>, daySin: seq<Value>, dayCos: seq<Value>): (r: Table)
    requires |daySin| == |dayCos| == |points|
    requires Distinct(BaseColumns + Names(sources))
    ensures Shaped(r)
  {
    var t := AttachAll(Initial(points), sources);
    AttachAllValues(Initial(points), sources);
    Finished(t, daySin, dayCos)
  }

  /** The columns after the two seasonal assignments and `dropna`. */
  lemma SeasonalColumns(t: Table, daySin: seq<Value>, dayCos: seq<Value>)
    requires Shaped(t) && Distinct(t.columns) && "presence" in t.columns
    requires "day_sin" !in t.columns && "day_cos" !in t.columns
    requires |daySin| == |dayCos| == |t.rows|
    ensures var t2 := WithColumn(WithColumn(t, "day_sin", daySin), "day_cos", dayCos);
      t2.columns == t.columns + ["day_sin", "day_cos"] && Distinct(t2.columns)
  {
    WithColumnDistinct(t, "day_sin", daySin);
    WithColumnDistinct(WithColumn(t, "day_sin", daySin), "day_cos", dayCos);
  }

  /** After the finishing steps no row has a missing value and `presence` is last when rows remain. */
  lemma FinishedComplete(t: Table, daySin: seq<Value>, dayCos: seq<Value>)
    requires Shaped(t) && Distinct(t.columns) && "presence" in t.columns
    requires "day_sin" !in t.columns && "day_cos" !in t.columns
    requires |daySin| == |dayCos| == |t.rows|
    ensures var r := Finished(t, daySin, dayCos);
      && (forall i :: 0 <= i < |r.rows| ==> NoMissing(r.rows[i]))
      && (|r.rows| > 0 ==> r.columns[|r.columns| - 1] == "presence")
  {
    SeasonalColumns(t, daySin, dayCos);
    var t3 := DropIncomplete(WithColumn(WithColumn(t, "day_sin", daySin), "day_cos", dayCos));
    if |t3.rows| > 0 {
      PresenceLastColumns(t3);
      PresenceLastComplete(t3);
    }
  }

  /** After the finishing steps the columns are the earlier ones plus the two seasonal ones, each
      exactly once. */
  lemma FinishedColumns(t: Table, daySin: seq<Value>, dayCos: seq<Value>)
    requires Shaped(t) && Distinct(t.columns) && "presence" in t.columns
    requires "day_sin" !in t.columns && "day_cos" !in t.columns
    requires |daySin| == |dayCos| == |t.rows|
    ensures var r := Finished(t, daySin, dayCos);
      Distinct(r.columns) && multiset(r.columns) == multiset(t.columns + ["day_sin", "day_cos"])
  {
    SeasonalColumns(t, daySin, dayCos);
    var t3 := DropIncomplete(WithColumn(WithColumn(t, "day_sin", daySin), "day_cos", dayCos));
    if |t3.rows| > 0 {
      PresenceLastColumns(t3);
    }
  }

  /** Reordering the columns of complete rows leaves them complete. */
  lemma PresenceLastComplete(t: Table)
    requires Shaped(t) && "presence" in t.columns
    requires forall i :: 0 <= i < |t.rows| ==> NoMissing(t.rows[i])
    ensures forall i :: 0 <= i < |t.rows| ==> NoMissing(PresenceLast(t).rows[i])
  {
    var r := PresenceLast(t);
    var k := IndexOf(t.columns, "presence");
    forall i | 0 <= i < |r.rows| ensures NoMissing(r.rows[i]) {
      forall j | 0 <= j < |r.rows[i]| ensures r.rows[i][j] != Missing {
        MoveToEndAt(t.rows[i], k, j);
      }
    }
  }

  /** No base column and no source is called `day_sin` or `day_cos`, so neither is any attached column. */
  lemma SeasonalNamesNew(points: seq<Labelled>, sources: seq<Source>)
    requires Distinct(BaseColumns + Names(sources) + ["day_sin", "day_cos"])
    ensures Distinct(BaseColumns + Names(sources))
    ensures var cols := AttachAll(Initial(points), sources).columns;
      "day_sin" !in cols && "day_cos" !in cols
      && cols == BaseColumns + Names(Filter(sources, Loads(|points|)))
  {
    var all := BaseColumns + Names(sources) + ["day_sin", "day_cos"];
    var base := BaseColumns + Names(sources);
    assert Distinct(base) by {
      forall i, j | 0 <= i < j < |base| ensures base[i] != base[j] {
        assert all[i] == base[i] && all[j] == base[j];
      }
    }
    AttachAllColumns(Initial(points), sources);
    var cols := AttachAll(Initial(points), sources).columns;
    var f := Filter(sources, Loads(|points|));
    assert all[|base|] == "day_sin" && all[|base| + 1] == "day_cos";
    forall i | 0 <= i < |cols| ensures cols[i] != "day_sin" && cols[i] != "day_cos" {
      if i < |BaseColumns| {
        assert all[i] == cols[i];
      } else {
        assert f[i - |BaseColumns|] in sources;
        var j :| 0 <= j < |sources| && sources[j] == f[i - |BaseColumns|];
        assert all[|BaseColumns| + j] == cols[i];
      }
    }
  }

  /** The keys of `data_sources`, in order. */
  const SourceNames: seq<string> := ["chlor_a", "sst", "ssha", "sss"]

  /** The configured sources clash neither with the point columns nor with the seasonal ones, so
      AssembleMeans applies to them. */
  lemma ConfiguredNamesDistinct(sources: seq<Source>)
    requires Names(sources) == SourceNames
    ensures Distinct(BaseColumns + Names(sources) + ["day_sin", "day_cos"])
  {
    var all := BaseColumns + SourceNames + ["day_sin", "day_cos"];
    assert all == ["time", "lat", "lon", "presence", "chlor_a", "sst", "ssha", "sss", "day_sin", "day_cos"];
  }

  /** The built table has no missing value anywhere; its columns are the four of the points, the
      sources that loaded and the two seasonal ones, each exactly once; and when it has rows (the
      only case in which it is saved) they come in that order with `presence` moved last. */
  lemma AssembleMeans(points: seq<Labelled>, sources: seq<Source>, daySin: seq<Value>, dayCos: seq<Value>)
    requires |daySin| == |dayCos| == |points|
    requires Distinct(BaseColumns + Names(sources) + ["day_sin", "day_cos"])
    ensures Distinct(BaseColumns + Names(sources))
    ensures var r := Assemble(points, sources, daySin, dayCos);
      && (forall i :: 0 <= i < |r.rows| ==> NoMissing(r.rows[i]))
      && (|r.rows| > 0 ==> r.columns[|r.columns| - 1] == "presence")
      && Distinct(r.columns)
      && multiset(r.columns) ==
         multiset(BaseColumns + Names(Filter(sources, Loads(|points|))) + ["day_sin", "day_cos"])
      && (|r.rows| > 0 ==>
            r.columns == Filter(BaseColumns + Names(Filter(sources, Loads(|points|))) + ["day_sin", "day_cos"],
                                NotPresence) + ["presence"])
  {
    SeasonalNamesNew(points, sources);
    AttachAllValues(Initial(points), sources);
    var t := AttachAll(Initial(points), sources);
    FinishedComplete(t, daySin, dayCos);
    FinishedColumns(t, daySin, dayCos);
    SeasonalColumns(t, daySin, dayCos);
    var t3 := DropIncomplete(WithColumn(WithColumn(t, "day_sin", daySin), "day_cos", dayCos));
    if |t3.rows| > 0 {
      PresenceLastColumns(t3);
      PresenceLastOrder(t3);
      var cols := PresenceLast(t3).columns;
      assert cols == cols[..|cols| - 1] + [cols[|cols| - 1]];
    }
  }

  // ---------------------------------------------------------------------------
  // The DataFrame, updated in place
  // ---------------------------------------------------------------------------

  class Frame {
    var columns: seq<string>
    var rows: seq<seq<Value>>

    function Contents(): Table
      reads this
    {
      Table(columns, rows)
    }

    predicate Valid()
      reads this
    {
      Shaped(Contents()) && Distinct(columns)
    }

    /** `final_dataset = combined_points.copy()` */
    constructor (points: seq<Labelled>)
      ensures Contents() == Initial(points) && Valid()
    {
      columns := BaseColumns;
      rows := seq(|points|, i requires 0 <= i < |points| => Row(points[i]));
    }

    /** `final_dataset[name] = values` */
    method Assign(name: string, values: seq<Value>)
      requires Valid() && |values| == |rows|
      modifies this
      ensures Contents() == WithColumn(old(Contents()), name, values) && Valid()
    {
      WithColumnDistinct(Contents(), name, values);
      var old_rows := rows;
      if name in columns {
        var k := IndexOf(columns, name);
        rows := seq(|old_rows|, r requires 0 <= r < |old_rows| => old_rows[r][k := values[r]]);
      } else {
        rows := seq(|old_rows|, r requires 0 <= r < |old_rows| => old_rows[r] + [values[r]]);
        columns := columns + [name];
      }
    }

    /** Lines 176-200: each source in turn, its column assigned when it loads, skipped when not. */
    method AttachSources(sources: seq<Source>)
      requires Valid()
      modifies this
      ensures Contents() == AttachAll(old(Contents()), sources) && Valid()
    {
      for i := 0 to |sources|
        invariant Valid()
        invariant Contents() == AttachAll(old(Contents()), sources[..i])
      {
        var s := sources[i];
        assert sources[..i + 1][..i] == sources[..i];
        if s.extracted.Some? && |s.extracted.value| == |rows| {
          Assign(s.name, s.extracted.value);
        }
      }
      assert sources[..|sources|] == sources;
    }

    /** `final_dataset.dropna(inplace=True)` */
    method DropNa()
      requires Valid()
      modifies this
      ensures Contents() == DropIncomplete(old(Contents())) && Valid()
    {
      var all := rows;
      var kept: seq<seq<Value>> := [];
      for i := 0 to |all|
        invariant unchanged(this)
        invariant kept == Filter(all[..i], NoMissing)
      {
        FilterAppend(all[..i], [all[i]], NoMissing);
        assert all[..i + 1] == all[..i] + [all[i]];
        assert Filter([all[i]], NoMissing) == if NoMissing(all[i]) then [all[i]] else [] by {
          assert [all[i]][1..] == [];
        }
        if NoMissing(all[i]) {
          kept := kept + [all[i]];
        } else {
          assert kept + [] == kept;
        }
      }
      assert all[..|all|] == all;
      rows := kept;
    }

    /** Lines 219-222: pop `presence` from the column list, append it, and select the columns in
        that order. */
    method MovePresenceLast()
      requires Valid() && "presence" in columns
      modifies this
      ensures Contents() == PresenceLast(old(Contents())) && Valid()
    {
      PresenceLastColumns(Contents());
      var k := IndexOf(columns, "presence");
      var old_rows, n := rows, |columns|;
      rows := seq(|old_rows|, r requires 0 <= r < |old_rows| && |old_rows[r]| == n => MoveToEnd(old_rows[r], k));
      columns := MoveToEnd(columns, k);
    }

    /** Lines 205-222 up to the file write. */
    method Finalize(daySin: seq<Value>, dayCos: seq<Value>)
      requires Valid() && "presence" in columns
      requires |daySin| == |dayCos| == |rows|
      modifies this
      ensures Contents() == Finished(old(Contents()), daySin, dayCos) && Valid()
    {
      WithColumnDistinct(Contents(), "day_sin", daySin);
      Assign("day_sin", daySin);
      WithColumnDistinct(Contents(), "day_cos", dayCos);
      Assign("day_cos", dayCos);
      DropNa();
      if |rows| > 0 {
        MovePresenceLast();
      }
    }
  }

  /** Steps 6 to 8 on the labelled points: nothing when there are no points, else the table that
      gets written out. */
  method BuildTrainingTable(points: seq<Labelled>, sources: seq<Source>, daySin: seq<Value>, dayCos: seq<Value>)
    returns (f: Frame?)
    requires |daySin| == |dayCos| == |points|
    requires Distinct(BaseColumns + Names(sources))
    ensures |points| == 0 ==> f == null
    ensures |points| > 0 ==> f != null && fresh(f) && f.Contents() == Assemble(points, sources, daySin, dayCos)
  {
    if |points| == 0 {
      return null;
    }
    f := new Frame(points);
    AttachAllValues(f.Contents(), sources);
    f.AttachSources(sources);
    f.Finalize(daySin, dayCos);
  }
}
